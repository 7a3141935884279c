/** The reentrant model-turn gate: a channel of capacity one and a depth counter per run subtree
    (internal/desktop/model_gate.go). Any number of participants step concurrently; one step is one
    mutex-protected region or one channel operation. */
module TurnGate {

  /** An acquisition either took the slot itself or found its subtree holding it already. */
  datatype Kind = Top | Nested

  datatype Handle = Handle(id: nat, kind: Kind)

  /** Where a participant is between two regions of acquire or of a release. */
  datatype Pc = Idle | WaitingForSlot | Entering | Returning

  /** One lease with the acquisitions its subtree has not released; `reentrant` is false for an
      acquisition made without a lease. */
  datatype Lease = Lease(reentrant: bool, depth: nat, pc: Pc, held: seq<Handle>)

  datatype State = State(slot: bool, leases: map<nat, Lease>, released: set<nat>, nextId: nat)

  datatype Action =
    | Acquire(p: nat)         // the depth check of acquire
    | TakeSlot(p: nat)        // turns <- struct{}{}
    | GiveUp(p: nat)          // <-ctx.Done()
    | Enter(p: nat)           // depth++ after the slot was taken
    | Close(p: nat, id: nat)  // the release of an acquisition, up to leave
    | ReturnSlot(p: nat)      // <-turns

  predicate Initial(s: State) {
    !s.slot && s.released == {} && s.nextId == 0
    && forall p :: p in s.leases ==> s.leases[p].depth == 0 && s.leases[p].pc == Idle && s.leases[p].held == []
  }

  function Find(held: seq<Handle>, id: nat): (k: nat)
    ensures k <= |held| && (k < |held| ==> held[k].id == id)
    ensures k == |held| ==> forall i :: 0 <= i < |held| ==> held[i].id != id
  {
    if held == [] then 0 else if held[0].id == id then 0 else 1 + Find(held[1..], id)
  }

  predicate Enabled(s: State, a: Action) {
    a.p in s.leases && var l := s.leases[a.p];
    match a
    case Acquire(_) => l.pc == Idle && (l.reentrant || l.held == [])
    case TakeSlot(_) => l.pc == WaitingForSlot && !s.slot
    case GiveUp(_) => l.pc == WaitingForSlot
    case Enter(_) => l.pc == Entering
    case Close(_, id) => l.pc == Idle && (Find(l.held, id) < |l.held| || id in s.released)
    case ReturnSlot(_) => l.pc == Returning && s.slot
  }

  function With(s: State, p: nat, l: Lease): State {
    s.(leases := s.leases[p := l])
  }

  function Next(s: State, a: Action): State
    requires Enabled(s, a)
  {
    var l := s.leases[a.p];
    match a
    case Acquire(p) =>
      if l.reentrant && l.depth > 0 then
        With(s, p, l.(depth := l.depth + 1, held := l.held + [Handle(s.nextId, Nested)])).(nextId := s.nextId + 1)
      else With(s, p, l.(pc := WaitingForSlot))
    case TakeSlot(p) => With(s, p, l.(pc := Entering)).(slot := true)
    case GiveUp(p) => With(s, p, l.(pc := Idle))
    case Enter(p) =>
      var depth := if l.reentrant then l.depth + 1 else 0;
      With(s, p, l.(pc := Idle, depth := depth, held := l.held + [Handle(s.nextId, Top)])).(nextId := s.nextId + 1)
    case Close(p, id) =>
      var k := Find(l.held, id);
      if k == |l.held| then s  // the once has fired already
      else
        var depth := if l.reentrant && l.depth > 0 then l.depth - 1 else l.depth;
        var pc := if l.held[k].kind == Top then Returning else Idle;
        With(s, p, l.(depth := depth, pc := pc, held := l.held[..k] + l.held[k + 1..])).(released := s.released + {id})
    case ReturnSlot(p) => With(s, p, l.(pc := Idle)).(slot := false)
  }

  // ----- what holds in every state

  /** The participant whose turn it is: it has open streams, or is on its way in or out. */
  predicate Holds(l: Lease) {
    l.held != [] || l.pc == Entering || l.pc == Returning
  }

  predicate WellFormed(l: Lease) {
    && (l.pc != Idle ==> l.held == [])
    && (l.held != [] ==> l.held[0].kind == Top)
    && (forall k :: 0 < k < |l.held| ==> l.held[k].kind == Nested)
    && (l.reentrant ==> l.depth == |l.held|)
    && (!l.reentrant ==> l.depth == 0 && |l.held| <= 1)
  }

  ghost predicate Good(s: State) {
    && (forall p :: p in s.leases ==> WellFormed(s.leases[p]))
    && (forall p, q :: p in s.leases && q in s.leases && Holds(s.leases[p]) && Holds(s.leases[q]) ==> p == q)
    && (s.slot <==> exists p :: p in s.leases && Holds(s.leases[p]))
  }

  /** Handles are numbered once and for all. */
  ghost predicate Numbered(s: State) {
    && (forall id :: id in s.released ==> id < s.nextId)
    && (forall p, k :: p in s.leases && 0 <= k < |s.leases[p].held| ==>
          s.leases[p].held[k].id < s.nextId && s.leases[p].held[k].id !in s.released)
    && (forall p, q, j, k ::
          (p in s.leases && q in s.leases && 0 <= j < |s.leases[p].held| && 0 <= k < |s.leases[q].held|
              && s.leases[p].held[j].id == s.leases[q].held[k].id)
          ==> p == q && j == k)
  }

  /** The discipline the gate relies on: the acquisition that took the slot is released last. */
  predicate Proper(s: State, a: Action) {
    a.Close? && a.p in s.leases ==>
      var l := s.leases[a.p];
      var k := Find(l.held, a.id);
      k < |l.held| && l.held[k].kind == Top ==> |l.held| == 1
  }

  /** Well-nested use keeps the discipline: releasing the newest open acquisition is always proper. */
  lemma WellNestedIsProper(s: State, a: Action)
    requires Good(s) && Enabled(s, a)
    requires a.Close? ==> Find(s.leases[a.p].held, a.id) >= |s.leases[a.p].held| - 1
    ensures Proper(s, a)
  {
  }

  lemma LeaseStep(s: State, a: Action)
    requires Good(s) && Enabled(s, a) && Proper(s, a)
    ensures WellFormed(Next(s, a).leases[a.p])
  {
  }

  /** A step changes one lease; who holds the gate afterwards follows from that lease and the slot. */
  lemma HolderStep(s: State, a: Action)
    requires Good(s) && Enabled(s, a) && Proper(s, a)
    ensures var t := Next(s, a);
            && (Holds(t.leases[a.p]) ==> Holds(s.leases[a.p]) || (!s.slot && t.slot))
            && (t.slot ==> s.slot || Holds(t.leases[a.p]))
            && (!t.slot ==> !Holds(t.leases[a.p]))
            && (s.slot && !t.slot ==> Holds(s.leases[a.p]))
            && (Holds(s.leases[a.p]) && !Holds(t.leases[a.p]) ==> !t.slot)
  {
  }

  /** From a good state, a step leads to a good state exactly when it keeps the discipline. */
  lemma StepKeepsGoodIffProper(s: State, a: Action)
    requires Good(s) && Enabled(s, a)
    ensures Good(Next(s, a)) <==> Proper(s, a)
  {
    var t := Next(s, a);
    if Proper(s, a) {
      hide Next, Proper, Enabled, WellFormed, Holds;
      LeaseStep(s, a);
      HolderStep(s, a);
      OnlyOneLeaseChanges(s, a);
      if t.slot {
        if !Holds(t.leases[a.p]) {
          var p :| p in s.leases && Holds(s.leases[p]);
          assert p != a.p;
          assert p in t.leases && Holds(t.leases[p]);
        }
      }
    } else {
      var l := s.leases[a.p];
      var k := Find(l.held, a.id);
      assert k == 0 && t.leases[a.p].held == l.held[1..];
      assert t.leases[a.p].pc == Returning && t.leases[a.p].held != [];
    }
  }

  lemma OnlyOneLeaseChanges(s: State, a: Action)
    requires Enabled(s, a)
    ensures Next(s, a).leases.Keys == s.leases.Keys
    ensures forall q :: q in s.leases && q != a.p ==> Next(s, a).leases[q] == s.leases[q]
  {
  }

  // ----- what a good state promises

  /** At most one lease subtree has open streams, and the slot is taken exactly while some participant
      is inside, from taking the slot to giving it back. */
  lemma OneSubtreeAtATime(s: State, p: nat, q: nat)
    requires Good(s) && p in s.leases && q in s.leases
    requires s.leases[p].held != [] && s.leases[q].held != []
    ensures p == q && s.slot && s.leases[p].held[0].kind == Top
  {
    assert Holds(s.leases[p]);
  }

  /** Nobody who is inside ever queues for the slot, and giving the slot back never blocks. */
  lemma NeverWaitsForItself(s: State, p: nat)
    requires Good(s) && p in s.leases
    ensures s.leases[p].pc == WaitingForSlot ==> s.leases[p].depth == 0 && s.leases[p].held == []
    ensures s.leases[p].depth > 0 && s.leases[p].pc == Idle ==> Next(s, Acquire(p)).leases[p].pc == Idle
    ensures s.leases[p].pc == Returning ==> s.slot
  {
    if s.leases[p].pc == Returning {
      assert Holds(s.leases[p]);
    }
  }

  /** How many steps a participant that is inside is from having given the slot back. */
  function Left(l: Lease): nat {
    match l.pc
    case Idle => if l.held == [] then 0 else |l.held| + 1
    case WaitingForSlot => 0
    case Entering => 3
    case Returning => 1
  }

  /** A step of `q` that brings it one nearer to giving the slot back, and is its last exactly when the slot
      is free afterwards. */
  predicate Nearer(s: State, q: nat, a: Action) {
    && q in s.leases && a.p == q && !a.GiveUp? && !a.Acquire? && Enabled(s, a) && Proper(s, a)
    && var t := Next(s, a);
    && t.leases.Keys == s.leases.Keys && Left(t.leases[q]) == Left(s.leases[q]) - 1
    && (t.slot <==> Left(t.leases[q]) > 0)
    && forall p :: p in s.leases && p != q ==> t.leases[p] == s.leases[p]
  }

  /** When the slot is taken, the participant inside can take such a step. */
  lemma NearerToFree(s: State) returns (q: nat, a: Action)
    requires Good(s) && Numbered(s) && s.slot
    ensures Nearer(s, q, a) && Left(s.leases[q]) > 0
  {
    q := SomeoneInside(s);
    var l := s.leases[q];
    hide Nearer, Good, Numbered, Next, Enabled, Proper;
    if l.pc == Idle {
      a := Close(q, l.held[|l.held| - 1].id);
      CloseNewest(s, q);
    } else {
      a := if l.pc == Entering then Enter(q) else ReturnSlot(q);
      EntersOrReturns(s, q);
    }
  }

  lemma SomeoneInside(s: State) returns (q: nat)
    requires Good(s) && s.slot
    ensures q in s.leases && Left(s.leases[q]) > 0 && s.leases[q].pc != WaitingForSlot
    ensures s.leases[q].pc == Idle ==> s.leases[q].held != []
    ensures s.leases[q].pc != Idle ==> s.leases[q].held == []
  {
    q :| q in s.leases && Holds(s.leases[q]);
    assert WellFormed(s.leases[q]);
  }

  lemma EntersOrReturns(s: State, q: nat)
    requires s.slot && q in s.leases && s.leases[q].held == []
    ensures s.leases[q].pc == Entering ==> Nearer(s, q, Enter(q))
    ensures s.leases[q].pc == Returning ==> Nearer(s, q, ReturnSlot(q))
  {
  }

  /** Whoever waits gets its turn: the participant inside can, in as many steps as it is from the end, give
      the slot back, and then the waiting one can take it. */
  lemma {:induction false} NoDeadlock(s: State, p: nat) returns (run: seq<Action>)
    requires Good(s) && Numbered(s) && p in s.leases && s.leases[p].pc == WaitingForSlot
    ensures Legal(s, run) && Enabled(After(s, run), TakeSlot(p))
    ensures s.slot ==> exists q :: q in s.leases && q != p && |run| == Left(s.leases[q]) && StepsOf(run, q)
    ensures !s.slot ==> run == []
  {
    if !s.slot {
      return [];
    }
    var q, a := NearerToFree(s);
    run := Leaves(s, p, q);
  }

  predicate StepsOf(run: seq<Action>, q: nat) {
    forall i :: 0 <= i < |run| ==> run[i].p == q && !run[i].GiveUp? && !run[i].Acquire?
  }

  /** Participant `p` waits while `q` is inside. */
  ghost predicate WaitsFor(s: State, p: nat, q: nat) {
    && Good(s) && Numbered(s) && s.slot
    && p in s.leases && s.leases[p].pc == WaitingForSlot
    && q in s.leases && Left(s.leases[q]) > 0
  }

  lemma LeavesOneStep(s: State, p: nat, q: nat) returns (a: Action)
    requires WaitsFor(s, p, q)
    ensures q != p && q in s.leases && a.p == q && !a.GiveUp? && !a.Acquire? && Enabled(s, a) && Proper(s, a)
    ensures var t := Next(s, a);
            && q in t.leases && Left(t.leases[q]) == Left(s.leases[q]) - 1
            && if Left(t.leases[q]) > 0 then WaitsFor(t, p, q) else Enabled(t, TakeSlot(p))
  {
    var inside;
    inside, a := NearerToFree(s);
    assert Nearer(s, inside, a);
    OneInside(s, q, inside);
    StepKeepsGoodIffProper(s, a);
    StepStaysNumbered(s, a);
    hide Good, Numbered, Next, Proper, Left;
  }

  lemma {:induction false} Leaves(s: State, p: nat, q: nat) returns (run: seq<Action>)
    requires WaitsFor(s, p, q)
    ensures Legal(s, run) && Enabled(After(s, run), TakeSlot(p))
    ensures q != p && q in s.leases && |run| == Left(s.leases[q]) && StepsOf(run, q)
    decreases if q in s.leases then Left(s.leases[q]) else 0
  {
    hide WaitsFor, Next, Proper, Enabled, Left, Legal, After;
    var a := LeavesOneStep(s, p, q);
    var t := Next(s, a);
    var rest: seq<Action> := [];
    if Left(t.leases[q]) > 0 {
      rest := Leaves(t, p, q);
    } else {
      NoSteps(t);
    }
    run := [a] + rest;
    StepThenRun(s, a, rest);
  }

  lemma NoSteps(s: State)
    ensures Legal(s, []) && After(s, []) == s
  {
  }

  lemma StepThenRun(s: State, a: Action, rest: seq<Action>)
    requires Enabled(s, a) && Proper(s, a) && Legal(Next(s, a), rest)
    ensures Legal(s, [a] + rest) && After(s, [a] + rest) == After(Next(s, a), rest)
  {
    assert ([a] + rest)[1..] == rest;
  }

  lemma OneInside(s: State, p: nat, q: nat)
    requires Good(s) && p in s.leases && q in s.leases && Left(s.leases[p]) > 0 && Left(s.leases[q]) > 0
    ensures p == q
  {
    assert Holds(s.leases[p]) && Holds(s.leases[q]);
  }

  lemma CloseNewest(s: State, q: nat)
    requires Good(s) && Numbered(s) && q in s.leases && s.leases[q].pc == Idle && s.leases[q].held != []
    ensures var a := Close(q, s.leases[q].held[|s.leases[q].held| - 1].id);
            s.slot ==> Nearer(s, q, a)
  {
    var l := s.leases[q];
    var n := |l.held| - 1;
    assert WellFormed(l);
    assert Find(l.held, l.held[n].id) == n;
    hide Good, Numbered, Find;
    assert |Next(s, Close(q, l.held[n].id)).leases[q].held| == n;
  }

  /** With everything closed, every depth is zero and the slot is free. */
  lemma QuietGateIsFree(s: State)
    requires Good(s)
    requires forall p :: p in s.leases ==> s.leases[p].held == [] && s.leases[p].pc in {Idle, WaitingForSlot}
    ensures !s.slot && forall p :: p in s.leases ==> s.leases[p].depth == 0
  {
  }

  // ----- runs

  predicate Legal(s: State, run: seq<Action>)
    decreases |run|
  {
    run == [] || (Enabled(s, run[0]) && Proper(s, run[0]) && Legal(Next(s, run[0]), run[1..]))
  }

  function After(s: State, run: seq<Action>): State
    requires Legal(s, run)
    decreases |run|
  {
    if run == [] then s else After(Next(s, run[0]), run[1..])
  }

  /** Every state of every disciplined run is good. */
  lemma {:induction false} RunsStayGood(s: State, run: seq<Action>)
    requires Good(s) && Legal(s, run)
    ensures Good(After(s, run))
    decreases |run|
  {
    if run != [] {
      StepKeepsGoodIffProper(s, run[0]);
      RunsStayGood(Next(s, run[0]), run[1..]);
    }
  }

  lemma InitialIsGood(s: State)
    requires Initial(s)
    ensures Good(s) && Numbered(s)
  {
  }

  /** From the start on, at most one lease has open streams at any moment. */
  lemma OneAtATimeInEveryRun(s: State, run: seq<Action>, p: nat, q: nat)
    requires Initial(s) && Legal(s, run)
    requires var t := After(s, run); p in t.leases && q in t.leases && t.leases[p].held != [] && t.leases[q].held != []
    ensures p == q
  {
    InitialIsGood(s);
    RunsStayGood(s, run);
    OneSubtreeAtATime(After(s, run), p, q);
  }

  // ----- closing twice

  /** Every handle of a lease after a step was there before, or is the newly numbered one. */
  lemma HandleComesFrom(s: State, a: Action, k: nat) returns (j: nat)
    requires Enabled(s, a) && k < |Next(s, a).leases[a.p].held|
    ensures var l, m := s.leases[a.p].held, Next(s, a).leases[a.p].held;
            if j < |l| then m[k] == l[j] && (a.Close? && Next(s, a) != s ==> j != Find(l, a.id))
                else m[k].id == s.nextId < Next(s, a).nextId && k == j == |l|
    ensures var l := s.leases[a.p].held;
            j == if a.Close? && Find(l, a.id) <= k && Find(l, a.id) < |l| then k + 1 else k
  {
    var l := s.leases[a.p].held;
    j := if a.Close? && Find(l, a.id) <= k && Find(l, a.id) < |l| then k + 1 else k;
  }

  lemma StepStaysNumbered(s: State, a: Action)
    requires Numbered(s) && Enabled(s, a)
    ensures Numbered(Next(s, a)) && s.released <= Next(s, a).released
  {
    var t := Next(s, a);
    OnlyOneLeaseChanges(s, a);
    ReleasedStep(s, a);
    forall p, q, j, k | p in t.leases && q in t.leases && 0 <= j < |t.leases[p].held| && 0 <= k < |t.leases[q].held|
      ensures t.leases[p].held[j].id < t.nextId && t.leases[p].held[j].id !in t.released
      ensures t.leases[p].held[j].id == t.leases[q].held[k].id ==> p == q && j == k
    {
      hide Next, Find, Enabled;
      var j' := j;
      if p == a.p { j' := HandleComesFrom(s, a, j); }
      var k' := k;
      if q == a.p { k' := HandleComesFrom(s, a, k); }
    }
  }

  lemma ReleasedStep(s: State, a: Action)
    requires Enabled(s, a)
    ensures Next(s, a).released ==
              if a.Close? && Find(s.leases[a.p].held, a.id) < |s.leases[a.p].held| then s.released + {a.id}
              else s.released
    ensures s.nextId <= Next(s, a).nextId
    ensures a.Close? && Find(s.leases[a.p].held, a.id) == |s.leases[a.p].held| ==> Next(s, a) == s
  {
  }

  lemma {:induction false} RunsStayNumbered(s: State, run: seq<Action>)
    requires Numbered(s) && Legal(s, run)
    ensures Numbered(After(s, run)) && s.released <= After(s, run).released
    decreases |run|
  {
    if run != [] {
      StepStaysNumbered(s, run[0]);
      RunsStayNumbered(Next(s, run[0]), run[1..]);
    }
  }

  /** Once a stream was closed, closing it again at any later time changes nothing: the slot comes back
      once. */
  lemma CloseIsIdempotent(s: State, p: nat, id: nat, run: seq<Action>, q: nat)
    requires Numbered(s) && Enabled(s, Close(p, id)) && Legal(Next(s, Close(p, id)), run)
    requires Enabled(After(Next(s, Close(p, id)), run), Close(q, id))
    ensures var t := After(Next(s, Close(p, id)), run); Next(t, Close(q, id)) == t
  {
    var c := Next(s, Close(p, id));
    StepStaysNumbered(s, Close(p, id));
    assert id in c.released;
    RunsStayNumbered(c, run);
  }

  // ----- why the discipline is needed

  predicate Executes(s: State, run: seq<Action>, t: State)
    decreases |run|
  {
    if run == [] then s == t else Enabled(s, run[0]) && Executes(Next(s, run[0]), run[1..], t)
  }

  /** Whenever the acquisition that took the slot is released before a nested one, any other idle lease
      can enter at once: two subtrees then have open streams. */
  lemma EarlyReleaseBreaksTheGate(s: State, p: nat, id: nat, q: nat) returns (run: seq<Action>, t: State)
    requires Good(s) && Enabled(s, Close(p, id)) && !Proper(s, Close(p, id))
    requires q in s.leases && q != p && s.leases[q].pc == Idle
    ensures Executes(s, run, t)
    ensures p in t.leases && q in t.leases && t.leases[p].held != [] && t.leases[q].held != []
  {
    NothingHeldElsewhere(s, p, q);
    var s1 := Next(s, Close(p, id));
    assert s1.leases[p].pc == Returning && s1.leases[p].held == s.leases[p].held[1..] && s1.leases[q] == s.leases[q]
        && s1.slot;
    var s2 := Next(s1, ReturnSlot(p));
    t, run := TakesTheGate(s2, q);
    run := Prepend(s1, ReturnSlot(p), run, t);
    run := Prepend(s, Close(p, id), run, t);
  }

  lemma NothingHeldElsewhere(s: State, p: nat, q: nat)
    requires Good(s) && p in s.leases && q in s.leases && p != q && s.leases[p].held != []
    ensures s.slot && s.leases[q].held == [] && s.leases[q].depth == 0
  {
    assert Holds(s.leases[p]);
  }

  /** An idle lease walks through a free gate. */
  lemma TakesTheGate(s: State, p: nat) returns (t: State, run: seq<Action>)
    requires !s.slot && p in s.leases && s.leases[p].depth == 0 && s.leases[p].pc == Idle && s.leases[p].held == []
    ensures Executes(s, run, t) && p in t.leases && t.leases[p].held != []
    ensures forall q :: q in s.leases && q != p ==> q in t.leases && t.leases[q] == s.leases[q]
  {
    var s1 := Next(s, Acquire(p));
    var s2 := Next(s1, TakeSlot(p));
    t := Next(s2, Enter(p));
    run := Prepend(s2, Enter(p), [], t);
    run := Prepend(s1, TakeSlot(p), run, t);
    run := Prepend(s, Acquire(p), run, t);
  }

  lemma Prepend(s: State, a: Action, rest: seq<Action>, t: State) returns (run: seq<Action>)
    requires Enabled(s, a) && Executes(Next(s, a), rest, t)
    ensures Executes(s, run, t)
  {
    run := [a] + rest;
    assert run[1..] == rest;
  }
}
