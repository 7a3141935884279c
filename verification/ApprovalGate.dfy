/** The one-shot approval gate shared by the owner's clicks, the waiting run, its expiry timer and
    cancellation (internal/desktop/chat_approval.go, chat_run.go). One approval id, any number of
    clicks; one step is one mutex-protected region, channel operation or storage call. */
module ApprovalGate {
  import opened Bytes

  datatype Decision = Approve | AllowOnce | AllowAlways | Deny

  predicate Approving(d: Decision) { d != Deny }

  datatype Status = Pending | Approved | Denied | Expired

  /** The stored approval. It exists before the gate does, and is created once. */
  datatype Record = Record(status: Status, expiresAt: int, decidedAt: int)

  /** A channel with room for one decision. */
  datatype Gate = Gate(hasRoot: bool, buffer: Option<Decision>, closed: bool, resolved: bool)

  /** A click between claiming the gate and closing the channel. */
  datatype Resolver = Resting | Sending(d: Decision) | Closing

  datatype Outcome = Outcome(approved: bool, ok: bool, reason: Reason)
  datatype Reason = NotRegistered | WasClosed | NoPersistentScope | OwnerDecided | TimedOut | Interrupted

  datatype Waiter =
    | Outside
    | Found
    | Waiting(expiry: Option<int>)
    | Got(d: Decision)
    | Decided(approved: bool, record: Record, remember: bool)
    | Leaving(outcome: Outcome)
    | Done(outcome: Outcome)

  /** `ended` says that the run's goroutine has returned, `persisted` that the owner's permission was stored for
      good. `chosen`, `sends` and `received` record what has happened to the one decision. */
  datatype State = State(
    record: Option<Record>, gate: Option<Gate>, registered: bool, resolvers: map<nat, Resolver>, waiter: Waiter,
    ended: bool, persisted: bool, now: int, chosen: Option<Decision>, sends: nat, received: bool)

  datatype Action =
    | CreateRecord(expiresAt: int)
    | Register(hasRoot: bool)
    | Click(r: nat, d: Decision)
    | Send(r: nat)
    | CloseChannel(r: nat)
    | Lookup
    | ReadDeadline(readable: bool)
    | Receive
    | TimeOut(readable: bool, saved: bool, audited: bool)
    | Cancel
    | Decide(readable: bool)
    | Save(saved: bool, audited: bool, remembered: bool)
    | Release
    | EndRun
    | EmitterRelease
    | Tick(elapsed: nat)

  predicate Initial(s: State) {
    && s.record == None && s.gate == None && !s.registered && s.waiter == Outside && !s.ended && !s.persisted
    && s.chosen == None && s.sends == 0 && !s.received
    && forall r :: r in s.resolvers ==> s.resolvers[r] == Resting
  }

  /** The registering and the waiting are the same goroutine, and the emitter releases what is left only
      when that goroutine has returned; sends and receives are listed as enabled
      whenever their goroutine reaches them, so that blocking and panics show up as proof obligations. */
  predicate Enabled(s: State, a: Action) {
    match a
    case CreateRecord(_) => s.record == None && s.waiter == Outside && !s.ended
    case Register(_) => s.record.Some? && s.gate == None && s.waiter == Outside && !s.ended
    case Click(r, _) => r in s.resolvers && s.resolvers[r] == Resting
    case Send(r) => r in s.resolvers && s.resolvers[r].Sending? && s.gate.Some?
    case CloseChannel(r) => r in s.resolvers && s.resolvers[r].Closing? && s.gate.Some?
    case Lookup => s.waiter == Outside && !s.ended
    case ReadDeadline(_) => s.waiter == Found && s.record.Some?
    case Receive => s.waiter.Waiting? && s.gate.Some? && (s.gate.value.buffer.Some? || s.gate.value.closed)
    case TimeOut(_, _, _) =>
      s.waiter.Waiting? && s.waiter.expiry.Some? && s.waiter.expiry.value <= s.now && s.record.Some?
    case Cancel => s.waiter.Waiting?
    case Decide(_) => s.waiter.Got? && s.gate.Some? && s.record.Some?
    case Save(_, _, _) => s.waiter.Decided?
    case Release => s.waiter.Leaving?
    case EndRun => s.waiter == Outside || s.waiter.Done?
    case EmitterRelease => s.ended
    case Tick(_) => true
  }

  /** The domain's rule: only a pending approval can be decided, and once. */
  function DecideRecord(r: Record, status: Status, now: int): Option<Record> {
    if r.status == Pending then Some(Record(status, r.expiresAt, now)) else None
  }

  function Next(s: State, a: Action): State
    requires Enabled(s, a)
  {
    match a
    case CreateRecord(expiresAt) => s.(record := Some(Record(Pending, expiresAt, 0)))
    case Register(hasRoot) => s.(gate := Some(Gate(hasRoot, None, false, false)), registered := true)
    case Click(r, d) =>
      if !s.registered || s.gate.None? then s
      else if d == AllowAlways && !s.gate.value.hasRoot then s
      else if s.gate.value.resolved then s
      else s.(gate := Some(s.gate.value.(resolved := true)), resolvers := s.resolvers[r := Sending(d)],
          chosen := Some(d))
    case Send(r) =>
      s.(gate := Some(s.gate.value.(buffer := Some(s.resolvers[r].d))), resolvers := s.resolvers[r := Closing],
          sends := s.sends + 1)
    case CloseChannel(r) => s.(gate := Some(s.gate.value.(closed := true)), resolvers := s.resolvers[r := Resting])
    case Lookup =>
      s.(waiter := if s.registered && s.gate.Some? then Found else Done(Outcome(false, false, NotRegistered)))
    case ReadDeadline(readable) => s.(waiter := Waiting(if readable then Some(s.record.value.expiresAt) else None))
    case Receive =>
      if s.gate.value.buffer.Some? then
        s.(gate := Some(s.gate.value.(buffer := None)), waiter := Got(s.gate.value.buffer.value), received := true)
      else s.(waiter := Leaving(Outcome(false, false, WasClosed)))
    case TimeOut(readable, saved, audited) =>
      if !readable then s.(waiter := Leaving(Outcome(false, false, TimedOut)))
      else if s.record.value.status != Pending then s.(waiter := Leaving(Outcome(false, true, TimedOut)))
      else s.(record := if saved then DecideRecord(s.record.value, Expired, s.now) else s.record,
              waiter := Leaving(Outcome(false, saved && audited, TimedOut)))
    case Cancel => s.(waiter := Leaving(Outcome(false, false, Interrupted)))
    case Decide(readable) =>
      var d := s.waiter.d;
      var approved := Approving(d);
      var remember := d == AllowAlways;
      if remember && !s.gate.value.hasRoot then s.(waiter := Leaving(Outcome(false, false, NoPersistentScope)))
      else if !readable then s.(waiter := Leaving(Outcome(approved, false, OwnerDecided)))
      else
        var late := approved && s.record.value.expiresAt <= s.now;
        var verdict := if late then Expired else if approved then Approved else Denied;
        match DecideRecord(s.record.value, verdict, s.now) {
          case None => s.(waiter := Leaving(Outcome(approved && !late, false, OwnerDecided)))
          case Some(record) => s.(waiter := Decided(approved && !late, record, remember))
        }
    case Save(saved, audited, remembered) =>
      var w := s.waiter;
      var ok := saved && audited && (w.remember ==> remembered);
      s.(record := if saved then Some(w.record) else s.record,
         persisted := saved && audited && w.remember && remembered,
         waiter := Leaving(Outcome(w.approved, ok, OwnerDecided)))
    case Release => s.(registered := false, waiter := Done(s.waiter.outcome))
    case EndRun => s.(ended := true)
    case EmitterRelease => s.(registered := false)
    case Tick(elapsed) => s.(now := s.now + elapsed)
  }

  // ----- the invariant

  ghost predicate Busy(s: State, r: nat) {
    r in s.resolvers && s.resolvers[r] != Resting
  }

  ghost predicate SomeoneBusy(s: State) {
    exists r :: Busy(s, r)
  }

  /** The life of the one decision: claimed, sent, received, and the channel closed behind it. */
  ghost predicate DecisionInv(s: State) {
    && (s.gate.None? ==> s.chosen == None)
    && (s.gate.Some? ==> s.record.Some? && s.gate.value.resolved == s.chosen.Some?)
    && (s.chosen == None ==> s.sends == 0 && !SomeoneBusy(s))
    && (forall r, q :: Busy(s, r) && Busy(s, q) ==> r == q)
    && (forall r :: Busy(s, r) && s.resolvers[r].Sending? ==> s.sends == 0 && s.chosen == Some(s.resolvers[r].d))
    && (forall r :: Busy(s, r) && s.resolvers[r].Closing? ==> s.sends == 1 && s.gate.Some? && !s.gate.value.closed)
    && (s.chosen.Some? && !SomeoneBusy(s) ==> s.sends == 1)
    && s.sends <= 1
    && (s.sends == 0 ==> !s.received)
    && (s.gate.Some? ==>
          && s.gate.value.buffer == (if s.sends == 1 && !s.received then s.chosen else None)
          && (s.gate.value.closed ==> s.sends == 1))
  }

  ghost predicate ApprovedInTime(r: Option<Record>) {
    r.Some? && r.value.status == Approved && r.value.decidedAt < r.value.expiresAt
  }

  ghost predicate OutcomeInv(s: State, o: Outcome) {
    && o.reason != WasClosed
    && (o.reason == NotRegistered ==> s.gate == None)
    && (o.approved && o.ok ==> ApprovedInTime(s.record) && s.received && s.chosen.Some? && Approving(s.chosen.value))
  }

  ghost predicate WaiterInv(s: State) {
    && (s.ended ==> s.waiter == Outside || s.waiter.Done?)
    && match s.waiter
    case Outside => !s.received && (s.gate.Some? && !s.ended ==> s.registered)
    case Found => !s.received && s.gate.Some?
    case Waiting(expiry) =>
      && !s.received && s.gate.Some?
      && (expiry.Some? ==> s.record.Some? && s.record.value.expiresAt == expiry.value)
    case Got(d) => s.received && s.chosen == Some(d) && s.gate.Some?
    case Decided(approved, record, _) =>
      && s.received && s.chosen.Some?
      && (approved ==> Approving(s.chosen.value) && ApprovedInTime(Some(record)))
    case Leaving(o) => OutcomeInv(s, o)
    case Done(o) => OutcomeInv(s, o)
  }

  ghost predicate Good(s: State) {
    DecisionInv(s) && WaiterInv(s)
  }

  lemma InitialIsGood(s: State)
    requires Initial(s)
    ensures Good(s)
  {
  }

  lemma ClickKeepsDecision(s: State, a: Action)
    requires Good(s) && Enabled(s, a) && (a.Click? || a.Send? || a.CloseChannel?)
    ensures DecisionInv(Next(s, a))
  {
    var t := Next(s, a);
    assert Busy(t, a.r) <==> t.resolvers[a.r] != Resting;
    assert forall q :: q != a.r ==> Busy(t, q) == Busy(s, q);
    if t != s && !a.Click? {
      assert Busy(s, a.r);
    }
  }

  lemma OthersKeepDecision(s: State, a: Action)
    requires Good(s) && Enabled(s, a) && !(a.Click? || a.Send? || a.CloseChannel? || ByTheWaiter(a))
    ensures DecisionInv(Next(s, a))
  {
    hide OutcomeInv;
    var t := Next(s, a);
    assert forall q :: Busy(t, q) == Busy(s, q);
    assert SomeoneBusy(t) == SomeoneBusy(s);
  }

  lemma ReceivingKeepsDecision(s: State, a: Action)
    requires Good(s) && Enabled(s, a) && (a.Receive? || a.Lookup? || a.TimeOut?)
    ensures DecisionInv(Next(s, a))
  {
    hide OutcomeInv;
    var t := Next(s, a);
    assert forall q :: Busy(t, q) == Busy(s, q);
    assert SomeoneBusy(t) == SomeoneBusy(s);
  }

  lemma WaiterKeepsDecision(s: State, a: Action)
    requires Good(s) && Enabled(s, a) && ByTheWaiter(a) && !(a.Receive? || a.Lookup? || a.TimeOut?)
    ensures DecisionInv(Next(s, a))
  {
    hide OutcomeInv;
    var t := Next(s, a);
    assert forall q :: Busy(t, q) == Busy(s, q);
    assert SomeoneBusy(t) == SomeoneBusy(s);
  }

  predicate ByTheWaiter(a: Action) {
    a.Lookup? || a.ReadDeadline? || a.Receive? || a.TimeOut? || a.Cancel? || a.Decide? || a.Save?
  }

  lemma WaiterKeepsWaiter(s: State, a: Action)
    requires Good(s) && Enabled(s, a) && ByTheWaiter(a)
    ensures WaiterInv(Next(s, a))
  {
  }

  lemma OthersKeepWaiter(s: State, a: Action)
    requires Good(s) && Enabled(s, a) && !ByTheWaiter(a)
    ensures WaiterInv(Next(s, a))
  {
    hide DecideRecord, SomeoneBusy;
  }

  lemma StepKeepsWaiter(s: State, a: Action)
    requires Good(s) && Enabled(s, a)
    ensures WaiterInv(Next(s, a))
  {
    hide Next, Enabled, Good, WaiterInv;
    if ByTheWaiter(a) {
      WaiterKeepsWaiter(s, a);
    } else {
      OthersKeepWaiter(s, a);
    }
  }

  lemma StepStaysGood(s: State, a: Action)
    requires Good(s) && Enabled(s, a)
    ensures Good(Next(s, a))
  {
    hide Next, DecisionInv, WaiterInv;
    if a.Click? || a.Send? || a.CloseChannel? {
      ClickKeepsDecision(s, a);
    } else if a.Receive? || a.Lookup? || a.TimeOut? {
      ReceivingKeepsDecision(s, a);
    } else if ByTheWaiter(a) {
      WaiterKeepsDecision(s, a);
    } else {
      OthersKeepDecision(s, a);
    }
    StepKeepsWaiter(s, a);
  }

  // ----- runs

  predicate Legal(s: State, run: seq<Action>)
    decreases |run|
  {
    run == [] || (Enabled(s, run[0]) && Legal(Next(s, run[0]), run[1..]))
  }

  function After(s: State, run: seq<Action>): State
    requires Legal(s, run)
    decreases |run|
  {
    if run == [] then s else After(Next(s, run[0]), run[1..])
  }

  lemma {:induction false} RunsStayGood(s: State, run: seq<Action>)
    requires Good(s) && Legal(s, run)
    ensures Good(After(s, run))
    decreases |run|
  {
    if run != [] {
      StepStaysGood(s, run[0]);
      RunsStayGood(Next(s, run[0]), run[1..]);
    }
  }

  /** In every interleaving: at most one decision is sent; a send finds the channel empty and open, so
      it neither blocks nor panics; a channel is closed once; and nobody reads a closed, empty channel. */
  lemma ChannelIsUsedSafely(s: State, run: seq<Action>)
    requires Initial(s) && Legal(s, run)
    ensures var t := After(s, run);
            && t.sends <= 1
            && (forall r :: Enabled(t, Send(r)) ==> t.gate.value.buffer == None && !t.gate.value.closed)
            && (forall r :: Enabled(t, CloseChannel(r)) ==> !t.gate.value.closed)
            && (Enabled(t, Receive) ==> t.gate.value.buffer.Some?)
            && (t.waiter.Leaving? ==> t.waiter.outcome.reason != WasClosed)
  {
    InitialIsGood(s);
    RunsStayGood(s, run);
    var t := After(s, run);
    forall r | Enabled(t, Send(r)) || Enabled(t, CloseChannel(r))
      ensures Busy(t, r)
    {
    }
  }

  /** Once the gate is registered it waits for the run: a lookup finds it for as long as the run may still
      come, and a decision that was sent is there whenever the run waits. The emitter drops a gate only
      after the run has returned, when nobody can look it up any more. */
  lemma DecisionIsNotLost(s: State, run: seq<Action>)
    requires Initial(s) && Legal(s, run)
    ensures var t := After(s, run);
            && (t.gate.Some? && Enabled(t, Lookup) ==> t.registered && Next(t, Lookup).waiter == Found)
            && (t.waiter.Waiting? && t.sends == 1 ==>
                  Enabled(t, Receive) && t.chosen.Some? && Next(t, Receive).waiter == Got(t.chosen.value))
            && (t.waiter.Got? ==> t.chosen == Some(t.waiter.d))
            && (t.waiter.Done? && t.waiter.outcome.reason == NotRegistered ==> t.gate == None)
            && (Enabled(t, EmitterRelease) ==> !Enabled(t, Lookup) && (t.waiter == Outside || t.waiter.Done?))
  {
    InitialIsGood(s);
    RunsStayGood(s, run);
  }

  /** A decision sent before the run arrives: however long the run takes and whatever happens meanwhile,
      its lookup finds the gate, its wait is over at once, and it receives that very decision. */
  lemma EarlyDecisionIsReceived(s: State, run: seq<Action>, readable: bool)
    requires Good(s) && s.gate.Some? && s.waiter == Outside && !s.ended && s.sends == 1
    requires Legal(s, run) && After(s, run).waiter == Outside && !After(s, run).ended
    ensures var t := After(s, run);
            && Enabled(t, Lookup)
            && var found := Next(t, Lookup);
            && Enabled(found, ReadDeadline(readable))
            && var waiting := Next(found, ReadDeadline(readable));
            && Enabled(waiting, Receive) && s.chosen.Some? && Next(waiting, Receive).waiter == Got(s.chosen.value)
  {
    RunsStayGood(s, run);
    GateStays(s, run);
    FirstClickWins(s, run);
  }

  /** A gate, once made, stays made, and so do its one send and the end of the run. */
  lemma {:induction false} GateStays(s: State, run: seq<Action>)
    requires Good(s) && Legal(s, run)
    ensures var t := After(s, run);
            && (s.gate.Some? ==> t.gate.Some?)
            && s.sends <= t.sends
            && (s.ended ==> t.ended)
    decreases |run|
  {
    if run != [] {
      StepStaysGood(s, run[0]);
      GateStays(Next(s, run[0]), run[1..]);
    }
  }

  /** The first accepted click settles the decision for the rest of the run. */
  lemma {:induction false} FirstClickWins(s: State, run: seq<Action>)
    requires Good(s) && Legal(s, run) && s.chosen.Some?
    ensures After(s, run).chosen == s.chosen
    decreases |run|
  {
    if run != [] {
      StepStaysGood(s, run[0]);
      FirstClickWins(Next(s, run[0]), run[1..]);
    }
  }

  /** Approve returns (true, nil) only when the owner said so and the record was saved as approved
      before its expiry. */
  lemma ApprovalNeedsARecordInTime(s: State, run: seq<Action>)
    requires Initial(s) && Legal(s, run)
    requires var t := After(s, run); t.waiter.Done? && t.waiter.outcome.approved && t.waiter.outcome.ok
    ensures var t := After(s, run);
            ApprovedInTime(t.record) && t.received && t.chosen.Some? && Approving(t.chosen.value)
  {
    InitialIsGood(s);
    RunsStayGood(s, run);
  }

  // ----- what the owner's decision leads to

  /** An accepted click, and only that, settles the decision: the gate is registered and not yet resolved,
      and a lasting permission has a root to be given for. */
  lemma ClickSettles(s: State, r: nat, d: Decision)
    requires Good(s) && Enabled(s, Click(r, d))
    ensures var t := Next(s, Click(r, d));
            var accepted := s.registered && s.gate.Some? && !s.gate.value.resolved
                && (d == AllowAlways ==> s.gate.value.hasRoot);
            && (accepted ==>
                  s.chosen == None && t.chosen == Some(d) && Enabled(t, Send(r)) && t.resolvers[r] == Sending(d))
            && (!accepted ==> t == s)
  {
  }

  lemma {:induction false} Split(s: State, run: seq<Action>, i: nat)
    requires Legal(s, run) && i <= |run|
    ensures Legal(s, run[..i]) && Legal(After(s, run[..i]), run[i..])
    ensures After(s, run) == After(After(s, run[..i]), run[i..])
    decreases i
  {
    if i == 0 {
      assert run[..0] == [] && run[0..] == run;
    } else {
      Split(Next(s, run[0]), run[1..], i - 1);
      assert run[..i][0] == run[0] && run[..i][1..] == run[1..][..i - 1] && run[i..] == run[1..][i - 1..];
    }
  }

  /** The state before step `i` of a run. */
  function StateAt(s: State, run: seq<Action>, i: nat): State
    requires Legal(s, run) && i <= |run|
  {
    Split(s, run, i);
    After(s, run[..i])
  }

  lemma StepAt(s: State, run: seq<Action>, i: nat)
    requires Legal(s, run) && i < |run|
    ensures Enabled(StateAt(s, run, i), run[i]) && StateAt(s, run, i + 1) == Next(StateAt(s, run, i), run[i])
  {
    Split(s, run, i);
    Split(s, run, i + 1);
    Split(StateAt(s, run, i), run[i..], 1);
    Split(s, run[..i + 1], i);
    assert run[..i + 1][..i] == run[..i] && run[..i + 1][i..] == [run[i]];
    OneStep(StateAt(s, run, i), run[i]);
  }

  lemma OneStep(s: State, a: Action)
    requires Legal(s, [a])
    ensures Enabled(s, a) && After(s, [a]) == Next(s, a)
  {
    assert [a][1..] == [];
  }

  predicate Parting(w: Waiter) {
    w.Leaving? || w.Done?
  }

  /** What a step does to the waiter and the record, whoever takes it. */
  lemma WaiterStep(s: State, a: Action)
    requires Enabled(s, a)
    ensures var t := Next(s, a);
            && (Parting(s.waiter) ==>
                  !a.Save? && Parting(t.waiter) && t.waiter.outcome == s.waiter.outcome && t.record == s.record
                      && t.persisted == s.persisted)
            && (s.waiter.Decided? && !a.Save? ==>
                  t.waiter == s.waiter && t.record == s.record && t.persisted == s.persisted)
  {
  }

  lemma {:induction false} PartingIsFinal(s: State, run: seq<Action>)
    requires Legal(s, run) && Parting(s.waiter)
    ensures var t := After(s, run);
            Parting(t.waiter) && t.waiter.outcome == s.waiter.outcome && t.record == s.record
                && t.persisted == s.persisted
    ensures forall k :: 0 <= k < |run| ==> !run[k].Save?
    decreases |run|
  {
    if run != [] {
      hide Next, Enabled;
      WaiterStep(s, run[0]);
      PartingIsFinal(Next(s, run[0]), run[1..]);
    }
  }

  lemma {:induction false} SavedOnce(s: State, run: seq<Action>, j: nat)
    requires Legal(s, run) && s.waiter.Decided? && j < |run| && run[j].Save?
    ensures var t := After(s, run);
            && Parting(t.waiter)
            && t.waiter.outcome == Outcome(
                 s.waiter.approved,
                 run[j].saved && run[j].audited && (s.waiter.remember ==> run[j].remembered),
                 OwnerDecided)
            && t.record == (if run[j].saved then Some(s.waiter.record) else s.record)
            && t.persisted == (run[j].saved && run[j].audited && s.waiter.remember && run[j].remembered)
    decreases j
  {
    var n := Next(s, run[0]);
    assert j > 0 ==> run[1..][j - 1] == run[j];
    if run[0].Save? {
      PartingIsFinal(n, run[1..]);
    } else {
      WaiterStep(s, run[0]);
      hide Next, Enabled;
      SavedOnce(n, run[1..], j - 1);
    }
  }

  /** How the record is closed: a refusal as denied, an approval as approved up to its expiry and as expired
      from then on. */
  function Closed(d: Decision, record: Record, now: int): Record {
    var status := if !Approving(d) then Denied else if now < record.expiresAt then Approved else Expired;
    Record(status, record.expiresAt, now)
  }

  predicate IsPending(record: Option<Record>) {
    record.Some? && record.value.status == Pending
  }

  predicate RootFor(d: Decision, gate: Option<Gate>) {
    d == AllowAlways ==> gate.Some? && gate.value.hasRoot
  }

  lemma DecideStep(s: State, readable: bool)
    requires Enabled(s, Decide(readable))
    ensures var t, d := Next(s, Decide(readable)), s.waiter.d;
            if readable && IsPending(s.record) && RootFor(d, s.gate) then
              t.waiter == Decided(
                Approving(d) && s.now < s.record.value.expiresAt, Closed(d, s.record.value, s.now), d == AllowAlways)
            else Parting(t.waiter) && !t.waiter.outcome.ok
  {
  }

  /** Once the waiter has the owner's decision, its storing decides the rest, whatever happens in between: it
      ends approved exactly when the decision approves and is in time, without an error exactly when record,
      audit and, for a lasting permission, the permission were stored, and with the record closed accordingly. */
  lemma OwnerIsObeyed(s: State, run: seq<Action>, i: nat, j: nat)
    requires Good(s) && Legal(s, run) && i < j < |run| && run[i].Decide? && run[j].Save?
    ensures var u, t := StateAt(s, run, i), After(s, run);
            && u.waiter.Got? && run[i].readable && IsPending(u.record) && RootFor(u.waiter.d, u.gate)
            && Parting(t.waiter)
            && t.waiter.outcome.approved == (Approving(u.waiter.d) && u.now < u.record.value.expiresAt)
            && t.waiter.outcome.ok
                  == (run[j].saved && run[j].audited && (u.waiter.d == AllowAlways ==> run[j].remembered))
            && (run[j].saved ==> t.record == Some(Closed(u.waiter.d, u.record.value, u.now)))
  {
    hide Next, Enabled, Closed;
    var u, v := StateAt(s, run, i), StateAt(s, run, i + 1);
    StepAt(s, run, i);
    DecideIsGot(u, run[i].readable);
    DecideStep(u, run[i].readable);
    Split(s, run, i + 1);
    assert run[i + 1..][j - i - 1] == run[j];
    if Parting(v.waiter) {
      PartingIsFinal(v, run[i + 1..]);
    } else {
      SavedOnce(v, run[i + 1..], j - i - 1);
    }
  }

  lemma DecideIsGot(s: State, readable: bool)
    requires Enabled(s, Decide(readable))
    ensures s.waiter.Got? && s.record.Some?
  {
  }

  /** The owner's approval, received and decided on in time, with everything stored. */
  ghost predicate ApprovesAt(s: State, run: seq<Action>, i: nat, j: nat)
    requires Legal(s, run)
  {
    && i < j < |run| && run[i] == Decide(true) && run[j].Save? && run[j].saved && run[j].audited
    && var u := StateAt(s, run, i);
    && u.waiter.Got? && Approving(u.waiter.d) && IsPending(u.record) && u.now < u.record.value.expiresAt
    && RootFor(u.waiter.d, u.gate) && (u.waiter.d == AllowAlways ==> run[j].remembered)
  }

  ghost predicate DecidedBy(s: State, run: seq<Action>, i: nat, w: Waiter)
    requires Legal(s, run)
  {
    && i < |run| && run[i] == Decide(true) && w.Decided?
    && var u := StateAt(s, run, i);
    && u.waiter.Got? && IsPending(u.record) && RootFor(u.waiter.d, u.gate)
    && w.approved == (Approving(u.waiter.d) && u.now < u.record.value.expiresAt)
          && w.remember == (u.waiter.d == AllowAlways)
  }

  lemma EarlierStates(s: State, run: seq<Action>, n: nat, i: nat)
    requires Legal(s, run) && i <= n <= |run| && Legal(s, run[..n])
    ensures StateAt(s, run[..n], i) == StateAt(s, run, i)
  {
    assert run[..n][..i] == run[..i];
  }

  lemma DecidedEarlier(s: State, run: seq<Action>, n: nat, i: nat, w: Waiter)
    requires Legal(s, run) && n <= |run| && Legal(s, run[..n]) && DecidedBy(s, run[..n], i, w)
    ensures DecidedBy(s, run, i, w)
  {
    hide Legal;
    EarlierStates(s, run, n, i);
  }

  lemma ApprovesEarlier(s: State, run: seq<Action>, n: nat, i: nat, j: nat)
    requires Legal(s, run) && n <= |run| && Legal(s, run[..n]) && ApprovesAt(s, run[..n], i, j)
    ensures ApprovesAt(s, run, i, j)
  {
    hide Legal;
    EarlierStates(s, run, n, i);
  }

  ghost predicate SomeoneDecided(s: State, run: seq<Action>, w: Waiter)
    requires Legal(s, run)
  {
    exists i: nat :: DecidedBy(s, run, i, w)
  }

  ghost predicate OwnerApproved(s: State, run: seq<Action>)
    requires Legal(s, run)
  {
    exists i: nat, j: nat :: ApprovesAt(s, run, i, j)
  }

  predicate ReportsApproval(w: Waiter) {
    Parting(w) && w.outcome.approved && w.outcome.ok
  }

  /** What the last step of a run can have brought about. */
  lemma LastStep(s: State, a: Action)
    requires Enabled(s, a)
    ensures var t := Next(s, a);
            && (t.waiter.Decided? && t.waiter != s.waiter ==>
                  && a == Decide(true) && s.waiter.Got? && IsPending(s.record) && RootFor(s.waiter.d, s.gate)
                  && t.waiter.approved == (Approving(s.waiter.d) && s.now < s.record.value.expiresAt)
                  && t.waiter.remember == (s.waiter.d == AllowAlways))
            && (ReportsApproval(t.waiter) && !ReportsApproval(s.waiter) ==>
                  && a.Save? && a.saved && a.audited && s.waiter.Decided? && s.waiter.approved
                  && (s.waiter.remember ==> a.remembered))
  {
    if a.Decide? {
      DecideStep(s, a.readable);
      hide Next, DecideRecord;
    } else {
      OnlyDecideDecides(s, a);
      OnlySaveReports(s, a);
      hide Next, DecideRecord;
    }
  }

  lemma OnlyDecideDecides(s: State, a: Action)
    requires Enabled(s, a) && !a.Decide?
    ensures Next(s, a).waiter.Decided? ==> Next(s, a).waiter == s.waiter
  {
  }

  lemma OnlySaveReports(s: State, a: Action)
    requires Enabled(s, a) && !a.Decide?
    ensures (ReportsApproval(Next(s, a).waiter) && !ReportsApproval(s.waiter) ==>
               && a.Save? && a.saved && a.audited && s.waiter.Decided? && s.waiter.approved
               && (s.waiter.remember ==> a.remembered))
  {
  }

  lemma {:induction false} Traced(s: State, run: seq<Action>)
    requires s.waiter == Outside && Legal(s, run)
    ensures var w := After(s, run).waiter;
            (w.Decided? ==> SomeoneDecided(s, run, w)) && (ReportsApproval(w) ==> OwnerApproved(s, run))
    decreases |run|
  {
    hide Next, Enabled, Legal;
    if run == [] {
      Nowhere(s);
    } else {
      var n := |run| - 1;
      Split(s, run, n);
      StepAt(s, run, n);
      var u, t := After(s, run[..n]), After(s, run);
      assert run[..n + 1] == run;
      Traced(s, run[..n]);
      LastStep(u, run[n]);
      TracedStep(s, run, n);
    }
  }

  lemma Nowhere(s: State)
    ensures Legal(s, []) && After(s, []) == s
  {
  }

  lemma TracedStep(s: State, run: seq<Action>, n: nat)
    requires Legal(s, run) && |run| == n + 1 && Legal(s, run[..n])
    requires var u, t := StateAt(s, run, n), After(s, run);
             && After(s, run[..n]) == u && Enabled(u, run[n]) && t == Next(u, run[n])
             && (u.waiter.Decided? ==> SomeoneDecided(s, run[..n], u.waiter))
             && (ReportsApproval(u.waiter) ==> OwnerApproved(s, run[..n]))
    ensures var w := After(s, run).waiter;
            (w.Decided? ==> SomeoneDecided(s, run, w)) && (ReportsApproval(w) ==> OwnerApproved(s, run))
  {
    var u, t := StateAt(s, run, n), After(s, run);
    LastStep(u, run[n]);
    hide Next, Enabled, Legal, After;
    if t.waiter.Decided? {
      if t.waiter == u.waiter {
        var i: nat :| DecidedBy(s, run[..n], i, u.waiter);
        DecidedEarlier(s, run, n, i, u.waiter);
      } else {
        assert DecidedBy(s, run, n, t.waiter);
      }
    }
    if ReportsApproval(t.waiter) {
      if ReportsApproval(u.waiter) {
        var i: nat, j: nat :| ApprovesAt(s, run[..n], i, j);
        ApprovesEarlier(s, run, n, i, j);
      } else {
        var i: nat :| DecidedBy(s, run[..n], i, u.waiter);
        DecidedEarlier(s, run, n, i, u.waiter);
        assert ApprovesAt(s, run, i, n);
      }
    }
  }

  /** Approve returns (true, nil) if and only if the run received the owner's approval and decided on it while
      the record was pending and before its expiry, and record, audit and any lasting permission were stored. */
  lemma ApprovedIff(s: State, run: seq<Action>)
    requires Initial(s) && Legal(s, run)
    ensures ReportsApproval(After(s, run).waiter) <==> OwnerApproved(s, run)
  {
    InitialIsGood(s);
    hide Initial, Good;
    OutsideAtFirst(s);
    Traced(s, run);
    if OwnerApproved(s, run) {
      var i: nat, j: nat :| ApprovesAt(s, run, i, j);
      OwnerIsObeyed(s, run, i, j);
    }
  }

  lemma OutsideAtFirst(s: State)
    requires Initial(s)
    ensures s.waiter == Outside
  {
  }

  /** A lasting permission given too late is stored all the same, although the approval itself is refused: it
      is stored exactly when the owner chose it and all was stored, whatever the expiry. */
  lemma PersistedIff(s: State, run: seq<Action>, i: nat, j: nat)
    requires Good(s) && Legal(s, run) && i < j < |run| && run[i].Decide? && run[j].Save?
    ensures var u := StateAt(s, run, i);
            && u.waiter.Got?
            && (After(s, run).persisted <==>
                  run[j].saved && run[j].audited && run[j].remembered && u.waiter.d == AllowAlways)
  {
    hide Next, Enabled, Closed;
    var u, v := StateAt(s, run, i), StateAt(s, run, i + 1);
    StepAt(s, run, i);
    DecideIsGot(u, run[i].readable);
    DecideStep(u, run[i].readable);
    Split(s, run, i + 1);
    assert run[i + 1..][j - i - 1] == run[j];
    if Parting(v.waiter) {
      PartingIsFinal(v, run[i + 1..]);
    } else {
      SavedOnce(v, run[i + 1..], j - i - 1);
    }
  }

  /** Ten steps after the expiry the owner's `always` is refused and stored. */
  lemma LatePermissionIsStored(s: State)
    requires s.waiter == Got(AllowAlways) && s.gate == Some(Gate(true, None, true, true))
    requires s.record == Some(Record(Pending, 0, 0)) && s.now == 10
    ensures Enabled(s, Decide(true))
    ensures var u := Next(s, Decide(true));
            && Enabled(u, Save(true, true, true))
            && var t := Next(u, Save(true, true, true));
            t.persisted && t.waiter == Leaving(Outcome(false, true, OwnerDecided))
                && t.record == Some(Record(Expired, 0, 10))
  {
  }

  /** A wait ends by itself only from the record's expiry on; then it is a refusal, and a record still pending
      is closed as expired. */
  lemma TimeOutIsARefusal(s: State, run: seq<Action>, readable: bool, saved: bool, audited: bool)
    requires Initial(s) && Legal(s, run) && Enabled(After(s, run), TimeOut(readable, saved, audited))
    ensures var u := After(s, run);
            var t := Next(u, TimeOut(readable, saved, audited));
            && u.record.Some? && u.record.value.expiresAt <= u.now
            && t.waiter.Leaving? && !t.waiter.outcome.approved
            && (readable && saved && IsPending(u.record) ==>
                  t.record == Some(Record(Expired, u.record.value.expiresAt, u.now)) && t.waiter.outcome.ok == audited)
            && (readable && saved && !IsPending(u.record) ==> t.record == u.record && t.waiter.outcome.ok)
  {
    InitialIsGood(s);
    RunsStayGood(s, run);
  }
}
