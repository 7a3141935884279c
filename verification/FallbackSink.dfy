/** The primary and the fallback attempt of a chat run, and what the emitter hears of them
    (internal/desktop/chat_fallback_runtime.go, chat_run.go). */
module FallbackSink {
  import opened Bytes
  import opened RunLog

  // ----- which failures may fall back

  datatype FailureKind =
    | ContextLimit | BadRequest | OverBudget
    | Authentication | RateLimit | QuotaExhausted | ModelUnavailable | Timeout | Transient | Unclear

  /** A failure as far as it can be told apart; `kind` is its provider-neutral classification, if any. */
  datatype Failure = Failure(
    cancelled: bool, deadline: bool, overBudget: bool, incapable: bool, invalidArgument: bool, setup: bool,
        kind: Option<FailureKind>)

  predicate Eligible(f: Failure) {
    && !f.cancelled && !f.deadline && !f.overBudget && !f.incapable && !f.invalidArgument
    && match f.kind
       case None => f.setup
       case Some(kind) => !kind.ContextLimit? && !kind.BadRequest? && !kind.OverBudget?
  }

  // ----- the sink of the primary attempt

  predicate Visible(e: RunEvent) {
    !e.RunStarted? && !e.RunFailed? && !e.RunCompleted?
  }

  /** What the sink holds back, whether it has committed, and what it has let through. */
  datatype Attempt = Attempt(started: Option<RunEvent>, committed: bool, out: seq<RunEvent>)

  const FRESH: Attempt := Attempt(None, false, [])

  function Flushed(a: Attempt): Attempt {
    Attempt(None, a.committed, a.out + (if a.started.Some? then [a.started.value] else []))
  }

  /** The effect of one event; a target that refuses the held-back start does not get the event. */
  function Passed(a: Attempt, e: RunEvent, refused: bool): Attempt {
    match e
    case RunStarted => a.(started := Some(e))
    case RunFailed(_) => a
    case _ =>
      var f := Flushed(a);
      Attempt(None, a.committed || Visible(e), if refused && a.started.Some? then f.out else f.out + [e])
  }

  function PassedAll(events: seq<RunEvent>): Attempt {
    if events == [] then FRESH else Passed(PassedAll(events[..|events| - 1]), events[|events| - 1], false)
  }

  /** An attempt announces itself first and once. */
  predicate Announced(events: seq<RunEvent>) {
    && (events != [] ==> events[0] == RunStarted)
    && forall i :: 0 < i < |events| ==> events[i] != RunStarted
  }

  function WithoutFailure(events: seq<RunEvent>): seq<RunEvent> {
    if events == [] then []
    else
      var e := events[|events| - 1];
      WithoutFailure(events[..|events| - 1]) + (if e.RunFailed? then [] else [e])
  }

  /** The sink only delays: once flushed it has let through everything but the failure event, in order. */
  lemma {:induction false} SinkOnlyDelays(events: seq<RunEvent>)
    requires Announced(events)
    ensures var a := PassedAll(events);
            && Flushed(a).out == WithoutFailure(events)
            && (events == [] ==> a == FRESH)
            && (a.started.Some? ==> a.started.value == RunStarted && a.out == [])
  {
    hide Visible;
    if events != [] {
      SinkOnlyDelays(events[..|events| - 1]);
    }
  }

  /** It commits exactly when something of the model is to be seen. */
  lemma {:induction false} CommitsWhenVisible(events: seq<RunEvent>)
    ensures PassedAll(events).committed <==> exists i :: 0 <= i < |events| && Visible(events[i])
  {
    if events != [] {
      var n := |events| - 1;
      CommitsWhenVisible(events[..n]);
      assert PassedAll(events).committed == (PassedAll(events[..n]).committed || Visible(events[n]));
    }
  }

  // ----- what the emitter hears

  datatype Delivery = Forwarded(event: RunEvent) | Switched

  function Deliveries(events: seq<RunEvent>): seq<Delivery> {
    seq(|events|, i requires 0 <= i < |events| => Forwarded(events[i]))
  }

  /** The start comes first and once; the switch to the fallback, if any, directly follows it; so nothing
      else of the abandoned attempt, least of all its failure, was ever delivered. */
  ghost predicate Transparent(d: seq<Delivery>) {
    && (d != [] ==> d[0] == Forwarded(RunStarted))
    && (forall i :: 0 < i < |d| ==> d[i] != Forwarded(RunStarted))
    && (forall i :: 0 <= i < |d| && d[i] == Switched ==> i == 1)
  }

  /** What the sink keeps while a well-announced attempt runs. */
  ghost predicate Holding(a: Attempt) {
    && (a.started.Some? ==> a.started.value == RunStarted && a.out == [] && !a.committed)
    && (a.out != [] ==> a.out[0] == RunStarted)
    && (forall i :: 0 < i < |a.out| ==> a.out[i] != RunStarted)
    && (forall i :: 0 <= i < |a.out| ==> !a.out[i].RunFailed?)
    && (!a.committed ==> forall i :: 0 <= i < |a.out| ==> !Visible(a.out[i]))
  }

  lemma PassedHolds(a: Attempt, e: RunEvent, refused: bool)
    requires Holding(a)
    requires e == RunStarted ==> a == FRESH
    requires e != RunStarted ==> a.started.Some? || a.out != []
    ensures Holding(Passed(a, e, refused))
    ensures Passed(a, e, refused).started.Some? || Passed(a, e, refused).out != []
  {
  }

  function EmittedIn(log: seq<Entry>): seq<RunEvent> {
    if log == [] then []
    else EmittedIn(log[..|log| - 1]) + (if log[|log| - 1].Emit? then [log[|log| - 1].sent] else [])
  }

  /** Every run of the agent runtime is such an attempt. */
  lemma {:induction false} RunsAnnounceThemselves(r: Rules, log: seq<Entry>)
    requires Watch(r, log).sound
    ensures Announced(EmittedIn(log)) && (log != [] <==> EmittedIn(log) != [])
  {
    if log != [] {
      hide Watch;
      var n := |log| - 1;
      StartsOnceAndEndsLast(r, log, n);
      SoundBefore(r, log, n);
      RunsAnnounceThemselves(r, log[..n]);
    }
  }

  /** The events of an attempt and how it ended. An attempt that fails before it could announce itself was
      refused or interrupted, which no fallback helps; one that succeeds ends with its completion, and one
      whose completion was taken has not failed. */
  predicate Attempted(events: seq<RunEvent>, failure: Option<Failure>) {
    && Announced(events)
    && (events == [] ==> failure.Some? && !Eligible(failure.value))
    && (failure.Some? ==> forall i :: 0 <= i < |events| ==> !events[i].RunCompleted?)
    && (failure.None? ==> events != [] && events[|events| - 1].RunCompleted?)
  }

  /** The chat emitter as a target of events; it may fail to take one. */
  class Emitter {
    var delivered: seq<Delivery>

    constructor ()
      ensures delivered == []
    {
      delivered := [];
    }

    method Take(d: Delivery) returns (ok: bool)
      modifies this
      ensures delivered == old(delivered) + [d]
    {
      delivered := delivered + [d];
      ok := *;
    }
  }

  class PreOutputAttemptSink {
    const target: Emitter
    var started: Option<RunEvent>
    var committed: bool
    ghost const base: seq<Delivery>  // what the target had heard before
    ghost var out: seq<RunEvent>     // what this sink has let through since

    ghost function View(): Attempt
      reads this
    {
      Attempt(started, committed, out)
    }

    ghost predicate Linked()
      reads this, target
    {
      target.delivered == base + Deliveries(out)
    }

    constructor (target: Emitter)
      ensures View() == FRESH && this.target == target && base == target.delivered && Linked()
    {
      this.target := target;
      started, committed, base, out := None, false, target.delivered, [];
    }

    method Forward(e: RunEvent) returns (ok: bool)
      requires Linked()
      modifies this`out, target
      ensures Linked() && View() == old(View()).(out := old(out) + [e])
    {
      DeliveriesSnoc(base, out, e);
      out := out + [e];
      ok := target.Take(Forwarded(e));
    }

    method FlushStarted() returns (ok: bool)
      requires Linked()
      modifies this`started, this`out, target
      ensures Linked() && View() == Flushed(old(View()))
      ensures old(started) == None ==> ok
    {
      ok := true;
      if started.Some? {
        var event := started.value;
        started := None;
        ok := Forward(event);
      }
    }

    method Sink(e: RunEvent) returns (ok: bool)
      requires Linked()
      modifies this, target
      ensures Linked()
      ensures View() == Passed(old(View()), e, false) || (!ok && View() == Passed(old(View()), e, true))
    {
      match e {
        case RunStarted =>
          started := Some(e);
          return true;
        case RunFailed(_) => return true;
        case _ =>
      }
      if Visible(e) {
        committed := true;
      }
      ok := FlushStarted();
      if ok {
        ok := Forward(e);
      }
    }
  }

  lemma DeliveriesSnoc(base: seq<Delivery>, out: seq<RunEvent>, e: RunEvent)
    ensures base + Deliveries(out + [e]) == (base + Deliveries(out)) + [Forwarded(e)]
  {
  }

  /** What is known of the sink after the first `i` events of an attempt. */
  ghost predicate Carried(a: Attempt, events: seq<RunEvent>, i: nat, failed: bool)
    requires i <= |events|
  {
    && Holding(a)
    && (if i == 0 then a == FRESH else a.started.Some? || a.out != [])
    && (failed ==> forall k :: 0 <= k < |a.out| ==> !a.out[k].RunCompleted?)
    && (a.committed <==> exists k :: 0 <= k < i && Visible(events[k]))
  }

  lemma CarriedOn(a: Attempt, events: seq<RunEvent>, i: nat, failed: bool, refused: bool)
    requires i < |events| && Announced(events) && Carried(a, events, i, failed)
    requires failed ==> forall k :: 0 <= k < |events| ==> !events[k].RunCompleted?
    ensures Carried(Passed(a, events[i], refused), events, i + 1, failed)
  {
    PassedHolds(a, events[i], refused);
    hide Holding;
  }

  /** One run of the primary route behind its sink. */
  method RunPrimary(sink: PreOutputAttemptSink, events: seq<RunEvent>, ghost failure: Option<Failure>)
      returns (refused: bool)
    requires Attempted(events, failure)
    requires sink.View() == FRESH && sink.Linked()
    modifies sink, sink.target
    ensures sink.Linked()
    ensures Carried(sink.View(), events, |events|, failure.Some?)
    ensures !refused ==> sink.View() == PassedAll(events)
  {
    hide Carried, Announced, Passed, PassedAll;
    FreshIsCarried(events, failure.Some?);
    refused := false;
    var i := 0;
    while i < |events|
      invariant 0 <= i <= |events| && Carried(sink.View(), events, i, failure.Some?)
      invariant sink.Linked()
      invariant !refused ==> sink.View() == PassedAll(events[..i])
    {
      CarriedOn(sink.View(), events, i, failure.Some?, false);
      CarriedOn(sink.View(), events, i, failure.Some?, true);
      PassedAllSnoc(events, i);
      var ok := sink.Sink(events[i]);
      refused := refused || !ok;
      i := i + 1;
    }
    assert events[..|events|] == events;
  }

  lemma FreshIsCarried(events: seq<RunEvent>, failed: bool)
    ensures Carried(FRESH, events, 0, failed) && events[..0] == [] && PassedAll([]) == FRESH && Deliveries([]) == []
  {
  }

  lemma PassedAllSnoc(events: seq<RunEvent>, i: nat)
    requires i < |events|
    ensures PassedAll(events[..i + 1]) == Passed(PassedAll(events[..i]), events[i], false)
  {
    assert events[..i + 1][..i] == events[..i];
  }

  /** One run of the fallback route; its own start is not announced again. */
  method RunFallback(emitter: Emitter, events: seq<RunEvent>)
    requires Announced(events)
    modifies emitter
    ensures emitter.delivered == old(emitter.delivered) + Deliveries(if events == [] then [] else events[1..])
  {
    var i := 0;
    while i < |events|
      invariant 0 <= i <= |events|
      invariant emitter.delivered == old(emitter.delivered) + Deliveries(if i == 0 then [] else events[1..i])
    {
      if !events[i].RunStarted? {
        var _ := emitter.Take(Forwarded(events[i]));
      }
      i := i + 1;
    }
  }

  /** What one attempt does and how it ends. */
  datatype Script = Script(events: seq<RunEvent>, failure: Option<Failure>)

  /** What the routes do: whether they can be set up, switched to, and how their attempts go. */
  datatype Routes = Routes(
    fallbackEnabled: bool, setup: Option<Failure>, primary: Script, switches: bool, fallbackSetup: bool,
        fallback: Script)

  /** What follows a start that is not the first attempt's any more. */
  function SecondAttempt(routes: Routes): seq<Delivery>
    requires Announced(routes.fallback.events)
  {
    if !routes.switches then []
    else
      var events := routes.fallback.events;
      [Switched] + (if routes.fallbackSetup && events != [] then Deliveries(events[1..]) else [])
  }

  /** What the emitter hears when it refuses nothing: the primary attempt without its failure, or, when
      fallback is due, the one start and then the second attempt. */
  function ToBeHeard(routes: Routes): seq<Delivery>
    requires Announced(routes.fallback.events)
  {
    if MayFallBack(routes) then [Forwarded(RunStarted)] + SecondAttempt(routes)
    else if routes.setup.Some? then []
    else Deliveries(WithoutFailure(routes.primary.events))
  }

  /** The attempt that decides ends without a failure: the second one where fallback is due, else the first. */
  predicate Completes(routes: Routes) {
    if MayFallBack(routes) then routes.switches && routes.fallbackSetup && routes.fallback.failure.None?
    else routes.setup.None? && routes.primary.failure.None?
  }

  /** Switch routes, tell the emitter, and run the second attempt. */
  method FallBack(emitter: Emitter, routes: Routes) returns (failed: bool)
    requires emitter.delivered == [Forwarded(RunStarted)] && Announced(routes.fallback.events)
    modifies emitter
    ensures Transparent(emitter.delivered)
    ensures emitter.delivered == [Forwarded(RunStarted)] + SecondAttempt(routes)
    ensures failed == !(routes.switches && routes.fallbackSetup && routes.fallback.failure == None)
  {
    failed := true;
    if !routes.switches {
      return;
    }
    var _ := emitter.Take(Switched);
    SwitchedIsTransparent([]);
    if routes.fallbackSetup {
      SwitchedIsTransparent(routes.fallback.events);
      RunFallback(emitter, routes.fallback.events);
      failed := routes.fallback.failure.Some?;
    }
  }

  /** The model attempts of one chat run; `failed` when the failure path has to report the end. */
  method RunAttempts(emitter: Emitter, routes: Routes) returns (failed: bool, refused: bool)
    requires emitter.delivered == []
    requires Attempted(routes.primary.events, routes.primary.failure)
    requires Attempted(routes.fallback.events, routes.fallback.failure)
    modifies emitter
    ensures Transparent(emitter.delivered)
    ensures Switched in emitter.delivered ==> MayFallBack(routes)
    ensures !refused ==> emitter.delivered == ToBeHeard(routes)
    ensures !refused ==> (failed <==> !Completes(routes))
  {
    hide Transparent, Holding, Eligible, Visible, Announced, Carried, WithoutFailure, PassedAll;
    NothingIsTransparent();
    failed, refused := true, false;
    if routes.setup.Some? {
      if routes.fallbackEnabled && Eligible(routes.setup.value) {
        var taken := emitter.Take(Forwarded(RunStarted));
        assert emitter.delivered == [Forwarded(RunStarted)];
        if taken {
          failed := FallBack(emitter, routes);
        }
        refused := !taken;
      }
      return;
    }
    var sink := new PreOutputAttemptSink(emitter);
    refused := RunPrimary(sink, routes.primary.events, routes.primary.failure);
    CarriedIsHolding(sink.View(), routes.primary.events, |routes.primary.events|, routes.primary.failure.Some?);
    PassedOnIsTransparent(sink.View());
    SinkOnlyDelays(routes.primary.events);
    assert emitter.delivered == Deliveries(sink.out);
    if routes.primary.failure.None? {
      CompletionIsOut(routes.primary.events);
      return false, refused;
    }
    if routes.fallbackEnabled && !sink.committed && Eligible(routes.primary.failure.value) {
      UncommittedIsJustTheStart(sink.View());
      var flushed := sink.FlushStarted();
      assert emitter.delivered == [Forwarded(RunStarted)];
      if flushed {
        failed := FallBack(emitter, routes);
      }
      refused := refused || !flushed;
    } else {
      FlushedIsTransparent(sink.View());
      var flushed := sink.FlushStarted();
      refused := refused || !flushed;
      assert emitter.delivered == Deliveries(sink.out);
    }
  }

  /** Nothing is held back behind the completion of a run. */
  lemma CompletionIsOut(events: seq<RunEvent>)
    requires events != [] && events[|events| - 1].RunCompleted?
    ensures Flushed(PassedAll(events)).out == PassedAll(events).out
  {
  }

  lemma CarriedIsHolding(a: Attempt, events: seq<RunEvent>, i: nat, failed: bool)
    requires i <= |events| && Carried(a, events, i, failed)
    ensures Holding(a) && (i > 0 ==> a.started.Some? || a.out != [])
    ensures failed ==> forall k :: 0 <= k < |a.out| ==> !a.out[k].RunCompleted?
    ensures !a.committed <==> forall k :: 0 <= k < i ==> !Visible(events[k])
  {
  }

  lemma NothingIsTransparent()
    ensures Transparent([]) && Transparent([Forwarded(RunStarted)])
  {
  }

  lemma PassedOnIsTransparent(a: Attempt)
    requires Holding(a)
    ensures Transparent(Deliveries(a.out)) && Switched !in Deliveries(a.out)
  {
  }

  lemma FlushedIsTransparent(a: Attempt)
    requires Holding(a)
    ensures Transparent(Deliveries(Flushed(a).out)) && Switched !in Deliveries(Flushed(a).out)
  {
  }

  lemma UncommittedIsJustTheStart(a: Attempt)
    requires Holding(a) && !a.committed && (a.started.Some? || a.out != [])
    requires forall i :: 0 <= i < |a.out| ==> !a.out[i].RunCompleted?
    ensures Flushed(a).out == [RunStarted]
  {
    if a.out != [] {
      assert a.out[|a.out| - 1] == RunStarted;
    }
  }

  lemma SwitchedIsTransparent(events: seq<RunEvent>)
    requires Announced(events)
    ensures Transparent([Forwarded(RunStarted), Switched] + Deliveries(if events == [] then [] else events[1..]))
  {
  }

  /** Fallback is reserved for failures it can help, before anything of the model was shown. */
  predicate MayFallBack(routes: Routes) {
    && routes.fallbackEnabled
    && match routes.setup
       case Some(f) => Eligible(f)
       case None =>
         && routes.primary.failure.Some? && Eligible(routes.primary.failure.value)
         && forall i :: 0 <= i < |routes.primary.events| ==> !Visible(routes.primary.events[i])
  }
}
