/** When a run must go on, succeed or fail, said of whole streams of the model and not of the loops that read
    them (internal/agent/runtime.go:88-203). */
module Verdicts {
  import opened Bytes
  import opened Text
  import opened ToolCalls
  import opened RunLog

  datatype ErrorKind =
    | Cancelled | DeadlineExceeded | BudgetExceeded | ApprovalRequired
    | Backend | ToolArguments | ToolNotFound | InvalidRequest | Other

  /** An error and its redacted text. */
  datatype Error = Error(kind: ErrorKind, text: seq<byte>)

  /** The errors that end a run; any other tool failure is shown to the model. */
  predicate Fatal(e: Error) {
    e.kind.Cancelled? || e.kind.DeadlineExceeded? || e.kind.BudgetExceeded? || e.kind.ApprovalRequired?
  }

  predicate Interrupted(e: Error) {
    e.kind.Cancelled? || e.kind.DeadlineExceeded?
  }

  datatype Budget = Budget(maxSteps: int, maxTokens: int64, maxToolCalls: int, maxToolOutput: int)

  function NormalizedBudget(b: Budget): Budget {
    Budget(
      if b.maxSteps <= 0 then 8 else b.maxSteps,
      if b.maxTokens <= 0 then 32000 else b.maxTokens,
      if b.maxToolCalls <= 0 then 32 else b.maxToolCalls,
      if b.maxToolOutput <= 0 then 262144 else b.maxToolOutput)
  }

  /** What the backend will deliver: events, then an end or a failure. */
  datatype Stream = Stream(interactive: bool, events: seq<ModelEvent>, ending: Option<Error>, closing: Option<Error>)

  /** What counts against a run: the usage and the calls so far, whether the required tool is still to be
      called, and how often the model has missed it. */
  datatype Ledger = Ledger(usage: Usage, calls: nat, pending: bool, misses: nat)

  datatype Verdict = Broken | Succeeded(text: string) | Running(ledger: Ledger)

  // ----- what can be wrong with a stream

  predicate Overspent(b: Budget, usage: Usage) {
    b.maxTokens > 0 && usage.total > b.maxTokens
  }

  /** The events read so far are known ones, and at none of them had the stream used too many tokens. */
  ghost predicate Clean(b: Budget, events: seq<ModelEvent>) {
    && (forall k :: 0 < k <= |events| ==> !Overspent(b, SumOf(events[..k])))
    && (forall k :: 0 <= k < |events| ==> !events[k].kind.Unrecognized?)
  }

  predicate AllNamed(calls: seq<ToolCall>) {
    forall k :: 0 <= k < |calls| ==> calls[k].name != ""
  }

  /** The calls of a stream: those reported done, or, on an ordinary stream, all that it mentions. */
  function CallsIn(stream: Stream): seq<ToolCall> {
    if stream.interactive then DoneCalls(stream.events) else CallsOf(Gather(stream.events))
  }

  ghost predicate Readable(b: Budget, stream: Stream) {
    Clean(b, stream.events) && AllNamed(CallsIn(stream)) && stream.ending.None?
  }

  /** A turn without text, unless it is an ordinary one that calls tools. */
  predicate SaysNothing(stream: Stream) {
    TrimSpace(TextOf(stream.events)) == "" && (stream.interactive || CallsIn(stream) == [])
  }

  /** The tool is required and was not called, but another one was, or none for the second time. */
  predicate Disobeys(choice: ToolChoice, ledger: Ledger, stream: Stream) {
    && ledger.pending && !RequiredToolSatisfied(choice, CallsIn(stream))
    && (CallsIn(stream) != [] || ledger.misses >= 1)
  }

  ghost predicate Fails(choice: ToolChoice, b: Budget, ledger: Ledger, stream: Stream) {
    || !Readable(b, stream) || stream.closing.Some?
    || Overspent(b, Plus(ledger.usage, SumOf(stream.events)))
    || SaysNothing(stream)
    || Disobeys(choice, ledger, stream)
    || ledger.calls + |CallsIn(stream)| > b.maxToolCalls
  }

  /** The stream had used too many tokens by itself at one of its events. */
  ghost predicate Overdraws(b: Budget, events: seq<ModelEvent>) {
    exists k :: 0 < k <= |events| && Overspent(b, SumOf(events[..k]))
  }

  predicate Garbled(events: seq<ModelEvent>) {
    exists k :: 0 <= k < |events| && events[k].kind.Unrecognized?
  }

  /** Why reading a stream fails with this error; `paid` calls had been run before it. */
  ghost predicate Stops(b: Budget, paid: nat, stream: Stream, e: Error) {
    || stream.ending == Some(e)
    || (e.kind.BudgetExceeded?
        && (Overdraws(b, stream.events) || paid + |CallsIn(stream)| > b.maxToolCalls))
    || (e.kind.Backend? && (Garbled(stream.events) || !AllNamed(CallsIn(stream))))
  }

  /** The error that a failing turn reports names a cause there is. */
  ghost predicate Explains(choice: ToolChoice, b: Budget, ledger: Ledger, stream: Stream, e: Error) {
    || Stops(b, ledger.calls, stream, e) || stream.closing == Some(e)
    || (e.kind.BudgetExceeded? && Overspent(b, Plus(ledger.usage, SumOf(stream.events))))
    || (e.kind.Backend? && (SaysNothing(stream) || Disobeys(choice, ledger, stream)))
  }

  /** Something remains to be done: ordinary calls are still unanswered, or the required tool was not called. */
  predicate Unfinished(ledger: Ledger, stream: Stream) {
    (!stream.interactive && CallsIn(stream) != []) || (ledger.pending && CallsIn(stream) == [])
  }

  function Advance(ledger: Ledger, stream: Stream): Ledger {
    Ledger(Plus(ledger.usage, SumOf(stream.events)), ledger.calls + |CallsIn(stream)|,
           ledger.pending && CallsIn(stream) == [], ledger.misses + (if CallsIn(stream) == [] then 1 else 0))
  }

  ghost function Judged(choice: ToolChoice, b: Budget, ledger: Ledger, stream: Stream): Verdict {
    if Fails(choice, b, ledger, stream) then Broken
    else if Unfinished(ledger, stream) then Running(Advance(ledger, stream))
    else Succeeded(TextOf(stream.events))
  }

  function OpeningBooks(choice: ToolChoice): Ledger {
    Ledger(NO_USAGE, 0, choice.mode.Required?, 0)
  }

  /** What the streams of a run come to, if nothing else interferes. */
  ghost function Course(choice: ToolChoice, b: Budget, streams: seq<Stream>): Verdict {
    if streams == [] then Running(OpeningBooks(choice))
    else
      match Course(choice, b, streams[..|streams| - 1])
      case Running(ledger) => Judged(choice, b, ledger, streams[|streams| - 1])
      case verdict => verdict
  }

  lemma NothingYet(choice: ToolChoice, b: Budget)
    ensures Course(choice, b, []) == Running(OpeningBooks(choice)) && NothingAfterTheVerdict(choice, b, [])
  {
  }

  lemma CourseSnoc(choice: ToolChoice, b: Budget, streams: seq<Stream>, stream: Stream)
    requires Course(choice, b, streams).Running?
    ensures Course(choice, b, streams + [stream]) == Judged(choice, b, Course(choice, b, streams).ledger, stream)
  {
    assert (streams + [stream])[..|streams|] == streams;
  }

  /** No stream has been asked for once the verdict was there. */
  ghost predicate NothingAfterTheVerdict(choice: ToolChoice, b: Budget, streams: seq<Stream>) {
    streams != [] ==> Course(choice, b, streams[..|streams| - 1]).Running?
  }

  lemma StillRunning(choice: ToolChoice, b: Budget, streams: seq<Stream>)
    ensures Course(choice, b, streams).Running? ==> NothingAfterTheVerdict(choice, b, streams)
  {
    hide Judged;
  }

  // ----- the books without the course

  function EventsOf(streams: seq<Stream>): seq<ModelEvent> {
    if streams == [] then [] else EventsOf(streams[..|streams| - 1]) + streams[|streams| - 1].events
  }

  function CallsOfAll(streams: seq<Stream>): seq<ToolCall> {
    if streams == [] then [] else CallsOfAll(streams[..|streams| - 1]) + CallsIn(streams[|streams| - 1])
  }

  /** How many streams call no tool. */
  function Callless(streams: seq<Stream>): nat {
    if streams == [] then 0
    else Callless(streams[..|streams| - 1]) + (if CallsIn(streams[|streams| - 1]) == [] then 1 else 0)
  }

  /** The sums over all streams so far. */
  function Tally(choice: ToolChoice, streams: seq<Stream>): Ledger {
    Ledger(SumOf(EventsOf(streams)), |CallsOfAll(streams)|, choice.mode.Required? && CallsOfAll(streams) == [],
           Callless(streams))
  }

  lemma TallySnoc(choice: ToolChoice, streams: seq<Stream>)
    requires streams != []
    ensures Tally(choice, streams) == Advance(Tally(choice, streams[..|streams| - 1]), streams[|streams| - 1])
  {
    var init, last := streams[..|streams| - 1], streams[|streams| - 1];
    SumConcat(EventsOf(init), last.events);
    hide SumOf, CallsIn;
  }

  /** Along a course that still runs the books are the plain sums. */
  lemma {:induction false} RunningIsTally(choice: ToolChoice, b: Budget, streams: seq<Stream>)
    requires Course(choice, b, streams).Running?
    ensures Course(choice, b, streams).ledger == Tally(choice, streams)
  {
    if streams != [] {
      RunningIsTally(choice, b, streams[..|streams| - 1]);
      TallySnoc(choice, streams);
      hide Tally, Advance, Fails, Unfinished;
    }
  }

  /** Stream k is acceptable after the streams before it. */
  ghost predicate Fine(choice: ToolChoice, b: Budget, streams: seq<Stream>, k: nat)
    requires k < |streams|
  {
    !Fails(choice, b, Tally(choice, streams[..k]), streams[k])
  }

  /** Stream k leaves something to be done. */
  predicate AsksForMore(choice: ToolChoice, streams: seq<Stream>, k: nat)
    requires k < |streams|
  {
    Unfinished(Tally(choice, streams[..k]), streams[k])
  }

  /** The first n streams are acceptable and ask for more. */
  ghost predicate GoesOn(choice: ToolChoice, b: Budget, streams: seq<Stream>, n: nat)
    requires n <= |streams|
  {
    forall k :: 0 <= k < n ==> Fine(choice, b, streams, k) && AsksForMore(choice, streams, k)
  }

  lemma PrefixGoesOn(choice: ToolChoice, b: Budget, streams: seq<Stream>, i: nat, n: nat)
    requires n <= i <= |streams|
    ensures GoesOn(choice, b, streams[..i], n) <==> GoesOn(choice, b, streams, n)
    ensures n < i ==> (Fine(choice, b, streams[..i], n) <==> Fine(choice, b, streams, n))
    ensures n < i ==> (AsksForMore(choice, streams[..i], n) <==> AsksForMore(choice, streams, n))
  {
    hide Fails, Unfinished, Tally;
    var init := streams[..i];
    assert forall k :: 0 <= k < i ==> init[..k] == streams[..k] && init[k] == streams[k];
    assert forall k :: 0 <= k < i ==> (Fine(choice, b, init, k) <==> Fine(choice, b, streams, k));
    assert forall k :: 0 <= k < i ==> (AsksForMore(choice, init, k) <==> AsksForMore(choice, streams, k));
  }

  /** The verdict on one more stream, told by the plain sums. */
  lemma JudgedByTally(choice: ToolChoice, b: Budget, streams: seq<Stream>, n: nat)
    requires n < |streams| && Course(choice, b, streams[..n]).Running? && |streams| == n + 1
    ensures var verdict := Course(choice, b, streams);
            && (verdict.Broken? <==> !Fine(choice, b, streams, n))
            && (verdict.Running? <==> Fine(choice, b, streams, n) && AsksForMore(choice, streams, n))
            && (verdict.Succeeded? ==> verdict.text == TextOf(streams[n].events))
  {
    RunningIsTally(choice, b, streams[..n]);
    hide Fails, Unfinished, Tally, Advance;
  }

  lemma VerdictStays(choice: ToolChoice, b: Budget, streams: seq<Stream>)
    requires streams != [] && !Course(choice, b, streams[..|streams| - 1]).Running?
    ensures Course(choice, b, streams) == Course(choice, b, streams[..|streams| - 1])
  {
    hide Judged;
  }

  lemma GoesOnSnoc(choice: ToolChoice, b: Budget, streams: seq<Stream>, n: nat)
    requires n < |streams|
    ensures GoesOn(choice, b, streams, n + 1) <==>
              GoesOn(choice, b, streams, n) && Fine(choice, b, streams, n) && AsksForMore(choice, streams, n)
  {
    hide Fine, AsksForMore;
  }

  /** A run goes on exactly as long as every stream is acceptable and asks for more. */
  lemma {:induction false} RunsOnIff(choice: ToolChoice, b: Budget, streams: seq<Stream>)
    ensures Course(choice, b, streams).Running? <==> GoesOn(choice, b, streams, |streams|)
  {
    if streams != [] {
      hide Course, GoesOn, Fine, AsksForMore;
      var n := |streams| - 1;
      RunsOnIff(choice, b, streams[..n]);
      PrefixGoesOn(choice, b, streams, n, n);
      GoesOnSnoc(choice, b, streams, n);
      if Course(choice, b, streams[..n]).Running? {
        JudgedByTally(choice, b, streams, n);
      } else {
        VerdictStays(choice, b, streams);
      }
    }
  }

  /** The n-th stream is acceptable and asks for no more, and all before it asked for more. */
  ghost predicate EndsWell(choice: ToolChoice, b: Budget, streams: seq<Stream>, n: nat) {
    n < |streams| && GoesOn(choice, b, streams, n) && Fine(choice, b, streams, n) && !AsksForMore(choice, streams, n)
  }

  /** Nothing ends well after a stream that broke the run or ended it. */
  lemma NothingFollows(choice: ToolChoice, b: Budget, streams: seq<Stream>, m: nat, n: nat)
    requires m < |streams| && !GoesOn(choice, b, streams, m) && m <= n
    ensures !EndsWell(choice, b, streams, n)
  {
    hide Fine, AsksForMore;
  }

  lemma SameEnds(choice: ToolChoice, b: Budget, streams: seq<Stream>, i: nat, m: nat)
    requires m < i <= |streams|
    ensures EndsWell(choice, b, streams[..i], m) <==> EndsWell(choice, b, streams, m)
  {
    hide GoesOn, Fine, AsksForMore;
    PrefixGoesOn(choice, b, streams, i, m);
  }

  ghost predicate Concluded(choice: ToolChoice, b: Budget, streams: seq<Stream>, text: string) {
    exists n: nat :: EndsWell(choice, b, streams, n) && text == TextOf(streams[n].events)
  }

  lemma ConcludedSnoc(choice: ToolChoice, b: Budget, streams: seq<Stream>, text: string)
    requires streams != []
    ensures var n := |streams| - 1;
            Concluded(choice, b, streams, text) <==>
              || Concluded(choice, b, streams[..n], text)
              || (EndsWell(choice, b, streams, n) && text == TextOf(streams[n].events))
  {
    hide GoesOn, Fine, AsksForMore, TextOf;
    var n := |streams| - 1;
    if Concluded(choice, b, streams, text) {
      var m: nat :| EndsWell(choice, b, streams, m) && text == TextOf(streams[m].events);
      if m < n {
        SameEnds(choice, b, streams, n, m);
      }
    }
    if Concluded(choice, b, streams[..n], text) {
      var m: nat :| EndsWell(choice, b, streams[..n], m) && text == TextOf(streams[..n][m].events);
      SameEnds(choice, b, streams, n, m);
      assert EndsWell(choice, b, streams, m);
    }
  }

  /** The streams of a run come to a success if and only if one of them is acceptable and asks for no more,
      after acceptable ones that all did; its text is then the answer. */
  lemma {:induction false} SucceedsIff(choice: ToolChoice, b: Budget, streams: seq<Stream>, text: string)
    ensures Course(choice, b, streams) == Succeeded(text) <==> Concluded(choice, b, streams, text)
  {
    if streams != [] {
      var n := |streams| - 1;
      hide Course, GoesOn, Fine, AsksForMore, TextOf;
      SucceedsIff(choice, b, streams[..n], text);
      ConcludedSnoc(choice, b, streams, text);
      RunsOnIff(choice, b, streams[..n]);
      PrefixGoesOn(choice, b, streams, n, n);
      if Course(choice, b, streams[..n]).Running? {
        JudgedByTally(choice, b, streams, n);
      } else {
        VerdictStays(choice, b, streams);
        NothingFollows(choice, b, streams, n, n);
      }
    }
  }

  // ----- reading on

  lemma CleanSnoc(b: Budget, events: seq<ModelEvent>, i: nat)
    requires i < |events|
    ensures Clean(b, events[..i + 1]) <==>
              Clean(b, events[..i]) && !Overspent(b, SumOf(events[..i + 1])) && !events[i].kind.Unrecognized?
  {
    hide Overspent, SumOf;
    var more, fewer := events[..i + 1], events[..i];
    assert forall k :: 0 <= k <= i ==> more[..k] == fewer[..k];
    assert more[..i + 1] == more;
    if Clean(b, more) {
      assert forall k :: 0 < k <= i ==> !Overspent(b, SumOf(more[..k]));
      assert forall k :: 0 <= k < i ==> more[k] == fewer[k];
    }
  }

  /** Why reading stops at an event that ends the reading of its stream. */
  predicate StopsAt(b: Budget, events: seq<ModelEvent>, i: nat, e: Error)
    requires i < |events|
  {
    || (e.kind.BudgetExceeded? && Overspent(b, SumOf(events[..i + 1])))
    || (e.kind.Backend? && events[i].kind.Unrecognized?)
  }

  lemma StopsSomewhere(b: Budget, paid: nat, stream: Stream, i: nat, e: Error)
    requires i < |stream.events| && StopsAt(b, stream.events, i, e)
    ensures Stops(b, paid, stream, e)
  {
    hide Overspent, SumOf, CallsIn;
  }

  lemma CleanBefore(b: Budget, events: seq<ModelEvent>, i: nat)
    requires i <= |events| && Clean(b, events)
    ensures Clean(b, events[..i])
  {
    hide Overspent, SumOf;
    assert forall k :: 0 <= k <= i ==> events[..i][..k] == events[..k];
  }

  lemma {:induction false} DoneBefore(events: seq<ModelEvent>, i: nat)
    requires i <= |events|
    ensures |DoneCalls(events[..i])| <= |DoneCalls(events)|
    ensures DoneCalls(events)[..|DoneCalls(events[..i])|] == DoneCalls(events[..i])
    decreases |events|
  {
    if i == |events| {
      assert events[..i] == events;
    } else {
      hide LastCall;
      DoneBefore(events[..|events| - 1], i);
      assert events[..|events| - 1][..i] == events[..i];
    }
  }

  lemma ReadableBefore(b: Budget, stream: Stream, i: nat)
    requires i <= |stream.events|
    ensures Readable(b, stream) ==> Clean(b, stream.events[..i])
  {
    if Readable(b, stream) {
      CleanBefore(b, stream.events, i);
    }
  }

  /** The events read so far are clean and the calls reported done in them can all be run. */
  ghost predicate Serviceable(b: Budget, paid: nat, events: seq<ModelEvent>) {
    Clean(b, events) && AllNamed(DoneCalls(events)) && paid + |DoneCalls(events)| <= b.maxToolCalls
  }

  lemma DoneSnoc(events: seq<ModelEvent>, i: nat)
    requires i < |events|
    ensures DoneCalls(events[..i + 1])
         == DoneCalls(events[..i]) + (if events[i].kind.CallDone? then [LastCall(events[..i + 1])] else [])
  {
    hide LastCall;
    assert events[..i + 1][..i] == events[..i] && events[..i + 1][i] == events[i];
  }

  lemma NamedSnoc(calls: seq<ToolCall>, call: ToolCall)
    ensures AllNamed(calls + [call]) <==> AllNamed(calls) && call.name != ""
  {
    assert (calls + [call])[|calls|] == call;
    assert forall k :: 0 <= k < |calls| ==> (calls + [call])[k] == calls[k];
  }

  lemma NothingServed(b: Budget, paid: nat)
    ensures paid <= b.maxToolCalls ==> Serviceable(b, paid, [])
  {
  }

  lemma ServiceableSnoc(b: Budget, paid: nat, events: seq<ModelEvent>, i: nat)
    requires i < |events|
    ensures Serviceable(b, paid, events[..i + 1]) <==>
              && Serviceable(b, paid, events[..i])
              && !Overspent(b, SumOf(events[..i + 1])) && !events[i].kind.Unrecognized?
              && (events[i].kind.CallDone? ==>
                    LastCall(events[..i + 1]).name != "" && paid + |DoneCalls(events[..i])| < b.maxToolCalls)
  {
    CleanSnoc(b, events, i);
    DoneSnoc(events, i);
    hide Clean, Overspent, SumOf, LastCall, DoneCalls, AllNamed;
    if events[i].kind.CallDone? {
      NamedSnoc(DoneCalls(events[..i]), LastCall(events[..i + 1]));
    } else {
      assert DoneCalls(events[..i + 1]) == DoneCalls(events[..i]);
    }
  }

  lemma ServiceableBefore(b: Budget, paid: nat, events: seq<ModelEvent>, i: nat)
    requires i <= |events|
    ensures Serviceable(b, paid, events) ==> Serviceable(b, paid, events[..i])
  {
    if Serviceable(b, paid, events) {
      CleanBefore(b, events, i);
      DoneBefore(events, i);
      hide Clean;
      assert forall k :: 0 <= k < |DoneCalls(events[..i])| ==> DoneCalls(events[..i])[k] == DoneCalls(events)[k];
    }
  }

  /** The same inside an interactive stream, where a call reported done may also be one too many or unnamed. */
  ghost predicate HaltsAt(b: Budget, paid: nat, events: seq<ModelEvent>, i: nat, e: Error)
    requires i < |events|
  {
    || StopsAt(b, events, i, e)
    || (events[i].kind.CallDone? && e.kind.BudgetExceeded? && paid + |DoneCalls(events[..i])| >= b.maxToolCalls)
    || (events[i].kind.CallDone? && e.kind.Backend? && LastCall(events[..i + 1]).name == "")
  }

  lemma HaltsSomewhere(b: Budget, paid: nat, stream: Stream, i: nat, e: Error)
    requires stream.interactive && i < |stream.events|
    ensures HaltsAt(b, paid, stream.events, i, e) ==> Stops(b, paid, stream, e)
  {
    if StopsAt(b, stream.events, i, e) {
      StopsSomewhere(b, paid, stream, i, e);
    } else if HaltsAt(b, paid, stream.events, i, e) {
      hide StopsAt, SumOf, LastCall, Overdraws, Garbled, AllNamed;
      DoneSnoc(stream.events, i);
      DoneBefore(stream.events, i + 1);
      var n := |DoneCalls(stream.events[..i])|;
      assert DoneCalls(stream.events)[..n + 1][n] == LastCall(stream.events[..i + 1]);
      OneUnnamed(DoneCalls(stream.events), n);
    }
  }

  lemma OneUnnamed(calls: seq<ToolCall>, n: nat)
    requires n < |calls|
    ensures calls[n].name == "" ==> !AllNamed(calls)
  {
  }

  /** Reading an interactive stream fails if and only if something from outside ends the run, the stream is not
      to be read or calls for too many tools, and then for one of these reasons. */
  ghost predicate FailsAsItMust(b: Budget, paid: nat, stream: Stream, faulty: bool, err: Option<Error>) {
    && (err.Some? <==> faulty || !Readable(b, stream) || paid + |CallsIn(stream)| > b.maxToolCalls)
    && (err.Some? && !faulty ==> Stops(b, paid, stream, err.value))
  }

  lemma FailsInside(b: Budget, paid: nat, stream: Stream, i: nat, faulty: bool, err: Option<Error>)
    requires stream.interactive && i < |stream.events| && err.Some?
    requires faulty || (!Serviceable(b, paid, stream.events[..i + 1]) && HaltsAt(b, paid, stream.events, i, err.value))
    ensures FailsAsItMust(b, paid, stream, faulty, err)
  {
    ServiceableBefore(b, paid, stream.events, i + 1);
    HaltsSomewhere(b, paid, stream, i, err.value);
    hide HaltsAt, Stops, Clean, AllNamed;
  }

  lemma ReadToItsEnd(b: Budget, paid: nat, stream: Stream)
    requires stream.interactive && Serviceable(b, paid, stream.events)
    ensures FailsAsItMust(b, paid, stream, false, stream.ending)
  {
    hide Clean, AllNamed;
  }
}
