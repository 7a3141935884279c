/** A run in which a call id comes back under another tool name (internal/agent/runtime.go:494-504): the
    record is kept by call id and arguments, so the first tool's result answers for the second. */
module Replay {
  import opened Bytes
  import opened Text
  import opened ToolCalls
  import opened RunLog
  import opened AgentRuntime

  /** The log grows by an entry that is in order. */
  lemma Grows(r: Rules, log: seq<Entry>, s: Summary, e: Entry)
    requires Watch(r, log) == s
    ensures Watch(r, log + [e]) == Note(r, s, e)
  {
    WatchSnoc(r, log, e);
  }

  /** A call that is allowed, run and answered inside an interactive stream. */
  function Served(r: Rules, call: ToolCall, output: ToolResult): seq<Entry> {
    var result := Bounded(r, output);
    [Request(call, true), Decide(call, Allow), Emit(RunEvent.ToolStarted(call)), Execute(call, Some(output)),
     Emit(ToolCompleted(call, result)), Answer(call, Result(result)), Reply(call, result.content, true)]
  }

  lemma ServedIsInOrder(r: Rules, log: seq<Entry>, call: ToolCall, output: ToolResult)
    requires var s := Watch(r, log);
             && s.sound && s.phase == Open && s.stage == Idle && JustDone(s.stream, call)
             && s.announced == InteractiveAnnouncements(s.stream) && call.id !in s.known && Affordable(r, s, true)
    ensures var s := Watch(r, log);
            Watch(r, log + Served(r, call, output)) ==
              s.(requested := s.requested + [call],
                 known := s.known[call.id := Known(call.name, r.canonical(call.arguments), Bounded(r, output))])
  {
    hide Watch, Note, InOrder, Bounded, InteractiveAnnouncements, LastCall;
    var result := Bounded(r, output);
    var s0 := Watch(r, log);
    MayRequestInside(r, s0, call);
    Requests(r, s0, call, true);
    Grows(r, log, s0, Request(call, true));
    var l1 := log + [Request(call, true)];
    var s1 := s0.(requested := s0.requested + [call], stage := Asked(call));
    Decides(r, s1, call, Allow);
    Grows(r, l1, s1, Decide(call, Allow));
    var l2, s2 := l1 + [Decide(call, Allow)], s1.(stage := Cleared(call));
    Announces(r, s2, call);
    Grows(r, l2, s2, Emit(RunEvent.ToolStarted(call)));
    var l3, s3 := l2 + [Emit(RunEvent.ToolStarted(call))], s2.(stage := Announced(call));
    Executes(r, s3, call, Some(output));
    Grows(r, l3, s3, Execute(call, Some(output)));
    var l4 := l3 + [Execute(call, Some(output))];
    var s4 := Watch(r, l4);
    assert s4 == s3.(stage := Ran(call, Some(result)),
                     known := s3.known[call.id := Known(call.name, r.canonical(call.arguments), result)]);
    Completes(r, s4, call, result);
    Grows(r, l4, s4, Emit(ToolCompleted(call, result)));
    var l5, s5 := l4 + [Emit(ToolCompleted(call, result))], s4.(stage := Reported(call, result));
    Answers(r, s5, call, Result(result));
    Grows(r, l5, s5, Answer(call, Result(result)));
    var l6, s6 := l5 + [Answer(call, Result(result))], s5.(stage := Settled(call, Result(result)));
    RepliesInside(r, s6, call, result.content);
    Grows(r, l6, s6, Reply(call, result.content, true));
    assert l6 + [Reply(call, result.content, true)] == log + Served(r, call, output);
  }

  /** A call whose id is known, with the same arguments, is answered from the record under any name. */
  lemma RepeatIsInOrder(r: Rules, log: seq<Entry>, call: ToolCall)
    requires var s := Watch(r, log);
             && s.sound && s.phase == Open && s.stage == Idle && JustDone(s.stream, call)
             && s.announced == InteractiveAnnouncements(s.stream)
             && Affordable(r, s, true)
             && call.id in s.known && s.known[call.id].arguments == r.canonical(call.arguments)
    ensures var answer := Result(Watch(r, log).known[call.id].result);
            Watch(r, log + [Request(call, true), Answer(call, answer)]).sound
  {
    hide Watch, Note, InOrder, InteractiveAnnouncements, LastCall;
    var s0 := Watch(r, log);
    var answer := Result(s0.known[call.id].result);
    MayRequestInside(r, s0, call);
    Requests(r, s0, call, true);
    Grows(r, log, s0, Request(call, true));
    var l1 := log + [Request(call, true)];
    var s1 := s0.(requested := s0.requested + [call], stage := Asked(call));
    Answers(r, s1, call, answer);
    Grows(r, l1, s1, Answer(call, answer));
    assert l1 + [Answer(call, answer)] == log + [Request(call, true), Answer(call, answer)];
  }

  /** The opening of a run and the first request to the model. */
  function Opening(r: Rules): seq<Entry> {
    [Emit(RunStarted), Start(r.original, r.choice)]
  }

  lemma OpeningIsInOrder(r: Rules)
    ensures Watch(r, Opening(r)) == BEGIN.(starts := 1, phase := Open)
  {
    assert Opening(r)[..1] == [Emit(RunStarted)] && [Emit(RunStarted)][..0] == [];
    assert Watch(r, [Emit(RunStarted)]) == BEGIN.(phase := Open);
    assert r.original + Unroll([]) == r.original;
  }

  function DoneEvent(e: ModelEvent, name: string): ModelEvent {
    e.(kind := CallDone, callId := "x", toolName := name, arguments := "{}", extras := "", usage := NO_USAGE)
  }

  function NamedCall(name: string): ToolCall {
    ToolCall("x", name, "{}", "")
  }

  lemma OneDone(e: ModelEvent, name: string)
    requires name != ""
    ensures var one, call := [DoneEvent(e, name)], NamedCall(name);
            && JustDone(one, call) && InteractiveAnnouncements(one) == [call] && Ids([call]) == ["x"]
            && Gather(one) == Table(map["x" := Builder("x", name, "{}", "")], ["x"])
  {
    var d := DoneEvent(e, name);
    assert [] + [d] == [d];
    BlankOrNot("x");
    BlankOrNot("{}");
    TrimSpaceTrims("{}");
    hide TrimSpace, InteractiveAnnouncements, Gather;
    EmptyStream([]);
    HeardNext([], d);
    assert InteractiveAnnouncements([]) + [LastCall([d])] == [NamedCall(name)];
  }

  /** The stream of two done events with one id: the second only changes the name. */
  lemma OneIdTwoNames(e: ModelEvent, first: string, second: string)
    requires first != "" && second != ""
    ensures var one := [DoneEvent(e, first)];
            var two := one + [DoneEvent(e, second)];
            && JustDone(one, NamedCall(first)) && InteractiveAnnouncements(one) == [NamedCall(first)]
            && JustDone(two, NamedCall(second)) && InteractiveAnnouncements(two) == InteractiveAnnouncements(one)
  {
    var d1, d2 := DoneEvent(e, first), DoneEvent(e, second);
    OneDone(e, first);
    BlankOrNot("x");
    BlankOrNot("{}");
    TrimSpaceTrims("{}");
    hide TrimSpace, InteractiveAnnouncements, Gather, Ids;
    HeardNext([d1], d2);
    assert InteractiveAnnouncements([d1]) + [] == InteractiveAnnouncements([d1]);
  }

  lemma NothingSpent(e: ModelEvent, first: string, second: string)
    ensures SumOf([DoneEvent(e, first)]) == SumOf([DoneEvent(e, first)] + [DoneEvent(e, second)]) == NO_USAGE
  {
    var d1, d2 := DoneEvent(e, first), DoneEvent(e, second);
    assert [d1][..0] == [] && ([d1] + [d2])[..1] == [d1];
    assert SumOf([d1]) == Plus(NO_USAGE, NO_USAGE);
  }

  lemma NothingIsAffordable(r: Rules, s: Summary)
    requires SumOf(s.stream) == NO_USAGE
    ensures Affordable(r, s, true)
  {
  }

  /** The entries of the run: the first call is announced and served, the second only reported done. */
  function RenamedRun(r: Rules, e: ModelEvent, first: string, second: string, output: ToolResult): seq<Entry> {
    Opening(r) + [Receive(DoneEvent(e, first))] + [Emit(CallAnnounced(NamedCall(first)))]
    + Served(r, NamedCall(first), output) + [Receive(DoneEvent(e, second))]
  }

  lemma RenamedRunIsInOrder(r: Rules, e: ModelEvent, first: string, second: string, output: ToolResult)
    requires first != "" && second != ""
    ensures var s := Watch(r, RenamedRun(r, e, first, second, output));
            && s.sound && s.phase == Open && s.stage == Idle && JustDone(s.stream, NamedCall(second))
            && s.announced == InteractiveAnnouncements(s.stream) && Affordable(r, s, true)
            && s.known == map["x" := Known(first, r.canonical("{}"), Bounded(r, output))]
  {
    OneIdTwoNames(e, first, second);
    OpeningIsInOrder(r);
    NothingSpent(e, first, second);
    hide Watch, Note, InOrder, Bounded, InteractiveAnnouncements, JustDone, LastCall, Served, Opening, SumOf,
        Affordable;
    var d1, d2, call := DoneEvent(e, first), DoneEvent(e, second), NamedCall(first);
    var l0 := Opening(r);
    var s0 := Watch(r, l0);
    Receives(r, s0, d1);
    Grows(r, l0, s0, Receive(d1));
    var l1 := l0 + [Receive(d1)];
    var s1 := Watch(r, l1);
    assert s1.stream == [d1];
    DoneIsToBeTold(s1.stream, call);
    Tells(r, s1, CallAnnounced(call));
    Grows(r, l1, s1, Emit(CallAnnounced(call)));
    var l2 := l1 + [Emit(CallAnnounced(call))];
    var s2 := Watch(r, l2);
    assert s2.announced == [call];
    NothingIsAffordable(r, s2);
    ServedIsInOrder(r, l2, call, output);
    var l3 := l2 + Served(r, call, output);
    var s3 := Watch(r, l3);
    Receives(r, s3, d2);
    Grows(r, l3, s3, Receive(d2));
    NothingIsAffordable(r, Watch(r, l3 + [Receive(d2)]));
    assert RenamedRun(r, e, first, second, output) == l3 + [Receive(d2)];
  }

  lemma DoneIsToBeTold(stream: seq<ModelEvent>, call: ToolCall)
    requires JustDone(stream, call)
    ensures Retells(stream, CallAnnounced(call))
  {
  }

  /** A run in order in which the result of one tool answers a call of another that never ran. */
  lemma RenamedRepeatIsServed(r: Rules, e: ModelEvent, first: string, second: string, output: ToolResult)
    requires first != "" && second != "" && first != second
    ensures var call, result := NamedCall(second), Bounded(r, output);
            var log := RenamedRun(r, e, first, second, output) + [Request(call, true), Answer(call, Result(result))];
            Watch(r, log).sound && !Produced(r, log, call, result)
  {
    hide Watch, Bounded, RenamedRun, InteractiveAnnouncements, JustDone, Affordable;
    var call, result := NamedCall(second), Bounded(r, output);
    RenamedRunIsInOrder(r, e, first, second, output);
    RepeatIsInOrder(r, RenamedRun(r, e, first, second, output), call);
    var run, last := RenamedRun(r, e, first, second, output), [Request(call, true), Answer(call, Result(result))];
    OnlyTheFirstRuns(r, e, first, second, output);
    assert RunsOnly(last, first);
    RunsOnlyBoth(run, last, first);
  }

  ghost predicate RunsOnly(log: seq<Entry>, name: string) {
    forall i :: 0 <= i < |log| && log[i].Execute? ==> log[i].call.name == name
  }

  lemma RunsOnlyBoth(a: seq<Entry>, b: seq<Entry>, name: string)
    requires RunsOnly(a, name) && RunsOnly(b, name)
    ensures RunsOnly(a + b, name)
  {
  }

  lemma OnlyTheFirstRuns(r: Rules, e: ModelEvent, first: string, second: string, output: ToolResult)
    ensures RunsOnly(RenamedRun(r, e, first, second, output), first)
  {
    hide Bounded;
    var told := Opening(r) + [Receive(DoneEvent(e, first))] + [Emit(CallAnnounced(NamedCall(first)))];
    assert RunsOnly(told, first);
    var served := Served(r, NamedCall(first), output);
    assert RunsOnly(served, first);
    RunsOnlyBoth(told, served, first);
    RunsOnlyBoth(told + served, [Receive(DoneEvent(e, second))], first);
  }
}
