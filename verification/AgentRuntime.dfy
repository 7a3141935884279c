/** The model and tool loop (internal/agent/runtime.go). The model, the authorizer, the owner, the tools,
    the event sink and cancellation answer as they please; one object is one run. */
module AgentRuntime {
  import opened Bytes
  import opened Text
  import opened ToolCalls
  import opened RunLog
  import opened Verdicts

  datatype RunResult = RunResult(message: Option<Message>, toolCalls: seq<ToolCall>, steps: nat, usage: Usage)

  /** How a turn leaves the run. */
  datatype Outcome = Again | Finished(message: Message) | Failed(err: Error)

  const NO_RESULT: RunResult := RunResult(None, [], 0, NO_USAGE)

  function Handled(r: ToolResult, err: Option<Error>): CallAnswer {
    if err.None? then Result(r) else Failure(err.value.text)
  }

  /** What has gone wrong outside the runtime: every error raised to it, and how many of them ended the run. */
  datatype Environment = Environment(raised: seq<Error>, faults: nat)

  /** An error may have been raised, and the run may end because of it. */
  function Bothered(env: Environment, err: Option<Error>, ends: bool): Environment {
    if err.Some? then Environment(env.raised + [err.value], env.faults + (if ends then 1 else 0))
    else env
  }

  predicate ValidCall(call: ToolCall) {
    TrimSpace(call.id) != "" && TrimSpace(call.name) != "" && call.arguments != ""
  }

  /** The replay cache on both sides: the runtime's two maps and the automaton's one. */
  ghost predicate Recorded(seen: map<string, ToolResult>, seenArgs: map<string, string>, known: map<string, Known>) {
    && seen.Keys == known.Keys
    && seenArgs.Keys == known.Keys
    && forall id :: id in known ==> known[id].arguments == seenArgs[id] && known[id].result == seen[id]
  }

  lemma Receives(r: Rules, s: Summary, e: ModelEvent)
    requires s.phase == Open && s.stage == Idle && s.sound
    ensures InOrder(r, s, Entry.Receive(e))
    ensures Note(r, s, Entry.Receive(e)) == s.(received := s.received + [e], stream := s.stream + [e])
  {
  }

  lemma Begins(r: Rules)
    ensures InOrder(r, BEGIN, Emit(RunStarted)) && Note(r, BEGIN, Emit(RunStarted)) == BEGIN.(phase := Open)
    ensures SumOf([]) == NO_USAGE && AllWhole([]) && Nudges([]) == 0 && r.original + Unroll([]) == r.original
  {
  }

  /** Passing on a piece of the model's output. */
  function Told(s: Summary, e: RunEvent): Summary {
    s.(heard := s.heard + (if e.ModelText? then e.text else ""),
       announced := s.announced + (if e.CallAnnounced? then [e.call] else []))
  }

  /** What may be passed on after the last event received. */
  predicate Retells(stream: seq<ModelEvent>, e: RunEvent) {
    && stream != []
    && var last := stream[|stream| - 1];
       || (last.kind.TextDelta? && e == ModelText(last.response, last.text))
       || (AboutCall(last) && e == CallAnnounced(LastCall(stream)))
  }

  lemma Tells(r: Rules, s: Summary, e: RunEvent)
    requires s.phase == Open && s.stage == Idle && s.sound && Retells(s.stream, e)
    ensures InOrder(r, s, Emit(e)) && Note(r, s, Emit(e)) == Told(s, e)
  {
  }

  /** The steps of one tool call, each from the stage before to the stage after. */
  lemma Requests(r: Rules, s: Summary, call: ToolCall, interactive: bool)
    requires s.sound && InOrder(r, s, Request(call, interactive))
    ensures s.phase == Open
    ensures Note(r, s, Request(call, interactive)) == s.(requested := s.requested + [call], stage := Asked(call))
  {
  }

  lemma Decides(r: Rules, s: Summary, call: ToolCall, decision: Decision)
    requires s.phase == Open && s.sound && s.stage == Asked(call) && call.id !in s.known
    ensures InOrder(r, s, Decide(call, decision))
    ensures Note(r, s, Decide(call, decision)) == s.(stage :=
              if decision.Allow? then Cleared(call)
              else if decision.NeedsApproval? then Pending(call)
              else Refused(call))
  {
  }

  lemma Asks(r: Rules, s: Summary, call: ToolCall)
    requires s.phase == Open && s.sound && s.stage == Pending(call)
    ensures InOrder(r, s, Emit(RunEvent.ApprovalNeeded(call)))
    ensures Note(r, s, Emit(RunEvent.ApprovalNeeded(call))) == s.(stage := Waiting(call))
  {
  }

  lemma Approves(r: Rules, s: Summary, call: ToolCall, granted: bool)
    requires s.phase == Open && s.sound && s.stage == Waiting(call)
    ensures InOrder(r, s, Approve(call, granted))
    ensures Note(r, s, Approve(call, granted)) == s.(stage := if granted then Cleared(call) else Denied(call))
  {
  }

  lemma Announces(r: Rules, s: Summary, call: ToolCall)
    requires s.phase == Open && s.sound && s.stage == Cleared(call)
    ensures InOrder(r, s, Emit(RunEvent.ToolStarted(call)))
    ensures Note(r, s, Emit(RunEvent.ToolStarted(call))) == s.(stage := Announced(call))
  {
  }

  lemma Executes(r: Rules, s: Summary, call: ToolCall, output: Option<ToolResult>)
    requires s.phase == Open && s.sound && s.stage == Announced(call) && call.id !in s.known
    ensures InOrder(r, s, Execute(call, output))
    ensures Note(r, s, Execute(call, output)) ==
              if output.None? then s.(stage := Ran(call, None))
              else
                var kept := Bounded(r, output.value);
                s.(stage := Ran(call, Some(kept)),
                    known := s.known[call.id := Known(call.name, r.canonical(call.arguments), kept)])
  {
    hide Bounded;
  }

  lemma Completes(r: Rules, s: Summary, call: ToolCall, result: ToolResult)
    requires s.phase == Open && s.sound
    requires || (s.stage == Denied(call) && result.isError && result.denied)
             || s.stage == Ran(call, Some(result))
             || (s.stage == Ran(call, None) && result.isError)
    ensures InOrder(r, s, Emit(ToolCompleted(call, result)))
    ensures Note(r, s, Emit(ToolCompleted(call, result))) == s.(stage := Reported(call, result))
  {
  }

  lemma Answers(r: Rules, s: Summary, call: ToolCall, answer: CallAnswer)
    requires s.phase == Open && s.sound && MayAnswer(r, s, call, answer)
    ensures InOrder(r, s, Answer(call, answer))
    ensures Note(r, s, Answer(call, answer)) == s.(stage := Settled(call, answer))
  {
    hide MayAnswer;
  }

  lemma EmptyStream(events: seq<ModelEvent>)
    ensures events[..0] == [] && SumOf([]) == NO_USAGE && TextOf([]) == "" && Gather([]) == NO_CALLS
    ensures DoneCalls([]) == []
    ensures Announcements([]) == [] && InteractiveAnnouncements([]) == []
  {
  }

  lemma StreamSnoc(events: seq<ModelEvent>, i: nat)
    requires i < |events|
    ensures var e := events[i];
            && events[..i + 1] == events[..i] + [e]
            && SumOf(events[..i + 1]) == Plus(SumOf(events[..i]), e.usage)
            && TextOf(events[..i + 1]) == TextOf(events[..i]) + (if e.kind.TextDelta? then e.text else "")
            && Gather(events[..i + 1]) == (if AboutCall(e) then Take(Gather(events[..i]), e) else Gather(events[..i]))
            && DoneCalls(events[..i + 1])
                  == DoneCalls(events[..i]) + (if e.kind.CallDone? then [LastCall(events[..i + 1])] else [])
            && (AboutCall(e) ==>
                  LastCall(events[..i + 1])
                  == CallOf(BuilderFor(Take(Gather(events[..i]), e), EventId(Gather(events[..i]), e))))
            && Announcements(events[..i + 1]) == Announcements(events[..i])
               + (if e.kind.CallStarted?
                   || (e.kind.CallDone? && EventId(Gather(events[..i]), e) !in Gather(events[..i]).builders)
                  then [LastCall(events[..i + 1])] else [])
  {
    assert events[..i + 1][..i] == events[..i];
    GatherSnoc(events, i);
  }

  lemma GatheredCallsAreDistinct(events: seq<ModelEvent>)
    ensures DistinctIds(Ids(CallsOf(Gather(events))))
  {
    GatheredIsOrderly(events);
    hide Gather;
    var t := Gather(events);
    assert forall i :: 0 <= i < |t.order| ==> t.order[i] in t.builders && Ids(CallsOf(t))[i] == t.order[i];
  }

  /** A call handled inside a stream leaves the stage idle again. */
  lemma RepliesInside(r: Rules, s: Summary, call: ToolCall, content: seq<byte>)
    requires s.phase == Open && s.sound && s.stage.Settled? && s.stage.call == call
    requires content == ContentOf(s.stage.answer)
    ensures var e := Reply(call, content, true);
            InOrder(r, s, e) && Note(r, s, e) == s.(stage := Idle)
  {
  }

  /** Between two moments of a stream: events received, calls requested, results recorded, nothing else. */
  predicate Interaction(before: Summary, after: Summary, taken: seq<ModelEvent>, executed: seq<ToolCall>) {
    after == before.(
      received := before.received + taken, stream := before.stream + taken, heard := after.heard,
      announced := after.announced, requested := before.requested + executed,
      known := after.known, stage := after.stage)
  }

  lemma OnlyReceivedIsInteraction(before: Summary, after: Summary, e: ModelEvent)
    requires after == before.(received := before.received + [e], stream := before.stream + [e])
    ensures Interaction(before, after, [e], [])
  {
  }

  /** Passing something on does not change what an interaction did. */
  lemma TellingIsInteraction(before: Summary, between: Summary, after: Summary, taken: seq<ModelEvent>)
    requires Interaction(before, between, taken, [])
    requires after == between.(heard := after.heard, announced := after.announced)
    ensures Interaction(before, after, taken, [])
  {
  }

  lemma InteractionGoesOn(
    before: Summary, between: Summary, after: Summary, taken: seq<ModelEvent>, e: ModelEvent,
    executed: seq<ToolCall>, ran: seq<ToolCall>)
    requires Interaction(before, between, taken, executed) && Interaction(between, after, [e], ran)
    ensures Interaction(before, after, taken + [e], executed + ran)
    ensures after.stream == between.stream + [e] && after.phase == between.phase
  {
    Associative(before.received, taken, [e]);
    Associative(before.stream, taken, [e]);
    Associative(before.requested, executed, ran);
  }

  /** Nothing has come from the model yet. */
  predicate FreshStream(s: Summary) {
    s.stream == [] && s.heard == "" && s.announced == []
  }

  /** A stream taken to its end: its text passed on, its calls announced and run. */
  predicate Completed(s: Summary, stream: seq<ModelEvent>, text: string, executed: seq<ToolCall>) {
    && text == TextOf(stream) && text == s.heard && executed == DoneCalls(stream)
    && s.announced == InteractiveAnnouncements(stream)
  }

  predicate JustDone(stream: seq<ModelEvent>, call: ToolCall) {
    stream != [] && stream[|stream| - 1].kind.CallDone? && call == LastCall(stream)
  }

  lemma MayRequestInside(r: Rules, s: Summary, call: ToolCall)
    requires s.phase == Open && s.stage == Idle && JustDone(s.stream, call)
    requires s.announced == InteractiveAnnouncements(s.stream) && Affordable(r, s, true)
    ensures InOrder(r, s, Request(call, true))
  {
  }

  lemma MayRequest(r: Rules, s: Summary, call: ToolCall)
    requires s.phase == Open && s.stage == Idle && Awaits(s.blocks, call) && (r.choice.mode.Required? ==> s.satisfied)
    requires Affordable(r, s, false)
    ensures InOrder(r, s, Request(call, false))
  {
  }

  lemma Replies(r: Rules, s: Summary, call: ToolCall, content: seq<byte>)
    requires s.phase == Open && s.sound && s.stage.Settled? && s.stage.call == call && Awaits(s.blocks, call)
    requires content == ContentOf(s.stage.answer)
    ensures var e := Reply(call, content, false);
            InOrder(r, s, e) && Note(r, s, e) == s.(stage := Idle, blocks := Answered(s.blocks, content))
  {
  }

  lemma TakesTurn(r: Rules, s: Summary, text: string, calls: seq<ToolCall>, interactive: bool)
    requires s.phase == Open && s.sound && s.stage == Idle && AllWhole(s.blocks)
    requires (!interactive ==> DistinctIds(Ids(calls)))
    requires |s.turns| == |s.blocks| && text == TextOf(s.stream) && text == s.heard
    requires calls == (if interactive then DoneCalls(s.stream) else CallsOf(Gather(s.stream)))
    requires s.announced == (if interactive then InteractiveAnnouncements(s.stream) else Announcements(s.stream))
    ensures var e := Turn(text, calls, interactive);
            && InOrder(r, s, e)
            && Note(r, s, e) == s.(
                 turns := s.turns + [Said(text, calls)],
                 satisfied := s.satisfied || RequiredToolSatisfied(r.choice, calls),
                 blocks := if !interactive && calls != [] then s.blocks + [Exchange(text, calls, [])] else s.blocks)
  {
  }

  /** Within an exchange: the next call is awaited until the last has been answered. */
  lemma Serving(base: seq<Block>, text: string, calls: seq<ToolCall>, answers: seq<seq<byte>>)
    requires AllWhole(base) && calls != [] && DistinctIds(Ids(calls)) && |answers| <= |calls|
    ensures var blocks := base + [Exchange(text, calls, answers)];
            && (|answers| < |calls| ==> Awaits(blocks, calls[|answers|]))
            && (|answers| == |calls| ==> AllWhole(blocks))
            && (forall content :: Answered(blocks, content) == base + [Exchange(text, calls, answers + [content])])
  {
    hide DistinctIds, Ids;
    var blocks := base + [Exchange(text, calls, answers)];
    assert blocks[..|blocks| - 1] == base;
  }

  lemma NothingSatisfies(choice: ToolChoice)
    ensures !RequiredToolSatisfied(choice, [])
  {
  }

  lemma SatisfiedWhenRequired(choice: ToolChoice, calls: seq<ToolCall>)
    ensures RequiredToolSatisfied(choice, calls) ==> choice.mode.Required? && calls != []
  {
  }

  lemma MayNudge(r: Rules, s: Summary, text: string)
    requires s.phase == Open && s.sound && s.stage == Idle && AllWhole(s.blocks) && r.choice.mode.Required?
    requires !s.satisfied
    requires |s.turns| == |s.blocks| + 1 && s.turns[|s.blocks|] == Said(text, [])
    ensures InOrder(r, s, Nudge(text)) && Note(r, s, Nudge(text)) == s.(blocks := s.blocks + [Nudged(text)])
    ensures AllWhole(s.blocks + [Nudged(text)])
  {
  }

  lemma NudgeUnrolls(original: seq<Message>, blocks: seq<Block>, text: string)
    ensures original + Unroll(blocks + [Nudged(text)])
         == original + Unroll(blocks) + [Assistant(text, [])] + [NudgeMessage]
    ensures Nudges(blocks + [Nudged(text)]) == Nudges(blocks) + 1
  {
    hide Unroll, Nudges, AnswersOf, PairsOf;
    var said, nudge: seq<Message> := [Assistant(text, [])], [NudgeMessage];
    UnrollSnoc(blocks, Nudged(text));
    assert Shown(Nudged(text)) == said + nudge;
    hide Shown;
    Associative(original, Unroll(blocks), said + nudge);
    Associative(original + Unroll(blocks), said, nudge);
  }

  lemma TurnUnrolls(original: seq<Message>, blocks: seq<Block>, text: string, calls: seq<ToolCall>)
    ensures original + Unroll(blocks + [Exchange(text, calls, [])])
         == original + Unroll(blocks) + [Assistant(text, calls)]
    ensures Nudges(blocks + [Exchange(text, calls, [])]) == Nudges(blocks)
  {
    hide Unroll, Nudges, Shown;
    UnansweredUnrolls(blocks, text, calls);
    Associative(original, Unroll(blocks), [Assistant(text, calls)]);
  }

  lemma HeardNext(stream: seq<ModelEvent>, e: ModelEvent)
    ensures Gather(stream + [e]) == if AboutCall(e) then Take(Gather(stream), e) else Gather(stream)
    ensures (AboutCall(e) ==>
               LastCall(stream + [e]) == CallOf(BuilderFor(Take(Gather(stream), e), EventId(Gather(stream), e))))
    ensures (stream + [e])[|stream + [e]| - 1] == e
    ensures var so := InteractiveAnnouncements(stream);
            var now := AboutCall(e) && EventId(Gather(stream), e) !in Ids(so) && !e.kind.CallDelta?;
            && InteractiveAnnouncements(stream + [e]) == so + (if now then [LastCall(stream + [e])] else [])
            && Ids(InteractiveAnnouncements(stream + [e]))
                  == Ids(so) + (if now then [EventId(Gather(stream), e)] else [])
  {
    assert (stream + [e])[..|stream|] == stream;
    if AboutCall(e) {
      LastCallId(stream + [e]);
    }
  }

  lemma LastEvent(stream: seq<ModelEvent>)
    requires stream != []
    ensures var e := stream[|stream| - 1];
            && (e.kind.TextDelta? ==> Retells(stream, ModelText(e.response, e.text)))
            && (AboutCall(e) ==> Retells(stream, CallAnnounced(LastCall(stream))))
            && (e.kind.CallDone? ==> JustDone(stream, LastCall(stream)))
  {
  }

  /** "tool execution denied by user" */
  const DENIED: seq<byte> := [
    116, 111, 111, 108, 32, 101, 120, 101, 99, 117, 116, 105, 111, 110, 32, 100, 101, 110, 105, 101, 100, 32, 98, 121,
    32, 117, 115, 101, 114]

  class AgentRun {
    const rules: Rules
    const budget: Budget
    /** The registered tools, each with whether its descriptor is valid. */
    const tools: map<string, bool>
    const isObject: string -> bool
    const hasAuthorizer: bool
    const hasApprovals: bool

    var seen: map<string, ToolResult>
    var seenArgs: map<string, string>
    var toolCallsUsed: nat
    var messages: seq<Message>
    var result: RunResult
    var requiredPending: bool
    var requiredMisses: nat

    ghost var log: seq<Entry>
    ghost var s: Summary
    ghost var env: Environment
    /** The streams the model has answered with. */
    ghost var streams: seq<Stream>

    ghost predicate Tracked()
      reads this`log, this`s, this`seen, this`seenArgs
    {
      && s == Watch(rules, log) && s.sound && Recorded(seen, seenArgs, s.known)
      && rules.maxOutput == budget.maxToolOutput && rules.maxTokens == budget.maxTokens
    }

    constructor (request: Rules, budget: Budget, tools: map<string, bool>, isObject: string -> bool,
        hasAuthorizer: bool, hasApprovals: bool)
      ensures Tracked() && log == [] && s == BEGIN && toolCallsUsed == 0 && env == Environment([], 0) && streams == []
      ensures this.budget == NormalizedBudget(budget) && rules.original == request.original
      ensures rules.choice == request.choice
    {
      this.budget := NormalizedBudget(budget);
      rules := request.(maxOutput := NormalizedBudget(budget).maxToolOutput,
                        maxTokens := NormalizedBudget(budget).maxTokens);
      this.tools, this.isObject, this.hasAuthorizer, this.hasApprovals := tools, isObject, hasAuthorizer, hasApprovals;
      seen, seenArgs, toolCallsUsed := map[], map[], 0;
      messages, result, requiredPending, requiredMisses := [], NO_RESULT, false, 0;
      log, s, env, streams := [], BEGIN, Environment([], 0), [];
    }

    ghost method Log(e: Entry)
      requires Tracked() && InOrder(rules, s, e) && !(e.Execute? && e.output.Some?)
      modifies this`log, this`s
      ensures Tracked() && s == Note(rules, old(s), e) && log == old(log) + [e]
    {
      WatchSnoc(rules, log, e);
      log, s := log + [e], Note(rules, s, e);
    }

    /** The owner, a tool, the sink, the backend or the context: any of them may answer with an error. */
    method Outside() returns (err: Option<Error>)
      modifies this`env
      ensures env == Bothered(old(env), err, false)
    {
      err := *;
      if err.Some? {
        Raise(err.value);
      }
    }

    ghost method Raise(e: Error)
      modifies this`env
      ensures env == old(env).(raised := old(env).raised + [e])
    {
      env := env.(raised := env.raised + [e]);
    }

    /** The error that ends the run is the one just raised, unless an approval is needed and nobody to give it. */
    ghost predicate Blamable(e: Error)
      reads this`env
    {
      (env.raised != [] && env.raised[|env.raised| - 1] == e) || (e.kind.ApprovalRequired? && !hasApprovals)
    }

    ghost method Blame(e: Error)
      requires Blamable(e)
      modifies this`env
      ensures env == old(env).(faults := old(env).faults + 1)
    {
      env := env.(faults := env.faults + 1);
    }

    method ContextError() returns (err: Option<Error>)
      modifies this`env
      ensures env == Bothered(old(env), err, false) && (err.Some? ==> Interrupted(err.value))
    {
      err := None;
      if * {
        err := Some(Error(Cancelled, []));
      } else if * {
        err := Some(Error(DeadlineExceeded, []));
      }
      if err.Some? {
        Raise(err.value);
      }
    }

    /** Deliver one event, unless the run has been cancelled; the sink may object. Inside a tool call that
        does not yet end the run. */
    method Send(e: RunEvent, ghost inside: bool) returns (err: Option<Error>)
      requires Tracked() && InOrder(rules, s, Emit(e))
      modifies this`log, this`s, this`env
      ensures Tracked() && env == Bothered(old(env), err, !inside)
      ensures (s == old(s) && log == old(log) && err.Some? && Interrupted(err.value))
              || (s == Note(rules, old(s), Emit(e)) && log == old(log) + [Emit(e)])
    {
      hide Watch, Recorded, Note, InOrder;
      err := ContextError();
      if err.None? {
        Log(Emit(e));
        err := Outside();
      }
      if err.Some? && !inside {
        Blame(err.value);
      }
    }

    /** The last event is delivered even to a cancelled run; an objection matters to a run that succeeds. */
    method SendTerminal(e: RunEvent) returns (err: Option<Error>)
      requires Tracked() && InOrder(rules, s, Emit(e))
      modifies this`log, this`s, this`env
      ensures Tracked() && s == Note(rules, old(s), Emit(e)) && log == old(log) + [Emit(e)]
      ensures env == Bothered(old(env), err, e.RunCompleted?)
    {
      hide Watch, Recorded, Note, InOrder;
      Log(Emit(e));
      err := Outside();
      if err.Some? && e.RunCompleted? {
        Blame(err.value);
      }
    }

    // ----- one tool call

    /** Only the stage and the record of results have moved. */
    ghost predicate OnlyTheToolMoved(before: Summary)
      reads this
    {
      s == before.(known := s.known, stage := s.stage)
    }

    /** Inside a tool call nothing ends the run yet, but a fatal error says what will; of several errors raised
        the last is reported. */
    ghost predicate Quarrels(before: Environment, err: Option<Error>)
      reads this`env
    {
      && env.faults == before.faults
      && (err.None? ==> env == before)
      && (err.Some? && Fatal(err.value) ==> Blamable(err.value))
      && (err.Some? && env.raised != before.raised ==> env.raised != [] && err.value == env.raised[|env.raised| - 1])
    }

    method RunTool(call: ToolCall) returns (r: ToolResult, err: Option<Error>)
      requires Tracked() && s.phase == Open && s.stage == Cleared(call) && call.id !in s.known
      modifies this`log, this`s, this`seen, this`seenArgs, this`env
      ensures Tracked() && OnlyTheToolMoved(old(s)) && old(log) <= log
      ensures Quarrels(old(env), err) && (env.raised == old(env).raised ==> err.None?)
      ensures MayAnswer(rules, s, call, Handled(r, err))
    {
      hide Watch, Recorded, Note, InOrder, Bounded;
      r := ToolResult([], false, false, false);
      Announces(rules, s, call);
      err := Send(RunEvent.ToolStarted(call), true);
      if err.Some? {
        return;
      }
      var failure := Outside();
      if failure.Some? {
        err := ReportFailure(call, failure.value);
        return;
      }
      var output: ToolResult := *;
      r := Shortened(output);
      Record(call, output, r);
      Completes(rules, s, call, r);
      err := Send(ToolCompleted(call, r), true);
    }

    /** An output over the limit is cut and marked as an error. */
    method Shortened(output: ToolResult) returns (r: ToolResult)
      requires rules.maxOutput == budget.maxToolOutput
      ensures r == Bounded(rules, output)
    {
      hide Truncated;
      r := output;
      if budget.maxToolOutput > 0 && |r.content| > budget.maxToolOutput {
        var cut := TruncateUTF8(r.content, budget.maxToolOutput);
        r := r.(content := cut, isError := true, truncated := true);
      }
    }

    /** The sink hears of a failed tool; if it objects, its objection takes the place of the failure. */
    method ReportFailure(call: ToolCall, failure: Error) returns (err: Option<Error>)
      requires Tracked() && s.phase == Open && s.stage == Announced(call) && call.id !in s.known
      requires env.raised != [] && env.raised[|env.raised| - 1] == failure
      modifies this`log, this`s, this`env
      ensures Tracked() && OnlyTheToolMoved(old(s)) && s.known == old(s.known) && old(log) <= log
      ensures err.Some? && env.faults == old(env).faults && old(env).raised <= env.raised
      ensures err.value == env.raised[|env.raised| - 1]
      ensures MayAnswer(rules, s, call, Failure(err.value.text))
    {
      hide Watch, Recorded, Note, InOrder;
      Executes(rules, s, call, None);
      Log(Execute(call, None));
      var failed := ToolResult(failure.text, true, false, false);
      Completes(rules, s, call, failed);
      err := Send(ToolCompleted(call, failed), true);
      if err.None? {
        err := Some(failure);
      }
    }

    /** The success is recorded before anyone hears of it. */
    method Record(call: ToolCall, ghost output: ToolResult, r: ToolResult)
      requires Tracked() && s.phase == Open && s.stage == Announced(call) && call.id !in s.known
      requires r == Bounded(rules, output)
      modifies this`log, this`s, this`seen, this`seenArgs
      ensures Tracked() && log == old(log) + [Execute(call, Some(output))]
      ensures s == old(s).(stage := Ran(call, Some(r)),
              known := old(s).known[call.id := Known(call.name, rules.canonical(call.arguments), r)])
    {
      hide Watch, Note, InOrder, Bounded;
      Executes(rules, s, call, Some(output));
      WatchSnoc(rules, log, Execute(call, Some(output)));
      seen := seen[call.id := r];
      seenArgs := seenArgs[call.id := rules.canonical(call.arguments)];
      log, s := log + [Execute(call, Some(output))], Note(rules, s, Execute(call, Some(output)));
    }

    /** Everything that is checked before a call is looked up in the record. */
    predicate Acceptable(call: ToolCall)
      reads {}
    {
      ValidCall(call) && isObject(call.arguments) && call.name in tools && tools[call.name]
    }

    /** A decision on which no tool is run and nothing can be answered. */
    predicate Undecided(decision: Decision)
      reads {}
    {
      decision.Unheard? || (decision.NeedsApproval? && !hasApprovals)
    }

    /** Why a call gets an error instead of a result although nobody has raised one. */
    predicate Unanswerable(
      call: ToolCall, seen: map<string, ToolResult>, seenArgs: map<string, string>, decision: Decision)
      requires seen.Keys == seenArgs.Keys
      reads {}
    {
      || !Acceptable(call)
      || (if call.id in seen then seenArgs[call.id] != rules.canonical(call.arguments) else Undecided(decision))
    }

    method HandleTool(call: ToolCall) returns (r: ToolResult, err: Option<Error>, ghost decision: Decision)
      requires Tracked() && s.phase == Open && s.stage == Asked(call)
      modifies this`log, this`s, this`seen, this`seenArgs, this`env
      ensures Tracked() && OnlyTheToolMoved(old(s)) && old(log) <= log
      ensures Quarrels(old(env), err)
      ensures env.raised == old(env).raised ==> (err.Some? <==> Unanswerable(call, old(seen), old(seenArgs), decision))
      ensures Decided(old(log), call, decision)
      ensures MayAnswer(rules, s, call, Handled(r, err))
      ensures call.id in old(seen) ==> log == old(log) && s == old(s)
      ensures (call.id in old(seen) && Acceptable(call) && (err.Some? ==> !Fatal(err.value)) ==>
                 (if old(seenArgs)[call.id] == rules.canonical(call.arguments) then err.None? && r == old(seen)[call.id]
                     else err.Some?))
    {
      hide Watch, Note, InOrder;
      r, decision := ToolResult([], false, false, false), Allow;
      err := ContextError();
      if err.Some? {
        return;
      }
      if !ValidCall(call) || !isObject(call.arguments) {
        return r, Some(Error(ToolArguments, [])), decision;
      }
      if call.name !in tools {
        return r, Some(Error(ToolNotFound, [])), decision;
      }
      if !tools[call.name] {
        return r, Some(Error(InvalidRequest, [])), decision;
      }
      var args := rules.canonical(call.arguments);
      var key := if call.id == "" then call.name + ":" + args else call.id;
      assert key == call.id;
      if key in seen {
        if seenArgs[key] != args {
          return r, Some(Error(InvalidRequest, [])), decision;
        }
        return seen[key], None, decision;
      }
      r, err, decision := Authorized(call);
    }

    /** Only an authorizer decides otherwise than to allow, and the log says so. */
    ghost predicate Decided(before: seq<Entry>, call: ToolCall, decision: Decision)
      reads this`log
    {
      decision != Allow ==> hasAuthorizer && before + [Decide(call, decision)] <= log
    }

    /** The policy check, the owner's approval where it is needed, then the tool. */
    method Authorized(call: ToolCall) returns (r: ToolResult, err: Option<Error>, ghost decision: Decision)
      requires Tracked() && s.phase == Open && s.stage == Asked(call) && call.id !in s.known
      modifies this`log, this`s, this`seen, this`seenArgs, this`env
      ensures Tracked() && OnlyTheToolMoved(old(s)) && old(log) <= log
      ensures Quarrels(old(env), err) && (env.raised == old(env).raised ==> (err.Some? <==> Undecided(decision)))
      ensures Decided(old(log), call, decision)
      ensures MayAnswer(rules, s, call, Handled(r, err))
    {
      hide Watch, Recorded, Note, InOrder;
      r := ToolResult([], false, false, false);
      var policy, reason: seq<byte> := Allow, [];
      decision := policy;
      if hasAuthorizer {
        err := Outside();
        if err.Some? {
          return;
        }
        policy, reason := *, *;
      }
      decision := policy;
      Decides(rules, s, call, policy);
      Log(Decide(call, policy));
      if policy.Deny? {
        return ToolResult(reason, true, false, false), None, policy;
      }
      if policy.Unheard? {
        return r, Some(Error(InvalidRequest, [])), policy;
      }
      if policy.NeedsApproval? {
        var granted;
        granted, r, err := AskOwner(call, reason);
        if !granted || err.Some? {
          return;
        }
      }
      r, err := RunTool(call);
    }

    method AskOwner(call: ToolCall, reason: seq<byte>) returns (granted: bool, denied: ToolResult, err: Option<Error>)
      requires Tracked() && s.phase == Open && s.stage == Pending(call)
      modifies this`log, this`s, this`env
      ensures Tracked() && OnlyTheToolMoved(old(s)) && s.known == old(s.known) && old(log) <= log
      ensures Quarrels(old(env), err) && (env.raised == old(env).raised ==> (err.Some? <==> !hasApprovals))
      ensures granted && err.None? ==> s.stage == Cleared(call)
      ensures !granted || err.Some? ==> MayAnswer(rules, s, call, Handled(denied, err))
    {
      hide Watch, Recorded, Note, InOrder;
      granted, denied := false, ToolResult([], true, true, false);
      Asks(rules, s, call);
      err := Send(RunEvent.ApprovalNeeded(call), true);
      if err.Some? {
        return;
      }
      if !hasApprovals {
        return false, denied, Some(Error(ApprovalRequired, reason));
      }
      err := Outside();
      if err.Some? {
        return;
      }
      granted := *;
      Approves(rules, s, call, granted);
      Log(Approve(call, granted));
      if !granted {
        denied := denied.(content := DENIED);
        Completes(rules, s, call, denied);
        err := Send(ToolCompleted(call, denied), true);
      }
    }

    /** One call from request to answer. */
    method ExecuteTool(call: ToolCall, ghost interactive: bool)
      returns (r: ToolResult, err: Option<Error>, ghost decision: Decision)
      requires Tracked() && InOrder(rules, s, Request(call, interactive))
      modifies this`log, this`s, this`seen, this`seenArgs, this`env
      ensures err.None? ==> env == old(env)
      ensures env.faults == old(env).faults + (if err.Some? && Fatal(err.value) then 1 else 0)
      ensures (err.Some? && env.raised != old(env).raised ==>
                 env.raised != [] && err.value == env.raised[|env.raised| - 1])
      ensures env.raised == old(env).raised ==> (err.Some? <==> Unanswerable(call, old(seen), old(seenArgs), decision))
      ensures Decided(old(log) + [Request(call, interactive)], call, decision)
      ensures Tracked()
      ensures s == old(s).(requested := old(s).requested + [call], known := s.known,
                           stage := Settled(call, Handled(r, err)))
      ensures (call.id in old(seen) ==>
                 log == old(log) + [Request(call, interactive), Answer(call, Handled(r, err))])
      ensures (call.id in old(seen) && Acceptable(call) && (err.Some? ==> !Fatal(err.value)) ==>
                 (if old(seenArgs)[call.id] == rules.canonical(call.arguments) then err.None? && r == old(seen)[call.id]
                     else err.Some?))
    {
      hide Watch, Recorded, Note, InOrder, MayAnswer;
      Requests(rules, s, call, interactive);
      Log(Request(call, interactive));
      r, err, decision := HandleTool(call);
      if err.Some? && Fatal(err.value) {
        Blame(err.value);
      }
      Answers(rules, s, call, Handled(r, err));
      Log(Answer(call, Handled(r, err)));
    }

    // ----- one stream

    /** Pass on a piece of the model's output. */
    method Tell(e: RunEvent) returns (err: Option<Error>)
      requires Tracked() && s.phase == Open && s.stage == Idle && Retells(s.stream, e)
      modifies this`log, this`s, this`env
      ensures Tracked() && (err.None? ==> s == Told(old(s), e)) && env == Bothered(old(env), err, true)
      ensures s == old(s).(heard := s.heard, announced := s.announced)
    {
      hide Watch, Note, InOrder, Recorded;
      Tells(rules, s, e);
      err := Send(e, false);
    }

    method Receive(e: ModelEvent)
      requires Tracked() && s.phase == Open && s.stage == Idle
      modifies this`log, this`s
      ensures Tracked() && s == old(s).(received := old(s).received + [e], stream := old(s).stream + [e])
    {
      hide Watch, Note, InOrder, Recorded;
      Receives(rules, s, e);
      Log(Entry.Receive(e));
    }

    method ConsumeStream(stream: Stream)
      returns (text: string, calls: seq<ToolCall>, usage: Usage, err: Option<Error>, ghost taken: seq<ModelEvent>)
      requires Tracked() && s.phase == Open && s.stage == Idle && FreshStream(s) && !stream.interactive
      modifies this`log, this`s, this`env
      ensures Received(old(s), taken, usage)
      ensures env.faults >= old(env).faults
      ensures err.Some? <==> env.faults > old(env).faults || !Readable(budget, stream)
      ensures err.Some? && env.faults == old(env).faults ==> Stops(budget, 0, stream, err.value)
      ensures (err.None? ==>
                 && taken == stream.events && text == TextOf(taken) && text == s.heard
                 && calls == CallsOf(Gather(taken)) && s.announced == Announcements(taken)
                 && forall i :: 0 <= i < |calls| ==> calls[i].name != "")
    {
      hide Received, CallsOf, Gather, TextOf, Announcements;
      var t := NO_CALLS;
      text, calls, usage, taken := "", [], NO_USAGE, [];
      var i := 0;
      NothingRead(stream.events);
      hide Reading;
      while i < |stream.events|
        invariant 0 <= i <= |stream.events| && taken == stream.events[..i]
        invariant Reading(old(s), taken, t, text, usage)
        invariant env.faults == old(env).faults && Clean(budget, taken)
      {
        t, text, usage, err := ReadEvent(stream.events, i, t, text, usage, old(s));
        i, taken := i + 1, stream.events[..i + 1];
        if err.Some? {
          ReadableBefore(budget, stream, i);
          if StopsAt(budget, stream.events, i - 1, err.value) {
            StopsSomewhere(budget, 0, stream, i - 1, err.value);
          }
          return "", [], usage, err, taken;
        }
      }
      SoFarRead(old(s), taken, t, text, usage);
      if stream.ending.Some? {
        return "", [], usage, stream.ending, taken;
      }
      calls := CallsOf(t);
      assert taken == stream.events && calls == CallsIn(stream);
      assert Clean(budget, stream.events);
      hide Clean;
      if exists j :: 0 <= j < |calls| && calls[j].name == "" {
        return "", [], usage, Some(Error(Backend, [])), taken;
      }
      err := None;
    }

    /** What an ordinary stream has done to the run, however it goes on. */
    ghost predicate Received(before: Summary, taken: seq<ModelEvent>, usage: Usage)
      reads this
    {
      Tracked() && Interaction(before, s, taken, []) && s.stage == before.stage && s.known == before.known
      && s.stream == taken && usage == SumOf(taken)
    }

    /** Where its loop stands between two events. */
    ghost predicate Reading(before: Summary, taken: seq<ModelEvent>, t: Table, text: string, usage: Usage)
      reads this
    {
      && Received(before, taken, usage) && s.phase == Open && s.stage == Idle
      && text == TextOf(taken) && text == s.heard && t == Gather(taken) && s.announced == Announcements(taken)
    }

    lemma NothingRead(events: seq<ModelEvent>)
      requires Tracked() && s.phase == Open && s.stage == Idle && FreshStream(s)
      ensures events[..0] == [] && Reading(s, [], NO_CALLS, "", NO_USAGE)
    {
      hide Watch, Recorded;
      EmptyStream(events);
    }

    lemma SoFarRead(before: Summary, taken: seq<ModelEvent>, t: Table, text: string, usage: Usage)
      requires Reading(before, taken, t, text, usage)
      ensures Received(before, taken, usage) && text == TextOf(taken) && text == s.heard
      ensures t == Gather(taken) && s.announced == Announcements(taken)
    {
      hide Received;
    }

    /** One event of an ordinary stream. */
    method ReadEvent(events: seq<ModelEvent>, i: nat, t: Table, text: string, usage: Usage, ghost before: Summary)
      returns (next: Table, more: string, used: Usage, err: Option<Error>)
      requires i < |events| && Reading(before, events[..i], t, text, usage) && Clean(budget, events[..i])
      modifies this`log, this`s, this`env
      ensures env.faults == old(env).faults || (env.faults > old(env).faults && err.Some?)
      ensures err.Some? <==> env.faults > old(env).faults || !Clean(budget, events[..i + 1])
      ensures err.Some? && env.faults == old(env).faults ==> StopsAt(budget, events, i, err.value)
      ensures Received(before, events[..i + 1], used)
      ensures err.None? ==> Reading(before, events[..i + 1], next, more, used)
    {
      hide Watch, Note, InOrder, Recorded, SumOf, TextOf, Gather, Take, DoneCalls, Announcements, EventId, BuilderFor;
      hide CallOf, LastCall, Retells, Plus, Interaction;
      var e := events[i];
      StreamSnoc(events, i);
      CleanSnoc(budget, events, i);
      hide Clean;
      next, more, used, err := t, text, Plus(usage, e.usage), None;
      ghost var between := s;
      Receive(e);
      assert between.stream + [e] == events[..i + 1];
      OnlyReceivedIsInteraction(between, s, e);
      InteractionGoesOn(before, between, s, events[..i], e, [], []);
      LastEvent(s.stream);
      ghost var heard := s;
      if budget.maxTokens > 0 && used.total > budget.maxTokens {
        err := Some(Error(BudgetExceeded, []));
      } else if e.kind.Unrecognized? {
        err := Some(Error(Backend, []));
      } else if e.kind.TextDelta? {
        more := text + e.text;
        err := Tell(ModelText(e.response, e.text));
      } else if AboutCall(e) {
        var id := EventId(t, e);
        var known := id in t.builders;
        next := Take(t, e);
        if e.kind.CallStarted? || (e.kind.CallDone? && !known) {
          err := Tell(CallAnnounced(CallOf(BuilderFor(next, id))));
        }
      }
      TellingIsInteraction(before, heard, s, events[..i + 1]);
    }

    /** Received events, requested calls and their results have been added, nothing else. */
    ghost predicate OnlyInteracted(before: Summary, taken: seq<ModelEvent>, executed: seq<ToolCall>)
      reads this
    {
      Interaction(before, s, taken, executed)
    }

    /** A stream that waits for each tool result before it goes on. */
    method ConsumeInteractiveStream(stream: Stream)
      returns (text: string, executed: seq<ToolCall>, usage: Usage, err: Option<Error>, ghost taken: seq<ModelEvent>)
      requires Tracked() && s.phase == Open && s.stage == Idle && FreshStream(s)
      requires |s.requested| <= toolCallsUsed <= budget.maxToolCalls && stream.interactive
      modifies this`log, this`s, this`seen, this`seenArgs, this`toolCallsUsed, this`env
      ensures Interacted(old(s), taken, executed, usage)
      ensures env.faults >= old(env).faults
      ensures FailsAsItMust(budget, old(toolCallsUsed), stream, env.faults > old(env).faults, err)
      ensures err.None? ==> toolCallsUsed == old(toolCallsUsed) + |executed|
      ensures s.stage == Idle || (err.Some? && s.stage.Settled?)
      ensures err.None? ==> taken == stream.events && Completed(s, taken, text, executed)
    {
      var t, started: seq<string> := NO_CALLS, [];
      text, executed, usage, taken := "", [], NO_USAGE, [];
      var i := 0;
      NothingHeard(stream.events);
      hide Interacted, Consuming, Completed, Serviceable, Readable, HaltsAt, FailsAsItMust, Tracked, FreshStream;
      while i < |stream.events|
        invariant 0 <= i <= |stream.events| && taken == stream.events[..i]
        invariant Consuming(old(s), taken, executed, t, text, usage, started, old(toolCallsUsed))
        invariant env.faults == old(env).faults
      {
        t, started, text, executed, usage,
            err := ConsumeEvent(stream.events, i, t, started, text, executed, usage, old(s), old(toolCallsUsed));
        taken := stream.events[..i + 1];
        if err.Some? {
          FailsInside(budget, old(toolCallsUsed), stream, i, env.faults > old(env).faults, err);
          return "", executed, usage, err, taken;
        }
        i := i + 1;
      }
      SoFarCompleted(old(s), taken, executed, t, text, usage, started, old(toolCallsUsed));
      assert taken == stream.events;
      err := stream.ending;
      ReadToItsEnd(budget, old(toolCallsUsed), stream);
      if err.Some? {
        return "", executed, usage, err, taken;
      }
    }

    /** What an interactive stream has done to the run, however it goes on. */
    ghost predicate Interacted(before: Summary, taken: seq<ModelEvent>, executed: seq<ToolCall>, usage: Usage)
      reads this
    {
      && Tracked() && OnlyInteracted(before, taken, executed) && s.stream == taken && usage == SumOf(taken)
      && |s.requested| <= toolCallsUsed <= budget.maxToolCalls
    }

    /** Where its loop stands between two events. */
    ghost predicate Consuming(
      before: Summary, taken: seq<ModelEvent>, executed: seq<ToolCall>, t: Table, text: string, usage: Usage,
          started: seq<string>, paid: nat)
      reads this
    {
      && Serviceable(budget, paid, taken) && toolCallsUsed == paid + |executed|
      && Interacted(before, taken, executed, usage) && s.phase == Open && s.stage == Idle
      && Completed(s, taken, text, executed) && t == Gather(taken) && started == Ids(s.announced)
    }

    lemma NothingHeard(events: seq<ModelEvent>)
      requires Tracked() && s.phase == Open && s.stage == Idle && FreshStream(s)
      requires |s.requested| <= toolCallsUsed <= budget.maxToolCalls
      ensures events[..0] == [] && Consuming(s, [], [], NO_CALLS, "", NO_USAGE, [], toolCallsUsed)
    {
      hide Watch, Recorded;
      NothingServed(budget, toolCallsUsed);
      hide Serviceable;
      EmptyStream(events);
    }

    lemma SoFarCompleted(
      before: Summary, taken: seq<ModelEvent>, executed: seq<ToolCall>, t: Table, text: string, usage: Usage,
          started: seq<string>, paid: nat)
      requires Consuming(before, taken, executed, t, text, usage, started, paid)
      ensures Serviceable(budget, paid, taken) && toolCallsUsed == paid + |executed|
      ensures Interacted(before, taken, executed, usage) && s.stage == Idle && Completed(s, taken, text, executed)
    {
      hide Interacted, Completed, Serviceable;
    }

    method ConsumeEvent(
      events: seq<ModelEvent>, i: nat, t: Table, started: seq<string>, text: string, executed: seq<ToolCall>,
          usage: Usage,
      ghost before: Summary, ghost paid: nat)
      returns (next: Table, known: seq<string>, more: string, run: seq<ToolCall>, used: Usage, err: Option<Error>)
      requires i < |events| && Consuming(before, events[..i], executed, t, text, usage, started, paid)
      modifies this`log, this`s, this`seen, this`seenArgs, this`toolCallsUsed, this`env
      ensures env.faults == old(env).faults || (env.faults > old(env).faults && err.Some?)
      ensures err.Some? <==> env.faults > old(env).faults || !Serviceable(budget, paid, events[..i + 1])
      ensures err.Some? && env.faults == old(env).faults ==> HaltsAt(budget, paid, events, i, err.value)
      ensures Interacted(before, events[..i + 1], run, used) && (s.stage == Idle || (err.Some? && s.stage.Settled?))
      ensures err.None? ==> Consuming(before, events[..i + 1], run, next, more, used, known, paid)
    {
      hide Watch, Note, InOrder, Recorded, SumOf, TextOf, Gather, Take, DoneCalls, InteractiveAnnouncements, EventId,
          LastCall, Plus, Ids, Interaction;
      var e := events[i];
      StreamSnoc(events, i);
      assert s.stream + [e] == events[..i + 1];
      ServiceableSnoc(budget, paid, events, i);
      hide Serviceable;
      var announce := AboutCall(e) && EventId(t, e) !in started && !e.kind.CallDelta?;
      known := if announce then started + [EventId(t, e)] else started;
      var ran;
      ghost var between := s;
      next, more, used, ran, err := HearEvent(e, announce, t, text, usage);
      run := executed + ran;
      InteractionGoesOn(before, between, s, events[..i], e, executed, ran);
    }

    /** One event of an interactive stream. */
    method HearEvent(e: ModelEvent, announce: bool, t: Table, text: string, usage: Usage)
      returns (next: Table, more: string, used: Usage, ran: seq<ToolCall>, err: Option<Error>)
      requires Tracked() && s.phase == Open && s.stage == Idle && |s.requested| <= toolCallsUsed <= budget.maxToolCalls
      requires t == Gather(s.stream) && s.heard == text && s.announced == InteractiveAnnouncements(s.stream)
      requires announce == (AboutCall(e) && EventId(t, e) !in Ids(s.announced) && !e.kind.CallDelta?)
      requires usage == SumOf(s.stream)
      modifies this`log, this`s, this`seen, this`seenArgs, this`toolCallsUsed, this`env
      ensures env.faults == old(env).faults || (env.faults > old(env).faults && err.Some?)
      ensures (err.Some? <==>
                 || env.faults > old(env).faults || Overspent(budget, used) || e.kind.Unrecognized?
                 || (e.kind.CallDone?
                     && (LastCall(old(s).stream + [e]).name == "" || old(toolCallsUsed) >= budget.maxToolCalls)))
      ensures (err.Some? && env.faults == old(env).faults ==>
                 || (err.value.kind.BudgetExceeded?
                     && (Overspent(budget, used) || (e.kind.CallDone? && old(toolCallsUsed) >= budget.maxToolCalls)))
                 || (err.value.kind.Backend?
                     && (e.kind.Unrecognized? || (e.kind.CallDone? && LastCall(old(s).stream + [e]).name == ""))))
      ensures toolCallsUsed == old(toolCallsUsed) + |ran|
      ensures Tracked() && OnlyInteracted(old(s), [e], ran)
      ensures |s.requested| <= toolCallsUsed <= budget.maxToolCalls
      ensures s.stage == Idle || (err.Some? && s.stage.Settled?)
      ensures used == Plus(usage, e.usage)
      ensures (err.None? ==>
                 && next == Gather(old(s).stream + [e])
                 && more == text + (if e.kind.TextDelta? then e.text else "") && s.heard == more
                 && s.announced == InteractiveAnnouncements(old(s).stream + [e])
                 && Ids(s.announced) == Ids(old(s).announced) + (if announce then [EventId(t, e)] else [])
                 && ran == if e.kind.CallDone? then [LastCall(old(s).stream + [e])] else [])
    {
      hide Watch, Note, InOrder, Recorded, Gather, Take, EventId, BuilderFor, CallOf, LastCall, Plus, Retells, JustDone;
      hide InteractiveAnnouncements, Ids;
      HeardNext(s.stream, e);
      next, more, used, ran, err := t, text, Plus(usage, e.usage), [], None;
      Receive(e);
      LastEvent(s.stream);
      if budget.maxTokens > 0 && used.total > budget.maxTokens {
        err := Some(Error(BudgetExceeded, []));
      } else if e.kind.Unrecognized? {
        err := Some(Error(Backend, []));
      } else if e.kind.TextDelta? {
        more := text + e.text;
        err := Tell(ModelText(e.response, e.text));
      } else if AboutCall(e) {
        next := Take(t, e);
        var call := CallOf(BuilderFor(next, EventId(t, e)));
        var done;
        done, err := HandleCallEvent(call, announce, e.kind.CallDone?);
        ran := if done then [call] else [];
      }
    }

    /** Announce a call the first time, and run it once it is complete and the budget allows. */
    method HandleCallEvent(call: ToolCall, announce: bool, done: bool) returns (ran: bool, err: Option<Error>)
      requires Tracked() && s.phase == Open && s.stage == Idle && |s.requested| <= toolCallsUsed <= budget.maxToolCalls
      requires Retells(s.stream, CallAnnounced(call)) && (done ==> JustDone(s.stream, call))
      requires s.announced + (if announce then [call] else []) == InteractiveAnnouncements(s.stream)
      requires Affordable(rules, s, true)
      modifies this`log, this`s, this`seen, this`seenArgs, this`toolCallsUsed, this`env
      ensures env.faults == old(env).faults || (env.faults > old(env).faults && err.Some?)
      ensures (err.Some? <==>
                 env.faults > old(env).faults
                     || (done && (call.name == "" || old(toolCallsUsed) >= budget.maxToolCalls)))
      ensures (err.Some? && env.faults == old(env).faults ==>
                 || (err.value.kind.BudgetExceeded? && old(toolCallsUsed) >= budget.maxToolCalls)
                 || (err.value.kind.Backend? && call.name == ""))
      ensures toolCallsUsed == old(toolCallsUsed) + (if ran then 1 else 0)
      ensures Tracked() && OnlyInteracted(old(s), [], if ran then [call] else [])
      ensures |s.requested| <= toolCallsUsed <= budget.maxToolCalls
      ensures s.stage == Idle || (err.Some? && s.stage.Settled?)
      ensures err.None? ==> ran == done && s.heard == old(s.heard)
      ensures err.None? ==> s.announced == old(s.announced) + (if announce then [call] else [])
    {
      hide Watch, Note, InOrder, Recorded, LastCall, Retells, JustDone;
      ran, err := false, None;
      if announce {
        err := Tell(CallAnnounced(call));
        if err.Some? {
          return;
        }
      }
      if !done {
        return;
      }
      if call.name == "" {
        return false, Some(Error(Backend, []));
      }
      if toolCallsUsed >= budget.maxToolCalls {
        return false, Some(Error(BudgetExceeded, []));
      }
      toolCallsUsed := toolCallsUsed + 1;
      ran := true;
      err := RespondToCall(call);
    }

    /** Run one tool in the middle of a stream and hand its result back to it. */
    method RespondToCall(call: ToolCall) returns (err: Option<Error>)
      requires Tracked() && s.phase == Open && s.stage == Idle && JustDone(s.stream, call)
      requires s.announced == InteractiveAnnouncements(s.stream) && Affordable(rules, s, true)
      modifies this`log, this`s, this`seen, this`seenArgs, this`env
      ensures Tracked() && OnlyInteracted(old(s), [], [call]) && s.heard == old(s.heard)
      ensures env.faults == old(env).faults + (if err.Some? then 1 else 0)
      ensures s.announced == old(s.announced)
      ensures s.stage == Idle || (err.Some? && s.stage.Settled?)
    {
      hide Watch, Note, InOrder, Recorded;
      MayRequestInside(rules, s, call);
      var r;
      ghost var decision;
      r, err, decision := ExecuteTool(call, true);
      if err.Some? {
        if Fatal(err.value) {
          return;
        }
        r := ToolResult(err.value.text, true, false, false);
      }
      RepliesInside(rules, s, call, r.content);
      Log(Reply(call, r.content, true));
      err := Outside();
      if err.Some? {
        Blame(err.value);
        err := Some(Error(Backend, []));
      }
    }

    // ----- one turn of the model

    /** Usage and tool calls are accounted for; holds whenever the run may stop. */
    ghost predicate Accounted()
      reads this`log, this`s, this`seen, this`seenArgs, this`toolCallsUsed, this`result
    {
      && Tracked() && s.phase == Open && (s.stage.Idle? || s.stage.Settled?)
      && result.usage == SumOf(s.received)
      && |s.requested| <= toolCallsUsed <= budget.maxToolCalls
    }

    ghost predicate Talking()
      reads this`s, this`messages, this`requiredMisses, this`result
    {
      && messages == rules.original + Unroll(s.blocks)
      && |s.turns| == |s.blocks| && Nudges(s.blocks) == requiredMisses
      && (requiredMisses > 0 ==> rules.choice.mode.Required?)
      && (s.satisfied ==> rules.choice.mode.Required?)
      && result.toolCalls == s.requested
    }

    /** Holds before each request to the model. */
    ghost predicate Ready()
      reads this
    {
      && Accounted() && Talking() && s.stage == Idle && AllWhole(s.blocks) && requiredMisses <= 1
      && requiredPending == (rules.choice.mode.Required? && !s.satisfied)
    }

    ghost predicate KeepsBooks(before: RunResult, starts: nat)
      reads this
    {
      result.usage == before.usage && result.steps == before.steps && s.starts == starts
    }

    /** Answer one call of an ordinary turn. */
    method AnswerCall(call: ToolCall) returns (err: Option<Error>)
      requires Accounted() && Talking() && s.stage == Idle && Awaits(s.blocks, call)
      requires toolCallsUsed < budget.maxToolCalls && !Overspent(budget, result.usage)
      requires rules.choice.mode.Required? ==> s.satisfied
      modifies this`log, this`s, this`seen, this`seenArgs, this`toolCallsUsed, this`messages, this`result, this`env
      ensures env.faults == old(env).faults + (if err.Some? then 1 else 0)
      ensures Accounted() && toolCallsUsed == old(toolCallsUsed) + 1 && KeepsBooks(old(result), old(s.starts))
      ensures err.Some? ==> Fatal(err.value)
      ensures (err.None? ==>
                 && Talking() && s.stage == Idle && s.satisfied == old(s.satisfied)
                 && exists content :: s.blocks == Answered(old(s.blocks), content))
    {
      hide Watch, Recorded, SumOf, Unroll, Nudges, AllWhole, Note, InOrder, Awaits, Answered;
      var r;
      r, err := RunCall(call);
      if err.Some? {
        return;
      }
      AnsweredUnrolls(s.blocks, call, r.content);
      messages := messages + [ToolAnswer(call.id, r.content)];
      GiveReply(call, r.content);
    }

    /** Count and execute one call; a failure that is not fatal becomes a result for the model. */
    method RunCall(call: ToolCall) returns (r: ToolResult, err: Option<Error>)
      requires Accounted() && s.stage == Idle && Awaits(s.blocks, call) && toolCallsUsed < budget.maxToolCalls
      requires (rules.choice.mode.Required? ==> s.satisfied) && !Overspent(budget, result.usage)
      modifies this`log, this`s, this`seen, this`seenArgs, this`toolCallsUsed, this`result, this`env
      ensures env.faults == old(env).faults + (if err.Some? then 1 else 0)
      ensures Accounted() && toolCallsUsed == old(toolCallsUsed) + 1
      ensures result == old(result).(toolCalls := old(result).toolCalls + [call])
      ensures s == old(s).(requested := old(s).requested + [call], known := s.known, stage := s.stage)
      ensures s.stage.Settled? && s.stage.call == call
      ensures if err.Some? then Fatal(err.value) else r.content == ContentOf(s.stage.answer)
    {
      hide Watch, Recorded, SumOf, Note, InOrder, Awaits;
      MayRequest(rules, s, call);
      toolCallsUsed := toolCallsUsed + 1;
      result := result.(toolCalls := result.toolCalls + [call]);
      ghost var decision;
      r, err, decision := ExecuteTool(call, false);
      if err.Some? && !Fatal(err.value) {
        r := ToolResult(err.value.text, true, false, false);
        err := None;
      }
    }

    method GiveReply(call: ToolCall, content: seq<byte>)
      requires Accounted() && s.stage.Settled? && s.stage.call == call && Awaits(s.blocks, call)
      requires content == ContentOf(s.stage.answer)
      modifies this`log, this`s
      ensures Accounted() && s == old(s).(stage := Idle, blocks := Answered(old(s).blocks, content))
    {
      hide Watch, Recorded, SumOf, Note, InOrder, Awaits;
      Replies(rules, s, call, content);
      Log(Reply(call, content, false));
    }

    /** Run the calls of a turn one after the other. */
    method AnswerCalls(text: string, calls: seq<ToolCall>, ghost base: seq<Block>) returns (err: Option<Error>)
      requires Accounted() && Talking() && s.stage == Idle && (rules.choice.mode.Required? ==> s.satisfied)
      requires calls != [] && DistinctIds(Ids(calls)) && AllWhole(base)
      requires s.blocks == base + [Exchange(text, calls, [])]
      requires toolCallsUsed + |calls| <= budget.maxToolCalls && !Overspent(budget, result.usage)
      modifies this`log, this`s, this`seen, this`seenArgs, this`toolCallsUsed, this`messages, this`result, this`env
      ensures env.faults == old(env).faults + (if err.Some? then 1 else 0)
      ensures err.None? ==> toolCallsUsed == old(toolCallsUsed) + |calls|
      ensures Accounted() && KeepsBooks(old(result), old(s.starts))
      ensures err.None? ==> Talking() && s.stage == Idle && AllWhole(s.blocks) && s.satisfied == old(s.satisfied)
    {
      hide Accounted, Talking, DistinctIds, Ids, AllWhole, Awaits, Answered;
      var i := 0;
      ghost var answers: seq<seq<byte>> := [];
      Serving(base, text, calls, answers);
      while i < |calls|
        invariant 0 <= i == |answers| <= |calls|
        invariant Accounted() && Talking() && s.stage == Idle && s.satisfied == old(s.satisfied)
        invariant KeepsBooks(old(result), old(s.starts))
        invariant s.blocks == base + [Exchange(text, calls, answers)]
        invariant toolCallsUsed == old(toolCallsUsed) + i && env.faults == old(env).faults
        invariant i == |calls| ==> AllWhole(s.blocks)
      {
        Serving(base, text, calls, answers);
        ghost var before := s.blocks;
        err := AnswerCall(calls[i]);
        if err.Some? {
          return;
        }
        ghost var content :| s.blocks == Answered(before, content);
        answers := answers + [content];
        i := i + 1;
        Serving(base, text, calls, answers);
      }
      err := None;
    }

    /** Book what a stream has used. */
    method Book(step: nat, usage: Usage, ghost before: seq<ModelEvent>, ghost taken: seq<ModelEvent>)
      requires result.usage == SumOf(before) && usage == SumOf(taken)
      modifies this`result
      ensures result == old(result).(steps := step, usage := SumOf(before + taken))
      ensures result.usage == Plus(old(result).usage, usage)
    {
      SumConcat(before, taken);
      result := result.(steps := step, usage := Plus(result.usage, usage));
    }

    /** No tool was called although one is required: say so once, give up the second time. */
    method NudgeOnce(text: string) returns (next: Outcome)
      requires Accounted() && s.stage == Idle && AllWhole(s.blocks) && requiredPending && requiredMisses <= 1
      requires requiredPending == (rules.choice.mode.Required? && !s.satisfied)
      requires Nudges(s.blocks) == requiredMisses && result.toolCalls == s.requested
      requires messages == rules.original + Unroll(s.blocks) + [Assistant(text, [])]
      requires |s.turns| == |s.blocks| + 1 && s.turns[|s.blocks|] == Said(text, [])
      modifies this`log, this`s, this`messages, this`requiredMisses
      ensures (next == Again && Ready()) || (next.Failed? && Accounted())
      ensures s.starts == old(s.starts)
      ensures next.Failed? <==> old(requiredMisses) >= 1
      ensures next.Failed? ==> next.err.kind.Backend?
      ensures requiredMisses == old(requiredMisses) + 1
    {
      hide Watch, Recorded, SumOf, Unroll, Nudges, AllWhole, Note, InOrder;
      requiredMisses := requiredMisses + 1;
      if requiredMisses >= 2 {
        return Failed(Error(Backend, []));
      }
      messages := messages + [NudgeMessage];
      NudgeUnrolls(rules.original, s.blocks, text);
      MayNudge(rules, s, text);
      Log(Nudge(text));
      next := Again;
    }

    /** Holds when the run may report success. */
    ghost predicate Finishing()
      reads this
    {
      && Accounted() && s.stage == Idle
      && !Overspent(budget, result.usage)
      && result.toolCalls == s.requested
      && (rules.choice.mode.Required? ==> s.satisfied)
    }

    /** The final message is the text of the turn that has just ended. */
    ghost predicate Concludes(log: seq<Entry>, message: Message) {
      log != [] && log[|log| - 1].Turn? && message == Assistant(log[|log| - 1].text, [])
    }

    /** What counts against the run so far. */
    function Books(): Ledger
      reads this`result, this`toolCallsUsed, this`requiredPending, this`requiredMisses
    {
      Ledger(result.usage, toolCallsUsed, requiredPending, requiredMisses)
    }

    /** The turn fails if and only if something from outside ended it or its stream is to be refused, and then
        for a reason it has; otherwise it ends as the stream demands. */
    ghost predicate Obeys(ledger: Ledger, stream: Stream, next: Outcome, faults: nat)
      reads this`env, this`result, this`toolCallsUsed, this`requiredPending, this`requiredMisses
    {
      && env.faults >= faults
      && (next.Failed? <==> env.faults > faults || Fails(rules.choice, budget, ledger, stream))
      && (next.Failed? && env.faults == faults ==> Explains(rules.choice, budget, ledger, stream, next.err))
      && (next.Again? ==> Unfinished(ledger, stream) && Books() == Advance(ledger, stream))
      && (next.Finished? ==> !Unfinished(ledger, stream) && next.message == Assistant(TextOf(stream.events), []))
    }

    method OrdinaryTurn(stream: Stream, step: nat) returns (next: Outcome)
      requires Ready() && FreshStream(s) && !stream.interactive
      modifies this`log, this`s, this`seen, this`seenArgs, this`toolCallsUsed, this`messages, this`result, this`env,
               this`requiredPending, this`requiredMisses
      ensures Ended(next) && s.starts == old(s.starts)
      ensures !next.Failed? ==> result.steps == step
      ensures Obeys(old(Books()), stream, next, old(env).faults)
    {
      hide Watch, Recorded, SumOf, Unroll, Nudges, AllWhole, Note, InOrder, TextOf, CallsOf, Gather, TrimSpace,
          DistinctIds, Ids, RequiredToolSatisfied, Readable;
      ghost var before, ledger := s.received, Books();
      var text, calls, usage, err;
      ghost var taken;
      text, calls, usage, err, taken := ConsumeStream(stream);
      Book(step, usage, before, taken);
      if err.None? {
        err := stream.closing;
      }
      if err.Some? {
        return Failed(err.value);
      }
      if budget.maxTokens > 0 && result.usage.total > budget.maxTokens {
        return Failed(Error(BudgetExceeded, []));
      }
      if TrimSpace(text) == "" && calls == [] {
        return Failed(Error(Backend, []));
      }
      GatheredCallsAreDistinct(stream.events);
      next := TakeTurn(text, calls, ledger, stream);
    }

    ghost predicate Ended(next: Outcome)
      reads this
    {
      match next
      case Again => Ready()
      case Finished(message) => Finishing() && Concludes(log, message)
      case Failed(_) => Accounted()
    }

    /** Decide what follows a whole turn of the model, and run its calls. */
    method TakeTurn(text: string, calls: seq<ToolCall>, ghost ledger: Ledger, ghost stream: Stream)
      returns (next: Outcome)
      requires Ready() && DistinctIds(Ids(calls))
      requires text == TextOf(s.stream) && text == s.heard && calls == CallsOf(Gather(s.stream))
      requires s.announced == Announcements(s.stream)
      requires !stream.interactive && s.stream == stream.events
      requires Readable(budget, stream) && stream.closing.None? && !SaysNothing(stream)
      requires Books() == ledger.(usage := Plus(ledger.usage, SumOf(stream.events)))
      requires !Overspent(budget, result.usage)
      modifies this`log, this`s, this`seen, this`seenArgs, this`toolCallsUsed, this`messages, this`result, this`env,
               this`requiredPending, this`requiredMisses
      ensures Ended(next) && s.starts == old(s.starts)
      ensures !next.Failed? ==> result.steps == old(result).steps
      ensures Obeys(ledger, stream, next, old(env).faults)
    {
      hide Watch, Recorded, SumOf, Unroll, Nudges, AllWhole, Note, InOrder, TextOf, CallsOf, Gather, TrimSpace,
          DistinctIds, Ids, RequiredToolSatisfied, Shown, Readable, Overspent, SaysNothing;
      ghost var base := s.blocks;
      TakesTurn(rules, s, text, calls, false);
      Log(Turn(text, calls, false));
      messages := messages + [Assistant(text, calls)];
      if requiredPending && calls != [] && !RequiredToolSatisfied(rules.choice, calls) {
        return Failed(Error(Backend, []));
      }
      if calls == [] {
        NothingSatisfies(rules.choice);
        if requiredPending {
          next := NudgeOnce(text);
          return;
        }
        return Outcome.Finished(Assistant(text, []));
      }
      TurnUnrolls(rules.original, base, text, calls);
      SatisfiedWhenRequired(rules.choice, calls);
      next := RunCalls(text, calls, base);
    }

    method RunCalls(text: string, calls: seq<ToolCall>, ghost base: seq<Block>) returns (next: Outcome)
      requires Accounted() && Talking() && s.stage == Idle && (rules.choice.mode.Required? ==> s.satisfied)
      requires requiredMisses <= 1
      requires calls != [] && DistinctIds(Ids(calls)) && AllWhole(base)
      requires s.blocks == base + [Exchange(text, calls, [])] && !Overspent(budget, result.usage)
      modifies this`log, this`s, this`seen, this`seenArgs, this`toolCallsUsed, this`messages, this`result, this`env,
               this`requiredPending
      ensures (next == Again && Ready()) || (next.Failed? && Accounted())
      ensures KeepsBooks(old(result), old(s.starts))
      ensures env.faults >= old(env).faults
      ensures (next.Failed? <==>
                 env.faults > old(env).faults || old(toolCallsUsed) + |calls| > budget.maxToolCalls)
      ensures next.Failed? && env.faults == old(env).faults ==> next.err.kind.BudgetExceeded?
      ensures next.Again? ==> !requiredPending && toolCallsUsed == old(toolCallsUsed) + |calls|
    {
      hide Watch, Recorded, SumOf, Unroll, Nudges, AllWhole, DistinctIds, Ids;
      if toolCallsUsed + |calls| > budget.maxToolCalls {
        return Failed(Error(BudgetExceeded, []));
      }
      requiredPending := false;
      var err := AnswerCalls(text, calls, base);
      next := if err.Some? then Failed(err.value) else Again;
    }

    method InteractiveTurn(stream: Stream, step: nat) returns (next: Outcome)
      requires Ready() && FreshStream(s) && stream.interactive
      modifies this`log, this`s, this`seen, this`seenArgs, this`toolCallsUsed, this`messages, this`result, this`env,
               this`requiredPending, this`requiredMisses
      ensures Ended(next) && s.starts == old(s.starts)
      ensures !next.Failed? ==> result.steps == step
      ensures Obeys(old(Books()), stream, next, old(env).faults)
    {
      hide Watch, Recorded, SumOf, Unroll, Nudges, AllWhole, Note, InOrder, TextOf, DoneCalls, TrimSpace,
          RequiredToolSatisfied, Readable;
      hide InteractiveAnnouncements, Announcements, CallsOf, Gather, Ids, DistinctIds;
      ghost var before, ledger := s.received, Books();
      var text, calls, usage, err;
      ghost var taken;
      text, calls, usage, err, taken := ConsumeInteractiveStream(stream);
      Book(step, usage, before, taken);
      if err.None? {
        err := stream.closing;
      }
      if err.Some? {
        return Failed(err.value);
      }
      result := result.(toolCalls := result.toolCalls + calls);
      if budget.maxTokens > 0 && result.usage.total > budget.maxTokens {
        return Failed(Error(BudgetExceeded, []));
      }
      if TrimSpace(text) == "" {
        return Failed(Error(Backend, []));
      }
      next := TakeInteractiveTurn(text, calls, ledger, stream);
    }

    /** Decide what follows a whole turn whose tools have been run inside its stream. */
    method TakeInteractiveTurn(text: string, calls: seq<ToolCall>, ghost ledger: Ledger, ghost stream: Stream)
      returns (next: Outcome)
      requires Ready() && stream.interactive && s.stream == stream.events
      requires Completed(s, s.stream, text, calls)
      requires Readable(budget, stream) && stream.closing.None? && !SaysNothing(stream)
      requires ledger.calls + |calls| <= budget.maxToolCalls && !Overspent(budget, result.usage)
      requires Books() == ledger.(usage := Plus(ledger.usage, SumOf(stream.events)), calls := ledger.calls + |calls|)
      modifies this`log, this`s, this`messages, this`requiredMisses
      ensures Ended(next) && s.starts == old(s.starts)
      ensures Obeys(ledger, stream, next, env.faults)
    {
      hide Watch, Recorded, SumOf, Unroll, Nudges, AllWhole, Note, InOrder, TextOf, DoneCalls, TrimSpace,
          RequiredToolSatisfied, Readable, SaysNothing, Overspent;
      hide InteractiveAnnouncements, Announcements, CallsOf, Gather, Ids, DistinctIds;
      TakesTurn(rules, s, text, calls, true);
      Log(Turn(text, calls, true));
      SatisfiedWhenRequired(rules.choice, calls);
      if requiredPending && !RequiredToolSatisfied(rules.choice, calls) {
        if calls != [] {
          return Failed(Error(Backend, []));
        }
        messages := messages + [Assistant(text, [])];
        next := NudgeOnce(text);
        return;
      }
      next := Outcome.Finished(Assistant(text, []));
    }

    /** Report the failure with the usage so far, even to a cancelled run. */
    method Fail(err: Error) returns (outcome: RunResult, failure: Option<Error>)
      requires Accounted()
      modifies this`log, this`s, this`env
      ensures env.faults == old(env).faults
      ensures failure == Some(err)
              || (failure.Some? && env.raised != [] && failure.value == env.raised[|env.raised| - 1])
      ensures outcome == result && outcome.usage == SumOf(s.received)
      ensures Tracked() && |s.requested| <= budget.maxToolCalls && s.starts == old(s.starts)
      ensures log == old(log) + [Emit(RunFailed(result.usage))]
    {
      hide Watch, Recorded, SumOf;
      var refused := SendTerminal(RunFailed(result.usage));
      return result, if refused.Some? then refused else Some(err);
    }

    /** One run. `wellFormed` says whether the request passes its own validation. It succeeds if and only if it
        does, nothing from outside ends the run, and the streams of the model come to a success; the answer is
        then the text of the last one. A run that is neither broken nor finished has used all its steps. */
    method Run(wellFormed: bool) returns (outcome: RunResult, err: Option<Error>)
      requires Tracked() && log == [] && s == BEGIN && toolCallsUsed == 0
      requires budget == NormalizedBudget(budget) && env == Environment([], 0) && streams == []
      modifies this
      ensures Tracked()
      ensures s.starts <= budget.maxSteps && |s.requested| <= budget.maxToolCalls
      ensures err.None? <==> wellFormed && env.faults == 0 && Course(rules.choice, budget, streams).Succeeded?
      ensures (err.None? ==>
                 outcome.message == Some(Assistant(Course(rules.choice, budget, streams).text, [])))
      ensures (wellFormed && env.faults == 0 && Course(rules.choice, budget, streams).Running? ==>
                 |streams| == budget.maxSteps)
      ensures (err.Some? && wellFormed ==>
                 Deserved(err.value) || (env.raised != [] && err.value == env.raised[|env.raised| - 1]))
      ensures !wellFormed ==> log == [] && streams == []
      ensures NothingAfterTheVerdict(rules.choice, budget, streams)
      ensures (err.None? ==>
                 && |log| >= 2 && Concludes(log[..|log| - 1], outcome.message.value)
                 && log[|log| - 1] == Emit(RunCompleted(outcome.message.value.text, outcome.usage))
                 && outcome.usage == SumOf(s.received) && outcome.usage.total <= budget.maxTokens
                 && outcome.toolCalls == s.requested && outcome.steps == s.starts
                 && (rules.choice.mode.Required? ==> s.satisfied))
      ensures (err.Some? ==>
                 || outcome.usage == SumOf(s.received)
                 || (outcome == NO_RESULT && log != [] && log[|log| - 1].Emit? && log[|log| - 1].sent.RunCompleted?))
      ensures log != [] ==> log[|log| - 1] == Emit(RunStarted) || Ends(log[|log| - 1])
      ensures log == [] ==> err.Some? && (Interrupted(err.value) || err.value.kind == InvalidRequest)
    {
      hide Watch, Recorded, SumOf, Nudges, InOrder, Note, Accounted, Talking, AllWhole, Finishing, Fails, Unfinished,
          Advance, Course, NothingAfterTheVerdict, Explains;
      EmptyStream([]);
      NothingYet(rules.choice, budget);
      outcome := NO_RESULT;
      if !wellFormed {
        return outcome, Some(Error(InvalidRequest, []));
      }
      err := OpenRun();
      if err.Some? {
        return;
      }
      var next := TakeSteps();
      match next {
        case Failed(e) =>
          outcome, err := Fail(e);
        case Finished(message) =>
          outcome, err := Complete(message);
      }
    }

    /** Step after step, until one ends the run or there are no more. */
    method TakeSteps() returns (next: Outcome)
      requires OnCourse(0) && budget.maxSteps > 0
      modifies this
      ensures !next.Again? && StepsLeave(next)
    {
      hide Ready, NothingAfterTheVerdict, Course, Fails, Explains, Finishing, Concludes, Accounted;
      var step := 1;
      while step <= budget.maxSteps
        invariant 1 <= step <= budget.maxSteps + 1 && OnCourse(step - 1)
        decreases budget.maxSteps - step
      {
        next := TakeStep(step);
        if !next.Again? {
          return;
        }
        step := step + 1;
      }
      StillRunning(rules.choice, budget, streams);
      ReadyIsAccounted();
      next := Failed(Error(BudgetExceeded, []));
    }

    lemma ReadyIsAccounted()
      requires Ready()
      ensures Accounted()
    {
    }

    /** All streams so far asked for more, and nothing has ended the run. */
    ghost predicate OnCourse(steps: nat)
      reads this
    {
      && Ready() && s.starts == steps && |streams| == steps && env.faults == 0
      && Course(rules.choice, budget, streams) == Running(Books())
    }

    /** The run succeeds with the answer its streams came to. */
    ghost predicate Succeeds(message: Message)
      reads this
    {
      && Finishing() && Concludes(log, message) && result.steps == s.starts && env.faults == 0
      && Course(rules.choice, budget, streams) == Succeeded(message.text) && message == Assistant(message.text, [])
    }

    /** Something from outside has ended the run, or the last stream is to be refused for the reason given, or
        the steps have run out. */
    ghost predicate Deserved(e: Error)
      reads this`env, this`streams
    {
      || env.faults > 0
      || (&& Course(rules.choice, budget, streams).Broken? && streams != []
          && var before := Course(rules.choice, budget, streams[..|streams| - 1]);
             before.Running? && Explains(rules.choice, budget, before.ledger, streams[|streams| - 1], e))
      || (&& Course(rules.choice, budget, streams).Running? && |streams| == budget.maxSteps
          && e.kind.BudgetExceeded?)
    }

    ghost predicate StepsLeave(next: Outcome)
      reads this
    {
      && s.starts <= budget.maxSteps && NothingAfterTheVerdict(rules.choice, budget, streams)
      && (next.Finished? ==> Succeeds(next.message))
      && (next.Failed? ==> Accounted() && Deserved(next.err))
    }

    method TakeStep(step: nat) returns (next: Outcome)
      requires 0 < step <= budget.maxSteps && OnCourse(step - 1)
      modifies this
      ensures if next.Again? then OnCourse(step) else StepsLeave(next)
    {
      hide Watch, Recorded, SumOf, Nudges, InOrder, Note, Accounted, Talking, AllWhole, Finishing, Fails, Unfinished,
          Advance, Course, Explains, Concludes;
      var stream, err := StartStream();
      StillRunning(rules.choice, budget, streams);
      if err.Some? {
        return Failed(err.value);
      }
      CourseSnoc(rules.choice, budget, old(streams), stream);
      assert streams[..|streams| - 1] == old(streams);
      if stream.interactive {
        next := InteractiveTurn(stream, step);
      } else {
        next := OrdinaryTurn(stream, step);
      }
    }

    method OpenRun() returns (err: Option<Error>)
      requires Tracked() && log == [] && s == BEGIN && toolCallsUsed == 0 && budget.maxToolCalls >= 0
      modifies this
      ensures err.None? ==> Ready() && s.starts == 0 && Books() == OpeningBooks(rules.choice)
      ensures env.faults == old(env).faults + (if err.Some? then 1 else 0) && streams == old(streams)
      ensures (err.Some? ==>
                 && Tracked() && ((log == [] && Interrupted(err.value)) || log == [Emit(RunStarted)])
                 && s.received == [] && s.requested == [] && s.starts == 0)
    {
      Begins(rules);
      hide Watch, Recorded, Note, InOrder, SumOf, Unroll, Nudges, AllWhole;
      messages, result := rules.original, NO_RESULT;
      requiredPending, requiredMisses := rules.choice.mode.Required?, 0;
      err := Send(RunStarted, false);
    }

    /** Ask the model for the next turn, unless the run has been cancelled. */
    method StartStream() returns (stream: Stream, err: Option<Error>)
      requires Ready()
      modifies this`log, this`s, this`env, this`streams
      ensures Ready() && old(s.starts) <= s.starts <= old(s.starts) + 1
      ensures err.None? ==> s.starts == old(s.starts) + 1 && FreshStream(s)
      ensures env == Bothered(old(env), err, true)
      ensures streams == if err.None? then old(streams) + [stream] else old(streams)
    {
      hide Watch, Recorded, SumOf, Unroll, Nudges, AllWhole;
      stream := *;
      err := ContextError();
      if err.Some? {
        Blame(err.value);
        return;
      }
      var choice := if !requiredPending && rules.choice.mode.Required? then ToolChoice(Auto, "") else rules.choice;
      Log(Start(messages, choice));
      err := Outside();
      if err.Some? {
        Blame(err.value);
      } else {
        streams := streams + [stream];
      }
    }

    method Complete(message: Message) returns (outcome: RunResult, err: Option<Error>)
      requires Finishing() && message.Assistant?
      modifies this`log, this`s, this`result, this`env
      ensures Tracked() && |s.requested| <= budget.maxToolCalls && s.starts == old(s.starts)
      ensures env.faults == old(env).faults + (if err.Some? then 1 else 0)
      ensures (err.None? ==>
                 && outcome == old(result).(message := Some(message))
                 && outcome.usage == SumOf(s.received) && !Overspent(budget, outcome.usage)
                 && outcome.toolCalls == s.requested && (rules.choice.mode.Required? ==> s.satisfied))
      ensures err.Some? ==> outcome == NO_RESULT
      ensures log == old(log) + [Emit(RunCompleted(message.text, old(result).usage))]
    {
      hide Watch, Recorded, SumOf, Overspent;
      result := result.(message := Some(message));
      err := SendTerminal(RunCompleted(message.text, result.usage));
      outcome := if err.None? then result else NO_RESULT;
    }
  }
}
