/** What one run of the agent may do, step by step: a log of everything the run asks of the model, the
    authorizer, the owner, the tools and the event sink, and the automaton that says which entries are in
    order (internal/agent/runtime.go). The runtime is proved to keep to it in AgentRuntime. */
module RunLog {
  import opened Bytes
  import opened Text
  import opened ToolCalls

  datatype ChoiceMode = Unset | Auto | Required | NoTools

  datatype ToolChoice = ToolChoice(mode: ChoiceMode, name: string)

  predicate RequiredToolSatisfied(choice: ToolChoice, calls: seq<ToolCall>) {
    && choice.mode.Required? && calls != []
    && (TrimSpace(choice.name) == "" || exists i :: 0 <= i < |calls| && calls[i].name == choice.name)
  }

  datatype Message =
    | Given(role: nat, text: string)
    | Assistant(text: string, calls: seq<ToolCall>)
    | ToolAnswer(callId: string, content: seq<byte>)
    | NudgeMessage

  datatype ToolResult = ToolResult(content: seq<byte>, isError: bool, denied: bool, truncated: bool)

  /** What a call comes to: a result, or a failure of which the model is told the text. */
  datatype CallAnswer = Result(value: ToolResult) | Failure(text: seq<byte>)

  function ContentOf(answer: CallAnswer): seq<byte> {
    if answer.Result? then answer.value.content else answer.text
  }

  datatype Decision = Allow | NeedsApproval | Deny | Unheard

  datatype RunEvent =
    | RunStarted
    | ModelText(response: string, text: string)
    | CallAnnounced(call: ToolCall)
    | ApprovalNeeded(call: ToolCall)
    | ToolStarted(call: ToolCall)
    | ToolCompleted(call: ToolCall, result: ToolResult)
    | RunCompleted(text: string, usage: Usage)
    | RunFailed(usage: Usage)

  /** `Decide` is the decision acted on, whether an authorizer was asked or none is configured. */
  datatype Entry =
    | Start(messages: seq<Message>, choice: ToolChoice)
    | Receive(event: ModelEvent)
    | Turn(text: string, calls: seq<ToolCall>, interactive: bool)
    | Nudge(text: string)
    | Request(call: ToolCall, interactive: bool)
    | Decide(call: ToolCall, decision: Decision)
    | Approve(call: ToolCall, granted: bool)
    | Execute(call: ToolCall, output: Option<ToolResult>)
    | Answer(call: ToolCall, answer: CallAnswer)
    | Reply(call: ToolCall, content: seq<byte>, interactive: bool)
    | Emit(sent: RunEvent)

  /** The run's fixed data. `canonical` stands for the hash of canonical JSON, assumed injective. */
  datatype Rules = Rules(
    original: seq<Message>, choice: ToolChoice, canonical: string -> string, maxOutput: int, maxTokens: int64)

  // ----- the conversation

  /** One turn of the model and what the runtime said to it. */
  datatype Block =
    | Exchange(text: string, calls: seq<ToolCall>, answers: seq<seq<byte>>)
    | Nudged(text: string)

  ghost predicate Partial(b: Block) {
    b.Exchange? ==> b.calls != [] && |b.answers| <= |b.calls| && DistinctIds(Ids(b.calls))
  }

  ghost predicate Whole(b: Block) {
    Partial(b) && (b.Exchange? ==> |b.answers| == |b.calls|)
  }

  /** The messages of a block: the assistant's turn, then one answer per call in the order of the calls. */
  function Shown(b: Block): seq<Message> {
    match b
    case Exchange(text, calls, answers) =>
      [Assistant(text, calls)]
      + seq(|answers|, i requires 0 <= i < |answers| => ToolAnswer(if i < |calls| then calls[i].id else "", answers[i]))
    case Nudged(text) => [Assistant(text, []), NudgeMessage]
  }

  function Unroll(blocks: seq<Block>): seq<Message> {
    if blocks == [] then [] else Unroll(blocks[..|blocks| - 1]) + Shown(blocks[|blocks| - 1])
  }

  function Nudges(blocks: seq<Block>): nat {
    if blocks == [] then 0 else Nudges(blocks[..|blocks| - 1]) + (if blocks[|blocks| - 1].Nudged? then 1 else 0)
  }

  lemma UnrollSnoc(blocks: seq<Block>, b: Block)
    ensures Unroll(blocks + [b]) == Unroll(blocks) + Shown(b)
    ensures Nudges(blocks + [b]) == Nudges(blocks) + (if b.Nudged? then 1 else 0)
    ensures AnswersOf(blocks + [b]) == AnswersOf(blocks) + PairsOf(b)
  {
    assert (blocks + [b])[..|blocks|] == blocks;
  }

  ghost predicate AllWhole(blocks: seq<Block>) {
    forall i :: 0 <= i < |blocks| ==> Whole(blocks[i])
  }

  /** The last turn still owes an answer, and this call is the next to be answered. */
  ghost predicate Awaits(blocks: seq<Block>, call: ToolCall) {
    && blocks != []
    && var b := blocks[|blocks| - 1];
       && b.Exchange? && Partial(b) && |b.answers| < |b.calls| && b.calls[|b.answers|] == call
       && AllWhole(blocks[..|blocks| - 1])
  }

  function Answered(blocks: seq<Block>, content: seq<byte>): seq<Block>
    requires blocks != [] && blocks[|blocks| - 1].Exchange?
  {
    var b := blocks[|blocks| - 1];
    blocks[|blocks| - 1 := b.(answers := b.answers + [content])]
  }

  lemma UnansweredUnrolls(blocks: seq<Block>, text: string, calls: seq<ToolCall>)
    ensures Unroll(blocks + [Exchange(text, calls, [])]) == Unroll(blocks) + [Assistant(text, calls)]
    ensures Nudges(blocks + [Exchange(text, calls, [])]) == Nudges(blocks)
  {
    UnrollSnoc(blocks, Exchange(text, calls, []));
    assert Shown(Exchange(text, calls, [])) == [Assistant(text, calls)];
  }

  lemma AnsweredUnrolls(blocks: seq<Block>, call: ToolCall, content: seq<byte>)
    requires Awaits(blocks, call)
    ensures Unroll(Answered(blocks, content)) == Unroll(blocks) + [ToolAnswer(call.id, content)]
    ensures Nudges(Answered(blocks, content)) == Nudges(blocks) && |Answered(blocks, content)| == |blocks|
    ensures AnswersOf(Answered(blocks, content)) == AnswersOf(blocks) + [(call.id, content)]
  {
    hide Unroll, Nudges, AnswersOf, Shown, PairsOf, DistinctIds, AllWhole;
    var n := |blocks| - 1;
    var b := blocks[n];
    var more := b.(answers := b.answers + [content]);
    assert blocks == blocks[..n] + [b];
    assert Answered(blocks, content) == blocks[..n] + [more];
    UnrollSnoc(blocks[..n], b);
    UnrollSnoc(blocks[..n], more);
    OneMoreAnswer(b, content);
  }

  lemma OneMoreAnswer(b: Block, content: seq<byte>)
    requires b.Exchange? && |b.answers| < |b.calls|
    ensures Shown(b.(answers := b.answers + [content])) == Shown(b) + [ToolAnswer(b.calls[|b.answers|].id, content)]
    ensures PairsOf(b.(answers := b.answers + [content])) == PairsOf(b) + [(b.calls[|b.answers|].id, content)]
  {
    OneMoreMessage(b.text, b.calls, b.answers, content);
    OneMorePair(b.text, b.calls, b.answers, content);
  }

  lemma OneMoreMessage(text: string, calls: seq<ToolCall>, answers: seq<seq<byte>>, content: seq<byte>)
    requires |answers| < |calls|
    ensures Shown(Exchange(text, calls, answers + [content]))
         == Shown(Exchange(text, calls, answers)) + [ToolAnswer(calls[|answers|].id, content)]
  {
    var old', new' := Shown(Exchange(text, calls, answers)), Shown(Exchange(text, calls, answers + [content]));
    assert |new'| == |old'| + 1;
    assert forall i :: 0 <= i < |old'| ==> new'[i] == old'[i];
    assert new'[|old'|] == ToolAnswer(calls[|answers|].id, content);
  }

  lemma OneMorePair(text: string, calls: seq<ToolCall>, answers: seq<seq<byte>>, content: seq<byte>)
    requires |answers| < |calls|
    ensures PairsOf(Exchange(text, calls, answers + [content]))
         == PairsOf(Exchange(text, calls, answers)) + [(calls[|answers|].id, content)]
  {
    var old', new' := PairsOf(Exchange(text, calls, answers)), PairsOf(Exchange(text, calls, answers + [content]));
    assert |new'| == |old'| + 1;
    assert forall i :: 0 <= i < |old'| ==> new'[i] == old'[i];
    assert new'[|old'|] == (calls[|answers|].id, content);
  }

  function PairsOf(b: Block): seq<(string, seq<byte>)> {
    if b.Nudged? then []
    else
      seq(|b.answers|, i requires 0 <= i < |b.answers| => (if i < |b.calls| then b.calls[i].id else "", b.answers[i]))
  }

  /** Every answer the blocks show, with the id it answers. */
  function AnswersOf(blocks: seq<Block>): seq<(string, seq<byte>)> {
    if blocks == [] then [] else AnswersOf(blocks[..|blocks| - 1]) + PairsOf(blocks[|blocks| - 1])
  }

  // ----- the automaton

  /** A recorded result; the runtime itself does not keep the name. */
  datatype Known = Known(name: string, arguments: string, result: ToolResult)

  /** What a turn said. */
  datatype Said = Said(text: string, calls: seq<ToolCall>)

  datatype Phase = Quiet | Open | Over

  /** Where the handling of the current tool call stands. */
  datatype Stage =
    | Idle
    | Asked(call: ToolCall)
    | Pending(call: ToolCall)
    | Waiting(call: ToolCall)
    | Refused(call: ToolCall)
    | Denied(call: ToolCall)
    | Cleared(call: ToolCall)
    | Announced(call: ToolCall)
    | Ran(call: ToolCall, result: Option<ToolResult>)
    | Reported(call: ToolCall, report: ToolResult)
    | Settled(call: ToolCall, answer: CallAnswer)

  datatype Summary = Summary(
    starts: nat, requested: seq<ToolCall>, received: seq<ModelEvent>, stream: seq<ModelEvent>, heard: string,
    announced: seq<ToolCall>, turns: seq<Said>, blocks: seq<Block>, satisfied: bool,
    known: map<string, Known>, stage: Stage, phase: Phase, sound: bool)

  const BEGIN: Summary := Summary(0, [], [], [], "", [], [], [], false, map[], Idle, Quiet, true)

  function Bounded(r: Rules, result: ToolResult): ToolResult {
    if r.maxOutput > 0 && |result.content| > r.maxOutput then
      result.(content := Truncated(result.content, r.maxOutput), isError := true, truncated := true)
    else result
  }

  /** The recorded result, for the same arguments only. */
  predicate Repeats(r: Rules, s: Summary, call: ToolCall, answer: ToolResult) {
    call.id in s.known && s.known[call.id].arguments == r.canonical(call.arguments) && s.known[call.id].result == answer
  }

  function StageAfter(r: Rules, stage: Stage, e: Entry): Stage {
    match e
    case Request(call, _) => Asked(call)
    case Decide(call, decision) =>
      if decision.Allow? then Cleared(call) else if decision.NeedsApproval? then Pending(call) else Refused(call)
    case Approve(call, granted) => if granted then Cleared(call) else Denied(call)
    case Execute(call, output) => Ran(call, if output.Some? then Some(Bounded(r, output.value)) else None)
    case Answer(call, answer) => Settled(call, answer)
    case Reply(_, _, _) => Idle
    case Emit(ApprovalNeeded(call)) => Waiting(call)
    case Emit(ToolStarted(call)) => Announced(call)
    case Emit(ToolCompleted(call, result)) => Reported(call, result)
    case _ => stage
  }

  /** An answer repeats a recorded result, states a refusal by policy, or is what was just reported of this
      very execution or denial. */
  predicate MayAnswer(r: Rules, s: Summary, call: ToolCall, answer: CallAnswer) {
    && !s.stage.Idle? && !s.stage.Settled? && s.stage.call == call
    && (answer.Result? ==>
          || (s.stage.Asked? && Repeats(r, s, call, answer.value))
          || (s.stage.Refused? && answer.value.isError)
          || (s.stage.Reported? && answer.value == s.stage.report))
  }

  predicate MayEmit(s: Summary, e: RunEvent) {
    match e
    case RunStarted => s.stage == Idle
    case ModelText(response, text) =>
      && s.stage == Idle && s.stream != []
      && var last := s.stream[|s.stream| - 1]; last.kind.TextDelta? && last.response == response && last.text == text
    case CallAnnounced(call) =>
      s.stage == Idle && s.stream != [] && AboutCall(s.stream[|s.stream| - 1]) && call == LastCall(s.stream)
    case ApprovalNeeded(call) => s.stage == Pending(call)
    case ToolStarted(call) => s.stage == Cleared(call)
    case ToolCompleted(call, result) =>
      || (s.stage == Denied(call) && result.isError && result.denied)
      || s.stage == Ran(call, Some(result))
      || (s.stage == Ran(call, None) && result.isError)
    case RunCompleted(_, usage) => s.stage == Idle && usage == SumOf(s.received)
    case RunFailed(usage) => (s.stage.Idle? || s.stage.Settled?) && usage == SumOf(s.received)
  }

  /** The choice sent with a request: the required tool is demanded until it has been called. */
  function Demand(r: Rules, s: Summary): ToolChoice {
    if s.satisfied then ToolChoice(Auto, "") else r.choice
  }

  /** The token budget still holds: for what the stream has used, or on ordinary streams the whole run. */
  predicate Affordable(r: Rules, s: Summary, interactive: bool) {
    r.maxTokens > 0 ==> SumOf(if interactive then s.stream else s.received).total <= r.maxTokens
  }

  ghost predicate InOrder(r: Rules, s: Summary, e: Entry) {
    && s.phase == (if e == Emit(RunStarted) then Quiet else Open)
    && Fits(r, s, e)
  }

  ghost predicate Fits(r: Rules, s: Summary, e: Entry) {
    match e
    case Start(messages, choice) =>
      && s.stage == Idle && |s.turns| == |s.blocks|
      && messages == r.original + Unroll(s.blocks) && AllWhole(s.blocks) && Nudges(s.blocks) <= 1
      && (Nudges(s.blocks) > 0 ==> r.choice.mode.Required?)
      && choice == Demand(r, s)
    case Receive(_) => s.stage == Idle
    case Turn(text, calls, interactive) =>
      && s.stage == Idle && |s.turns| == |s.blocks| && AllWhole(s.blocks) && text == TextOf(s.stream) && text == s.heard
      && s.announced == (if interactive then InteractiveAnnouncements(s.stream) else Announcements(s.stream))
      && calls == (if interactive then DoneCalls(s.stream) else CallsOf(Gather(s.stream)))
      && (!interactive ==> DistinctIds(Ids(calls)))
    case Nudge(text) =>
      && s.stage == Idle && r.choice.mode.Required? && !s.satisfied && AllWhole(s.blocks)
      && |s.turns| == |s.blocks| + 1 && s.turns[|s.blocks|] == Said(text, [])
    case Request(call, interactive) =>
      && s.stage == Idle && Affordable(r, s, interactive)
      && (interactive ==>
            && s.stream != [] && s.stream[|s.stream| - 1].kind.CallDone? && call == LastCall(s.stream)
            && s.announced == InteractiveAnnouncements(s.stream))
      && (!interactive ==> (r.choice.mode.Required? ==> s.satisfied) && Awaits(s.blocks, call))
    case Decide(call, _) => s.stage == Asked(call) && call.id !in s.known
    case Approve(call, _) => s.stage == Waiting(call)
    case Execute(call, _) => s.stage == Announced(call) && call.id !in s.known
    case Answer(call, answer) => MayAnswer(r, s, call, answer)
    case Reply(call, content, interactive) =>
      && s.stage.Settled? && s.stage.call == call && content == ContentOf(s.stage.answer)
      && (!interactive ==> Awaits(s.blocks, call))
    case Emit(event) => MayEmit(s, event)
  }

  function BlocksAfter(blocks: seq<Block>, e: Entry): seq<Block> {
    match e
    case Turn(text, calls, interactive) =>
      if !interactive && calls != [] then blocks + [Exchange(text, calls, [])] else blocks
    case Nudge(text) => blocks + [Nudged(text)]
    case Reply(_, content, interactive) =>
      if !interactive && blocks != [] && blocks[|blocks| - 1].Exchange? then Answered(blocks, content) else blocks
    case _ => blocks
  }

  ghost function Note(r: Rules, s: Summary, e: Entry): Summary {
    Summary(
      if e.Start? then s.starts + 1 else s.starts,
      if e.Request? then s.requested + [e.call] else s.requested,
      if e.Receive? then s.received + [e.event] else s.received,
      if e.Receive? then s.stream + [e.event] else if e.Start? then [] else s.stream,
      if e.Start? then "" else if e.Emit? && e.sent.ModelText? then s.heard + e.sent.text else s.heard,
      if e.Emit? && e.sent.CallAnnounced? then s.announced + [e.sent.call] else if e.Start? then [] else s.announced,
      if e.Turn? then s.turns + [Said(e.text, e.calls)] else s.turns,
      BlocksAfter(s.blocks, e),
      s.satisfied || (e.Turn? && RequiredToolSatisfied(r.choice, e.calls)),
      if e.Execute? && e.output.Some? then
        s.known[e.call.id := Known(e.call.name, r.canonical(e.call.arguments), Bounded(r, e.output.value))]
      else s.known,
      StageAfter(r, s.stage, e),
      if e == Emit(RunStarted) then Open
      else if e.Emit? && (e.sent.RunCompleted? || e.sent.RunFailed?) then Over
      else s.phase,
      s.sound && InOrder(r, s, e))
  }

  ghost function Watch(r: Rules, log: seq<Entry>): Summary {
    if log == [] then BEGIN else Note(r, Watch(r, log[..|log| - 1]), log[|log| - 1])
  }

  lemma WatchSnoc(r: Rules, log: seq<Entry>, e: Entry)
    ensures Watch(r, log + [e]) == Note(r, Watch(r, log), e)
  {
    assert (log + [e])[..|log|] == log;
  }

  lemma WatchAt(r: Rules, log: seq<Entry>, i: nat)
    requires i < |log|
    ensures Watch(r, log[..i + 1]) == Note(r, Watch(r, log[..i]), log[i])
  {
    assert log[..i + 1][..i] == log[..i];
  }

  // ----- what a log in order guarantees

  lemma {:induction false} SoundBefore(r: Rules, log: seq<Entry>, i: nat)
    requires Watch(r, log).sound && i <= |log|
    ensures Watch(r, log[..i]).sound
    ensures i < |log| ==> InOrder(r, Watch(r, log[..i]), log[i])
    decreases |log| - i
  {
    if i == |log| {
      assert log[..i] == log;
    } else {
      SoundBefore(r, log, i + 1);
      WatchAt(r, log, i);
    }
  }

  lemma NoteKeepsKnown(r: Rules, s: Summary, e: Entry, id: string)
    requires InOrder(r, s, e) && id in s.known
    ensures id in Note(r, s, e).known && Note(r, s, e).known[id] == s.known[id]
  {
  }

  /** What has been recorded for a call stays recorded. */
  lemma {:induction false} KnownStaysKnown(r: Rules, log: seq<Entry>, i: nat, j: nat, id: string)
    requires Watch(r, log).sound && i <= j <= |log| && id in Watch(r, log[..i]).known
    ensures id in Watch(r, log[..j]).known && Watch(r, log[..j]).known[id] == Watch(r, log[..i]).known[id]
    decreases j
  {
    hide InOrder, Watch, Note;
    if i < j {
      KnownStaysKnown(r, log, i, j - 1, id);
      WatchAt(r, log, j - 1);
      SoundBefore(r, log, j - 1);
      NoteKeepsKnown(r, Watch(r, log[..j - 1]), log[j - 1], id);
    }
  }

  lemma SuccessIsRecorded(r: Rules, log: seq<Entry>, i: nat)
    requires Watch(r, log).sound && i < |log| && log[i].Execute? && log[i].output.Some?
    ensures var id, s := log[i].call.id, Watch(r, log[..i + 1]);
            && id in s.known
            && s.known[id].name == log[i].call.name && s.known[id].arguments == r.canonical(log[i].call.arguments)
            && s.known[id].result == Bounded(r, log[i].output.value)
  {
    WatchAt(r, log, i);
    hide Watch;
  }

  /** After a successful execution no execution for the same call id ever follows. */
  lemma OneSuccessPerCall(r: Rules, log: seq<Entry>, i: nat, j: nat)
    requires Watch(r, log).sound && i < j < |log|
    requires log[i].Execute? && log[i].output.Some? && log[j].Execute?
    ensures log[i].call.id != log[j].call.id
  {
    hide Watch;
    SuccessIsRecorded(r, log, i);
    KnownStaysKnown(r, log, i + 1, j, log[i].call.id);
    SoundBefore(r, log, j);
  }

  /** A call repeated after its success is answered at once, with no authorization, approval, event or
      execution in between: from the record for equal arguments, otherwise with a refusal. */
  lemma RepeatsComeFromTheRecord(r: Rules, log: seq<Entry>, i: nat, j: nat)
    requires Watch(r, log).sound && i < j && j + 1 < |log|
    requires log[i].Execute? && log[i].output.Some? && log[j].Request? && log[j].call.id == log[i].call.id
    ensures var next := log[j + 1];
            && next.Answer? && next.call == log[j].call
            && (next.answer.Result? ==>
                  && r.canonical(log[j].call.arguments) == r.canonical(log[i].call.arguments)
                  && next.answer.value == Bounded(r, log[i].output.value))
  {
    hide Watch, InOrder, Note, Bounded;
    SuccessIsRecorded(r, log, i);
    KnownStaysKnown(r, log, i + 1, j + 1, log[i].call.id);
    WatchAt(r, log, j);
    RequestAsks(r, Watch(r, log[..j]), log[j]);
    SoundBefore(r, log, j + 1);
    KnownIsAnswered(r, Watch(r, log[..j + 1]), log[j].call, log[j + 1]);
  }

  lemma RequestAsks(r: Rules, s: Summary, e: Entry)
    requires e.Request?
    ensures Note(r, s, e).stage == Asked(e.call)
  {
  }

  /** The only entry in order after a request for a known call. */
  lemma KnownIsAnswered(r: Rules, s: Summary, call: ToolCall, e: Entry)
    requires InOrder(r, s, e) && s.stage == Asked(call) && call.id in s.known
    ensures e.Answer? && e.call == call && (e.answer.Result? ==> Repeats(r, s, call, e.answer.value))
  {
  }

  /** The result comes from an execution of the tool this call names. */
  ghost predicate Produced(r: Rules, log: seq<Entry>, call: ToolCall, result: ToolResult) {
    exists i :: 0 <= i < |log| && Produces(r, log[i], call, result)
  }

  predicate Produces(r: Rules, e: Entry, call: ToolCall, result: ToolResult) {
    && e.Execute? && e.output.Some? && e.call.id == call.id && e.call.name == call.name
    && result == Bounded(r, e.output.value)
  }

  /** The name is not part of the record: a repeated call that gets an answer gets one of the tool it names
      if and only if it names the tool that was run under its id. */
  lemma RepeatIsOfTheNamedToolIff(r: Rules, log: seq<Entry>, i: nat, j: nat)
    requires Watch(r, log).sound && i < j && j + 1 < |log|
    requires log[i].Execute? && log[i].output.Some? && log[j].Request? && log[j].call.id == log[i].call.id
    requires log[j + 1].Answer? && log[j + 1].answer.Result?
    ensures Produced(r, log[..j], log[j].call, log[j + 1].answer.value) <==> log[j].call.name == log[i].call.name
  {
    hide Watch, Bounded;
    RepeatsComeFromTheRecord(r, log, i, j);
    if Produced(r, log[..j], log[j].call, log[j + 1].answer.value) {
      var k :| 0 <= k < j && Produces(r, log[..j][k], log[j].call, log[j + 1].answer.value);
      if k < i {
        OneSuccessPerCall(r, log, k, i);
      } else if i < k {
        OneSuccessPerCall(r, log, i, k);
      }
    }
    assert log[..j][i] == log[i];
  }

  /** The one entry that can have led into a stage. */
  predicate LedTo(e: Entry, before: Stage, after: Stage) {
    match after
    case Announced(call) => e == Emit(ToolStarted(call)) && before == Cleared(call)
    case Cleared(call) =>
      (e == Decide(call, Allow) && before == Asked(call)) || (e == Approve(call, true) && before == Waiting(call))
    case Waiting(call) => e == Emit(ApprovalNeeded(call)) && before == Pending(call)
    case Pending(call) => e == Decide(call, NeedsApproval) && before == Asked(call)
    case Asked(call) => e.Request? && e.call == call
    case _ => true
  }

  lemma StagesAreLedTo(r: Rules, s: Summary, e: Entry)
    requires InOrder(r, s, e)
    ensures LedTo(e, s.stage, StageAfter(r, s.stage, e))
  {
    hide MayAnswer, Bounded, SumOf, Unroll, AllWhole, Awaits, RequiredToolSatisfied;
  }

  lemma StepBack(r: Rules, log: seq<Entry>, i: nat)
    requires Watch(r, log).sound && i <= |log| && Watch(r, log[..i]).stage != Idle
    ensures i > 0 && LedTo(log[i - 1], Watch(r, log[..i - 1]).stage, Watch(r, log[..i]).stage)
  {
    assert log[..0] == [];
    if i > 0 {
      hide Watch, InOrder;
      SoundBefore(r, log, i - 1);
      WatchAt(r, log, i - 1);
      StagesAreLedTo(r, Watch(r, log[..i - 1]), log[i - 1]);
    }
  }

  /** No tool body runs unless the decision for that very call was to allow it, or its owner was asked and
      agreed; and never without having been announced. */
  lemma NoToolWithoutPermission(r: Rules, log: seq<Entry>, i: nat)
    requires Watch(r, log).sound && i < |log| && log[i].Execute?
    ensures var call := log[i].call;
            && i >= 3 && log[i - 1] == Emit(ToolStarted(call))
            && (|| (log[i - 2] == Decide(call, Allow) && log[i - 3].Request? && log[i - 3].call == call)
                || (&& i >= 5 && log[i - 2] == Approve(call, true) && log[i - 3] == Emit(ApprovalNeeded(call))
                    && log[i - 4] == Decide(call, NeedsApproval) && log[i - 5].Request? && log[i - 5].call == call))
  {
    hide Watch, InOrder, Note;
    ExecutesAnnounced(r, log, i);
    StepBack(r, log, i);
    StepBack(r, log, i - 1);
    StepBack(r, log, i - 2);
    if log[i - 2].Approve? {
      StepBack(r, log, i - 3);
      StepBack(r, log, i - 4);
    }
  }

  lemma ExecutesAnnounced(r: Rules, log: seq<Entry>, i: nat)
    requires Watch(r, log).sound && i < |log| && log[i].Execute?
    ensures Watch(r, log[..i]).stage == Announced(log[i].call)
  {
    hide Watch, InOrder;
    SoundBefore(r, log, i);
    ExecuteNeedsAnnouncement(r, Watch(r, log[..i]), log[i]);
  }

  lemma ExecuteNeedsAnnouncement(r: Rules, s: Summary, e: Entry)
    requires InOrder(r, s, e) && e.Execute?
    ensures s.stage == Announced(e.call)
  {
  }

  /** Every reply tells the model what its call has just come to: the content of the result, or the text of the
      error. */
  lemma RepliesTellTheAnswer(r: Rules, log: seq<Entry>, i: nat)
    requires Watch(r, log).sound && i < |log| && log[i].Reply?
    ensures i > 0 && log[i - 1].Answer? && log[i - 1].call == log[i].call
    ensures log[i].content == ContentOf(log[i - 1].answer)
  {
    hide Watch, InOrder, Note;
    NothingWatched(r);
    assert log[..0] == [];
    SoundBefore(r, log, i);
    RepliesSettle(r, Watch(r, log[..i]), log[i]);
    SoundBefore(r, log, i - 1);
    WatchAt(r, log, i - 1);
    SettledByAnAnswer(r, Watch(r, log[..i - 1]), log[i - 1]);
  }

  lemma NothingWatched(r: Rules)
    ensures Watch(r, []) == BEGIN
  {
  }

  lemma RepliesSettle(r: Rules, s: Summary, e: Entry)
    requires InOrder(r, s, e) && e.Reply?
    ensures s.phase == Open && s.stage.Settled? && s.stage.call == e.call && e.content == ContentOf(s.stage.answer)
  {
  }

  lemma SettledByAnAnswer(r: Rules, s: Summary, e: Entry)
    requires InOrder(r, s, e) && Note(r, s, e).phase == Open && Note(r, s, e).stage.Settled?
    ensures e.Answer? && Note(r, s, e).stage == Settled(e.call, e.answer)
  {
    hide MayAnswer, Bounded, SumOf, Unroll, AllWhole, Awaits, RequiredToolSatisfied;
  }

  /** The replies given on ordinary streams. */
  function RepliesIn(log: seq<Entry>): seq<(string, seq<byte>)> {
    if log == [] then []
    else
      var e := log[|log| - 1];
      RepliesIn(log[..|log| - 1]) + (if e.Reply? && !e.interactive then [(e.call.id, e.content)] else [])
  }

  lemma AnswersAfter(r: Rules, s: Summary, e: Entry)
    requires InOrder(r, s, e)
    ensures AnswersOf(BlocksAfter(s.blocks, e))
            == AnswersOf(s.blocks) + (if e.Reply? && !e.interactive then [(e.call.id, e.content)] else [])
  {
    match e
    case Turn(text, calls, _) =>
      var b := Exchange(text, calls, []);
      assert (s.blocks + [b])[..|s.blocks|] == s.blocks && PairsOf(b) == [];
    case Nudge(text) =>
      assert (s.blocks + [Nudged(text)])[..|s.blocks|] == s.blocks;
    case Reply(call, content, interactive) =>
      if !interactive {
        AnsweredUnrolls(s.blocks, call, content);
      }
    case _ =>
  }

  lemma {:induction false} AnswersAreReplies(r: Rules, log: seq<Entry>)
    requires Watch(r, log).sound
    ensures AnswersOf(Watch(r, log).blocks) == RepliesIn(log)
  {
    if log != [] {
      hide InOrder, BlocksAfter, AnswersOf;
      var n := |log| - 1;
      AnswersAreReplies(r, log[..n]);
      AnswersAfter(r, Watch(r, log[..n]), log[n]);
    }
  }

  /** What the model said in each block. */
  function SaidIn(blocks: seq<Block>): seq<Said> {
    seq(|blocks|, i requires 0 <= i < |blocks| =>
        Said(blocks[i].text, if blocks[i].Exchange? then blocks[i].calls else []))
  }

  /** The turns of the model so far. */
  function TurnsIn(log: seq<Entry>): seq<Said> {
    if log == [] then []
    else
      var e := log[|log| - 1];
      TurnsIn(log[..|log| - 1]) + (if e.Turn? then [Said(e.text, e.calls)] else [])
  }

  lemma {:induction false} TurnsAreKept(r: Rules, log: seq<Entry>)
    ensures Watch(r, log).turns == TurnsIn(log)
  {
    if log != [] {
      TurnsAreKept(r, log[..|log| - 1]);
    }
  }

  /** The blocks say what the turns said; the last turn may still be without its block. */
  ghost predicate Retold(s: Summary) {
    |s.blocks| <= |s.turns| && SaidIn(s.blocks) == s.turns[..|s.blocks|]
  }

  lemma RetoldAfter(r: Rules, s: Summary, e: Entry)
    requires InOrder(r, s, e) && Retold(s)
    ensures Retold(Note(r, s, e))
  {
    hide Unroll, AnswersOf, AllWhole, SumOf, TextOf, MayAnswer, MayEmit, RequiredToolSatisfied, Bounded;
    var t := Note(r, s, e);
    match e
    case Turn(text, calls, interactive) =>
      assert t.turns[..|s.blocks|] == s.turns[..|s.blocks|];
      if !interactive && calls != [] {
        assert SaidIn(t.blocks) == SaidIn(s.blocks) + [Said(text, calls)];
      }
    case Nudge(text) => assert SaidIn(t.blocks) == SaidIn(s.blocks) + [Said(text, [])];
    case Reply(_, content, interactive) => assert SaidIn(t.blocks) == SaidIn(s.blocks);
    case _ =>
  }

  lemma {:induction false} BlocksRetellTurns(r: Rules, log: seq<Entry>)
    requires Watch(r, log).sound
    ensures Retold(Watch(r, log))
  {
    if log != [] {
      hide InOrder, Retold, Note;
      BlocksRetellTurns(r, log[..|log| - 1]);
      SoundStep(r, log);
      RetoldAfter(r, Watch(r, log[..|log| - 1]), log[|log| - 1]);
    }
  }

  lemma SoundStep(r: Rules, log: seq<Entry>)
    requires log != [] && Watch(r, log).sound
    ensures Watch(r, log[..|log| - 1]).sound && InOrder(r, Watch(r, log[..|log| - 1]), log[|log| - 1])
  {
  }

  /** Every request to the model shows the original messages, then whole blocks: a turn with distinct call
      ids answered in order by one message per id, or a turn without calls and the one nudge. The texts and
      calls shown are exactly those of the model's turns so far, and the answers exactly the replies. */
  lemma RequestsShowWholeBlocks(r: Rules, log: seq<Entry>, i: nat)
    requires Watch(r, log).sound && i < |log| && log[i].Start?
    ensures exists blocks ::
              && log[i].messages == r.original + Unroll(blocks) && AllWhole(blocks)
              && SaidIn(blocks) == TurnsIn(log[..i]) && AnswersOf(blocks) == RepliesIn(log[..i])
              && Nudges(blocks) <= (if r.choice.mode.Required? then 1 else 0)
  {
    SoundBefore(r, log, i);
    AnswersAreReplies(r, log[..i]);
    BlocksRetellTurns(r, log[..i]);
    TurnsAreKept(r, log[..i]);
    hide Watch;
    var blocks := Watch(r, log[..i]).blocks;
    assert log[i].messages == r.original + Unroll(blocks) && AllWhole(blocks);
    assert SaidIn(blocks) == TurnsIn(log[..i]);
  }

  /** The events received since the model was last asked. */
  function StreamIn(log: seq<Entry>): seq<ModelEvent> {
    if log == [] then []
    else
      var e := log[|log| - 1];
      if e.Start? then [] else if e.Receive? then StreamIn(log[..|log| - 1]) + [e.event] else StreamIn(log[..|log| - 1])
  }

  /** The text passed on since the model was last asked. */
  function HeardIn(log: seq<Entry>): string {
    if log == [] then ""
    else
      var e := log[|log| - 1];
      if e.Start? then ""
      else if e.Emit? && e.sent.ModelText? then HeardIn(log[..|log| - 1]) + e.sent.text
      else HeardIn(log[..|log| - 1])
  }

  /** The calls announced since the model was last asked. */
  function AnnouncedIn(log: seq<Entry>): seq<ToolCall> {
    if log == [] then []
    else
      var e := log[|log| - 1];
      if e.Start? then []
      else if e.Emit? && e.sent.CallAnnounced? then AnnouncedIn(log[..|log| - 1]) + [e.sent.call]
      else AnnouncedIn(log[..|log| - 1])
  }

  lemma {:induction false} AnnouncementsAreKept(r: Rules, log: seq<Entry>)
    ensures Watch(r, log).announced == AnnouncedIn(log)
  {
    if log != [] {
      AnnouncementsAreKept(r, log[..|log| - 1]);
    }
  }

  /** When an ordinary turn is complete, a call was announced if and only if it got a start event or its
      first event was a done event. */
  lemma OrdinaryCallAnnouncedIff(r: Rules, log: seq<Entry>, i: nat, id: string)
    requires Watch(r, log).sound && i < |log| && log[i].Turn? && !log[i].interactive
    ensures id in Ids(AnnouncedIn(log[..i])) <==> exists k: nat :: Introduces(StreamIn(log[..i]), k, id)
  {
    SoundBefore(r, log, i);
    StreamIsKept(r, log[..i]);
    AnnouncementsAreKept(r, log[..i]);
    hide Watch, Introduces;
    AnnouncedIff(StreamIn(log[..i]), id);
  }

  /** A call that runs inside an interactive stream has been announced there, and once. */
  lemma InteractiveCallAnnouncedOnce(r: Rules, log: seq<Entry>, i: nat)
    requires Watch(r, log).sound && i < |log| && log[i].Request? && log[i].interactive
    ensures log[i].call.id in Ids(AnnouncedIn(log[..i])) && DistinctIds(Ids(AnnouncedIn(log[..i])))
  {
    SoundBefore(r, log, i);
    StreamIsKept(r, log[..i]);
    AnnouncementsAreKept(r, log[..i]);
    hide Watch;
    var stream := StreamIn(log[..i]);
    InteractivelyAnnouncedOnce(stream);
    InteractiveSnoc(stream);
  }

  lemma {:induction false} StreamIsKept(r: Rules, log: seq<Entry>)
    ensures Watch(r, log).stream == StreamIn(log) && Watch(r, log).heard == HeardIn(log)
  {
    if log != [] {
      StreamIsKept(r, log[..|log| - 1]);
    }
  }

  /** A turn is the text and the calls of the events of its own stream, all of its text has been passed on
      in order, and a tool is run inside a stream
      only right after its call was reported done there. */
  lemma TurnsAreWhatWasStreamed(r: Rules, log: seq<Entry>, i: nat)
    requires Watch(r, log).sound && i < |log|
    ensures var stream := StreamIn(log[..i]);
            && (log[i].Turn? ==> log[i].text == TextOf(stream) && log[i].text == HeardIn(log[..i]))
            && (log[i].Turn? && !log[i].interactive ==> log[i].calls == CallsOf(Gather(stream)))
            && (log[i].Turn? && log[i].interactive ==> log[i].calls == DoneCalls(stream))
            && (log[i].Request? && log[i].interactive ==>
                  stream != [] && stream[|stream| - 1].kind.CallDone? && log[i].call == LastCall(stream))
  {
    SoundBefore(r, log, i);
    StreamIsKept(r, log[..i]);
    hide Watch;
  }

  /** The calls of an ordinary turn are those the stream mentions, in order of first appearance, each as its
      events made it. */
  lemma TurnCallsAreDescribed(r: Rules, log: seq<Entry>, i: nat)
    requires Watch(r, log).sound && i < |log| && log[i].Turn? && !log[i].interactive
    ensures Ids(log[i].calls) == Mentioned(StreamIn(log[..i]))
    ensures forall k :: 0 <= k < |log[i].calls| ==> Describes(StreamIn(log[..i]), log[i].calls[k])
  {
    TurnsAreWhatWasStreamed(r, log, i);
    CallsAreDescribed(StreamIn(log[..i]));
  }

  /** A call that runs inside an interactive stream is the one just reported done, as its events so far made it. */
  lemma InteractiveCallIsDescribed(r: Rules, log: seq<Entry>, i: nat)
    requires Watch(r, log).sound && i < |log| && log[i].Request? && log[i].interactive
    ensures var stream := StreamIn(log[..i]);
            && stream != [] && stream[|stream| - 1].kind.CallDone?
            && LastIsOf(stream, log[i].call.id) && Describes(stream, log[i].call)
  {
    TurnsAreWhatWasStreamed(r, log, i);
    LastCallIsDescribed(StreamIn(log[..i]));
  }

  lemma {:induction false} SatisfiedByATurn(r: Rules, log: seq<Entry>)
    requires Watch(r, log).satisfied
    ensures exists k :: 0 <= k < |log| && log[k].Turn? && RequiredToolSatisfied(r.choice, log[k].calls)
  {
    var n := |log| - 1;
    if log != [] && Watch(r, log[..n]).satisfied {
      SatisfiedByATurn(r, log[..n]);
      var k :| 0 <= k < n && log[..n][k].Turn? && RequiredToolSatisfied(r.choice, log[..n][k].calls);
      assert log[k].Turn?;
    } else {
      assert log[n].Turn?;
    }
  }

  /** On ordinary streams no tool is run before the turn that contains the required one. */
  lemma OrdinaryToolsWaitForTheRequiredOne(r: Rules, log: seq<Entry>, i: nat)
    requires Watch(r, log).sound && i < |log| && log[i].Request? && !log[i].interactive && r.choice.mode.Required?
    ensures exists k :: 0 <= k < i && log[k].Turn? && RequiredToolSatisfied(r.choice, log[k].calls)
  {
    SoundBefore(r, log, i);
    hide Watch;
    SatisfiedByATurn(r, log[..i]);
    var k :| 0 <= k < i && log[..i][k].Turn? && RequiredToolSatisfied(r.choice, log[..i][k].calls);
    assert log[k].Turn?;
  }

  /** Every event received in the run. */
  function ReceivedIn(log: seq<Entry>): seq<ModelEvent> {
    if log == [] then []
    else
      var e := log[|log| - 1];
      ReceivedIn(log[..|log| - 1]) + (if e.Receive? then [e.event] else [])
  }

  lemma {:induction false} ReceivedIsKept(r: Rules, log: seq<Entry>)
    ensures Watch(r, log).received == ReceivedIn(log)
  {
    if log != [] {
      ReceivedIsKept(r, log[..|log| - 1]);
    }
  }

  /** No tool is called for once the token budget is spent: on an ordinary stream the budget covers all that
      the run has used, inside an interactive stream only what that stream has used so far. */
  lemma NoToolBeyondTheTokenBudget(r: Rules, log: seq<Entry>, i: nat)
    requires Watch(r, log).sound && i < |log| && log[i].Request? && r.maxTokens > 0
    ensures SumOf(if log[i].interactive then StreamIn(log[..i]) else ReceivedIn(log[..i])).total <= r.maxTokens
  {
    hide Watch, SumOf, InOrder;
    SoundBefore(r, log, i);
    StreamIsKept(r, log[..i]);
    ReceivedIsKept(r, log[..i]);
    RequestsAreAffordable(r, Watch(r, log[..i]), log[i]);
  }

  lemma RequestsAreAffordable(r: Rules, s: Summary, e: Entry)
    requires InOrder(r, s, e) && e.Request?
    ensures Affordable(r, s, e.interactive)
  {
  }

  predicate Ends(e: Entry) {
    e.Emit? && (e.sent.RunCompleted? || e.sent.RunFailed?)
  }

  lemma {:induction false} PhaseTells(r: Rules, log: seq<Entry>)
    requires Watch(r, log).sound
    ensures var phase := Watch(r, log).phase;
            && (phase == Quiet <==> log == [])
            && (phase == Over <==> log != [] && Ends(log[|log| - 1]))
  {
    if log != [] {
      PhaseTells(r, log[..|log| - 1]);
    }
  }

  /** A run announces itself first and once, and nothing follows its end. */
  lemma StartsOnceAndEndsLast(r: Rules, log: seq<Entry>, i: nat)
    requires Watch(r, log).sound && i < |log|
    ensures log[i] == Emit(RunStarted) <==> i == 0
    ensures Ends(log[i]) ==> i == |log| - 1
  {
    SoundBefore(r, log, i);
    PhaseTells(r, log[..i]);
    if i + 1 < |log| {
      SoundBefore(r, log, i + 1);
      PhaseTells(r, log[..i + 1]);
    }
    hide Watch;
  }
}
