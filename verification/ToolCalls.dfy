/** Assembling tool calls from a stream of model events (internal/agent/runtime.go:241-330, 341-474). */
module ToolCalls {
  import opened Bytes
  import opened Text
  import Arithmetic = TokenMath

  type int64 = Arithmetic.int64

  datatype Usage = Usage(input: int64, output: int64, total: int64)

  const NO_USAGE: Usage := Usage(0, 0, 0)

  function Plus(u: Usage, v: Usage): Usage {
    Usage(Arithmetic.Add(u.input, v.input), Arithmetic.Add(u.output, v.output), Arithmetic.Add(u.total, v.total))
  }

  datatype EventKind = Started | TextDelta | CallStarted | CallDelta | CallDone | Finished | Unrecognized

  datatype ModelEvent = ModelEvent(
    kind: EventKind, response: string, text: string, callId: string, toolName: string,
    arguments: string, argumentsDelta: string, extras: string, usage: Usage)

  predicate AboutCall(e: ModelEvent) {
    e.kind.CallStarted? || e.kind.CallDelta? || e.kind.CallDone?
  }

  datatype ToolCall = ToolCall(id: string, name: string, arguments: string, extras: string)

  // ----- one builder per call id, in order of first appearance

  datatype Builder = Builder(id: string, name: string, arguments: string, extras: string)

  datatype Table = Table(builders: map<string, Builder>, order: seq<string>)

  const NO_CALLS: Table := Table(map[], [])

  function Decimal(n: nat): string {
    (if n < 10 then "" else Decimal(n / 10)) + ["0123456789"[n % 10]]
  }

  /** A blank id gets a name from its position. */
  function NormalizeCallID(id: string, ordinal: nat): string {
    if TrimSpace(id) != "" then id else "call_" + Decimal(ordinal)
  }

  function Extended(b: Builder, e: ModelEvent): Builder {
    Builder(
      b.id,
      if e.toolName != "" then e.toolName else b.name,
      if e.kind.CallDelta? then b.arguments + e.argumentsDelta
      else if e.arguments != "" then e.arguments
      else b.arguments,
      if e.extras != "" then e.extras else b.extras)
  }

  function BuilderFor(t: Table, id: string): Builder {
    if id in t.builders then t.builders[id] else Builder(id, "", "", "")
  }

  function EventId(t: Table, e: ModelEvent): string {
    NormalizeCallID(e.callId, |t.order| + 1)
  }

  function Take(t: Table, e: ModelEvent): Table {
    var id := EventId(t, e);
    Table(t.builders[id := Extended(BuilderFor(t, id), e)], if id in t.builders then t.order else t.order + [id])
  }

  function Gather(events: seq<ModelEvent>): Table {
    if events == [] then NO_CALLS
    else
      var t := Gather(events[..|events| - 1]);
      var e := events[|events| - 1];
      if AboutCall(e) then Take(t, e) else t
  }

  lemma GatherSnoc(events: seq<ModelEvent>, i: nat)
    requires i < |events|
    ensures Gather(events[..i + 1]) ==
              if AboutCall(events[i]) then Take(Gather(events[..i]), events[i]) else Gather(events[..i])
  {
    assert events[..i + 1][..i] == events[..i];
  }

  /** The call a builder stands for: blank arguments become an empty object. */
  function CallOf(b: Builder): ToolCall {
    var arguments := TrimSpace(b.arguments);
    ToolCall(b.id, b.name, if arguments == "" then "{}" else arguments, b.extras)
  }

  ghost predicate DistinctIds(ids: seq<string>) {
    forall i, j :: 0 <= i < j < |ids| ==> ids[i] != ids[j]
  }

  ghost predicate Orderly(t: Table) {
    && DistinctIds(t.order)
    && (forall id :: id in t.builders <==> id in t.order)
    && (forall id :: id in t.builders ==> t.builders[id].id == id && TrimSpace(id) != "")
  }

  lemma {:induction false} BlankOrNot(s: string)
    requires s != "" && !IsSpace(s[0])
    ensures TrimSpace(s) != ""
  {
    assert TrimLeft(s) == s;
    NotAllTrimmed(s);
  }

  lemma {:induction false} NotAllTrimmed(s: string)
    requires s != "" && !IsSpace(s[0])
    ensures TrimRight(s) != ""
  {
    if |s| > 1 && IsSpace(s[|s| - 1]) {
      NotAllTrimmed(s[..|s| - 1]);
    }
  }

  lemma NormalizedIsNotBlank(id: string, ordinal: nat)
    ensures TrimSpace(NormalizeCallID(id, ordinal)) != ""
  {
    if TrimSpace(id) == "" {
      BlankOrNot("call_" + Decimal(ordinal));
    }
  }

  lemma TakeStaysOrderly(t: Table, e: ModelEvent)
    requires Orderly(t)
    ensures Orderly(Take(t, e))
  {
    hide TrimSpace, Decimal, NormalizeCallID, Extended;
    NormalizedIsNotBlank(e.callId, |t.order| + 1);
    ExtendedKeepsId(BuilderFor(t, EventId(t, e)), e);
  }

  lemma ExtendedKeepsId(b: Builder, e: ModelEvent)
    ensures Extended(b, e).id == b.id
  {
  }

  /** Whatever the stream does with its ids, no two calls share one and none is blank. */
  lemma {:induction false} GatheredIsOrderly(events: seq<ModelEvent>)
    ensures Orderly(Gather(events))
  {
    if events != [] {
      hide Orderly, Take;
      GatheredIsOrderly(events[..|events| - 1]);
      TakeStaysOrderly(Gather(events[..|events| - 1]), events[|events| - 1]);
    } else {
    }
  }

  /** The events of one call. */
  function Only(events: seq<ModelEvent>, id: string): seq<ModelEvent> {
    if events == [] then []
    else
      Only(events[..|events| - 1], id)
      + (if AboutCall(events[|events| - 1]) && events[|events| - 1].callId == id then [events[|events| - 1]] else [])
  }

  /** Every call event carries an id of its own. */
  predicate Named(events: seq<ModelEvent>) {
    forall i :: 0 <= i < |events| && AboutCall(events[i]) ==> TrimSpace(events[i].callId) != ""
  }

  lemma NamedLast(events: seq<ModelEvent>)
    requires Named(events) && events != []
    ensures var n := |events| - 1;
            Named(events[..n]) && (AboutCall(events[n]) ==> TrimSpace(events[n].callId) != "")
  {
  }

  lemma OnlySnoc(init: seq<ModelEvent>, e: ModelEvent, id: string)
    ensures Only(init + [e], id) == if AboutCall(e) && e.callId == id then Only(init, id) + [e] else Only(init, id)
  {
    assert (init + [e])[..|init|] == init;
  }

  lemma GatherOneMore(init: seq<ModelEvent>, e: ModelEvent)
    ensures Gather(init + [e]) == if AboutCall(e) then Take(Gather(init), e) else Gather(init)
  {
    assert (init + [e])[..|init|] == init;
  }

  /** Calls that are streamed interleaved come out as if each had been streamed alone. */
  lemma {:induction false} InterleavingDoesNotMix(events: seq<ModelEvent>, id: string)
    requires Named(events)
    ensures BuilderFor(Gather(events), id) == BuilderFor(Gather(Only(events, id)), id)
    ensures id in Gather(events).builders <==> Only(events, id) != []
  {
    if events != [] {
      hide TrimSpace, Extended, Take, BuilderFor, Gather, Only, Named, AboutCall;
      var n := |events| - 1;
      var init, e := events[..n], events[n];
      assert events == init + [e];
      NamedLast(events);
      InterleavingDoesNotMix(init, id);
      OnlySnoc(init, e, id);
      GatherOneMore(init, e);
      GatherOneMore(Only(init, id), e);
      if AboutCall(e) {
        TakeOne(Gather(init), e, id);
        TakeOne(Gather(Only(init, id)), e, id);
      }
    }
  }

  /** An event with an id of its own moves that builder and no other. */
  lemma TakeOne(t: Table, e: ModelEvent, id: string)
    requires TrimSpace(e.callId) != ""
    ensures BuilderFor(Take(t, e), id) == (if e.callId == id then Extended(BuilderFor(t, id), e) else BuilderFor(t, id))
    ensures id in Take(t, e).builders <==> e.callId == id || id in t.builders
  {
    hide TrimSpace, Extended;
  }

  // ----- what a call is made of, in terms of its events alone

  /** The ids of a stream's calls in order of first appearance; a blank id stands for its position. */
  function Mentioned(events: seq<ModelEvent>): seq<string> {
    if events == [] then []
    else
      var so, e := Mentioned(events[..|events| - 1]), events[|events| - 1];
      if AboutCall(e) && NormalizeCallID(e.callId, |so| + 1) !in so then so + [NormalizeCallID(e.callId, |so| + 1)]
          else so
  }

  /** The last event belongs to the call with this id. */
  predicate LastIsOf(events: seq<ModelEvent>, id: string)
    requires events != []
  {
    var e := events[|events| - 1];
    AboutCall(e) && NormalizeCallID(e.callId, |Mentioned(events[..|events| - 1])| + 1) == id
  }

  /** The events of one call. */
  function Own(events: seq<ModelEvent>, id: string): seq<ModelEvent> {
    if events == [] then []
    else Own(events[..|events| - 1], id) + (if LastIsOf(events, id) then [events[|events| - 1]] else [])
  }

  /** The concatenated argument deltas. */
  function Deltas(events: seq<ModelEvent>): string {
    if events == [] then ""
    else
      var e := events[|events| - 1];
      Deltas(events[..|events| - 1]) + (if e.kind.CallDelta? then e.argumentsDelta else "")
  }

  /** The event carries the arguments as a whole. */
  predicate Whole(e: ModelEvent) {
    !e.kind.CallDelta? && e.arguments != ""
  }

  /** Raw arguments: those of the last event that carries them as a whole, and all deltas after it. */
  ghost predicate RawArguments(own: seq<ModelEvent>, raw: string) {
    exists k: nat :: RawFrom(own, k, raw)
  }

  ghost predicate RawFrom(own: seq<ModelEvent>, k: nat, raw: string) {
    && k <= |own| && (k > 0 ==> Whole(own[k - 1]))
    && (forall j :: k <= j < |own| ==> !Whole(own[j]))
    && raw == (if k == 0 then "" else own[k - 1].arguments) + Deltas(own[k..])
  }

  /** The last value that is not empty, if there is any. */
  ghost predicate LastGiven(values: seq<string>, v: string) {
    if v == "" then forall i :: 0 <= i < |values| ==> values[i] == ""
    else exists k :: 0 <= k < |values| && values[k] == v && forall j :: k < j < |values| ==> values[j] == ""
  }

  function Names(own: seq<ModelEvent>): seq<string> {
    seq(|own|, i requires 0 <= i < |own| => own[i].toolName)
  }

  function Extras(own: seq<ModelEvent>): seq<string> {
    seq(|own|, i requires 0 <= i < |own| => own[i].extras)
  }

  ghost predicate Assembled(own: seq<ModelEvent>, name: string, arguments: string, extras: string) {
    LastGiven(Names(own), name) && RawArguments(own, arguments) && LastGiven(Extras(own), extras)
  }

  /** A call as its events make it: the last name and extras given, and the raw arguments without surrounding
      space, or an empty object for blank ones. */
  ghost predicate Describes(events: seq<ModelEvent>, call: ToolCall) {
    && LastGiven(Names(Own(events, call.id)), call.name) && LastGiven(Extras(Own(events, call.id)), call.extras)
    && exists raw :: RawArguments(Own(events, call.id), raw) && call.arguments == OrObject(TrimSpace(raw))
  }

  function OrObject(arguments: string): string {
    if arguments == "" then "{}" else arguments
  }

  /** The events leave no choice. */
  lemma DescribedOnce(events: seq<ModelEvent>, a: ToolCall, b: ToolCall)
    requires Describes(events, a) && Describes(events, b) && a.id == b.id
    ensures a == b
  {
    var own := Own(events, a.id);
    hide Own, TrimSpace, Deltas;
    GivenOnce(Names(own), a.name, b.name);
    GivenOnce(Extras(own), a.extras, b.extras);
    var r :| RawArguments(own, r) && a.arguments == OrObject(TrimSpace(r));
    var q :| RawArguments(own, q) && b.arguments == OrObject(TrimSpace(q));
    var k: nat :| RawFrom(own, k, r);
    var j: nat :| RawFrom(own, j, q);
    assert k > 0 ==> Whole(own[k - 1]);
    assert j > 0 ==> Whole(own[j - 1]);
  }

  lemma GivenOnce(values: seq<string>, v: string, w: string)
    requires LastGiven(values, v) && LastGiven(values, w)
    ensures v == w
  {
  }

  lemma GivenOneMore(values: seq<string>, v: string, next: string)
    requires LastGiven(values, v)
    ensures LastGiven(values + [next], if next != "" then next else v)
  {
    var all := values + [next];
    if next != "" {
      assert all[|values|] == next;
    } else if v != "" {
      var k :| 0 <= k < |values| && values[k] == v && forall j :: k < j < |values| ==> values[j] == "";
      assert all[k] == v;
    }
  }

  lemma DeltasOneMore(events: seq<ModelEvent>, e: ModelEvent)
    ensures Deltas(events + [e]) == Deltas(events) + (if e.kind.CallDelta? then e.argumentsDelta else "")
  {
    assert (events + [e])[..|events|] == events;
  }

  lemma RawOneMore(own: seq<ModelEvent>, raw: string, e: ModelEvent)
    requires RawArguments(own, raw)
    ensures RawArguments(own + [e],
              if e.kind.CallDelta? then raw + e.argumentsDelta else if e.arguments != "" then e.arguments else raw)
  {
    hide Deltas;
    var all := own + [e];
    if Whole(e) {
      assert all[|own| + 1..] == [];
      NoDeltas();
      assert RawFrom(all, |own| + 1, e.arguments);
    } else {
      var k: nat :| RawFrom(own, k, raw);
      assert all[k..] == own[k..] + [e];
      DeltasOneMore(own[k..], e);
      var head := if k == 0 then "" else own[k - 1].arguments;
      var more := if e.kind.CallDelta? then e.argumentsDelta else "";
      Associative(head, Deltas(own[k..]), more);
      assert RawFrom(all, k, raw + more);
      assert raw + "" == raw;
    }
  }

  lemma NoDeltas()
    ensures Deltas([]) == ""
  {
  }

  lemma AssembledOneMore(own: seq<ModelEvent>, b: Builder, e: ModelEvent)
    requires Assembled(own, b.name, b.arguments, b.extras)
    ensures var x := Extended(b, e); Assembled(own + [e], x.name, x.arguments, x.extras)
  {
    hide LastGiven, RawArguments;
    GivenOneMore(Names(own), b.name, e.toolName);
    GivenOneMore(Extras(own), b.extras, e.extras);
    RawOneMore(own, b.arguments, e);
    assert Names(own + [e]) == Names(own) + [e.toolName];
    assert Extras(own + [e]) == Extras(own) + [e.extras];
  }

  lemma NothingAssembled()
    ensures Assembled([], "", "", "")
  {
    NoDeltas();
    assert RawFrom([], 0, "");
  }

  lemma {:induction false} OrderIsMentioned(events: seq<ModelEvent>)
    ensures Gather(events).order == Mentioned(events)
  {
    if events != [] {
      var n := |events| - 1;
      OrderIsMentioned(events[..n]);
      GatheredIsOrderly(events[..n]);
      GatherSnoc(events, n);
      assert events[..n + 1] == events;
      hide Gather, NormalizeCallID, Orderly, Extended, BuilderFor;
      OrderlyKeys(Gather(events[..n]));
    }
  }

  lemma OrderlyKeys(t: Table)
    requires Orderly(t)
    ensures forall id :: id in t.builders <==> id in t.order
  {
  }

  /** Every builder holds what the events of its call, and no others, have given it. */
  lemma {:induction false} BuildersAreAssembled(events: seq<ModelEvent>, id: string)
    ensures var b := BuilderFor(Gather(events), id); Assembled(Own(events, id), b.name, b.arguments, b.extras)
  {
    NothingAssembled();
    if events != [] {
      var n := |events| - 1;
      var init, e := events[..n], events[n];
      BuildersAreAssembled(init, id);
      OrderIsMentioned(init);
      GatherSnoc(events, n);
      assert events[..n + 1] == events;
      AssembledOneMore(Own(init, id), BuilderFor(Gather(init), id), e);
      hide Gather, NormalizeCallID, Assembled, Extended;
      assert LastIsOf(events, id) <==> AboutCall(e) && EventId(Gather(init), e) == id;
      assert !LastIsOf(events, id) ==> Own(events, id) == Own(init, id);
    }
  }

  lemma BuilderKeepsId(events: seq<ModelEvent>, id: string)
    ensures BuilderFor(Gather(events), id).id == id
  {
    GatheredIsOrderly(events);
  }

  lemma CallIsDescribed(events: seq<ModelEvent>, id: string)
    ensures CallOf(BuilderFor(Gather(events), id)).id == id && Describes(events, CallOf(BuilderFor(Gather(events), id)))
  {
    BuildersAreAssembled(events, id);
    BuilderKeepsId(events, id);
    hide Gather, BuilderFor, LastGiven, RawArguments, TrimSpace, Own;
  }

  /** The calls of a whole stream: one for each id in order of first appearance, each as its events make it. */
  lemma CallsAreDescribed(events: seq<ModelEvent>)
    ensures Ids(CallsOf(Gather(events))) == Mentioned(events)
    ensures forall k :: 0 <= k < |CallsOf(Gather(events))| ==> Describes(events, CallsOf(Gather(events))[k])
  {
    OrderIsMentioned(events);
    var t := Gather(events);
    hide Gather, Mentioned, Describes, CallOf;
    forall k | 0 <= k < |t.order|
      ensures CallsOf(t)[k].id == t.order[k] && Describes(events, CallsOf(t)[k])
    {
      CallIsDescribed(events, t.order[k]);
    }
  }

  /** A call as it stands after its last event is what its events so far make it. */
  lemma LastCallIsDescribed(events: seq<ModelEvent>)
    requires events != [] && AboutCall(events[|events| - 1])
    ensures Describes(events, LastCall(events)) && LastIsOf(events, LastCall(events).id)
  {
    var init := events[..|events| - 1];
    LastCallId(events);
    OrderIsMentioned(init);
    CallIsDescribed(events, EventId(Gather(init), events[|events| - 1]));
    hide Gather, Describes, CallOf;
  }

  // ----- what the streams add up to

  function TextOf(events: seq<ModelEvent>): string {
    if events == [] then ""
    else
      var e := events[|events| - 1];
      TextOf(events[..|events| - 1]) + (if e.kind.TextDelta? then e.text else "")
  }

  function CallsOf(t: Table): seq<ToolCall> {
    seq(|t.order|, i requires 0 <= i < |t.order| => CallOf(BuilderFor(t, t.order[i])))
  }

  /** The call the last event is about, as it stands then. */
  function LastCall(events: seq<ModelEvent>): ToolCall
    requires events != []
  {
    CallOf(BuilderFor(Gather(events), EventId(Gather(events[..|events| - 1]), events[|events| - 1])))
  }

  /** The calls as they stood when each was reported done, in that order. */
  function DoneCalls(events: seq<ModelEvent>): seq<ToolCall> {
    if events == [] then []
    else DoneCalls(events[..|events| - 1]) + (if events[|events| - 1].kind.CallDone? then [LastCall(events)] else [])
  }

  function Ids(calls: seq<ToolCall>): seq<string> {
    seq(|calls|, i requires 0 <= i < |calls| => calls[i].id)
  }

  // ----- which calls are announced

  /** On an ordinary stream: at every start event, and at a done event that is the first of its call. */
  function Announcements(events: seq<ModelEvent>): seq<ToolCall> {
    if events == [] then []
    else Announcements(events[..|events| - 1]) + (if AnnouncesNow(events) then [LastCall(events)] else [])
  }

  predicate AnnouncesNow(events: seq<ModelEvent>)
    requires events != []
  {
    var e, t := events[|events| - 1], Gather(events[..|events| - 1]);
    e.kind.CallStarted? || (e.kind.CallDone? && EventId(t, e) !in t.builders)
  }

  /** On an interactive stream: at the first event of a call that is not an argument delta. */
  function InteractiveAnnouncements(events: seq<ModelEvent>): seq<ToolCall> {
    if events == [] then []
    else
      var so := InteractiveAnnouncements(events[..|events| - 1]);
      so + (if InteractivelyAnnounces(Ids(so), events) then [LastCall(events)] else [])
  }

  predicate InteractivelyAnnounces(announced: seq<string>, events: seq<ModelEvent>)
    requires events != []
  {
    var e := events[|events| - 1];
    AboutCall(e) && !e.kind.CallDelta? && EventId(Gather(events[..|events| - 1]), e) !in announced
  }

  /** Event `i` belongs to the call with this id. */
  predicate About(events: seq<ModelEvent>, i: nat, id: string) {
    i < |events| && AboutCall(events[i]) && EventId(Gather(events[..i]), events[i]) == id
  }

  lemma AboutPrefix(events: seq<ModelEvent>, n: nat, id: string)
    requires n <= |events|
    ensures forall i: nat :: i < n ==> About(events[..n], i, id) == About(events, i, id)
  {
    forall i: nat | i < n
      ensures About(events[..n], i, id) == About(events, i, id)
    {
      assert events[..n][..i] == events[..i];
    }
  }

  lemma LastCallId(events: seq<ModelEvent>)
    requires events != [] && AboutCall(events[|events| - 1])
    ensures LastCall(events).id == EventId(Gather(events[..|events| - 1]), events[|events| - 1])
  {
    var t, e := Gather(events[..|events| - 1]), events[|events| - 1];
    GatheredIsOrderly(events[..|events| - 1]);
    hide Gather, EventId, TrimSpace;
    GatherSnoc(events, |events| - 1);
    assert events[..|events| - 1 + 1] == events;
    ExtendedKeepsId(BuilderFor(t, EventId(t, e)), e);
  }

  lemma IdsSnoc(calls: seq<ToolCall>, call: ToolCall)
    ensures Ids(calls + [call]) == Ids(calls) + [call.id]
  {
  }

  lemma {:induction false} GatheredIffMentioned(events: seq<ModelEvent>, id: string)
    ensures id in Gather(events).builders <==> exists i: nat :: About(events, i, id)
  {
    if events != [] {
      var n := |events| - 1;
      GatheredIffMentioned(events[..n], id);
      AboutPrefix(events, n, id);
      GatherSnoc(events, n);
      assert events[..n + 1] == events;
      hide Gather, EventId, Extended, BuilderFor, About;
      AboutLast(events, id);
    }
  }

  lemma AboutLast(events: seq<ModelEvent>, id: string)
    requires events != []
    ensures var n := |events| - 1;
            && (About(events, n, id) <==> AboutCall(events[n]) && EventId(Gather(events[..n]), events[n]) == id)
            && forall i: nat :: i > n ==> !About(events, i, id)
  {
  }

  /** A call gets a start event, or its first event is a done event. */
  predicate Introduces(events: seq<ModelEvent>, i: nat, id: string) {
    && About(events, i, id)
    && (events[i].kind.CallStarted? || (events[i].kind.CallDone? && forall j: nat :: j < i ==> !About(events, j, id)))
  }

  /** On an ordinary stream a call is announced if and only if one of its events is a start event or its
      first event is a done event. */
  lemma {:induction false} AnnouncedIff(events: seq<ModelEvent>, id: string)
    ensures id in Ids(Announcements(events)) <==> exists i: nat :: Introduces(events, i, id)
  {
    if events != [] {
      var n := |events| - 1;
      var init := events[..n];
      AnnouncedIff(init, id);
      AboutPrefix(events, n, id);
      GatheredIffMentioned(init, id);
      AboutLast(events, id);
      hide Gather, EventId, About, LastCall;
      forall i: nat | i < n
        ensures Introduces(init, i, id) == Introduces(events, i, id)
      {
      }
      assert AnnouncesNow(events) && About(events, n, id) <==> Introduces(events, n, id);
      if AnnouncesNow(events) {
        LastCallId(events);
        IdsSnoc(Announcements(init), LastCall(events));
      } else {
        assert Announcements(events) == Announcements(init);
      }
    }
  }

  /** A call that arrives as an argument delta and a done event is gathered, and never announced. */
  lemma DeltaThenDoneIsNotAnnounced(e: ModelEvent)
    ensures var events := [
              e.(kind := CallDelta, callId := "x", toolName := "t", argumentsDelta := "{}"),
              e.(kind := CallDone, callId := "x", toolName := "t", arguments := "")];
            && Announcements(events) == []
            && Gather(events).order == ["x"] && Gather(events).builders["x"].name == "t"
  {
    var delta := e.(kind := CallDelta, callId := "x", toolName := "t", argumentsDelta := "{}");
    var done := e.(kind := CallDone, callId := "x", toolName := "t", arguments := "");
    var events := [delta, done];
    assert events[..1] == [delta] && [delta][..0] == [];
    BlankOrNot("x");
    hide TrimSpace;
    assert Gather([delta]) == Take(NO_CALLS, delta);
    assert Gather(events) == Take(Gather([delta]), done);
    assert !AnnouncesNow([delta]) && Announcements([delta]) == Announcements([]) + [];
    assert "x" in Gather([delta]).builders && !AnnouncesNow(events);
    assert Announcements(events) == Announcements([delta]) + [];
  }

  /** On an interactive stream no call is announced twice, and every call that is done has been announced. */
  lemma {:induction false} InteractivelyAnnouncedOnce(events: seq<ModelEvent>)
    ensures DistinctIds(Ids(InteractiveAnnouncements(events)))
    ensures forall k :: 0 <= k < |DoneCalls(events)| ==>
            DoneCalls(events)[k].id in Ids(InteractiveAnnouncements(events))
  {
    if events != [] {
      var init := events[..|events| - 1];
      InteractivelyAnnouncedOnce(init);
      hide Gather, EventId, LastCall, InteractiveAnnouncements, DoneCalls, Ids;
      InteractiveSnoc(events);
    }
  }

  lemma InteractiveSnoc(events: seq<ModelEvent>)
    requires events != []
    ensures var n := |events| - 1;
            var so, e := InteractiveAnnouncements(events[..n]), events[n];
            && (InteractivelyAnnounces(Ids(so), events) ==>
                  Ids(InteractiveAnnouncements(events)) == Ids(so) + [LastCall(events).id]
                      && LastCall(events).id !in Ids(so))
            && (!InteractivelyAnnounces(Ids(so), events) ==> InteractiveAnnouncements(events) == so)
            && DoneCalls(events) == DoneCalls(events[..n]) + (if e.kind.CallDone? then [LastCall(events)] else [])
            && (e.kind.CallDone? ==> LastCall(events).id in Ids(InteractiveAnnouncements(events)))
  {
    var so := InteractiveAnnouncements(events[..|events| - 1]);
    if AboutCall(events[|events| - 1]) {
      LastCallId(events);
    }
    hide Gather, EventId, LastCall;
    IdsSnoc(so, LastCall(events));
    assert so + [] == so;
  }

  function SumOf(events: seq<ModelEvent>): Usage {
    if events == [] then NO_USAGE else Plus(SumOf(events[..|events| - 1]), events[|events| - 1].usage)
  }

  function ExactTotal(events: seq<ModelEvent>): int {
    if events == [] then 0 else ExactTotal(events[..|events| - 1]) + events[|events| - 1].usage.total
  }

  lemma WrapTwice(x: int, y: int)
    ensures Arithmetic.Wrap(Arithmetic.Wrap(x) + y) == Arithmetic.Wrap(x + y)
  {
    var k := x / Arithmetic.TWO_TO_64;
    assert Arithmetic.Wrap(x) == x - k * Arithmetic.TWO_TO_64
        || Arithmetic.Wrap(x) == x - (k + 1) * Arithmetic.TWO_TO_64;
    WrapShift(x + y, -k);
    WrapShift(x + y, -k - 1);
  }

  lemma WrapShift(x: int, k: int)
    ensures Arithmetic.Wrap(x + k * Arithmetic.TWO_TO_64) == Arithmetic.Wrap(x)
  {
    ModShift(x, k, Arithmetic.TWO_TO_64);
  }

  lemma ModShift(x: int, k: int, m: int)
    requires m > 0
    ensures (x + k * m) % m == x % m
  {
    Bytes.DivModUnique(x + k * m, m, x / m + k, x % m);
  }

  lemma PlusAssociates(u: Usage, v: Usage, w: Usage)
    ensures Plus(Plus(u, v), w) == Plus(u, Plus(v, w))
  {
    SumsAssociate(u.input, v.input, w.input);
    SumsAssociate(u.output, v.output, w.output);
    SumsAssociate(u.total, v.total, w.total);
  }

  lemma SumsAssociate(a: int64, b: int64, c: int64)
    ensures Arithmetic.Add(Arithmetic.Add(a, b), c) == Arithmetic.Add(a, Arithmetic.Add(b, c))
  {
    WrapTwice(a + b, c);
    WrapTwice(b + c, a);
  }

  lemma WrapFits(x: int)
    ensures Arithmetic.Wrap(x) == x <==> Arithmetic.MIN_INT64 <= x <= Arithmetic.MAX_INT64
  {
  }

  lemma {:induction false} SumConcat(a: seq<ModelEvent>, b: seq<ModelEvent>)
    ensures SumOf(a + b) == Plus(SumOf(a), SumOf(b))
  {
    if b == [] {
      assert a + b == a;
      PlusNothing(SumOf(a));
    } else {
      hide Plus;
      var n := |b| - 1;
      SumConcat(a, b[..n]);
      assert (a + b)[..|a| + n] == a + b[..n];
      PlusAssociates(SumOf(a), SumOf(b[..n]), b[n].usage);
    }
  }

  lemma PlusNothing(u: Usage)
    ensures Plus(u, NO_USAGE) == u
  {
  }

  /** The running total is the exact one modulo 2^64, so it is exact exactly when that fits. */
  lemma {:induction false} TotalIsExactIffItFits(events: seq<ModelEvent>)
    ensures SumOf(events).total == Arithmetic.Wrap(ExactTotal(events))
    ensures SumOf(events).total == ExactTotal(events) <==>
            Arithmetic.MIN_INT64 <= ExactTotal(events) <= Arithmetic.MAX_INT64
  {
    WrapFits(ExactTotal(events));
    if events != [] {
      hide Arithmetic.Wrap;
      var n := |events| - 1;
      TotalIsExactIffItFits(events[..n]);
      WrapTwice(ExactTotal(events[..n]), events[n].usage.total);
    }
  }

  /** A total that passed the budget check is truly within the budget exactly when it did not overflow. */
  lemma WithinBudgetIffNoOverflow(events: seq<ModelEvent>, max: int64)
    requires 0 < max && SumOf(events).total <= max
    ensures ExactTotal(events) <= max <==> ExactTotal(events) <= Arithmetic.MAX_INT64
  {
    TotalIsExactIffItFits(events);
  }

  /** Two reported totals that together overflow slip past the check. */
  lemma OverflowSlipsPast(e: ModelEvent)
    ensures var events := [e.(usage := Usage(0, 0, 1)), e.(usage := Usage(0, 0, Arithmetic.MAX_INT64))];
            SumOf(events).total <= 32000 < ExactTotal(events)
  {
    var first, second := e.(usage := Usage(0, 0, 1)), e.(usage := Usage(0, 0, Arithmetic.MAX_INT64));
    assert [first, second][..1] == [first];
    assert [first][..0] == [];
    assert SumOf([first]).total == 1 && ExactTotal([first]) == 1;
  }

  // ----- long tool output

  /** "\n[… tool output truncated …]" in UTF-8. */
  const MARKER: seq<byte> := [
    10, 91, 0xE2, 0x80, 0xA6, 32, 116, 111, 111, 108, 32, 111, 117, 116, 112, 117, 116, 32,
    116, 114, 117, 110, 99, 97, 116, 101, 100, 32, 0xE2, 0x80, 0xA6, 93]

  /** A byte inside a UTF-8 character. */
  predicate Continues(b: byte) { 0x80 <= b < 0xC0 }

  /** Back from `limit` to the start of a character. */
  function CutPoint(value: seq<byte>, limit: nat): (k: nat)
    ensures k <= limit
  {
    if 0 < limit < |value| && Continues(value[limit]) then CutPoint(value, limit - 1) else limit
  }

  function Truncated(value: seq<byte>, max: int): seq<byte> {
    if max <= 0 || |value| <= max then value
    else if max <= |MARKER| then value[..max]
    else value[..CutPoint(value, max - |MARKER|)] + MARKER
  }

  lemma {:induction false} CutPointStartsACharacter(value: seq<byte>, limit: nat)
    requires limit < |value|
    ensures var k := CutPoint(value, limit);
            && (k == 0 || !Continues(value[k]))
            && forall j :: k < j <= limit ==> Continues(value[j])
  {
    if limit > 0 && Continues(value[limit]) {
      CutPointStartsACharacter(value, limit - 1);
    }
  }

  /** Output is never longer than allowed; unless the limit has no room for the marker, what is kept ends
      between two characters and as late as possible. */
  lemma TruncationFits(value: seq<byte>, max: int)
    requires max > 0
    ensures var r := Truncated(value, max);
            && |r| <= max
            && (|value| <= max ==> r == value)
            && (|value| > max > |MARKER| ==> exists k: nat ::
                  && k <= max - |MARKER| && r == value[..k] + MARKER
                  && (k == 0 || !Continues(value[k]))
                  && forall j :: k < j <= max - |MARKER| ==> Continues(value[j]))
  {
    if |value| > max > |MARKER| {
      var k := CutPoint(value, max - |MARKER|);
      CutPointStartsACharacter(value, max - |MARKER|);
      hide CutPoint, Continues;
      assert Truncated(value, max) == value[..k] + MARKER;
    }
  }

  method TruncateUTF8(value: seq<byte>, max: int) returns (r: seq<byte>)
    ensures r == Truncated(value, max)
  {
    if max <= 0 || |value| <= max {
      return value;
    }
    if max <= |MARKER| {
      return value[..max];
    }
    var limit := max - |MARKER|;
    while limit > 0 && limit < |value| && Continues(value[limit])
      invariant 0 <= limit < |value|
      invariant CutPoint(value, limit) == CutPoint(value, max - |MARKER|)
    {
      limit := limit - 1;
    }
    r := value[..limit] + MARKER;
  }
}
