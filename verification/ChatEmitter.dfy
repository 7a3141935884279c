/** The chat emitter: text deltas coalesced on a timer, and the transcript kept beside them
    (internal/desktop/chat_approval.go:387-575, chat_stream.go). The timer may fire between any two
    regions protected by the dispatch mutex; each such region is one step. */
module ChatEmitter {
  import opened Bytes

  datatype Note = RunStartedNote | ToolStartedNote | ToolUpdatedNote | ApprovalNote

  datatype Ending = Complete | Failed | Cancelled

  datatype Event =
    | Delta(id: string, stamp: int, text: string)
    | Completed(id: string)
    | Finished(ending: Ending)
    | Notice(note: Note, call: string)

  // ----- what the renderer gets to see

  /** One character of one message, or one event that is not text. */
  datatype Item = Char(id: string, c: char) | Mark(event: Event)

  function Chars(id: string, text: string): (r: seq<Item>)
    ensures |r| == |text|
  {
    seq(|text|, i requires 0 <= i < |text| => Char(id, text[i]))
  }

  function Items(e: Event): seq<Item> {
    if e.Delta? then Chars(e.id, e.text) else [Mark(e)]
  }

  function Expand(events: seq<Event>): seq<Item> {
    if events == [] then [] else Expand(events[..|events| - 1]) + Items(events[|events| - 1])
  }

  lemma ExpandSnoc(events: seq<Event>, e: Event)
    ensures Expand(events + [e]) == Expand(events) + Items(e)
  {
    assert (events + [e])[..|events|] == events;
  }

  lemma CharsJoin(id: string, a: string, b: string)
    ensures Chars(id, a + b) == Chars(id, a) + Chars(id, b)
  {
  }

  function WithoutDeltas(events: seq<Event>): seq<Event> {
    if events == [] then []
    else WithoutDeltas(events[..|events| - 1]) + (if events[|events| - 1].Delta? then [] else [events[|events| - 1]])
  }

  lemma WithoutDeltasSnoc(events: seq<Event>, e: Event)
    ensures WithoutDeltas(events + [e]) == WithoutDeltas(events) + (if e.Delta? then [] else [e])
  {
    assert (events + [e])[..|events|] == events;
  }

  // ----- the wire: a batch of text waiting behind a timer

  /** `emitted` is every event handed in so far, `delivered` every event the renderer received. */
  datatype Wire = Wire(
    pending: string, head: Event, armed: bool, closed: bool, events: seq<Event>, delivered: seq<Event>,
        emitted: seq<Event>)

  const NOTHING: Event := Delta("", 0, "")

  predicate NewWire(w: Wire) {
    w == Wire("", NOTHING, false, false, [], [], [])
  }

  datatype Step = Emit(event: Event) | Flush | SetClosed

  function Batch(w: Wire): Event {
    if w.head.Delta? then w.head.(text := w.pending) else w.head
  }

  function Flushed(w: Wire): Wire {
    if w.pending == "" then w.(armed := false)
    else w.(armed := false, pending := "", delivered := w.delivered + [Batch(w)])
  }

  /** A delta of another message sends the waiting batch off first; a closed emitter holds nothing back. */
  function Queued(w: Wire, e: Event): Wire
    requires e.Delta?
  {
    var a := if w.pending != "" && w.head.Delta? && w.head.id != e.id then Flushed(w) else w;
    var b := if a.pending == "" then a.(head := e.(text := "")) else a;
    var c := b.(pending := b.pending + e.text, armed := b.armed || !b.closed, emitted := w.emitted + [e]);
    if c.closed then Flushed(c) else c
  }

  function Sent(w: Wire, e: Event): Wire {
    var f := Flushed(w);
    f.(events := f.events + [e], delivered := f.delivered + [e], emitted := f.emitted + [e])
  }

  function Next(w: Wire, step: Step): Wire {
    match step
    case Emit(e) => if e.Delta? then Queued(w, e) else Sent(w, e)
    case Flush => Flushed(w)
    case SetClosed => w.(closed := true)
  }

  function After(w: Wire, steps: seq<Step>): Wire {
    if steps == [] then w else Next(After(w, steps[..|steps| - 1]), steps[|steps| - 1])
  }

  /** Delivered text plus the waiting batch is exactly what was emitted, in order; the recorded events
      are the delivered ones that are not text; and whatever waits has a timer running. */
  ghost predicate Faithful(w: Wire) {
    && w.head.Delta?
    && Expand(w.delivered) + Chars(w.head.id, w.pending) == Expand(w.emitted)
    && w.events == WithoutDeltas(w.delivered)
    && w.events == WithoutDeltas(w.emitted)
    && (w.pending != "" ==> w.armed)
  }

  lemma FlushStaysFaithful(w: Wire)
    requires Faithful(w)
    ensures Faithful(Flushed(w)) && Flushed(w).pending == ""
  {
    hide Expand, WithoutDeltas;
    if w.pending != "" {
      ExpandSnoc(w.delivered, Batch(w));
      WithoutDeltasSnoc(w.delivered, Batch(w));
      assert Chars(w.head.id, "") == [];
    }
  }

  lemma QueueStaysFaithful(w: Wire, e: Event)
    requires Faithful(w) && e.Delta?
    ensures Faithful(Queued(w, e))
  {
    hide Expand, WithoutDeltas;
    var a := if w.pending != "" && w.head.id != e.id then Flushed(w) else w;
    FlushStaysFaithful(w);
    var b := if a.pending == "" then a.(head := e.(text := "")) else a;
    assert b.head.id == e.id && Faithful(b);
    var c := b.(pending := b.pending + e.text, armed := b.armed || !b.closed, emitted := w.emitted + [e]);
    CharsJoin(e.id, b.pending, e.text);
    ExpandSnoc(w.emitted, e);
    WithoutDeltasSnoc(w.emitted, e);
    var waiting := c.(armed := true);
    assert Faithful(waiting);
    FlushStaysFaithful(waiting);
    assert c.closed ==> Flushed(c) == Flushed(waiting);
  }

  lemma QueuedEmits(w: Wire, e: Event)
    requires e.Delta?
    ensures Queued(w, e).emitted == w.emitted + [e]
    ensures w.closed ==> Queued(w, e).pending == ""
  {
  }

  lemma SendStaysFaithful(w: Wire, e: Event)
    requires Faithful(w) && !e.Delta?
    ensures Faithful(Sent(w, e)) && Sent(w, e).pending == ""
  {
    hide Expand, WithoutDeltas;
    FlushStaysFaithful(w);
    var f := Flushed(w);
    ExpandSnoc(f.delivered, e);
    ExpandSnoc(f.emitted, e);
    WithoutDeltasSnoc(f.delivered, e);
    WithoutDeltasSnoc(f.emitted, e);
  }

  lemma StepStaysFaithful(w: Wire, step: Step)
    requires Faithful(w)
    ensures Faithful(Next(w, step))
  {
    hide Expand, WithoutDeltas;
    match step
    case Emit(e) => if e.Delta? { QueueStaysFaithful(w, e); } else { SendStaysFaithful(w, e); }
    case Flush => FlushStaysFaithful(w);
    case SetClosed =>
  }

  function EmittedIn(steps: seq<Step>): seq<Event> {
    if steps == [] then []
    else EmittedIn(steps[..|steps| - 1]) + (if steps[|steps| - 1].Emit? then [steps[|steps| - 1].event] else [])
  }

  lemma NextEmits(w: Wire, step: Step)
    ensures Next(w, step).emitted == w.emitted + (if step.Emit? then [step.event] else [])
    ensures Next(w, step).closed == (w.closed || step.SetClosed?)
  {
  }

  /** Under every interleaving of emits, timer flushes and the close, what was delivered and what still
      waits is character for character what was emitted: nothing lost, doubled, moved across another
      event, or credited to another message. The recorded events are the emitted ones without text. */
  lemma {:induction false} CoalescingKeepsTheStream(w: Wire, steps: seq<Step>)
    requires NewWire(w)
    ensures var v := After(w, steps);
            && Faithful(v)
            && v.emitted == EmittedIn(steps)
            && Expand(v.delivered) + Chars(v.head.id, v.pending) == Expand(EmittedIn(steps))
            && v.events == WithoutDeltas(EmittedIn(steps))
  {
    if steps != [] {
      var n := |steps| - 1;
      CoalescingKeepsTheStream(w, steps[..n]);
      StepStaysFaithful(After(w, steps[..n]), steps[n]);
      NextEmits(After(w, steps[..n]), steps[n]);
    }
  }

  lemma StepStaysImmediate(w: Wire, step: Step)
    requires Faithful(w) && w.closed && w.pending == ""
    ensures Faithful(Next(w, step)) && Next(w, step).closed && Next(w, step).pending == ""
  {
    StepStaysFaithful(w, step);
    hide Faithful;
  }

  /** Once the close has flushed, nothing ever waits again: delivery is immediate from there on. */
  lemma {:induction false} ClosedMeansImmediate(w: Wire, steps: seq<Step>)
    requires Faithful(w) && w.closed && w.pending == ""
    ensures var v := After(w, steps); v.closed && v.pending == "" && Expand(v.delivered) == Expand(v.emitted)
    ensures Faithful(After(w, steps))
  {
    hide Next, Expand;
    if steps != [] {
      var n := |steps| - 1;
      ClosedMeansImmediate(w, steps[..n]);
      StepStaysImmediate(After(w, steps[..n]), steps[n]);
    }
    assert Chars(After(w, steps).head.id, "") == [];
  }

  // ----- the life of one message

  /** What a reader of the stream has seen of one message. */
  datatype Life = Going(text: string) | Over(text: string) | Broken

  function See(life: Life, item: Item, id: string): Life {
    match item
    case Char(owner, c) =>
      if owner != id then life else if life.Going? then Going(life.text + [c]) else Broken
    case Mark(event) =>
      if event != Completed(id) then life else if life.Going? then Over(life.text) else Broken
  }

  function LifeOf(items: seq<Item>, id: string): Life {
    if items == [] then Going("") else See(LifeOf(items[..|items| - 1], id), items[|items| - 1], id)
  }

  /** The effect of a whole event. */
  function SeeEvent(life: Life, e: Event, id: string): Life {
    if e.Delta? then
      if e.id != id || e.text == "" then life else if life.Going? then Going(life.text + e.text) else Broken
    else See(life, Mark(e), id)
  }

  lemma {:induction false} LifeOfMoreText(items: seq<Item>, e: Event, id: string)
    requires e.Delta?
    ensures LifeOf(items + Items(e), id) == SeeEvent(LifeOf(items, id), e, id)
    decreases |e.text|
  {
    if e.text == "" {
      assert items + Items(e) == items;
    } else {
      var n := |e.text| - 1;
      var shorter := e.(text := e.text[..n]);
      LifeOfMoreText(items, shorter, id);
      var all := items + Items(e);
      assert all[..|all| - 1] == items + Items(shorter);
      assert e.text == e.text[..n] + [e.text[n]];
      if LifeOf(items, id).Going? && e.id == id {
        assert LifeOf(items, id).text + e.text == LifeOf(items, id).text + e.text[..n] + [e.text[n]];
      }
    }
  }

  lemma LifeSnoc(events: seq<Event>, e: Event, id: string)
    ensures LifeOf(Expand(events + [e]), id) == SeeEvent(LifeOf(Expand(events), id), e, id)
  {
    ExpandSnoc(events, e);
    if e.Delta? {
      LifeOfMoreText(Expand(events), e, id);
    } else {
      var all := Expand(events) + [Mark(e)];
      assert all[..|all| - 1] == Expand(events);
    }
  }

  function Endings(events: seq<Event>): nat {
    if events == [] then 0
    else Endings(events[..|events| - 1]) + (if events[|events| - 1].Finished? then 1 else 0)
  }

  lemma EndingsSnoc(events: seq<Event>, e: Event)
    ensures Endings(events + [e]) == Endings(events) + (if e.Finished? then 1 else 0)
  {
    assert (events + [e])[..|events|] == events;
  }

  lemma {:induction false} EndingsAreEvents(events: seq<Event>)
    ensures Endings(WithoutDeltas(events)) == Endings(events)
  {
    if events != [] {
      var n := |events| - 1;
      EndingsAreEvents(events[..n]);
      EndingsSnoc(WithoutDeltas(events[..n]), events[n]);
      assert events[n].Delta? ==> WithoutDeltas(events) == WithoutDeltas(events[..n]);
    }
  }

  // ----- the transcript

  datatype Segment = Segment(id: string, response: string, content: string)

  /** The transcript and what was emitted beside it; `active` is -1 between messages. */
  datatype Talk = Talk(first: string, segments: seq<Segment>, active: int, terminal: bool, emitted: seq<Event>)

  predicate Shape(t: Talk) {
    && -1 <= t.active < |t.segments|
    && (t.segments != [] ==> t.segments[0].id == t.first)
    && forall i, j :: 0 <= i < j < |t.segments| ==> t.segments[i].id != t.segments[j].id
  }

  /** What the model run reports (internal/agent/types.go), as far as the emitter looks. */
  datatype Input =
    | RunStarted
    | TextDelta(response: string, text: string)
    | ToolCallStarted(call: string)
    | ToolStarted(call: string)
    | ToolCompleted(call: string)
    | ApprovalNeeded(call: string)
    | RunCompleted
    | RunFailed(cancelled: bool)
    | Unknown

  /** What surrounds one event: the clock, whether the store took the record, and the drawn message id. */
  datatype World = World(stamp: int, stored: bool, drawn: Option<string>)

  /** A drawn id is one nobody has. */
  ghost predicate Fresh(t: Talk, w: World) {
    w.drawn.Some? ==>
      && w.drawn.value != t.first
      && forall i :: 0 <= i < |t.segments| ==> t.segments[i].id != w.drawn.value
  }

  function Said(t: Talk, e: Event): Talk {
    t.(emitted := t.emitted + [e])
  }

  function SegmentClosed(t: Talk): Talk
    requires Shape(t)
  {
    if t.active < 0 then t else Said(t.(active := -1), Completed(t.segments[t.active].id))
  }

  function Ended(t: Talk, ending: Ending): Talk {
    if t.terminal then t else Said(t.(terminal := true), Finished(ending))
  }

  /** Text of another response than the open segment's. */
  predicate Switches(t: Talk, response: string)
    requires Shape(t)
  {
    t.active >= 0 && response != "" && t.segments[t.active].response != "" && t.segments[t.active].response != response
  }

  function SegmentOpened(t: Talk, response: string, drawn: Option<string>): Talk
    requires Shape(t) && t.active < 0 && (t.segments != [] ==> drawn.Some?)
  {
    var id := if t.segments == [] then t.first else drawn.value;
    t.(segments := t.segments + [Segment(id, response, "")], active := |t.segments|)
  }

  function Written(t: Talk, text: string): Talk
    requires Shape(t) && t.active >= 0
  {
    var s := t.segments[t.active];
    t.(segments := t.segments[t.active := s.(content := s.content + text)])
  }

  predicate NeedsId(t: Talk, response: string)
    requires Shape(t)
  {
    t.segments != [] && (t.active < 0 || Switches(t, response))
  }

  function Spoken(t: Talk, response: string, text: string, w: World): Talk
    requires Shape(t) && Fresh(t, w)
  {
    if NeedsId(t, response) && w.drawn == None then t.(active := -1)
    else
      var a := if Switches(t, response) then SegmentClosed(t) else t;
      var b := if a.active < 0 then SegmentOpened(a, response, w.drawn) else a;
      Said(Written(b, text), Delta(b.segments[b.active].id, w.stamp, text))
  }

  function Heard(t: Talk, input: Input, w: World): Talk
    requires Shape(t) && Fresh(t, w)
  {
    match input
    case RunStarted => Said(t, Notice(RunStartedNote, ""))
    case TextDelta(response, text) => Spoken(t, response, text, w)
    case ToolCallStarted(call) =>
      if w.stored then Said(SegmentClosed(t), Notice(ToolStartedNote, call)) else SegmentClosed(t)
    case ToolStarted(call) => if w.stored then Said(t, Notice(ToolUpdatedNote, call)) else t
    case ToolCompleted(call) => if w.stored then Said(t, Notice(ToolUpdatedNote, call)) else t
    case ApprovalNeeded(call) => if w.stored then Said(t, Notice(ApprovalNote, call)) else t
    case RunCompleted => SegmentClosed(t)
    case RunFailed(cancelled) => Ended(SegmentClosed(t), if cancelled then Cancelled else Failed)
    case Unknown => t
  }

  /** The life the stream must show for a message: its stored text, over exactly when it is not open. */
  ghost function Expected(t: Talk, id: string): Life
    requires Shape(t)
  {
    if t.active >= 0 && t.segments[t.active].id == id then Going(t.segments[t.active].content)
    else if exists i :: 0 <= i < |t.segments| && t.segments[i].id == id then
      var i :| 0 <= i < |t.segments| && t.segments[i].id == id;
      Over(t.segments[i].content)
    else Going("")
  }

  /** For every message id the emitted stream tells the same story as the transcript. */
  ghost predicate Agrees(t: Talk) {
    && Shape(t)
    && (forall id :: LifeOf(Expand(t.emitted), id) == Expected(t, id))
    && Endings(t.emitted) == (if t.terminal then 1 else 0)
  }

  lemma AgreesIsShaped(t: Talk)
    requires Agrees(t)
    ensures Shape(t)
  {
  }

  lemma ExpectedAt(t: Talk, i: nat)
    requires Shape(t) && i < |t.segments|
    ensures Expected(t, t.segments[i].id)
            == (if i == t.active then Going(t.segments[i].content) else Over(t.segments[i].content))
  {
  }

  lemma SaidKeepsOthers(t: Talk, e: Event)
    ensures forall id :: LifeOf(Expand(Said(t, e).emitted), id) == SeeEvent(LifeOf(Expand(t.emitted), id), e, id)
    ensures Endings(Said(t, e).emitted) == Endings(t.emitted) + (if e.Finished? then 1 else 0)
  {
    forall id
      ensures LifeOf(Expand(Said(t, e).emitted), id) == SeeEvent(LifeOf(Expand(t.emitted), id), e, id)
    {
      LifeSnoc(t.emitted, e, id);
    }
    EndingsSnoc(t.emitted, e);
  }

  lemma NoticeAgrees(t: Talk, e: Event)
    requires Agrees(t) && e.Notice?
    ensures Agrees(Said(t, e))
  {
    hide LifeOf, Expand, Endings;
    SaidKeepsOthers(t, e);
    assert forall id :: Expected(Said(t, e), id) == Expected(t, id);
  }

  lemma EndedAgrees(t: Talk, ending: Ending)
    requires Agrees(t)
    ensures Agrees(Ended(t, ending)) && Ended(t, ending).terminal
  {
    hide LifeOf, Expand, Endings;
    SaidKeepsOthers(t.(terminal := true), Finished(ending));
    assert forall id :: Expected(Ended(t, ending), id) == Expected(t, id);
  }

  lemma SegmentClosedAgrees(t: Talk)
    requires Agrees(t)
    ensures Agrees(SegmentClosed(t)) && SegmentClosed(t).active == -1
  {
    hide LifeOf, Expand, Endings;
    if t.active >= 0 {
      var e := Completed(t.segments[t.active].id);
      SaidKeepsOthers(t.(active := -1), e);
      var u := SegmentClosed(t);
      forall id
        ensures Expected(u, id) == SeeEvent(Expected(t, id), e, id)
      {
        if i :| 0 <= i < |t.segments| && t.segments[i].id == id {
          ExpectedAt(t, i);
          ExpectedAt(u, i);
        }
      }
    }
  }

  lemma SegmentOpenedAgrees(t: Talk, response: string, w: World)
    requires Agrees(t) && t.active < 0 && (t.segments != [] ==> w.drawn.Some?) && Fresh(t, w)
    ensures Agrees(SegmentOpened(t, response, w.drawn)) && SegmentOpened(t, response, w.drawn).active >= 0
  {
    hide LifeOf, Expand, Endings;
    var u := SegmentOpened(t, response, w.drawn);
    assert Shape(u);
    forall id
      ensures Expected(u, id) == Expected(t, id)
    {
      if i :| 0 <= i < |t.segments| && t.segments[i].id == id {
        ExpectedAt(t, i);
        assert u.segments[i] == t.segments[i];
        ExpectedAt(u, i);
      } else if id == u.segments[|t.segments|].id {
        ExpectedAt(u, |t.segments|);
      }
    }
  }

  lemma WrittenAgrees(t: Talk, text: string, stamp: int)
    requires Agrees(t) && t.active >= 0
    ensures Agrees(Said(Written(t, text), Delta(t.segments[t.active].id, stamp, text)))
  {
    hide LifeOf, Expand, Endings;
    var e := Delta(t.segments[t.active].id, stamp, text);
    var u := Said(Written(t, text), e);
    SaidKeepsOthers(Written(t, text), e);
    assert Shape(u);
    forall id
      ensures Expected(u, id) == SeeEvent(Expected(t, id), e, id)
    {
      if i :| 0 <= i < |t.segments| && t.segments[i].id == id {
        ExpectedAt(t, i);
        ExpectedAt(u, i);
      }
      if text == "" && id == e.id {
        assert t.segments[t.active].content + text == t.segments[t.active].content;
      }
    }
  }

  /** Appending text keeps transcript and stream in agreement exactly unless a new response arrives while
      a segment is open and no id could be drawn: that path forgets to complete the old segment. */
  lemma SpokenAgreesIff(t: Talk, response: string, text: string, w: World)
    requires Agrees(t) && Fresh(t, w)
    ensures Agrees(Spoken(t, response, text, w)) <==> !(Switches(t, response) && w.drawn == None)
  {
    hide LifeOf, Expand, Endings;
    if NeedsId(t, response) && w.drawn == None {
      var u := Spoken(t, response, text, w);
      if t.active >= 0 {
        ExpectedAt(t, t.active);
        ExpectedAt(u, t.active);
        assert u.emitted == t.emitted;
      } else {
        assert u == t;
      }
    } else {
      var a := if Switches(t, response) then SegmentClosed(t) else t;
      SegmentClosedAgrees(t);
      var b := if a.active < 0 then SegmentOpened(a, response, w.drawn) else a;
      if a.active < 0 {
        assert Fresh(a, w);
        SegmentOpenedAgrees(a, response, w);
      }
      WrittenAgrees(b, text, w.stamp);
    }
  }

  /** Appending, before the events about it are emitted. */
  ghost predicate Says(t: Talk, id: string, completed: Option<string>, response: string, text: string, w: World,
      u: Talk)
    requires Shape(t) && Fresh(t, w)
  {
    var done := Spoken(t, response, text, w);
    && u == done.(emitted := t.emitted)
    && done.emitted == t.emitted + (if completed.Some? then [Completed(completed.value)] else [])
          + [Delta(id, w.stamp, text)]
  }

  predicate LosesTheSegment(t: Talk, input: Input, w: World)
    requires Shape(t)
  {
    input.TextDelta? && Switches(t, input.response) && w.drawn == None
  }

  lemma HeardAgrees(t: Talk, input: Input, w: World)
    requires Agrees(t) && Fresh(t, w) && !LosesTheSegment(t, input, w)
    ensures Agrees(Heard(t, input, w))
  {
    hide LifeOf, Expand, Endings, Expected;
    SegmentClosedAgrees(t);
    match input
    case RunStarted => NoticeAgrees(t, Notice(RunStartedNote, ""));
    case TextDelta(response, text) => SpokenAgreesIff(t, response, text, w);
    case ToolCallStarted(call) => NoticeAgrees(SegmentClosed(t), Notice(ToolStartedNote, call));
    case ToolStarted(call) => NoticeAgrees(t, Notice(ToolUpdatedNote, call));
    case ToolCompleted(call) => NoticeAgrees(t, Notice(ToolUpdatedNote, call));
    case ApprovalNeeded(call) => NoticeAgrees(t, Notice(ApprovalNote, call));
    case RunCompleted =>
    case RunFailed(cancelled) => EndedAgrees(SegmentClosed(t), if cancelled then Cancelled else Failed);
    case Unknown =>
  }

  // ----- whole runs

  /** Everything the run's goroutine does to the emitter: events of the attempt, the failure path, the
      success path and the final close. */
  datatype Act = Hear(input: Input, world: World) | FailRun(cancelled: bool) | Succeed | Close(cancelled: bool)

  ghost predicate Allowed(t: Talk, act: Act) {
    Shape(t) && (act.Hear? ==> Fresh(t, act.world) && !LosesTheSegment(t, act.input, act.world))
  }

  function Done(t: Talk, act: Act): Talk
    requires Shape(t) && (act.Hear? ==> Fresh(t, act.world))
  {
    match act
    case Hear(input, world) => Heard(t, input, world)
    case FailRun(cancelled) => Ended(SegmentClosed(t), if cancelled then Cancelled else Failed)
    case Succeed => Ended(t, Complete)
    case Close(cancelled) => Ended(SegmentClosed(t), if cancelled then Cancelled else Failed)
  }

  lemma DoneAgrees(t: Talk, act: Act)
    requires Agrees(t) && Allowed(t, act)
    ensures Agrees(Done(t, act))
    ensures act.Close? ==> Done(t, act).active == -1 && Done(t, act).terminal
  {
    hide LifeOf, Expand, Endings, Expected, Heard;
    match act
    case Hear(input, world) => HeardAgrees(t, input, world);
    case Succeed => EndedAgrees(t, Complete);
    case FailRun(cancelled) =>
      SegmentClosedAgrees(t);
      EndedAgrees(SegmentClosed(t), if cancelled then Cancelled else Failed);
    case Close(cancelled) =>
      SegmentClosedAgrees(t);
      EndedAgrees(SegmentClosed(t), if cancelled then Cancelled else Failed);
  }

  ghost predicate Lucky(t: Talk, acts: seq<Act>)
    decreases |acts|
  {
    acts == [] || (Allowed(t, acts[0]) && Lucky(Done(t, acts[0]), acts[1..]))
  }

  ghost function AllDone(t: Talk, acts: seq<Act>): Talk
    requires Lucky(t, acts)
    decreases |acts|
  {
    if acts == [] then t else AllDone(Done(t, acts[0]), acts[1..])
  }

  function NewTalk(first: string): Talk {
    Talk(first, [], -1, false, [])
  }

  lemma NewTalkAgrees(first: string)
    ensures Agrees(NewTalk(first))
  {
  }

  lemma {:induction false} EveryRunAgrees(t: Talk, acts: seq<Act>)
    requires Agrees(t) && Lucky(t, acts)
    ensures Agrees(AllDone(t, acts))
    ensures acts != [] && acts[|acts| - 1].Close? ==> AllDone(t, acts).active == -1 && AllDone(t, acts).terminal
    decreases |acts|
  {
    hide Agrees, Done;
    if acts != [] {
      DoneAgrees(t, acts[0]);
      EveryRunAgrees(Done(t, acts[0]), acts[1..]);
      if |acts| > 1 {
        assert acts[1..][|acts| - 2] == acts[|acts| - 1];
      }
    }
  }

  /** What the renderer holds once the run is closed: for each stored segment exactly its text, followed
      by exactly one completion and nothing after it; nothing of any other message; one terminal event. */
  ghost predicate Settled(t: Talk, delivered: seq<Event>, events: seq<Event>) {
    && (forall i :: 0 <= i < |t.segments| ==>
          LifeOf(Expand(delivered), t.segments[i].id) == Over(t.segments[i].content))
    && (forall id :: LifeOf(Expand(delivered), id) != Going("") ==>
          exists i :: 0 <= i < |t.segments| && t.segments[i].id == id)
    && Endings(delivered) == 1
    && Endings(events) == 1
  }

  lemma ClosedIsSettled(t: Talk, w: Wire)
    requires Agrees(t) && t.active == -1 && t.terminal
    requires Faithful(w) && w.pending == "" && w.emitted == t.emitted
    ensures Settled(t, w.delivered, w.events)
  {
    hide LifeOf, Expand, Endings, WithoutDeltas;
    assert Chars(w.head.id, "") == [];
    assert Expand(w.delivered) == Expand(t.emitted);
    EndingsAreEvents(w.delivered);
    EndingsAreEvents(w.emitted);
    forall i | 0 <= i < |t.segments|
      ensures LifeOf(Expand(w.delivered), t.segments[i].id) == Over(t.segments[i].content)
    {
      ExpectedAt(t, i);
    }
  }

  /** The stored transcript agrees with the delivered stream: after any run that ends with the close,
      whichever of the attempt, the failure path, the success path or the close ended it, and however the
      timer cut the stream into batches. */
  lemma TranscriptAgreesWithTheStream(first: string, acts: seq<Act>, w: Wire, steps: seq<Step>)
    requires Lucky(NewTalk(first), acts) && acts != [] && acts[|acts| - 1].Close?
    requires NewWire(w) && EmittedIn(steps) == AllDone(NewTalk(first), acts).emitted
    requires After(w, steps).pending == ""
    ensures Settled(AllDone(NewTalk(first), acts), After(w, steps).delivered, After(w, steps).events)
  {
    hide Agrees, Faithful, Settled;
    NewTalkAgrees(first);
    EveryRunAgrees(NewTalk(first), acts);
    CoalescingKeepsTheStream(w, steps);
    ClosedIsSettled(AllDone(NewTalk(first), acts), After(w, steps));
  }

  /** The id that could not be drawn: the first segment is never completed. */
  lemma FailedIdForgetsTheSegment()
    ensures var t := Said(Talk("m", [Segment("m", "r1", "x")], 0, false, []), Delta("m", 0, "x"));
            var u := Done(Done(t, Hear(TextDelta("r2", "y"), World(0, true, None))), Close(false));
            u.emitted == [Delta("m", 0, "x"), Finished(Failed)]
  {
  }

  // ----- the emitter itself

  class ChatEmitter {
    const messageId: string
    var segments: seq<Segment>
    var activeSegment: int
    var pendingDelta: string
    var pendingEvent: Event
    var timerArmed: bool
    var closed: bool
    var terminalEmitted: bool
    var events: seq<Event>
    var delivered: seq<Event>
    ghost var emitted: seq<Event>

    ghost function OnTheWire(): Wire
      reads this
    {
      Wire(pendingDelta, pendingEvent, timerArmed, closed, events, delivered, emitted)
    }

    ghost function Transcript(): Talk
      reads this
    {
      Talk(messageId, segments, activeSegment, terminalEmitted, emitted)
    }

    /** Holds whenever the run's goroutine is between two calls of the emitter. */
    ghost predicate Valid()
      reads this
    {
      Agrees(Transcript()) && Faithful(OnTheWire())
    }

    constructor (messageId: string)
      ensures Valid() && NewWire(OnTheWire()) && Transcript() == NewTalk(messageId)
    {
      this.messageId := messageId;
      segments, activeSegment, pendingDelta, pendingEvent := [], -1, "", NOTHING;
      timerArmed, closed, terminalEmitted, events, delivered, emitted := false, false, false, [], [], [];
      new;
      NewTalkAgrees(messageId);
    }

    /** Take the waiting batch, stopping its timer. */
    method TakePending() returns (batch: Option<Event>)
      requires pendingEvent.Delta?
      modifies this`timerArmed, this`pendingDelta
      ensures OnTheWire() == old(OnTheWire()).(armed := false, pending := "")
      ensures batch == (if old(pendingDelta) == "" then None else Some(Batch(old(OnTheWire()))))
    {
      timerArmed := false;
      if pendingDelta == "" {
        return None;
      }
      batch := Some(pendingEvent.(text := pendingDelta));
      pendingDelta := "";
    }

    method FlushPending()
      requires Faithful(OnTheWire())
      modifies this`timerArmed, this`pendingDelta, this`delivered
      ensures OnTheWire() == Flushed(old(OnTheWire()))
      ensures Faithful(OnTheWire()) && pendingDelta == ""
    {
      FlushStaysFaithful(OnTheWire());
      var batch := TakePending();
      if batch.Some? {
        delivered := delivered + [batch.value];
      }
    }

    /** A stopped timer may still run its callback, so a flush is possible at any moment. */
    method TimerMayFire()
      requires Faithful(OnTheWire())
      modifies this`timerArmed, this`pendingDelta, this`delivered
      ensures OnTheWire() == old(OnTheWire()) || OnTheWire() == Flushed(old(OnTheWire()))
      ensures Faithful(OnTheWire()) && (old(pendingDelta) == "" ==> pendingDelta == "")
    {
      if * {
        FlushPending();
      }
    }

    method QueueDelta(e: Event)
      requires Faithful(OnTheWire()) && e.Delta?
      modifies this`timerArmed, this`pendingDelta, this`pendingEvent, this`delivered, this`emitted
      ensures OnTheWire() == Queued(old(OnTheWire()), e)
      ensures Faithful(OnTheWire())
    {
      QueueStaysFaithful(OnTheWire(), e);
      var boundary: Option<Event>, batch: Option<Event> := None, None;
      if pendingDelta != "" && pendingEvent.id != e.id {
        boundary := TakePending();
      }
      if pendingDelta == "" {
        pendingEvent := e.(text := "");
      }
      pendingDelta := pendingDelta + e.text;
      emitted := emitted + [e];
      if !closed && !timerArmed {
        timerArmed := true;
      }
      if closed {
        batch := TakePending();
      }
      if boundary.Some? {
        delivered := delivered + [boundary.value];
      }
      if batch.Some? {
        delivered := delivered + [batch.value];
      }
    }

    method Emit(e: Event)
      requires Faithful(OnTheWire())
      modifies this`timerArmed, this`pendingDelta, this`pendingEvent, this`events, this`delivered, this`emitted
      ensures (OnTheWire() == Next(old(OnTheWire()), Step.Emit(e))
               || OnTheWire() == Next(Flushed(old(OnTheWire())), Step.Emit(e)))
      ensures Faithful(OnTheWire()) && emitted == old(emitted) + [e]
      ensures !e.Delta? || (closed && old(pendingDelta) == "") ==> pendingDelta == ""
    {
      hide Faithful, Queued, Sent, Flushed;
      TimerMayFire();
      if e.Delta? {
        QueuedEmits(OnTheWire(), e);
        QueueDelta(e);
      } else {
        Send(e);
      }
    }

    /** An event that is not text goes out behind the text that waits. */
    method Send(e: Event)
      requires Faithful(OnTheWire()) && !e.Delta?
      modifies this`timerArmed, this`pendingDelta, this`events, this`delivered, this`emitted
      ensures OnTheWire() == Sent(old(OnTheWire()), e)
      ensures Faithful(OnTheWire()) && emitted == old(emitted) + [e] && pendingDelta == ""
    {
      SendStaysFaithful(OnTheWire(), e);
      hide Faithful;
      FlushPending();
      events := events + [e];
      delivered := delivered + [e];
      emitted := emitted + [e];
    }

    /** The single terminal event: only the first caller gets through. */
    method EmitTerminal(ending: Ending) returns (won: bool)
      requires Faithful(OnTheWire())
      modifies this
      ensures Faithful(OnTheWire()) && closed == old(closed)
      ensures won == !old(terminalEmitted) && Transcript() == Ended(old(Transcript()), ending)
      ensures old(pendingDelta) == "" ==> pendingDelta == ""
    {
      hide Faithful, Next, Flushed;
      if terminalEmitted {
        return false;
      }
      terminalEmitted := true;
      TimerMayFire();
      Emit(Finished(ending));
      won := true;
    }

    /** Append text to the open segment, opening one when there is none or the response has changed. */
    method AppendAssistantDelta(response: string, text: string, ghost w: World, drawn: Option<string>)
      returns (id: string, completed: Option<string>, ok: bool)
      requires Shape(Transcript()) && Fresh(Transcript(), w) && w.drawn == drawn
      modifies this`segments, this`activeSegment
      ensures ok == !(NeedsId(old(Transcript()), response) && drawn == None)
      ensures !ok ==> Transcript() == Spoken(old(Transcript()), response, text, w) && completed == None
      ensures ok ==> Says(old(Transcript()), id, completed, response, text, w, Transcript())
    {
      completed := None;
      ghost var before := Transcript();
      if activeSegment >= 0 {
        var active := segments[activeSegment];
        if response != "" && active.response != "" && response != active.response {
          completed := Some(active.id);
          activeSegment := -1;
        }
      }
      if activeSegment < 0 {
        id := messageId;
        if |segments| > 0 {
          if drawn == None {
            return "", None, false;
          }
          id := drawn.value;
        }
        segments := segments + [Segment(id, response, "")];
        activeSegment := |segments| - 1;
      }
      var active := segments[activeSegment];
      segments := segments[activeSegment := active.(content := active.content + text)];
      return active.id, completed, true;
    }

    method CloseAssistantSegment() returns (completed: Option<string>)
      requires Shape(Transcript())
      modifies this`activeSegment
      ensures activeSegment == -1
      ensures completed == (if old(activeSegment) < 0 then None else Some(segments[old(activeSegment)].id))
    {
      if activeSegment < 0 {
        return None;
      }
      completed := Some(segments[activeSegment].id);
      activeSegment := -1;
    }

    method CompleteSegment()
      requires Shape(Transcript()) && Faithful(OnTheWire())
      modifies this
      ensures Transcript() == SegmentClosed(old(Transcript())) && Faithful(OnTheWire()) && closed == old(closed)
      ensures old(pendingDelta) == "" ==> pendingDelta == ""
    {
      hide Faithful, Next, Flushed;
      var completed := CloseAssistantSegment();
      TimerMayFire();
      if completed.Some? {
        Emit(Completed(completed.value));
      }
    }

    method SinkText(response: string, text: string, w: World) returns (ok: bool)
      requires Shape(Transcript()) && Faithful(OnTheWire()) && Fresh(Transcript(), w)
      modifies this
      ensures Transcript() == Spoken(old(Transcript()), response, text, w)
      ensures Faithful(OnTheWire()) && closed == old(closed)
    {
      hide Faithful, Fresh, Spoken, Next, Flushed;
      var id, completed;
      id, completed, ok := AppendAssistantDelta(response, text, w, w.drawn);
      TimerMayFire();
      if !ok {
        return;
      }
      if completed.Some? {
        Emit(Completed(completed.value));
      }
      TimerMayFire();
      Emit(Delta(id, w.stamp, text));
    }

    /** One event of the attempt; false when it could not be taken. */
    method Sink(input: Input, w: World) returns (ok: bool)
      requires Valid() && Fresh(Transcript(), w)
      modifies this
      ensures Transcript() == Heard(old(Transcript()), input, w)
      ensures Faithful(OnTheWire()) && closed == old(closed)
      ensures !LosesTheSegment(old(Transcript()), input, w) ==> Valid()
    {
      hide Faithful, Agrees, LosesTheSegment, Next, Flushed, Spoken, SegmentClosed, Ended, Fresh, Shape;
      ghost var before := Transcript();
      AgreesIsShaped(before);
      if !LosesTheSegment(before, input, w) {
        HeardAgrees(before, input, w);
      }
      var view: Event;
      match input {
        case RunStarted => view := Notice(RunStartedNote, "");
        case TextDelta(response, text) =>
          ok := SinkText(response, text, w);
          return;
        case ToolCallStarted(call) =>
          CompleteSegment();
          view := Notice(ToolStartedNote, call);
        case ToolStarted(call) => view := Notice(ToolUpdatedNote, call);
        case ToolCompleted(call) => view := Notice(ToolUpdatedNote, call);
        case ApprovalNeeded(call) => view := Notice(ApprovalNote, call);
        case RunCompleted =>
          CompleteSegment();
          return true;
        case RunFailed(cancelled) =>
          CompleteSegment();
          TimerMayFire();
          var _ := EmitTerminal(if cancelled then Cancelled else Failed);
          return true;
        case Unknown => return true;
      }
      if !input.RunStarted? && !w.stored {
        return false;
      }
      TimerMayFire();
      Emit(view);
      ok := true;
    }

    /** The failure path of a run. */
    method FailRun(cancelled: bool)
      requires Valid()
      modifies this
      ensures Valid() && closed == old(closed)
      ensures Transcript() == Done(old(Transcript()), Act.FailRun(cancelled))
    {
      hide LifeOf, Expand, Endings, Expected, Faithful;
      DoneAgrees(Transcript(), Act.FailRun(cancelled));
      CompleteSegment();
      TimerMayFire();
      var _ := EmitTerminal(if cancelled then Cancelled else Failed);
    }

    /** Finish for the renderer whatever happened before: everything is out, each segment is completed,
        and there is exactly one terminal event. */
    method Close(cancelled: bool)
      requires Valid()
      modifies this
      ensures Valid() && closed && pendingDelta == ""
      ensures Transcript() == Done(old(Transcript()), Act.Close(cancelled))
      ensures Settled(Transcript(), delivered, events)
    {
      hide LifeOf, Expand, Endings, Expected, Faithful, Settled;
      DoneAgrees(Transcript(), Act.Close(cancelled));
      StepStaysFaithful(OnTheWire(), SetClosed);
      closed := true;
      FlushPending();
      CompleteSegment();
      var _ := EmitTerminal(if cancelled then Cancelled else Failed);
      ClosedIsSettled(Transcript(), OnTheWire());
    }
  }
}
