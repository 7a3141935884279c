/** How a run is cut into messages, notices and an ending, told in terms of what the emitter was given
    (internal/desktop/chat_stream.go:88-255, chat_approval.go:420-430, 535-555, chat_persistence.go:35-42). */
module ChatStory {
  import opened Bytes
  import opened ChatEmitter

  predicate IsText(a: Act) {
    a.Hear? && a.input.TextDelta?
  }

  /** What ends the open message, if there is one. */
  predicate EndsMessage(a: Act) {
    a.FailRun? || a.Close? || (a.Hear? && (a.input.ToolCallStarted? || a.input.RunCompleted? || a.input.RunFailed?))
  }

  predicate Differ(a: string, b: string) {
    a != "" && b != "" && a != b
  }

  predicate AnyText(acts: seq<Act>) {
    exists k :: 0 <= k < |acts| && IsText(acts[k])
  }

  /** The input that opened the message which is open after these inputs: text stays in the open message unless
      its response and the one that opened the message are both given and differ. */
  function Opener(acts: seq<Act>): (o: Option<nat>)
    ensures o.Some? ==> o.value < |acts| && IsText(acts[o.value])
  {
    if acts == [] then None
    else
      var n := |acts| - 1;
      var o, a := Opener(acts[..n]), acts[n];
      if EndsMessage(a) then None
      else if !IsText(a) then o
      else if o.Some? && !Differ(acts[o.value].input.response, a.input.response) then o
      else if AnyText(acts[..n]) && a.world.drawn == None then None  // no id, nothing said
      else Some(n)
  }

  /** The inputs that opened a message, in order. */
  function Openers(acts: seq<Act>): (os: seq<nat>)
    ensures forall m :: 0 <= m < |os| ==> os[m] < |acts| && IsText(acts[os[m]])
  {
    if acts == [] then []
    else
      var n := |acts| - 1;
      var os := Openers(acts[..n]);
      assert forall m :: 0 <= m < |os| ==> acts[..n][os[m]] == acts[os[m]];
      os + (if Opener(acts) == Some(n) then [n] else [])
  }

  /** The text said in the message that input `o` opened. */
  function TextSaid(acts: seq<Act>, o: nat): string {
    if acts == [] then ""
    else
      var n := |acts| - 1;
      TextSaid(acts[..n], o) + (if IsText(acts[n]) && Opener(acts) == Some(o) then acts[n].input.text else "")
  }

  /** The first message has the reserved id, any other the one drawn for it. */
  function MessageId(first: string, acts: seq<Act>, m: nat): string
    requires m < |Openers(acts)|
  {
    if m == 0 then first
    else
      var w := acts[Openers(acts)[m]].world;
      if w.drawn.Some? then w.drawn.value else ""
  }

  function MessageOf(first: string, acts: seq<Act>, m: nat): Segment
    requires m < |Openers(acts)|
  {
    var o := Openers(acts)[m];
    Segment(MessageId(first, acts, m), acts[o].input.response, TextSaid(acts, o))
  }

  function Messages(first: string, acts: seq<Act>): seq<Segment> {
    seq(|Openers(acts)|, m requires 0 <= m < |Openers(acts)| => MessageOf(first, acts, m))
  }

  // ----- one input at a time

  lemma {:induction false} RunSnoc(t: Talk, acts: seq<Act>)
    requires Lucky(t, acts) && acts != []
    ensures var n := |acts| - 1;
            && Lucky(t, acts[..n]) && Allowed(AllDone(t, acts[..n]), acts[n])
            && AllDone(t, acts) == Done(AllDone(t, acts[..n]), acts[n])
    decreases |acts|
  {
    var n := |acts| - 1;
    hide Done;
    if n == 0 {
      assert acts[..0] == [] && acts[1..] == [];
    } else {
      RunSnoc(Done(t, acts[0]), acts[1..]);
      assert acts[1..][..n - 1] == acts[..n][1..];
    }
  }

  lemma StaysAgreed(t: Talk, acts: seq<Act>)
    requires Agrees(t) && Lucky(t, acts)
    ensures Agrees(AllDone(t, acts)) && Shape(AllDone(t, acts))
  {
    hide Agrees, Lucky, AllDone;
    EveryRunAgrees(t, acts);
    AgreesIsShaped(AllDone(t, acts));
  }

  /** What one input does to the messages. */
  lemma SegmentsStep(t: Talk, a: Act)
    requires Allowed(t, a)
    ensures var u := Done(t, a);
            && (EndsMessage(a) ==> u.segments == t.segments && u.active == -1)
            && (!EndsMessage(a) && !IsText(a) ==> u.segments == t.segments && u.active == t.active)
            && (IsText(a) ==> TextStep(t, a, u))
  {
    if IsText(a) {
      TextStepHolds(t, a);
    }
  }

  predicate TextStep(t: Talk, a: Act, u: Talk)
    requires Shape(t) && IsText(a)
  {
    if t.active >= 0 && !Differ(t.segments[t.active].response, a.input.response) then
      var s := t.segments[t.active];
      u.active == t.active && u.segments == t.segments[t.active := s.(content := s.content + a.input.text)]
    else if t.segments != [] && a.world.drawn == None then u.active == -1 && u.segments == t.segments
    else
      var id := if t.segments == [] then t.first else a.world.drawn.value;
      u.active == |t.segments| && u.segments == t.segments + [Segment(id, a.input.response, a.input.text)]
  }

  lemma TextStepHolds(t: Talk, a: Act)
    requires Allowed(t, a) && IsText(a)
    ensures TextStep(t, a, Done(t, a))
  {
    assert "" + a.input.text == a.input.text;
  }

  /** The stored messages are exactly those the inputs describe, and the open one is the last opened. */
  ghost predicate Tells(first: string, acts: seq<Act>, t: Talk) {
    && t.segments == Messages(first, acts)
    && t.active == (if Opener(acts).None? then -1 else |Openers(acts)| - 1)
    && (Opener(acts).Some? ==> Openers(acts) != [] && Openers(acts)[|Openers(acts)| - 1] == Opener(acts).value)
    && t.first == first
    && (AnyText(acts) <==> Openers(acts) != [])
  }

  lemma {:induction false} OpenersIncrease(acts: seq<Act>)
    ensures forall i, j :: 0 <= i < j < |Openers(acts)| ==> Openers(acts)[i] < Openers(acts)[j]
  {
    if acts != [] {
      OpenersIncrease(acts[..|acts| - 1]);
    }
  }

  lemma {:induction false} NothingSaidYet(acts: seq<Act>, o: nat)
    requires o >= |acts|
    ensures TextSaid(acts, o) == ""
  {
    if acts != [] {
      NothingSaidYet(acts[..|acts| - 1], o);
    }
  }

  lemma AnyTextSnoc(acts: seq<Act>)
    requires acts != []
    ensures AnyText(acts) <==> AnyText(acts[..|acts| - 1]) || IsText(acts[|acts| - 1])
  {
    var init := acts[..|acts| - 1];
    if AnyText(init) {
      var k :| 0 <= k < |init| && IsText(init[k]);
      assert IsText(acts[k]);
    }
  }

  /** The messages before the last one are what they were. */
  lemma MessagesSnoc(first: string, acts: seq<Act>)
    requires acts != []
    ensures var n := |acts| - 1;
            var old', os := Openers(acts[..n]), Openers(acts);
            && os == old' + (if Opener(acts) == Some(n) then [n] else [])
            && forall m :: 0 <= m < |old'| ==>
                 && os[m] == old'[m] && acts[os[m]] == acts[..n][os[m]]
                 && TextSaid(acts, os[m]) ==
                      TextSaid(acts[..n], os[m])
                          + (if IsText(acts[n]) && Opener(acts) == Some(os[m]) then acts[n].input.text else "")
  {
  }

  /** An earlier message changes only by the text now said in it. */
  lemma OldMessage(first: string, acts: seq<Act>, m: nat)
    requires acts != [] && m < |Openers(acts[..|acts| - 1])|
    ensures var n, o := |acts| - 1, Openers(acts[..|acts| - 1])[m];
            var more := if IsText(acts[n]) && Opener(acts) == Some(o) then acts[n].input.text else "";
            && m < |Openers(acts)|
            && var old' := MessageOf(first, acts[..n], m);
            MessageOf(first, acts, m) == old'.(content := old'.content + more)
  {
    MessagesSnoc(first, acts);
    hide Opener, Openers, TextSaid;
  }

  /** A message in which nothing is said now stays what it was. */
  lemma QuietMessage(first: string, acts: seq<Act>, m: nat)
    requires acts != [] && (IsText(acts[|acts| - 1]) ==> Opener(acts) == None)
    requires m < |Openers(acts[..|acts| - 1])|
    ensures m < |Openers(acts)| && MessageOf(first, acts, m) == MessageOf(first, acts[..|acts| - 1], m)
  {
    OldMessage(first, acts, m);
    hide Opener, Openers, TextSaid, MessageOf;
    var old' := MessageOf(first, acts[..|acts| - 1], m);
    assert old'.content + "" == old'.content;
  }

  lemma Alike(ms: seq<Segment>, ns: seq<Segment>)
    requires |ms| == |ns| && forall m :: 0 <= m < |ms| ==> ns[m] == ms[m]
    ensures ns == ms
  {
  }

  lemma SameMessages(first: string, acts: seq<Act>)
    requires acts != [] && (IsText(acts[|acts| - 1]) ==> Opener(acts) == None)
    requires Opener(acts) != Some(|acts| - 1)
    ensures Messages(first, acts) == Messages(first, acts[..|acts| - 1])
  {
    MessagesSnoc(first, acts);
    hide Opener, Openers, TextSaid, MessageOf;
    var ms, ns := Messages(first, acts[..|acts| - 1]), Messages(first, acts);
    forall m | 0 <= m < |ms|
      ensures m < |ns| && ns[m] == ms[m]
    {
      QuietMessage(first, acts, m);
    }
    Alike(ms, ns);
  }

  lemma LongerMessage(first: string, acts: seq<Act>, m: nat)
    requires acts != [] && IsText(acts[|acts| - 1]) && Opener(acts) != Some(|acts| - 1)
    requires m < |Openers(acts[..|acts| - 1])| && Opener(acts) == Some(Openers(acts[..|acts| - 1])[m])
    ensures var ms := Messages(first, acts[..|acts| - 1]);
            Messages(first, acts) == ms[m := ms[m].(content := ms[m].content + acts[|acts| - 1].input.text)]
  {
    MessagesSnoc(first, acts);
    OpenersIncrease(acts[..|acts| - 1]);
    assert Openers(acts) == Openers(acts[..|acts| - 1]);
    hide Opener, Openers, TextSaid, MessageOf;
    forall k | 0 <= k < |Openers(acts[..|acts| - 1])|
      ensures k < |Openers(acts)|
      ensures var old' := MessageOf(first, acts[..|acts| - 1], k);
              MessageOf(first, acts, k) == if k == m then old'.(content := old'.content + acts[|acts| - 1].input.text)
                  else old'
    {
      OldMessage(first, acts, k);
      var old' := MessageOf(first, acts[..|acts| - 1], k);
      assert old'.content + "" == old'.content;
    }
  }

  lemma NewMessage(first: string, acts: seq<Act>)
    requires acts != [] && IsText(acts[|acts| - 1]) && Opener(acts) == Some(|acts| - 1)
    ensures var n, ms := |acts| - 1, Messages(first, acts[..|acts| - 1]);
            var w := acts[n].world;
            var id := if ms == [] then first else if w.drawn.Some? then w.drawn.value else "";
            Messages(first, acts) == ms + [Segment(id, acts[n].input.response, acts[n].input.text)]
  {
    var n, ms := |acts| - 1, Messages(first, acts[..|acts| - 1]);
    LastMessage(first, acts);
    forall m | 0 <= m < |ms|
      ensures m < |Openers(acts)| && Messages(first, acts)[m] == ms[m]
    {
      hide Opener, Openers, TextSaid, MessageOf;
      EarlierMessageStays(first, acts, m);
    }
    hide Opener, Openers, TextSaid, MessageOf;
    var w := acts[n].world;
    var id := if ms == [] then first else if w.drawn.Some? then w.drawn.value else "";
    OneMore(ms, Messages(first, acts), Segment(id, acts[n].input.response, acts[n].input.text));
  }

  lemma OneMore(ms: seq<Segment>, ns: seq<Segment>, last: Segment)
    requires |ns| == |ms| + 1 && (forall m :: 0 <= m < |ms| ==> ns[m] == ms[m]) && ns[|ms|] == last
    ensures ns == ms + [last]
  {
  }

  lemma EarlierMessageStays(first: string, acts: seq<Act>, m: nat)
    requires acts != [] && m < |Openers(acts[..|acts| - 1])| && Opener(acts) == Some(|acts| - 1)
    ensures m < |Openers(acts)| && MessageOf(first, acts, m) == MessageOf(first, acts[..|acts| - 1], m)
  {
    OldMessage(first, acts, m);
    assert Openers(acts[..|acts| - 1])[m] < |acts| - 1;
    hide Opener, Openers, TextSaid, MessageOf;
    var old' := MessageOf(first, acts[..|acts| - 1], m);
    assert old'.content + "" == old'.content;
  }

  lemma OpenersSnoc(acts: seq<Act>)
    requires acts != []
    ensures var n := |acts| - 1;
            Openers(acts) == Openers(acts[..n]) + (if Opener(acts) == Some(n) then [n] else [])
  {
  }

  lemma LastMessage(first: string, acts: seq<Act>)
    requires acts != [] && IsText(acts[|acts| - 1]) && Opener(acts) == Some(|acts| - 1)
    ensures var n, m := |acts| - 1, |Openers(acts[..|acts| - 1])|;
            var w := acts[n].world;
            && |Openers(acts)| == m + 1
            && MessageOf(first, acts, m) == Segment(
                 if m == 0 then first else if w.drawn.Some? then w.drawn.value else "",
                 acts[n].input.response, acts[n].input.text)
  {
    var n := |acts| - 1;
    MessagesSnoc(first, acts);
    NothingSaidYet(acts[..n], n);
    assert TextSaid(acts, n) == "" + acts[n].input.text;
    hide Opener, Openers, TextSaid;
  }

  lemma TellsNothing(first: string)
    ensures Tells(first, [], NewTalk(first))
  {
  }

  lemma TellsOneMore(first: string, acts: seq<Act>, t: Talk)
    requires acts != [] && Tells(first, acts[..|acts| - 1], t) && Allowed(t, acts[|acts| - 1])
    ensures Tells(first, acts, Done(t, acts[|acts| - 1]))
  {
    var n := |acts| - 1;
    var init, a := acts[..n], acts[n];
    SegmentsStep(t, a);
    FirstStays(t, a);
    AnyTextSnoc(acts);
    MessagesSnoc(first, acts);
    hide Done, Allowed, TextSaid, MessageOf, AnyText;
    if EndsMessage(a) || !IsText(a) || Opener(acts) == None {
      SameMessages(first, acts);
    } else if Opener(acts) == Some(n) {
      NewMessage(first, acts);
    } else {
      LongerMessage(first, acts, |Openers(init)| - 1);
    }
  }

  lemma FirstStays(t: Talk, a: Act)
    requires Allowed(t, a)
    ensures Done(t, a).first == t.first
  {
  }

  /** In every allowed run the stored messages are exactly those the inputs describe: one for each opener, in
      order, each with the response that opened it and the concatenation of the texts said in it. */
  lemma {:induction false} MessagesAreTold(first: string, acts: seq<Act>)
    requires Lucky(NewTalk(first), acts)
    ensures Tells(first, acts, AllDone(NewTalk(first), acts))
    decreases |acts|
  {
    hide Tells, Lucky, Done, Allowed;
    if acts == [] {
      NothingDone(first);
    } else {
      RunSnoc(NewTalk(first), acts);
      MessagesAreTold(first, acts[..|acts| - 1]);
      TellsOneMore(first, acts, AllDone(NewTalk(first), acts[..|acts| - 1]));
    }
  }

  lemma NothingDone(first: string)
    ensures Lucky(NewTalk(first), []) && AllDone(NewTalk(first), []) == NewTalk(first)
    ensures Tells(first, [], NewTalk(first))
  {
  }

  // ----- where messages begin and end

  /** Nothing that ends a message comes after the input that opened the open one. */
  lemma {:induction false} OpenSince(acts: seq<Act>, k: nat)
    requires Opener(acts).Some? && Opener(acts).value < k < |acts|
    ensures !EndsMessage(acts[k])
  {
    var n := |acts| - 1;
    if k < n {
      OpenSince(acts[..n], k);
    }
  }

  /** The message a text belongs to. */
  function InMessage(acts: seq<Act>, k: nat): Option<nat>
    requires k < |acts|
  {
    Opener(acts[..k + 1])
  }

  /** No message has text on both sides of a tool start, of the end of the attempt or of a failure. */
  lemma EndsSeparate(acts: seq<Act>, i: nat, k: nat, j: nat)
    requires i < k < j < |acts| && IsText(acts[i]) && IsText(acts[j]) && EndsMessage(acts[k])
    requires InMessage(acts, i).Some?
    ensures InMessage(acts, i) != InMessage(acts, j)
  {
    assert acts[..j + 1][k] == acts[k];
    if InMessage(acts, i) == InMessage(acts, j) {
      assert Opener(acts[..i + 1]).value <= i;
      OpenSince(acts[..j + 1], k);
    }
  }

  /** Two texts of different responses share a message only if it was opened by a text without a response. */
  lemma ResponsesShareOnlyAnUnnamed(acts: seq<Act>, i: nat, j: nat)
    requires i < j < |acts| && IsText(acts[i]) && IsText(acts[j])
    requires Differ(acts[i].input.response, acts[j].input.response)
    requires InMessage(acts, i).Some? && InMessage(acts, i) == InMessage(acts, j)
    ensures acts[InMessage(acts, i).value].input.response == ""
  {
    OpenerAgrees(acts, i);
    OpenerAgrees(acts, j);
  }

  lemma OpenerAgrees(acts: seq<Act>, k: nat)
    requires k < |acts| && IsText(acts[k]) && InMessage(acts, k).Some?
    ensures var o := InMessage(acts, k).value;
            o <= k && IsText(acts[o]) && !Differ(acts[o].input.response, acts[k].input.response)
  {
    assert acts[..k + 1][..k] == acts[..k];
    var o := InMessage(acts, k).value;
    assert acts[..k + 1][o] == acts[o];
    if o < k {
      assert acts[..k][o] == acts[o];
    }
  }

  /** Conversely text stays in its message while nothing ends it and every text either gives no response, or
      the opening one gave none, or both gave the same. */
  lemma {:induction false} StaysWhileNothingDiffers(acts: seq<Act>, i: nat, j: nat)
    requires i <= j < |acts| && InMessage(acts, i).Some?
    requires forall k :: i < k <= j ==>
               && !EndsMessage(acts[k])
               && (IsText(acts[k]) ==> !Differ(acts[InMessage(acts, i).value].input.response, acts[k].input.response))
    ensures InMessage(acts, j) == InMessage(acts, i)
    decreases j
  {
    if i < j {
      var o := InMessage(acts, i).value;
      StaysWhileNothingDiffers(acts, i, j - 1);
      assert acts[..j + 1][..j] == acts[..j];
      assert acts[..i + 1][o] == acts[o] == acts[..j][o];
    }
  }

  /** So texts of one response, with only such texts or texts without response between them and nothing that
      ends a message, always share it. */
  lemma OneResponseOneMessage(acts: seq<Act>, i: nat, j: nat)
    requires i < j < |acts| && IsText(acts[i]) && InMessage(acts, i).Some?
    requires forall k :: i < k <= j ==>
               && !EndsMessage(acts[k])
               && (IsText(acts[k]) ==> acts[k].input.response == acts[i].input.response || acts[k].input.response == "")
    ensures InMessage(acts, j) == InMessage(acts, i)
  {
    OpenerAgrees(acts, i);
    StaysWhileNothingDiffers(acts, i, j);
  }

  function Text(response: string, text: string, drawn: string): Act {
    Hear(TextDelta(response, text), World(0, true, Some(drawn)))
  }

  /** Two different responses in one message, because the first text of the message named none. */
  lemma UnnamedOpenerMixesResponses()
    ensures var acts := [Text("", "a", "m1"), Text("r1", "b", "m2"), Text("r2", "c", "m3")];
            && Differ("r1", "r2") && InMessage(acts, 1) == InMessage(acts, 2) == Some(0)
            && TextSaid(acts, 0) == "abc"
  {
    var acts := [Text("", "a", "m1"), Text("r1", "b", "m2"), Text("r2", "c", "m3")];
    assert acts[..3] == acts && acts[..2][..1] == acts[..1] && acts[..1][..0] == [];
    assert Opener(acts[..1]) == Some(0);
    assert Opener(acts[..2]) == Some(0);
    assert TextSaid(acts[..1], 0) == "a";
    assert TextSaid(acts[..2], 0) == "ab";
  }

  // ----- what goes out

  /** The last opener's message is the one text is said in, under its id. */
  lemma TextGoesOut(first: string, acts: seq<Act>)
    requires Lucky(NewTalk(first), acts) && acts != [] && IsText(acts[|acts| - 1]) && Opener(acts).Some?
    ensures var t, a, ms := AllDone(NewTalk(first), acts), acts[|acts| - 1], Messages(first, acts);
            && ms != [] && t.emitted != []
            && Openers(acts)[|ms| - 1] == Opener(acts).value
            && t.emitted[|t.emitted| - 1] == Delta(ms[|ms| - 1].id, a.world.stamp, a.input.text)
  {
    MessagesAreTold(first, acts);
    RunSnoc(NewTalk(first), acts);
    var n := |acts| - 1;
    MessagesAreTold(first, acts[..n]);
    hide Lucky, AllDone, Messages, Opener, Openers, AnyText;
    SaidLast(AllDone(NewTalk(first), acts[..n]), acts[n]);
  }

  lemma SaidLast(t: Talk, a: Act)
    requires Allowed(t, a) && IsText(a)
    ensures var u := Done(t, a);
            u.active >= 0 ==>
              && u.active < |u.segments| && u.emitted != []
              && u.emitted[|u.emitted| - 1] == Delta(u.segments[u.active].id, a.world.stamp, a.input.text)
  {
  }

  /** No two messages of a run share an id. */
  lemma MessageIdsDiffer(first: string, acts: seq<Act>)
    requires Lucky(NewTalk(first), acts)
    ensures var ms := Messages(first, acts); forall i, j :: 0 <= i < j < |ms| ==> ms[i].id != ms[j].id
  {
    NewTalkAgrees(first);
    MessagesAreTold(first, acts);
    StaysAgreed(NewTalk(first), acts);
    hide Messages, Lucky, AllDone, Opener, Openers, AnyText;
  }

  /** What one input makes known besides text, completions and the ending. */
  function NoticesOf(a: Act): seq<Event> {
    if !a.Hear? then []
    else
      match a.input
      case RunStarted => [Notice(RunStartedNote, "")]
      case ToolCallStarted(call) => if a.world.stored then [Notice(ToolStartedNote, call)] else []
      case ToolStarted(call) => if a.world.stored then [Notice(ToolUpdatedNote, call)] else []
      case ToolCompleted(call) => if a.world.stored then [Notice(ToolUpdatedNote, call)] else []
      case ApprovalNeeded(call) => if a.world.stored then [Notice(ApprovalNote, call)] else []
      case _ => []
  }

  /** How an input would end the run. */
  function EndingOf(a: Act): Option<Ending> {
    match a
    case FailRun(cancelled) => Some(if cancelled then Cancelled else Failed)
    case Close(cancelled) => Some(if cancelled then Cancelled else Failed)
    case Succeed => Some(Complete)
    case Hear(RunFailed(cancelled), _) => Some(if cancelled then Cancelled else Failed)
    case _ => None
  }

  function AllNotices(acts: seq<Act>): seq<Event> {
    if acts == [] then [] else AllNotices(acts[..|acts| - 1]) + NoticesOf(acts[|acts| - 1])
  }

  /** The first ending settles how the run ended. */
  function FirstEnding(acts: seq<Act>): Option<Ending> {
    if acts == [] then None
    else
      var so := FirstEnding(acts[..|acts| - 1]);
      if so.Some? then so else EndingOf(acts[|acts| - 1])
  }

  function NoticesIn(events: seq<Event>): seq<Event> {
    if events == [] then []
    else
      var e := events[|events| - 1];
      NoticesIn(events[..|events| - 1]) + (if e.Notice? then [e] else [])
  }

  function EndingsIn(events: seq<Event>): seq<Ending> {
    if events == [] then []
    else
      var e := events[|events| - 1];
      EndingsIn(events[..|events| - 1]) + (if e.Finished? then [e.ending] else [])
  }

  lemma EventsSnoc(events: seq<Event>, e: Event)
    ensures NoticesIn(events + [e]) == NoticesIn(events) + (if e.Notice? then [e] else [])
    ensures EndingsIn(events + [e]) == EndingsIn(events) + (if e.Finished? then [e.ending] else [])
  {
    assert (events + [e])[..|events|] == events;
  }

  /** Saying one more thing. */
  lemma SaidSnoc(t: Talk, e: Event)
    ensures NoticesIn(Said(t, e).emitted) == NoticesIn(t.emitted) + (if e.Notice? then [e] else [])
    ensures EndingsIn(Said(t, e).emitted) == EndingsIn(t.emitted) + (if e.Finished? then [e.ending] else [])
    ensures t.emitted <= Said(t, e).emitted && Said(t, e).terminal == t.terminal
  {
    EventsSnoc(t.emitted, e);
  }

  lemma ClosingSays(t: Talk)
    requires Shape(t)
    ensures var u := SegmentClosed(t);
            && NoticesIn(u.emitted) == NoticesIn(t.emitted) && EndingsIn(u.emitted) == EndingsIn(t.emitted)
            && u.terminal == t.terminal && t.emitted <= u.emitted
  {
    if t.active >= 0 {
      SaidSnoc(t, Completed(t.segments[t.active].id));
    }
  }

  lemma EndingSays(t: Talk, ending: Ending)
    ensures var u := Ended(t, ending);
            && NoticesIn(u.emitted) == NoticesIn(t.emitted) && u.terminal && t.emitted <= u.emitted
            && EndingsIn(u.emitted) == EndingsIn(t.emitted) + (if t.terminal then [] else [ending])
  {
    SaidSnoc(t, Finished(ending));
  }

  lemma TextSays(t: Talk, a: Act)
    requires Allowed(t, a) && IsText(a)
    ensures var u := Done(t, a);
            && NoticesIn(u.emitted) == NoticesIn(t.emitted) && EndingsIn(u.emitted) == EndingsIn(t.emitted)
            && u.terminal == t.terminal && t.emitted <= u.emitted
  {
    ClosingSays(t);
    TextIs(t, a);
    var closed := if Switches(t, a.input.response) then SegmentClosed(t) else t;
    var u := Done(t, a);
    hide NoticesIn, EndingsIn, Done, SegmentClosed, Switches, Allowed;
    if u.emitted != t.emitted {
      OneDeltaMore(t.emitted, closed.emitted, u.emitted);
    }
  }

  lemma OneDeltaMore(before: seq<Event>, closed: seq<Event>, after: seq<Event>)
    requires before <= closed && after != [] && after[|after| - 1].Delta? && after == closed + [after[|after| - 1]]
    ensures NoticesIn(after) == NoticesIn(closed) && EndingsIn(after) == EndingsIn(closed) && before <= after
  {
    EventsSnoc(closed, after[|after| - 1]);
  }

  lemma TextIs(t: Talk, a: Act)
    requires Allowed(t, a) && IsText(a)
    ensures var u := Done(t, a);
            var closed := if Switches(t, a.input.response) then SegmentClosed(t) else t;
            && u.terminal == t.terminal
            && (u.emitted == t.emitted || (u.emitted != [] && u.emitted[|u.emitted| - 1].Delta?
                  && u.emitted == closed.emitted + [u.emitted[|u.emitted| - 1]]))
  {
  }

  /** The talk after an input that is not text, in the words of its parts. */
  lemma OtherThanText(t: Talk, a: Act)
    requires Allowed(t, a) && !IsText(a)
    ensures var base := if EndsMessage(a) then SegmentClosed(t) else t;
            Done(t, a) ==
              if EndingOf(a).Some? then Ended(base, EndingOf(a).value)
              else if NoticesOf(a) != [] then Said(base, NoticesOf(a)[0])
              else base
    ensures EndingOf(a).Some? ==> NoticesOf(a) == []
    ensures NoticesOf(a) != [] ==> NoticesOf(a) == [NoticesOf(a)[0]] && NoticesOf(a)[0].Notice?
  {
  }

  /** What one input adds to the notices and endings. */
  lemma StepSays(t: Talk, a: Act)
    requires Allowed(t, a)
    ensures var u := Done(t, a);
            && NoticesIn(u.emitted) == NoticesIn(t.emitted) + NoticesOf(a)
            && EndingsIn(u.emitted) == EndingsIn(t.emitted)
               + (if EndingOf(a).Some? && !t.terminal then [EndingOf(a).value] else [])
            && u.terminal == (t.terminal || EndingOf(a).Some?)
            && t.emitted <= u.emitted
  {
    if IsText(a) {
      TextSays(t, a);
      hide Done, NoticesIn, EndingsIn;
    } else {
      OtherThanText(t, a);
      ClosingSays(t);
      hide NoticesIn, EndingsIn, Spoken, Done, SegmentClosed, Ended, Said, NoticesOf, EndingOf;
      var base := if EndsMessage(a) then SegmentClosed(t) else t;
      if EndingOf(a).Some? {
        EndingSays(base, EndingOf(a).value);
      } else if NoticesOf(a) != [] {
        SaidSnoc(base, NoticesOf(a)[0]);
      }
    }
  }

  /** In every allowed run the notices are those its inputs call for, in order; there is a terminal event
      exactly when some input ends the run, and it carries the ending of the first that does. */
  lemma {:induction false} NoticesAndEndingsAreTold(first: string, acts: seq<Act>)
    requires Lucky(NewTalk(first), acts)
    ensures var t := AllDone(NewTalk(first), acts);
            && NoticesIn(t.emitted) == AllNotices(acts)
            && EndingsIn(t.emitted) == (if FirstEnding(acts).Some? then [FirstEnding(acts).value] else [])
            && t.terminal == FirstEnding(acts).Some?
    decreases |acts|
  {
    NothingDone(first);
    if acts != [] {
      hide Lucky, AllDone, Done, Allowed, NoticesIn, EndingsIn, NoticesOf, EndingOf;
      RunSnoc(NewTalk(first), acts);
      var init := acts[..|acts| - 1];
      NoticesAndEndingsAreTold(first, init);
      StepSays(AllDone(NewTalk(first), init), acts[|acts| - 1]);
    }
  }

  /** What has been said stays said: the events of the first inputs are the first events. */
  lemma {:induction false} EarlierEventsStay(first: string, acts: seq<Act>, k: nat)
    requires Lucky(NewTalk(first), acts) && k <= |acts|
    ensures Lucky(NewTalk(first), acts[..k])
    ensures AllDone(NewTalk(first), acts[..k]).emitted <= AllDone(NewTalk(first), acts).emitted
    decreases |acts|
  {
    if k == |acts| {
      assert acts[..k] == acts;
    } else {
      var n := |acts| - 1;
      RunSnoc(NewTalk(first), acts);
      assert acts[..n][..k] == acts[..k];
      EarlierEventsStay(first, acts[..n], k);
      StepSays(AllDone(NewTalk(first), acts[..n]), acts[n]);
    }
  }

  // ----- tool starts come between messages

  /** At every start of a tool, each message that has text so far has been completed. */
  ghost predicate ToolsComeBetween(emitted: seq<Event>) {
    forall x :: 0 <= x < |emitted| && IsToolStart(emitted[x]) ==> NothingOpen(emitted[..x])
  }

  predicate IsToolStart(e: Event) {
    e.Notice? && e.note == ToolStartedNote
  }

  ghost predicate NothingOpen(emitted: seq<Event>) {
    forall id :: LifeOf(Expand(emitted), id).Over? || LifeOf(Expand(emitted), id) == Going("")
  }

  lemma ClosedTalkHasNothingOpen(t: Talk)
    requires Agrees(t) && t.active == -1
    ensures NothingOpen(t.emitted)
  {
    hide LifeOf, Expand, Endings;
    forall id
      ensures LifeOf(Expand(t.emitted), id).Over? || LifeOf(Expand(t.emitted), id) == Going("")
    {
      assert LifeOf(Expand(t.emitted), id) == Expected(t, id);
    }
  }

  lemma ToolsStayBetween(t: Talk, a: Act)
    requires Agrees(t) && Allowed(t, a) && ToolsComeBetween(t.emitted)
    ensures ToolsComeBetween(Done(t, a).emitted)
  {
    var u := Done(t, a);
    StepSays(t, a);
    SegmentClosedAgrees(t);
    ClosedTalkHasNothingOpen(SegmentClosed(t));
    hide Agrees, Allowed, Done, SegmentClosed, NoticesIn, EndingsIn, NothingOpen, NoticesOf, EndingOf;
    forall x | 0 <= x < |u.emitted| && IsToolStart(u.emitted[x])
      ensures NothingOpen(u.emitted[..x])
    {
      if x < |t.emitted| {
        assert u.emitted[..x] == t.emitted[..x] && u.emitted[x] == t.emitted[x];
      } else {
        NewToolStart(t, a, x);
      }
    }
  }

  /** A new tool start directly follows what closing the open message says. */
  predicate StartsTool(a: Act) {
    a.Hear? && a.input.ToolCallStarted? && a.world.stored
  }

  lemma NoToolStartInText(t: Talk, response: string, text: string, w: World, x: nat)
    requires Shape(t) && Fresh(t, w) && |t.emitted| <= x < |Spoken(t, response, text, w).emitted|
    ensures !IsToolStart(Spoken(t, response, text, w).emitted[x])
  {
  }

  lemma OnlyToolStartsAreNoted(t: Talk, a: Act, x: nat)
    requires Allowed(t, a) && |t.emitted| <= x < |Done(t, a).emitted| && !StartsTool(a)
    ensures !IsToolStart(Done(t, a).emitted[x])
  {
    hide Spoken;
    if a.Hear? && a.input.TextDelta? {
      NoToolStartInText(t, a.input.response, a.input.text, a.world, x);
    }
  }

  lemma NewToolStart(t: Talk, a: Act, x: nat)
    requires Allowed(t, a) && |t.emitted| <= x < |Done(t, a).emitted| && IsToolStart(Done(t, a).emitted[x])
    ensures Done(t, a).emitted[..x] == SegmentClosed(t).emitted
  {
    if !StartsTool(a) {
      hide Done, Allowed, SegmentClosed;
      OnlyToolStartsAreNoted(t, a, x);
    }
  }

  /** In every allowed run no tool start goes out while a message with text is open. */
  lemma {:induction false} NoToolStartsInsideAMessage(first: string, acts: seq<Act>)
    requires Lucky(NewTalk(first), acts)
    ensures ToolsComeBetween(AllDone(NewTalk(first), acts).emitted)
    decreases |acts|
  {
    NothingDone(first);
    if acts != [] {
      hide Lucky, AllDone, Done, Allowed, ToolsComeBetween, Agrees;
      RunSnoc(NewTalk(first), acts);
      var init := acts[..|acts| - 1];
      NoToolStartsInsideAMessage(first, init);
      NewTalkAgrees(first);
      StaysAgreed(NewTalk(first), init);
      ToolsStayBetween(AllDone(NewTalk(first), init), acts[|acts| - 1]);
    }
  }
}
