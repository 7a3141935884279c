/** Percentages and saturating sums in 64-bit arithmetic (internal/desktop/google_slowmode.go). Every
    addition, subtraction and multiplication below wraps around as the machine's does. */
module TokenMath {
  import opened Bytes

  const MAX_INT64: int := 0x7fff_ffff_ffff_ffff
  const MIN_INT64: int := -0x8000_0000_0000_0000
  const TWO_TO_64: int := 0x1_0000_0000_0000_0000

  type int64 = x: int | MIN_INT64 <= x <= MAX_INT64

  function Wrap(x: int): int64 {
    var low := x % TWO_TO_64;
    if low > MAX_INT64 then low - TWO_TO_64 else low
  }

  lemma WrapIsIdentity(x: int64)
    ensures Wrap(x) == x
  {
  }

  /** Quotient and remainder truncate toward zero. */
  function Quo(a: int, b: int): int
    requires b > 0
  {
    if a >= 0 then a / b else -((-a) / b)
  }

  function Rem(a: int, b: int): int
    requires b > 0
  {
    if a >= 0 then a % b else -((-a) % b)
  }

  function Add(a: int64, b: int64): int64 { Wrap(a + b) }

  function Sub(a: int64, b: int64): int64 { Wrap(a - b) }

  function Mul(a: int64, b: int64): int64 { Wrap(a * b) }

  // ----- percentages

  function ApplyGoogleSafety(value: int64, percent: int64): int64 {
    if value <= 0 then 0
    else
      var whole := Mul(Quo(value, 100), percent);
      var remainder := Mul(Rem(value, 100), percent);
      var result := Add(whole, Quo(remainder, 100));
      if result < 1 then 1 else result
  }

  function PercentageCeiling(value: int64, percent: int64): int64 {
    if value <= 0 || percent <= 0 then 0
    else
      var whole := Mul(Quo(value, 100), percent);
      var remainder := Mul(Rem(value, 100), percent);
      Add(whole, Quo(Add(remainder, 99), 100))
  }

  /** Splitting off the hundreds first keeps every intermediate below the value itself, so the result
      is the exact floor, raised to at least one. */
  lemma SafetyIsExact(value: int64, percent: int64)
    requires 1 <= percent <= 100
    ensures ApplyGoogleSafety(value, percent)
         == if value <= 0 then 0 else if value * percent / 100 < 1 then 1 else value * percent / 100
  {
    if value > 0 {
      hide ApplyGoogleSafety, PercentageCeiling, Mul;
      var whole, remainder := SplitHundreds(value, percent);
      RecombineFloor(value, percent, value * percent, whole, remainder);
    }
  }

  lemma RecombineFloor(value: int64, percent: int64, product: int, whole: int, remainder: int)
    requires value > 0 && product == 100 * whole + remainder
    requires 0 <= whole <= 100 * (value / 100) && 0 <= remainder <= 100 * (value % 100)
    requires Mul(value / 100, percent) == whole && Mul(value % 100, percent) == remainder
    ensures ApplyGoogleSafety(value, percent) == if product / 100 < 1 then 1 else product / 100
  {
    hide Mul, Wrap;
    assert product / 100 == whole + remainder / 100;
    WrapIsIdentity(whole + remainder / 100);
  }

  lemma CeilingIsExact(value: int64, percent: int64)
    requires 1 <= percent <= 100
    ensures PercentageCeiling(value, percent) == if value <= 0 then 0 else (value * percent + 99) / 100
  {
    if value > 0 {
      hide ApplyGoogleSafety, PercentageCeiling, Mul;
      var whole, remainder := SplitHundreds(value, percent);
      RecombineCeiling(value, percent, value * percent, whole, remainder);
    }
  }

  lemma RecombineCeiling(value: int64, percent: int64, product: int, whole: int, remainder: int)
    requires value > 0 && percent > 0 && product == 100 * whole + remainder
    requires 0 <= whole <= 100 * (value / 100) && 0 <= remainder <= 100 * (value % 100)
    requires Mul(value / 100, percent) == whole && Mul(value % 100, percent) == remainder
    ensures PercentageCeiling(value, percent) == (product + 99) / 100
  {
    hide Mul, Wrap;
    WrapIsIdentity(remainder + 99);
    assert (product + 99) / 100 == whole + (remainder + 99) / 100;
    WrapIsIdentity(whole + (remainder + 99) / 100);
  }

  lemma SplitHundreds(value: int64, percent: int64) returns (whole: int, remainder: int)
    requires value > 0 && 1 <= percent <= 100
    ensures value * percent == 100 * whole + remainder
    ensures 0 <= whole <= 100 * (value / 100) && 0 <= remainder <= 100 * (value % 100)
    ensures Mul(value / 100, percent) == whole && Mul(value % 100, percent) == remainder
  {
    whole, remainder := (value / 100) * percent, (value % 100) * percent;
    Times(value / 100, value % 100, percent);
    AtMostHundred(value / 100, percent);
    AtMostHundred(value % 100, percent);
    WrapIsIdentity(whole);
    WrapIsIdentity(remainder);
  }

  lemma Times(q: int, r: int, percent: int)
    ensures (100 * q + r) * percent == 100 * (q * percent) + r * percent
  {
  }

  lemma AtMostHundred(a: nat, percent: int)
    requires 0 <= percent <= 100
    ensures 0 <= a * percent <= 100 * a
  {
    Distribute(100, percent, a);
    if percent < 100 && a > 0 {
      AtLeastOnce(100 - percent, a);
    }
  }

  // ----- saturating sums

  function SaturatingTokenAdd(value: int64, addition: int64): int64 {
    if addition > Sub(MAX_INT64, value) then MAX_INT64 else Add(value, addition)
  }

  function Saturate(x: int): int { if x > MAX_INT64 then MAX_INT64 else x }

  /** The guard subtracts the running value from the largest integer, which itself overflows for a
      negative value: the sum is the saturated exact sum exactly when the value is not negative. */
  lemma SaturatingAddIsExactIffNonNegative(value: int64, addition: int64)
    ensures SaturatingTokenAdd(value, addition) == Saturate(value + addition) <==> value >= 0
  {
  }

  // ----- the local token estimate

  type Text = seq<byte>

  datatype Part = Part(mediaType: Text, data: Text)
  datatype Call = Call(name: Text, arguments: Text)
  datatype Message = Message(role: Text, content: Text, name: Text, toolCallID: Text, parts: seq<Part>,
      toolCalls: seq<Call>)
  datatype Tool = Tool(name: Text, description: Text, inputSchema: Text)
  datatype Request = Request(model: Text, messages: seq<Message>, tools: seq<Tool>)

  function PartSize(p: Part): nat { |p.mediaType| + |p.data| }

  function CallSize(c: Call): nat { |c.name| + |c.arguments| }

  function PartsSize(s: seq<Part>): nat { if s == [] then 0 else PartsSize(s[..|s| - 1]) + PartSize(s[|s| - 1]) }

  function CallsSize(s: seq<Call>): nat { if s == [] then 0 else CallsSize(s[..|s| - 1]) + CallSize(s[|s| - 1]) }

  function MessageSize(m: Message): nat {
    16 + |m.role| + |m.content| + |m.name| + |m.toolCallID| + PartsSize(m.parts) + CallsSize(m.toolCalls)
  }

  function ToolSize(t: Tool): nat { 24 + |t.name| + |t.description| + |t.inputSchema| }

  function MessagesSize(s: seq<Message>): nat {
    if s == [] then 0 else MessagesSize(s[..|s| - 1]) + MessageSize(s[|s| - 1])
  }

  function ToolsSize(s: seq<Tool>): nat { if s == [] then 0 else ToolsSize(s[..|s| - 1]) + ToolSize(s[|s| - 1]) }

  /** The unbounded estimate: one token a byte plus the fixed overheads. */
  function ExactInputTokens(r: Request): nat {
    64 + |r.model| + MessagesSize(r.messages) + ToolsSize(r.tools)
  }

  // ----- the same estimate read off the request

  function PartTexts(s: seq<Part>): seq<Text> {
    if s == [] then [] else PartTexts(s[..|s| - 1]) + [s[|s| - 1].mediaType, s[|s| - 1].data]
  }

  function CallTexts(s: seq<Call>): seq<Text> {
    if s == [] then [] else CallTexts(s[..|s| - 1]) + [s[|s| - 1].name, s[|s| - 1].arguments]
  }

  /** The texts of the messages, one behind the other. */
  function MessageTexts(s: seq<Message>): seq<Text> {
    if s == [] then []
    else
      var m := s[|s| - 1];
      MessageTexts(s[..|s| - 1])
      + [m.role, m.content, m.name, m.toolCallID] + PartTexts(m.parts) + CallTexts(m.toolCalls)
  }

  function ToolTexts(s: seq<Tool>): seq<Text> {
    if s == [] then []
    else
      var t := s[|s| - 1];
      ToolTexts(s[..|s| - 1]) + [t.name, t.description, t.inputSchema]
  }

  function Texts(r: Request): seq<Text> {
    [r.model] + MessageTexts(r.messages) + ToolTexts(r.tools)
  }

  lemma FlattenPair(a: seq<Text>, b: seq<Text>)
    ensures |Flatten(a + b)| == |Flatten(a)| + |Flatten(b)|
  {
    FlattenConcat(a, b);
  }

  lemma FlattenTwo(x: Text, y: Text)
    ensures |Flatten([x, y])| == |x| + |y|
  {
    assert [x, y][1..] == [y] && [y][1..] == [];
    assert Flatten([y]) == y + Flatten<byte>([]);
  }

  lemma FlattenThree(x: Text, y: Text, z: Text)
    ensures |Flatten([x, y, z])| == |x| + |y| + |z|
  {
    assert [x, y, z][1..] == [y, z];
    FlattenTwo(y, z);
  }

  lemma FlattenFour(w: Text, x: Text, y: Text, z: Text)
    ensures |Flatten([w, x, y, z])| == |w| + |x| + |y| + |z|
  {
    assert [w, x, y, z][1..] == [x, y, z];
    FlattenThree(x, y, z);
  }

  lemma {:induction false} PartsAreTexts(s: seq<Part>)
    ensures PartsSize(s) == |Flatten(PartTexts(s))|
  {
    if s != [] {
      hide Flatten;
      var init, last := s[..|s| - 1], s[|s| - 1];
      PartsAreTexts(init);
      FlattenPair(PartTexts(init), [last.mediaType, last.data]);
      FlattenTwo(last.mediaType, last.data);
    }
  }

  lemma {:induction false} CallsAreTexts(s: seq<Call>)
    ensures CallsSize(s) == |Flatten(CallTexts(s))|
  {
    if s != [] {
      hide Flatten;
      var init, last := s[..|s| - 1], s[|s| - 1];
      CallsAreTexts(init);
      FlattenPair(CallTexts(init), [last.name, last.arguments]);
      FlattenTwo(last.name, last.arguments);
    }
  }

  lemma {:induction false} MessagesAreTexts(s: seq<Message>)
    ensures MessagesSize(s) == 16 * |s| + |Flatten(MessageTexts(s))|
  {
    if s != [] {
      hide Flatten, PartTexts, CallTexts, PartsSize, CallsSize;
      var init, m := s[..|s| - 1], s[|s| - 1];
      var own := [m.role, m.content, m.name, m.toolCallID];
      MessagesAreTexts(init);
      FlattenFour(m.role, m.content, m.name, m.toolCallID);
      PartsAreTexts(m.parts);
      CallsAreTexts(m.toolCalls);
      FlattenPair(MessageTexts(init), own);
      FlattenPair(MessageTexts(init) + own, PartTexts(m.parts));
      FlattenPair(MessageTexts(init) + own + PartTexts(m.parts), CallTexts(m.toolCalls));
    }
  }

  lemma {:induction false} ToolsAreTexts(s: seq<Tool>)
    ensures ToolsSize(s) == 24 * |s| + |Flatten(ToolTexts(s))|
  {
    if s != [] {
      hide Flatten;
      var init, t := s[..|s| - 1], s[|s| - 1];
      ToolsAreTexts(init);
      FlattenThree(t.name, t.description, t.inputSchema);
      FlattenPair(ToolTexts(init), [t.name, t.description, t.inputSchema]);
    }
  }

  /** One token for each byte of every text in the request, 16 a message, 24 a tool and 64 in any case. */
  lemma EveryByteCounts(r: Request)
    ensures ExactInputTokens(r) == 64 + 16 * |r.messages| + 24 * |r.tools| + |Flatten(Texts(r))|
  {
    hide MessagesSize, ToolsSize, MessageTexts, ToolTexts;
    MessagesAreTexts(r.messages);
    ToolsAreTexts(r.tools);
    FlattenPair([r.model], MessageTexts(r.messages));
    FlattenPair([r.model] + MessageTexts(r.messages), ToolTexts(r.tools));
    assert Flatten([r.model]) == r.model + Flatten<byte>([]);
  }

  /** Add a size to the running total; `exact` is the unbounded sum the total stands for. */
  method AddSize(total: int64, size: nat, ghost exact: nat) returns (next: int64)
    requires total == Saturate(exact)
    ensures next == Saturate(exact + size)
  {
    if size == 0 || total == MAX_INT64 {
      return total;
    }
    if size > Sub(MAX_INT64, total) {
      return MAX_INT64;
    }
    return Add(total, size);
  }

  method AddMessage(start: int64, m: Message, ghost exact: nat) returns (total: int64)
    requires start == Saturate(exact)
    ensures total == Saturate(exact + MessageSize(m))
  {
    total := SaturatingTokenAdd(start, 16);
    total := AddSize(total, |m.role|, exact + 16);
    total := AddSize(total, |m.content|, exact + 16 + |m.role|);
    total := AddSize(total, |m.name|, exact + 16 + |m.role| + |m.content|);
    total := AddSize(total, |m.toolCallID|, exact + 16 + |m.role| + |m.content| + |m.name|);
    ghost var e := exact + 16 + |m.role| + |m.content| + |m.name| + |m.toolCallID|;
    for i := 0 to |m.parts|
      invariant total == Saturate(e + PartsSize(m.parts[..i]))
    {
      assert m.parts[..i + 1][..i] == m.parts[..i];
      total := AddSize(total, |m.parts[i].mediaType|, e + PartsSize(m.parts[..i]));
      total := AddSize(total, |m.parts[i].data|, e + PartsSize(m.parts[..i]) + |m.parts[i].mediaType|);
    }
    assert m.parts[..|m.parts|] == m.parts;
    e := e + PartsSize(m.parts);
    for i := 0 to |m.toolCalls|
      invariant total == Saturate(e + CallsSize(m.toolCalls[..i]))
    {
      assert m.toolCalls[..i + 1][..i] == m.toolCalls[..i];
      total := AddSize(total, |m.toolCalls[i].name|, e + CallsSize(m.toolCalls[..i]));
      total := AddSize(total, |m.toolCalls[i].arguments|, e + CallsSize(m.toolCalls[..i]) + |m.toolCalls[i].name|);
    }
    assert m.toolCalls[..|m.toolCalls|] == m.toolCalls;
  }

  method AddTool(start: int64, tool: Tool, ghost exact: nat) returns (total: int64)
    requires start == Saturate(exact)
    ensures total == Saturate(exact + ToolSize(tool))
  {
    total := SaturatingTokenAdd(start, 24);
    total := AddSize(total, |tool.name|, exact + 24);
    total := AddSize(total, |tool.description|, exact + 24 + |tool.name|);
    total := AddSize(total, |tool.inputSchema|, exact + 24 + |tool.name| + |tool.description|);
  }

  lemma EmptySizes()
    ensures MessagesSize([]) == 0 && ToolsSize([]) == 0 && Saturate(64) == 64
  {
  }

  lemma MessagesSnoc(s: seq<Message>, i: nat)
    requires i < |s|
    ensures MessagesSize(s[..i + 1]) == MessagesSize(s[..i]) + MessageSize(s[i])
  {
    assert s[..i + 1][..i] == s[..i];
  }

  lemma ToolsSnoc(s: seq<Tool>, i: nat)
    requires i < |s|
    ensures ToolsSize(s[..i + 1]) == ToolsSize(s[..i]) + ToolSize(s[i])
  {
    assert s[..i + 1][..i] == s[..i];
  }

  /** The estimate is the unbounded sum, cut at the largest 64-bit integer, for any request. */
  method ConservativeGoogleInputTokens(request: Request) returns (total: int64)
    ensures total == Saturate(ExactInputTokens(request))
  {
    hide MessagesSize, ToolsSize, MessageSize, ToolSize, Saturate;
    EmptySizes();
    assert request.messages[..0] == [] && request.tools[..0] == [];
    total := AddSize(64, |request.model|, 64);
    ghost var e := 64 + |request.model|;
    for i := 0 to |request.messages|
      invariant total == Saturate(e + MessagesSize(request.messages[..i]))
    {
      MessagesSnoc(request.messages, i);
      total := AddMessage(total, request.messages[i], e + MessagesSize(request.messages[..i]));
    }
    assert request.messages[..|request.messages|] == request.messages;
    e := e + MessagesSize(request.messages);
    for i := 0 to |request.tools|
      invariant total == Saturate(e + ToolsSize(request.tools[..i]))
    {
      ToolsSnoc(request.tools, i);
      total := AddTool(total, request.tools[i], e + ToolsSize(request.tools[..i]));
    }
    assert request.tools[..|request.tools|] == request.tools;
  }
}
