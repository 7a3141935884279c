/** The bounded blocks of remembered lines in a prompt (internal/context/assembler.go). */
module MemoryBlocks {
  import opened Text
  import opened ContextWindow

  datatype MemoryItem = MemoryItem(id: string, kind: string, nature: string, content: string, provenance: string)
  datatype ArchiveHit = ArchiveHit(conversationID: string, messageID: string, conversation: string, excerpt: string,
      occurredAt: string)

  /** A line of a block and the identity it stands for. */
  datatype Entry = Entry(line: string, id: string)

  function Labelled(tag: string, value: string): string {
    if value == "" then "" else tag + value
  }

  function CoreLine(item: MemoryItem): string {
    "- [" + Clean(item.kind) + "; id=" + item.id + Labelled("; nature=", Clean(item.nature))
        + Labelled("; source=", Clean(item.provenance))
    + "] " + Clean(item.content) + "\n"
  }

  function HitLine(hit: ArchiveHit): string {
    "- [conversation=" + hit.conversationID + "; message=" + hit.messageID
        + Labelled("; title=", Clean(hit.conversation)) + Labelled("; at=", Clean(hit.occurredAt))
    + "] " + Clean(hit.excerpt) + "\n"
  }

  predicate CoreEligible(item: MemoryItem) {
    Clean(item.content) != "" && item.id != ""
  }

  predicate HitEligible(hit: ArchiveHit, current: string) {
    hit.conversationID != "" && hit.messageID != "" && hit.conversationID != current && Clean(hit.excerpt) != ""
  }

  function CoreEntries(items: seq<MemoryItem>): seq<Entry> {
    if items == [] then []
    else
      var item := items[|items| - 1];
      CoreEntries(items[..|items| - 1]) + if CoreEligible(item) then [Entry(CoreLine(item), item.id)] else []
  }

  function HitEntries(hits: seq<ArchiveHit>, current: string): seq<Entry> {
    if hits == [] then []
    else
      var hit := hits[|hits| - 1];
      HitEntries(hits[..|hits| - 1], current)
      + if HitEligible(hit, current) then [Entry(HitLine(hit), hit.messageID)] else []
  }

  /** A line as the formatters build it: no space at its start, a newline at its end, and none of
      that newline's kind just before it. */
  predicate IsLine(line: string) {
    |line| >= 2 && !IsSpace(line[0]) && line[|line| - 1] == '\n' && !IsSpace(line[|line| - 2])
  }

  lemma CoreLineIsLine(item: MemoryItem)
    requires CoreEligible(item)
    ensures IsLine(CoreLine(item))
  {
    TrimSpaceTrims(UnixLines(DropNul(item.content)));
    var head := "- [" + Clean(item.kind) + "; id=" + item.id + Labelled("; nature=", Clean(item.nature))
        + Labelled("; source=", Clean(item.provenance)) + "] ";
    LineOf(head, Clean(item.content));
  }

  lemma HitLineIsLine(hit: ArchiveHit, current: string)
    requires HitEligible(hit, current)
    ensures IsLine(HitLine(hit))
  {
    TrimSpaceTrims(UnixLines(DropNul(hit.excerpt)));
    var head := "- [conversation=" + hit.conversationID + "; message=" + hit.messageID
        + Labelled("; title=", Clean(hit.conversation)) + Labelled("; at=", Clean(hit.occurredAt)) + "] ";
    LineOf(head, Clean(hit.excerpt));
  }

  lemma LineOf(head: string, text: string)
    requires head != "" && head[0] == '-' && text != "" && Trimmed(text)
    ensures IsLine(head + text + "\n")
  {
    var line := head + text + "\n";
    assert line[0] == head[0] && line[|line| - 2] == text[|text| - 1];
  }

  // ----- filling a block

  function Concat(entries: seq<Entry>): string {
    if entries == [] then "" else Concat(entries[..|entries| - 1]) + entries[|entries| - 1].line
  }

  function Ids(entries: seq<Entry>): seq<string> {
    seq(|entries|, i requires 0 <= i < |entries| => entries[i].id)
  }

  /** The text appended for a line that no longer fits. */
  function Leftover(line: string, remaining: int): string {
    if remaining < 32 then "" else Truncate(line, remaining)
  }

  /** A block holds the first `k` lines whole; then either there are no more, or the next one does not
      fit in what is left and is cut or dropped. */
  ghost predicate IsBlock(entries: seq<Entry>, budget: int, k: nat, text: string) {
    && k <= |entries|
    && (k > 0 ==> |Concat(entries[..k])| <= budget)
    && (k == |entries| ==> text == Concat(entries))
    && (k < |entries| ==>
          var remaining := budget - |Concat(entries[..k])|;
          |entries[k].line| > remaining && text == Concat(entries[..k]) + Leftover(entries[k].line, remaining))
  }

  /** A line goes in whole, cut, or not at all; only a whole line counts. */
  method AppendWithin(builder: string, value: string, budget: int) returns (next: string, whole: bool)
    requires value != ""
    ensures whole <==> |value| <= budget - |builder|
    ensures next == builder + if whole then value else Leftover(value, budget - |builder|)
  {
    var remaining := budget - |builder|;
    if remaining <= 0 {
      return builder, false;
    }
    if |value| > remaining {
      if remaining < 32 {
        return builder, false;
      }
      return builder + Truncate(value, remaining), false;
    }
    return builder + value, true;
  }

  method FormatCore(items: seq<MemoryItem>, budget: int)
      returns (text: string, ids: seq<string>, ghost filled: string)
    ensures |ids| <= |CoreEntries(items)| && ids == Ids(CoreEntries(items)[..|ids|])
    ensures Exactly(CoreEntries(items), budget, |ids|, text)
    ensures IsBlock(CoreEntries(items), budget, |ids|, filled) && text == TrimSpace(filled)
  {
    hide CoreLine, Concat, CoreEligible, Leftover, CoreEntries, Exactly, IsLine, TrimSpace;
    var builder := "";
    ids := [];
    EmptyConcat();
    assert items[..0] == [];
    for i := 0 to |items|
      invariant builder == Concat(CoreEntries(items[..i])) && (CoreEntries(items[..i]) != [] ==> |builder| <= budget)
      invariant ids == Ids(CoreEntries(items[..i]))
    {
      var item := items[i];
      ghost var before := CoreEntries(items[..i]);
      CoreEntriesSnoc(items, i);
      CoreEligibleMeans(item);
      if Clean(item.content) == "" || item.id == "" {
        continue;
      }
      ghost var entry := Entry(CoreLine(item), item.id);
      CoreLineIsLine(item);
      var whole;
      builder, whole := AppendWithin(builder, CoreLine(item), budget);
      CorePrefix(items, i + 1);
      BlockStep(before, entry, CoreEntries(items), budget, whole, builder);
      if !whole {
        CoreEntriesAreLines(items);
        LinesThatStand(CoreEntries(items), budget, |before|, builder);
        return TrimSpace(builder), ids, builder;
      }
      ids := ids + [item.id];
    }
    assert items[..|items|] == items;
    assert CoreEntries(items)[..|CoreEntries(items)|] == CoreEntries(items);
    CoreEntriesAreLines(items);
    LinesThatStand(CoreEntries(items), budget, |CoreEntries(items)|, builder);
    return TrimSpace(builder), ids, builder;
  }

  lemma CoreEligibleMeans(item: MemoryItem)
    ensures CoreEligible(item) <==> Clean(item.content) != "" && item.id != ""
  {
  }

  lemma EmptyConcat()
    ensures Concat([]) == "" && CoreEntries([]) == [] && forall current :: HitEntries([], current) == []
  {
  }

  lemma CoreEntriesSnoc(items: seq<MemoryItem>, i: nat)
    requires i < |items|
    ensures CoreEntries(items[..i + 1])
            == CoreEntries(items[..i]) + if CoreEligible(items[i]) then [Entry(CoreLine(items[i]), items[i].id)] else []
    ensures !CoreEligible(items[i]) ==> CoreEntries(items[..i + 1]) == CoreEntries(items[..i])
  {
    assert items[..i + 1][..i] == items[..i];
  }

  lemma HitEntriesSnoc(hits: seq<ArchiveHit>, current: string, i: nat)
    requires i < |hits|
    ensures HitEntries(hits[..i + 1], current)
            == HitEntries(hits[..i], current)
            + if HitEligible(hits[i], current) then [Entry(HitLine(hits[i]), hits[i].messageID)] else []
    ensures !HitEligible(hits[i], current) ==> HitEntries(hits[..i + 1], current) == HitEntries(hits[..i], current)
  {
    assert hits[..i + 1][..i] == hits[..i];
  }

  lemma {:induction false} CorePrefix(items: seq<MemoryItem>, i: nat)
    requires i <= |items|
    ensures CoreEntries(items[..i]) <= CoreEntries(items)
    decreases |items|
  {
    if i < |items| {
      CorePrefix(items[..|items| - 1], i);
      assert items[..|items| - 1][..i] == items[..i];
    } else {
      assert items[..i] == items;
    }
  }

  lemma ConcatSnoc(before: seq<Entry>, entry: Entry)
    ensures Concat(before + [entry]) == Concat(before) + entry.line
  {
    assert (before + [entry])[..|before|] == before;
  }

  /** One turn of the filling loop, whichever formatter runs it. */
  lemma BlockStep(before: seq<Entry>, entry: Entry, all: seq<Entry>, budget: int, whole: bool, text: string)
    requires before + [entry] <= all
    requires |before| > 0 ==> |Concat(before)| <= budget
    requires whole <==> |entry.line| <= budget - |Concat(before)|
    requires text == Concat(before) + if whole then entry.line else Leftover(entry.line, budget - |Concat(before)|)
    ensures whole ==> text == Concat(before + [entry]) && |text| <= budget
    ensures !whole ==> IsBlock(all, budget, |before|, text) && all[..|before|] == before
  {
    hide Leftover, Concat;
    ConcatSnoc(before, entry);
    assert all[..|before|] == before && all[|before|] == entry;
  }

  method FormatHits(hits: seq<ArchiveHit>, current: string, budget: int)
      returns (text: string, ids: seq<string>, ghost filled: string)
    ensures |ids| <= |HitEntries(hits, current)| && ids == Ids(HitEntries(hits, current)[..|ids|])
    ensures Exactly(HitEntries(hits, current), budget, |ids|, text)
    ensures IsBlock(HitEntries(hits, current), budget, |ids|, filled) && text == TrimSpace(filled)
  {
    hide HitLine, Concat, HitEligible, Leftover, HitEntries, Exactly, IsLine, TrimSpace;
    var builder := "";
    ids := [];
    EmptyConcat();
    assert hits[..0] == [];
    for i := 0 to |hits|
      invariant builder == Concat(HitEntries(hits[..i], current))
      invariant (HitEntries(hits[..i], current) != [] ==> |builder| <= budget)
      invariant ids == Ids(HitEntries(hits[..i], current))
    {
      var hit := hits[i];
      ghost var before := HitEntries(hits[..i], current);
      HitEntriesSnoc(hits, current, i);
      HitEligibleMeans(hit, current);
      if hit.conversationID == "" || hit.messageID == "" || hit.conversationID == current {
        continue;
      }
      if Clean(hit.excerpt) == "" {
        continue;
      }
      ghost var entry := Entry(HitLine(hit), hit.messageID);
      HitLineIsLine(hit, current);
      var whole;
      builder, whole := AppendWithin(builder, HitLine(hit), budget);
      HitPrefix(hits, current, i + 1);
      BlockStep(before, entry, HitEntries(hits, current), budget, whole, builder);
      if !whole {
        HitEntriesAreLines(hits, current);
        LinesThatStand(HitEntries(hits, current), budget, |before|, builder);
        return TrimSpace(builder), ids, builder;
      }
      ids := ids + [hit.messageID];
    }
    assert hits[..|hits|] == hits;
    assert HitEntries(hits, current)[..|HitEntries(hits, current)|] == HitEntries(hits, current);
    HitEntriesAreLines(hits, current);
    LinesThatStand(HitEntries(hits, current), budget, |HitEntries(hits, current)|, builder);
    return TrimSpace(builder), ids, builder;
  }

  lemma HitEligibleMeans(hit: ArchiveHit, current: string)
    ensures HitEligible(hit, current) <==>
            hit.conversationID != "" && hit.messageID != "" && hit.conversationID != current && Clean(hit.excerpt) != ""
  {
  }

  lemma {:induction false} HitPrefix(hits: seq<ArchiveHit>, current: string, i: nat)
    requires i <= |hits|
    ensures HitEntries(hits[..i], current) <= HitEntries(hits, current)
    decreases |hits|
  {
    if i < |hits| {
      HitPrefix(hits[..|hits| - 1], current, i);
      assert hits[..|hits| - 1][..i] == hits[..i];
    } else {
      assert hits[..i] == hits;
    }
  }

  // ----- what the identities promise

  lemma {:induction false} CoreEntriesAreLines(items: seq<MemoryItem>)
    ensures forall i :: 0 <= i < |CoreEntries(items)| ==> IsLine(CoreEntries(items)[i].line)
  {
    hide CoreLine, CoreEligible, IsLine;
    if items != [] {
      CoreEntriesAreLines(items[..|items| - 1]);
      if CoreEligible(items[|items| - 1]) {
        CoreLineIsLine(items[|items| - 1]);
      }
    }
  }

  lemma {:induction false} HitEntriesAreLines(hits: seq<ArchiveHit>, current: string)
    ensures forall i :: 0 <= i < |HitEntries(hits, current)| ==> IsLine(HitEntries(hits, current)[i].line)
  {
    hide HitLine, HitEligible, IsLine;
    if hits != [] {
      HitEntriesAreLines(hits[..|hits| - 1], current);
      if HitEligible(hits[|hits| - 1], current) {
        HitLineIsLine(hits[|hits| - 1], current);
      }
    }
  }

  lemma {:induction false} LineOffset(entries: seq<Entry>, i: nat)
    requires i < |entries|
    ensures Concat(entries[..i]) + entries[i].line <= Concat(entries)
    decreases |entries|
  {
    var n := |entries| - 1;
    if i < n {
      LineOffset(entries[..n], i);
      assert entries[..n][..i] == entries[..i];
    } else {
      assert entries[..i] == entries[..n];
    }
  }

  /** Trimming a filled block takes off at most the final newline. */
  lemma BlockTrim(entries: seq<Entry>, budget: int, k: nat, text: string)
    requires IsBlock(entries, budget, k, text) && forall i :: 0 <= i < |entries| ==> IsLine(entries[i].line)
    ensures TrimSpace(text) == text || (k > 0 && text == Concat(entries[..k]) && TrimSpace(text) == text[..|text| - 1])
  {
    hide TrimSpace, Concat;
    if k > 0 {
      LineOffset(entries[..k], 0);
      EmptyConcat();
      assert entries[..k][..0] == [];
    }
    var whole := Concat(entries[..k]);
    assert k == |entries| ==> entries[..k] == entries;
    if k == 0 {
      EmptyConcat();
      assert entries[..0] == [];
      TrimSpaceTrims(text);
    } else if text == whole {
      LastLine(entries[..k]);
      TrimOneNewline(text);
    } else {
      TrimSpaceTrims(text);
    }
  }

  lemma LastLine(entries: seq<Entry>)
    requires entries != [] && IsLine(entries[|entries| - 1].line)
    ensures var text := Concat(entries); |text| >= 2 && text[|text| - 1] == '\n' && !IsSpace(text[|text| - 2])
  {
    var init, line := entries[..|entries| - 1], entries[|entries| - 1].line;
    assert Concat(entries) == Concat(init) + line;
    hide Concat, IsSpace;
    var text := Concat(init) + line;
    assert text[|text| - 1] == line[|line| - 1] && text[|text| - 2] == line[|line| - 2];
  }

  lemma TrimOneNewline(text: string)
    requires |text| >= 2 && !IsSpace(text[0]) && text[|text| - 1] == '\n' && !IsSpace(text[|text| - 2])
    ensures TrimSpace(text) == text[..|text| - 1]
  {
    TrimOneNewlineOf(text[..|text| - 1]);
    assert text == text[..|text| - 1] + "\n";
  }

  lemma TextFits(entries: seq<Entry>, budget: int, k: nat, text: string)
    requires IsBlock(entries, budget, k, text) && budget >= 0
    ensures |text| <= budget
  {
    hide Concat;
    assert k == |entries| ==> entries[..k] == entries;
    assert k == 0 ==> entries[..k] == [];
    EmptyConcat();
  }

  /** The identities returned are those of an initial run of the eligible lines; each of these lines
      stands whole in the text, at its place and in order, and the line after them does not fit. The
      text never exceeds a budget that is not negative. */
  lemma BlockHoldsItsLines(entries: seq<Entry>, budget: int, k: nat, text: string)
    requires IsBlock(entries, budget, k, text) && forall i :: 0 <= i < |entries| ==> IsLine(entries[i].line)
    ensures forall i :: 0 <= i < k ==> Stands(entries, i, TrimSpace(text))
    ensures budget >= 0 ==> |TrimSpace(text)| <= budget
    ensures k < |entries| ==> |Concat(entries[..k])| + |entries[k].line| > budget
  {
    hide TrimSpace, Concat, IsSpace, TrimLeft, TrimRight;
    BlockTrim(entries, budget, k, text);
    assert k == |entries| ==> entries[..k] == entries;
    if budget >= 0 {
      TextFits(entries, budget, k, text);
    }
    TrimSpaceTrims(text);
    forall i | 0 <= i < k
      ensures Stands(entries, i, TrimSpace(text))
    {
      LineOffset(entries[..k], i);
      assert entries[..k][..i] == entries[..i];
      var upTo := Concat(entries[..i]) + entries[i].line;
      assert upTo <= Concat(entries[..k]) <= text;
      assert upTo[..|upTo| - 1] == Concat(entries[..i]) + entries[i].line[..|entries[i].line| - 1];
    }
  }

  /** Line `i`, but for its newline, is in the text right behind the lines before it. */
  ghost predicate Stands(entries: seq<Entry>, i: nat, text: string)
    requires i < |entries|
  {
    entries[i].line != "" && Concat(entries[..i]) + entries[i].line[..|entries[i].line| - 1] <= text
  }

  /** The first line that is not kept looks whole nevertheless: it is one character too long for what is
      left, and the ellipsis that replaces its last character is that very character. */
  ghost predicate LooksWhole(entries: seq<Entry>, budget: int, k: nat) {
    && k < |entries|
    && var remaining := budget - |Concat(entries[..k])|;
    && remaining >= 32 && |entries[k].line| == remaining + 1 && entries[k].line[remaining - 1] == ELLIPSIS[0]
  }

  /** Of all lines, the first `k` stand in the text, and the one after them exactly when it looks whole. */
  ghost predicate Exactly(entries: seq<Entry>, budget: int, k: nat, text: string) {
    forall i :: 0 <= i < |entries| ==>
        (Stands(entries, i, text) <==> i < k || (i == k && LooksWhole(entries, budget, k)))
  }

  ghost predicate ShowsItsLines(entries: seq<Entry>, budget: int, text: string) {
    exists k: nat :: Exactly(entries, budget, k, text)
  }

  /** Exactly the lines whose identities are returned stand in the text, and the first one after them when
      it looks whole. */
  lemma LinesThatStand(entries: seq<Entry>, budget: int, k: nat, text: string)
    requires IsBlock(entries, budget, k, text) && forall i :: 0 <= i < |entries| ==> IsLine(entries[i].line)
    ensures Exactly(entries, budget, k, TrimSpace(text))
  {
    hide TrimSpace, Concat, Leftover, IsSpace, Stands, LooksWhole, IsLine;
    BlockHoldsItsLines(entries, budget, k, text);
    forall i | k <= i < |entries|
      ensures Stands(entries, i, TrimSpace(text)) <==> i == k && LooksWhole(entries, budget, k)
    {
      if i == k {
        CutLineStandsIff(entries, budget, k, text);
      } else {
        LaterLineIsOut(entries, budget, k, text, i);
      }
    }
  }

  lemma CutLineStandsIff(entries: seq<Entry>, budget: int, k: nat, text: string)
    requires IsBlock(entries, budget, k, text) && forall i :: 0 <= i < |entries| ==> IsLine(entries[i].line)
    requires k < |entries|
    ensures Stands(entries, k, TrimSpace(text)) <==> LooksWhole(entries, budget, k)
  {
    hide TrimSpace, Concat, IsLine;
    BlockTrim(entries, budget, k, text);
    var before, line := Concat(entries[..k]), entries[k].line;
    var remaining := budget - |before|;
    if remaining >= 32 {
      assert text == before + (line[..remaining - 1] + ELLIPSIS);
      assert |text| > |before| && TrimSpace(text) == text;
      CutStandsIff(before, line, remaining, text);
    } else {
      TrimSpaceTrims(text);
      LineIsLong(line);
      assert text == before && |before + line[..|line| - 1]| > |before|;
    }
  }

  lemma LineIsLong(line: string)
    requires IsLine(line)
    ensures |line| >= 2
  {
  }

  /** A cut text begins with the line, but for its newline, under exactly one condition. */
  lemma CutStandsIff(before: string, line: string, remaining: nat, text: string)
    requires |line| > remaining > 0 && text == before + (line[..remaining - 1] + ELLIPSIS)
    ensures before + line[..|line| - 1] <= text <==> |line| == remaining + 1 && line[remaining - 1] == ELLIPSIS[0]
  {
    var shown, cut := line[..|line| - 1], line[..remaining - 1] + ELLIPSIS;
    assert (before + shown)[|before|..] == shown && text[|before|..] == cut;
    if before + shown <= text {
      assert shown <= cut;
      assert shown[remaining - 1] == cut[remaining - 1];
    }
    if |line| == remaining + 1 && line[remaining - 1] == ELLIPSIS[0] {
      assert shown == cut;
    }
  }

  /** What comes after the cut line does not fit at all. */
  lemma LaterLineIsOut(entries: seq<Entry>, budget: int, k: nat, text: string, i: nat)
    requires IsBlock(entries, budget, k, text) && k < i < |entries| && IsLine(entries[i].line)
    ensures !Stands(entries, i, TrimSpace(text))
  {
    hide TrimSpace, Concat;
    TrimSpaceTrims(text);
    LineOffset(entries[..i], k);
    assert entries[..i][..k] == entries[..k];
    assert |Concat(entries[..i])| >= |Concat(entries[..k])| + |entries[k].line|;
  }

  /** A memory whose line is not kept and yet stands whole in the text. */
  lemma UnnamedLineStands()
    ensures var entries := CoreEntries([ELLIPTIC_ITEM]);
            && entries == [Entry(ELLIPTIC_LINE, "m")] && IsLine(ELLIPTIC_LINE)
            && IsBlock(entries, 33, 0, ELLIPTIC_LINE[..33])
            && LooksWhole(entries, 33, 0) && Stands(entries, 0, TrimSpace(ELLIPTIC_LINE[..33]))
  {
    EllipticEntry();
    var entries := [Entry(ELLIPTIC_LINE, "m")];
    hide CoreEntries, TrimSpace;
    EmptyConcat();
    assert entries[..0] == [];
    assert ELLIPTIC_LINE[..32] + ELLIPSIS == ELLIPTIC_LINE[..33];
    CutLineStandsIff(entries, 33, 0, ELLIPTIC_LINE[..33]);
  }

  const ELLIPTIC_ITEM: MemoryItem := MemoryItem("m", "fact", "", "abcdefghijklmnopq\U{2026}", "")
  const ELLIPTIC_LINE: string :=
    "- [" + "fact" + "; id=" + "m" + "" + "" + "] " + "abcdefghijklmnopq\U{2026}" + "\n"

  lemma EllipticText()
    ensures CoreLine(ELLIPTIC_ITEM) == ELLIPTIC_LINE && CoreEligible(ELLIPTIC_ITEM)
  {
    hide TrimSpace, Clean, UnixLines, DropNul;
    CleanKeeps("fact");
    CleanKeeps("");
    CleanKeeps("abcdefghijklmnopq\U{2026}");
  }

  lemma EllipticEntry()
    ensures CoreEntries([ELLIPTIC_ITEM]) == [Entry(ELLIPTIC_LINE, "m")]
  {
    EllipticText();
    hide CoreLine, CoreEntries, CoreEligible, Concat;
    EmptyConcat();
    CoreEntriesSnoc([ELLIPTIC_ITEM], 0);
    assert [ELLIPTIC_ITEM][..0] == [] && [ELLIPTIC_ITEM][..1] == [ELLIPTIC_ITEM];
  }

  // ----- the combined block

  function CombineRetrieved(recalled: string, retrieved: string): string {
    TrimSpace(TrimSpace(recalled) + "\n" + TrimSpace(retrieved))
  }

  /** Joining costs one newline exactly when both halves say something. */
  lemma CombinedLength(recalled: string, retrieved: string)
    requires Trimmed(recalled) && Trimmed(retrieved)
    ensures |CombineRetrieved(recalled, retrieved)|
            == |recalled| + |retrieved| + (if recalled != "" && retrieved != "" then 1 else 0)
  {
    hide TrimSpace;
    TrimSpaceTrims(recalled);
    TrimSpaceTrims(retrieved);
    var joined := recalled + "\n" + retrieved;
    if recalled != "" && retrieved != "" {
      assert joined[0] == recalled[0] && joined[|joined| - 1] == retrieved[|retrieved| - 1];
      TrimSpaceTrims(joined);
    } else if recalled != "" {
      assert joined == recalled + "\n";
      TrimOneNewlineOf(recalled);
    } else {
      assert joined == "\n" + retrieved;
      TrimLeadingNewline(retrieved);
    }
  }

  lemma TrimOneNewlineOf(text: string)
    requires text != "" && Trimmed(text)
    ensures TrimSpace(text + "\n") == text
  {
    var s := text + "\n";
    assert TrimLeft(s) == s;
    assert s[..|s| - 1] == text && s[|s| - 1] == '\n';
    assert TrimRight(s) == TrimRight(text) == text;
  }

  lemma TrimLeadingNewline(text: string)
    requires Trimmed(text)
    ensures TrimSpace("\n" + text) == text
  {
    var s := "\n" + text;
    assert s[1..] == text && s[0] == '\n';
    assert TrimLeft(s) == TrimLeft(text) == text;
    assert TrimRight(text) == text;
  }

  /** The split of the retrieval budget: half for recalled memories, and what they leave for archive
      hits. The joined block exceeds the budget only by the joining newline, and exactly when both
      halves are present and use it up. */
  method RetrievedBlock(recalled: seq<MemoryItem>, hits: seq<ArchiveHit>, current: string, retrievedCharacters: int)
    returns (combined: string, recalledText: string, retrievedText: string)
    requires retrievedCharacters > 0
    ensures combined == CombineRetrieved(recalledText, retrievedText)
    ensures ShowsItsLines(CoreEntries(recalled), retrievedCharacters / 2, recalledText)
    ensures ShowsItsLines(HitEntries(hits, current), retrievedCharacters - |recalledText|, retrievedText)
    ensures |combined| <= retrievedCharacters + 1
    ensures |combined| > retrievedCharacters <==>
            recalledText != "" && retrievedText != "" && |recalledText| + |retrievedText| == retrievedCharacters
    ensures |recalledText| <= retrievedCharacters / 2 && |recalledText| + |retrievedText| <= retrievedCharacters
  {
    hide IsBlock, CoreEntries, HitEntries, Stands, Exactly;
    var recalledIds, messageIds;
    ghost var builder, builder';
    recalledText, recalledIds, builder := FormatCore(recalled, retrievedCharacters / 2);
    CoreEntriesAreLines(recalled);
    BlockHoldsItsLines(CoreEntries(recalled), retrievedCharacters / 2, |recalledIds|, builder);
    TrimSpaceTrims(builder);
    var hitBudget := retrievedCharacters - |recalledText|;
    retrievedText, messageIds, builder' := FormatHits(hits, current, hitBudget);
    HitEntriesAreLines(hits, current);
    BlockHoldsItsLines(HitEntries(hits, current), hitBudget, |messageIds|, builder');
    TrimSpaceTrims(builder');
    combined := CombineRetrieved(recalledText, retrievedText);
    CombinedLength(recalledText, retrievedText);
  }
}
