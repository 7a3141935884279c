/** The bounded parts of a prompt: the recent transcript and the retrieved-memory blocks
    (internal/context/assembler.go). Characters are Unicode code points. */
module ContextWindow {
  import opened Text

  // ----- text

  function DropNul(s: string): string {
    if s == "" then "" else (if s[0] == '\0' then "" else [s[0]]) + DropNul(s[1..])
  }

  function UnixLines(s: string): string {
    if s == "" then ""
    else if |s| >= 2 && s[0] == '\r' && s[1] == '\n' then "\n" + UnixLines(s[2..])
    else [s[0]] + UnixLines(s[1..])
  }

  function Clean(s: string): string {
    TrimSpace(UnixLines(DropNul(s)))
  }

  /** Text without control characters and surrounding space is left alone. */
  lemma {:induction false} CleanKeeps(s: string)
    requires Trimmed(s) && forall i :: 0 <= i < |s| ==> s[i] != '\0' && s[i] != '\r'
    ensures Clean(s) == s
  {
    PlainKeeps(s);
    TrimSpaceTrims(s);
  }

  lemma {:induction false} PlainKeeps(s: string)
    requires forall i :: 0 <= i < |s| ==> s[i] != '\0' && s[i] != '\r'
    ensures DropNul(s) == s && UnixLines(s) == s
  {
    if s != "" {
      PlainKeeps(s[1..]);
    }
  }

  const ELLIPSIS: string := "\U{2026}"

  function Truncate(s: string, maximum: int): string {
    if maximum <= 0 || |s| <= maximum then s
    else if maximum <= 1 then s[..maximum]
    else s[..maximum - 1] + ELLIPSIS
  }

  // ----- the recent transcript

  datatype Role = System | Developer | User | Assistant | Tool

  datatype Message = Message(role: Role, content: string, parts: seq<string>, name: string, toolCallID: string)

  predicate Eligible(m: Message) {
    m.role == User || m.role == Assistant || m.role == Tool
  }

  function EligibleOnly(s: seq<Message>): seq<Message> {
    if s == [] then [] else (if Eligible(s[0]) then [s[0]] else []) + EligibleOnly(s[1..])
  }

  /** Characters, plus a fixed charge for each image. */
  function Size(m: Message): nat {
    |m.content| + |m.parts| * 1024
  }

  function Charge(s: seq<Message>): nat {
    if s == [] then 0 else Size(s[0]) + Charge(s[1..])
  }

  /** What the window is: nothing left out but older messages, and the next older one would not fit;
      when even the newest does not fit, that one alone with its text cut. */
  ghost predicate IsWindow(eligible: seq<Message>, budget: int, window: seq<Message>) {
    if eligible != [] && Size(eligible[|eligible| - 1]) > budget then
      var newest := eligible[|eligible| - 1];
      window == [newest.(content := Truncate(Clean(newest.content), budget))]
    else
      && |window| <= |eligible|
      && window == eligible[|eligible| - |window|..]
      && (eligible != [] ==> Charge(window) <= budget)
      && (|window| < |eligible| ==> Charge(eligible[|eligible| - |window| - 1..]) > budget)
  }

  /** The window is determined by its description. */
  lemma WindowIsUnique(eligible: seq<Message>, budget: int, a: seq<Message>, b: seq<Message>)
    requires IsWindow(eligible, budget, a) && IsWindow(eligible, budget, b)
    ensures a == b
  {
    hide Size, Charge, Clean, Truncate;
    if !(eligible != [] && Size(eligible[|eligible| - 1]) > budget) {
      if |a| < |b| {
        ChargeGrows(eligible, |eligible| - |b|, |eligible| - |a| - 1);
      } else if |b| < |a| {
        ChargeGrows(eligible, |eligible| - |a|, |eligible| - |b| - 1);
      }
    }
  }

  lemma {:induction false} ChargeGrows(s: seq<Message>, i: nat, j: nat)
    requires i <= j <= |s|
    ensures Charge(s[i..]) >= Charge(s[j..])
    decreases j - i
  {
    if i < j {
      ChargeGrows(s, i + 1, j);
      assert s[i..][1..] == s[i + 1..];
    }
  }

  /** The text of a cut message fits the budget. */
  lemma CutMessageFits(s: string, budget: int)
    requires budget > 0
    ensures |Truncate(s, budget)| <= budget
    ensures |s| > budget ==> |Truncate(s, budget)| == budget
  {
  }

  lemma EligibleSuffix(s: seq<Message>, i: nat)
    requires i < |s|
    ensures EligibleOnly(s[i..]) == (if Eligible(s[i]) then [s[i]] else []) + EligibleOnly(s[i + 1..])
  {
    assert s[i..][1..] == s[i + 1..];
  }

  lemma {:induction false} EligibleTail(s: seq<Message>, i: nat)
    requires i <= |s|
    ensures |EligibleOnly(s[i..])| <= |EligibleOnly(s)|
    ensures EligibleOnly(s[i..]) == EligibleOnly(s)[|EligibleOnly(s)| - |EligibleOnly(s[i..])|..]
    decreases i
  {
    if i > 0 {
      EligibleTail(s, i - 1);
      EligibleSuffix(s, i - 1);
    } else {
      assert s[0..] == s;
    }
  }

  function Reversed(s: seq<Message>): (r: seq<Message>)
    ensures |r| == |s| && forall k :: 0 <= k < |s| ==> r[k] == s[|s| - 1 - k]
  {
    if s == [] then [] else Reversed(s[1..]) + [s[0]]
  }

  lemma EmptyCharge()
    ensures Charge([]) == 0 && EligibleOnly([]) == []
  {
  }

  lemma ReversedSnoc(s: seq<Message>, m: Message)
    ensures Reversed(s + [m]) == [m] + Reversed(s)
    ensures Charge(Reversed(s + [m])) == Size(m) + Charge(Reversed(s))
  {
    assert Reversed(s + [m]) == [m] + Reversed(s);
  }

  lemma NewestIs(messages: seq<Message>, index: nat)
    requires index < |messages| && Eligible(messages[index]) && EligibleOnly(messages[index + 1..]) == []
    ensures var all := EligibleOnly(messages); all != [] && all[|all| - 1] == messages[index]
  {
    EligibleSuffix(messages, index);
    EligibleTail(messages, index);
  }

  lemma Older(messages: seq<Message>, index: nat)
    requires index < |messages| && Eligible(messages[index])
    ensures var all := EligibleOnly(messages);
            var window := EligibleOnly(messages[index + 1..]);
            |window| < |all| && [messages[index]] + window == all[|all| - |window| - 1..]
  {
    EligibleSuffix(messages, index);
    EligibleTail(messages, index);
  }

  /** Walk back from the newest message, then turn the collected messages around. */
  method BoundedTranscript(messages: seq<Message>, budget: int) returns (result: seq<Message>)
    ensures IsWindow(EligibleOnly(messages), budget, result)
  {
    hide EligibleOnly, Charge, Size, Clean, Truncate, Reversed;
    EmptyCharge();
    result := [];
    var used := 0;
    var index := |messages|;
    ghost var all := EligibleOnly(messages);
    assert messages[|messages|..] == [];
    while index > 0
      invariant 0 <= index <= |messages|
      invariant Reversed(result) == EligibleOnly(messages[index..])
      invariant used == Charge(Reversed(result))
      invariant result != [] ==> used <= budget
      decreases index
    {
      index := index - 1;
      var message := messages[index];
      EligibleSuffix(messages, index);
      if !Eligible(message) {
        continue;
      }
      var size := Size(message);
      if used + size > budget {
        if result == [] {
          NewestIs(messages, index);
          message := message.(content := Truncate(Clean(message.content), budget));
          return [message];
        }
        Older(messages, index);
        BreakIsMaximal(all, Reversed(result), message, budget);
        result := Reverse(result);
        return result;
      }
      used := used + size;
      ReversedSnoc(result, message);
      result := result + [message];
    }
    assert messages[0..] == messages;
    if all != [] {
      LastWithinCharge(all);
    }
    assert all[|all| - |all|..] == all;
    result := Reverse(result);
  }

  lemma BreakIsMaximal(all: seq<Message>, window: seq<Message>, next: Message, budget: int)
    requires window != [] && Charge(window) <= budget && Charge(window) + Size(next) > budget
    requires |window| < |all| && [next] + window == all[|all| - |window| - 1..]
    ensures IsWindow(all, budget, window)
  {
    assert all[|all| - |window| - 1..][1..] == all[|all| - |window|..];
    assert window == all[|all| - |window|..];
    LastWithinCharge(window);
  }

  lemma {:induction false} LastWithinCharge(s: seq<Message>)
    requires s != []
    ensures Size(s[|s| - 1]) <= Charge(s)
  {
    if |s| > 1 {
      LastWithinCharge(s[1..]);
    }
  }

  method Reverse(s: seq<Message>) returns (result: seq<Message>)
    ensures result == Reversed(s)
  {
    result := s;
    var left, right := 0, |s| - 1;
    while left < right
      invariant 0 <= left && right == |s| - 1 - left && left <= right + 2 && |result| == |s|
      invariant forall k :: 0 <= k < left || right < k < |s| ==> result[k] == s[|s| - 1 - k]
      invariant forall k :: left <= k <= right ==> result[k] == s[k]
    {
      var l, r := result[left], result[right];
      result := result[left := r][right := l];
      left, right := left + 1, right - 1;
    }
  }
}
