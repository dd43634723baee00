/** The conversation history handed to the model (app/agent/conversation.py). */
module BoundedHistory {
  import opened Prelude
  import ContextBudget

  datatype Role = User | Assistant | Other(name: string)
  datatype Message = Message(role: Role, content: string)

  /** What is left after stripping white space is not empty. */
  predicate Nonblank(isSpace: char -> bool, content: string) {
    exists i :: 0 <= i < |content| && !isSpace(content[i])
  }

  predicate Eligible(isSpace: char -> bool, message: Message) {
    !message.role.Other? && Nonblank(isSpace, message.content)
  }

  function EligibleOf(isSpace: char -> bool, messages: seq<Message>): seq<Message> {
    if messages == [] then []
    else
      EligibleOf(isSpace, messages[..|messages| - 1])
      + if Eligible(isSpace, messages[|messages| - 1]) then [messages[|messages| - 1]] else []
  }

  function Candidates(isSpace: char -> bool, messages: seq<Message>, turns: int): seq<Message> {
    ContextBudget.TailSlice(EligibleOf(isSpace, messages), turns * 2)
  }

  function Text(messages: seq<Message>): string {
    if messages == [] then [] else Text(messages[..|messages| - 1]) + messages[|messages| - 1].content
  }

  /** Walks from the newest message back, spending the budget. */
  function Clip(messages: seq<Message>, budget: nat): seq<Message> {
    if messages == [] || budget == 0 then []
    else
      var last := messages[|messages| - 1];
      var content := Newest(last.content, budget);
      Clip(messages[..|messages| - 1], budget - |content|) + [Message(last.role, content)]
  }

  function Reverse<T>(s: seq<T>): seq<T> {
    if s == [] then [] else [s[|s| - 1]] + Reverse(s[..|s| - 1])
  }

  function Budget(maxChars: int): nat {
    if maxChars < 0 then 0 else maxChars
  }

  lemma ClipStep(candidates: seq<Message>, k: nat, budget: nat)
    requires k < |candidates|
    ensures budget == 0 ==> Clip(candidates[..k + 1], budget) == []
    ensures budget > 0 ==>
      var content := Newest(candidates[k].content, budget);
      Clip(candidates[..k + 1], budget)
      == Clip(candidates[..k], budget - |content|) + [Message(candidates[k].role, content)]
  {
    hide Newest;
    assert candidates[..k + 1][..k] == candidates[..k];
  }

  lemma ClipUnfold(before: seq<Message>, last: Message, budget: nat)
    requires budget > 0
    ensures var content := Newest(last.content, budget);
      Clip(before + [last], budget) == Clip(before, budget - |content|) + [Message(last.role, content)]
  {
    hide Newest;
    assert (before + [last])[..|before|] == before;
  }

  lemma ClipEnds(budget: nat)
    ensures Clip([], budget) == [] && Reverse<Message>([]) == []
  {
  }

  lemma ReverseStep<T>(s: seq<T>, x: T)
    ensures Reverse(s + [x]) == [x] + Reverse(s)
  {
    assert (s + [x])[..|s|] == s;
  }

  lemma Regroup<T>(a: seq<T>, x: T, b: seq<T>)
    ensures a + [x] + b == a + ([x] + b)
  {
  }

  method Bounded(isSpace: char -> bool, messages: seq<Message>, turns: int, maxChars: int)
      returns (selected: seq<Message>)
    ensures selected == Clip(Candidates(isSpace, messages, turns), Budget(maxChars))
  {
    hide Candidates, Newest, EligibleOf, Clip, Reverse;
    var candidates := Candidates(isSpace, messages, turns);
    ghost var budget := Budget(maxChars);
    var backwards: seq<Message>, used := [], 0;
    assert candidates[..|candidates|] == candidates && candidates[..0] == [];
    ClipEnds(budget);
    for k := |candidates| downto 0
      invariant 0 <= used <= budget
      invariant Clip(candidates, budget) == Clip(candidates[..k], budget - used) + Reverse(backwards)
    {
      var message := candidates[k];
      var remaining := maxChars - used;
      ClipStep(candidates, k, budget - used);
      if remaining <= 0 {
        return Reverse(backwards);
      }
      var content := Newest(message.content, remaining);
      var part := Message(message.role, content);
      ReverseStep(backwards, part);
      Regroup(Clip(candidates[..k], budget - used - |content|), part, Reverse(backwards));
      backwards := backwards + [part];
      used := used + |content|;
    }
    ClipEnds(budget - used);
    selected := Reverse(backwards);
  }

  /** The selected contents, joined in order, are exactly the last characters of the candidates' text. */
  lemma {:induction false} ClipIsTail(messages: seq<Message>, budget: nat)
    ensures Text(Clip(messages, budget)) == Newest(Text(messages), budget)
  {
    if messages != [] && budget > 0 {
      hide Newest, Clip, Text;
      var before, last := messages[..|messages| - 1], messages[|messages| - 1];
      var content := Newest(last.content, budget);
      assert messages == before + [last];
      ClipUnfold(before, last, budget);
      ClipIsTail(before, budget - |content|);
      TextAppend(Clip(before, budget - |content|), Message(last.role, content));
      TextAppend(before, last);
      NewestOfConcat(Text(before), last.content, budget);
    }
  }

  lemma TextAppend(messages: seq<Message>, message: Message)
    ensures Text(messages + [message]) == Text(messages) + message.content
  {
    assert (messages + [message])[..|messages|] == messages;
  }

  lemma NewestOfConcat(a: string, b: string, n: nat)
    ensures Newest(a + b, n) == Newest(a, n - |Newest(b, n)|) + Newest(b, n)
  {
    if n < |b| {
      assert (a + b)[|a + b| - n..] == b[|b| - n..];
      assert Newest(a, 0) == "";
    }
  }

  /**
   * `r` is the newest part of `messages`, roles and order kept; only its oldest message may be cut, and then from
   * the front and not to nothing.
   */
  ghost predicate NewestPart(r: seq<Message>, messages: seq<Message>) {
    && |r| <= |messages|
    && (forall i :: 0 < i < |r| ==> r[i] == messages[|messages| - |r| + i])
    && (r != [] ==>
          var oldest := messages[|messages| - |r|];
          r[0].role == oldest.role && CutInFront(r[0].content, oldest.content))
  }

  ghost predicate CutInFront(part: string, whole: string) {
    exists cut :: 0 <= cut < |whole| && part == whole[cut..]
  }

  lemma {:induction false} ClipShape(messages: seq<Message>, budget: nat)
    requires forall i :: 0 <= i < |messages| ==> messages[i].content != ""
    ensures NewestPart(Clip(messages, budget), messages)
    ensures Clip(messages, budget) == [] <==> messages == [] || budget == 0
  {
    hide Newest, NewestPart, Clip;
    if messages == [] || budget == 0 {
      NothingSelected(messages, budget);
    } else {
      var before, last := messages[..|messages| - 1], messages[|messages| - 1];
      var content := Newest(last.content, budget);
      assert messages == before + [last];
      ClipUnfold(before, last, budget);
      ClipShape(before, budget - |content|);
      if before == [] || budget == |content| {
        SinglePart(before, last, budget);
        assert [] + [Message(last.role, content)] == [Message(last.role, content)];
      } else {
        WholePart(last.content, budget);
        ExtendPart(Clip(before, budget - |content|), before, last);
      }
    }
  }

  lemma NothingSelected(messages: seq<Message>, budget: nat)
    requires messages == [] || budget == 0
    ensures Clip(messages, budget) == [] && NewestPart([], messages)
  {
  }

  lemma WholePart(content: string, budget: nat)
    requires |Newest(content, budget)| < budget
    ensures Newest(content, budget) == content
  {
  }

  lemma SinglePart(before: seq<Message>, last: Message, budget: nat)
    requires last.content != "" && budget > 0
    ensures NewestPart([Message(last.role, Newest(last.content, budget))], before + [last])
  {
    var content := Newest(last.content, budget);
    assert content == last.content[|last.content| - |content|..];
  }

  lemma ExtendPart(rest: seq<Message>, before: seq<Message>, last: Message)
    requires rest != [] && NewestPart(rest, before)
    ensures NewestPart(rest + [last], before + [last])
  {
    var r, messages, from := rest + [last], before + [last], |before| - |rest|;
    assert forall i :: 0 <= i < |rest| ==> r[i] == rest[i] && messages[from + i] == before[from + i];
    assert r[|rest|] == messages[from + |rest|];
  }

  lemma {:induction false} EligibleNonempty(isSpace: char -> bool, messages: seq<Message>)
    ensures forall m :: m in EligibleOf(isSpace, messages) <==> m in messages && Eligible(isSpace, m)
  {
    if messages != [] {
      EligibleNonempty(isSpace, messages[..|messages| - 1]);
      assert messages == messages[..|messages| - 1] + [messages[|messages| - 1]];
    }
  }

  // ----- where the selected messages are

  /** What the user or the assistant said, unless it is blank. */
  ghost predicate Said(isSpace: char -> bool, message: Message) {
    (message.role == User || message.role == Assistant)
    && exists i :: 0 <= i < |message.content| && !isSpace(message.content[i])
  }

  ghost predicate Increasing(positions: seq<nat>) {
    forall i, j :: 0 <= i < j < |positions| ==> positions[i] < positions[j]
  }

  /** No eligible message from `first` on is missing. */
  ghost predicate AllSince(isSpace: char -> bool, messages: seq<Message>, positions: seq<nat>, first: nat) {
    forall k :: first <= k < |messages| && Said(isSpace, messages[k]) ==> k in positions
  }

  /** `eligible` are the messages at `positions`, which are exactly the eligible ones, in order. */
  ghost predicate Places(isSpace: char -> bool, messages: seq<Message>, eligible: seq<Message>, positions: seq<nat>) {
    && |positions| == |eligible| && Increasing(positions)
    && (forall i :: 0 <= i < |positions| ==> positions[i] < |messages| && eligible[i] == messages[positions[i]])
    && (forall i :: 0 <= i < |positions| ==> Said(isSpace, messages[positions[i]]))
    && AllSince(isSpace, messages, positions, 0)
  }

  lemma PlaceLast(isSpace: char -> bool, before: seq<Message>, last: Message, eligible: seq<Message>, places: seq<nat>)
    requires Places(isSpace, before, eligible, places)
    ensures Said(isSpace, last) ==> Places(isSpace, before + [last], eligible + [last], places + [|before|])
    ensures !Said(isSpace, last) ==> Places(isSpace, before + [last], eligible, places)
  {
    hide Said;
    var messages := before + [last];
    assert forall k :: 0 <= k < |before| ==> messages[k] == before[k];
    assert messages[|before|] == last;
    if Said(isSpace, last) {
      var longer := places + [|before|];
      assert |before| in longer;
      forall k | 0 <= k < |messages| && Said(isSpace, messages[k]) ensures k in longer {
        if k < |before| { assert k in places; }
      }
    }
  }

  /** The candidates before slicing are the messages at exactly the eligible positions, in order. */
  lemma {:induction false} EligiblePositions(isSpace: char -> bool, messages: seq<Message>)
    returns (positions: seq<nat>)
    ensures Places(isSpace, messages, EligibleOf(isSpace, messages), positions)
  {
    if messages == [] {
      positions := [];
    } else {
      var before, last := messages[..|messages| - 1], messages[|messages| - 1];
      assert messages == before + [last];
      SaidIsEligible(isSpace, last);
      hide Eligible, Said, Places;
      positions := EligiblePositions(isSpace, before);
      PlaceLast(isSpace, before, last, EligibleOf(isSpace, before), positions);
      if Eligible(isSpace, last) { positions := positions + [|before|]; }
    }
  }

  lemma SaidIsEligible(isSpace: char -> bool, message: Message)
    ensures Said(isSpace, message) <==> Eligible(isSpace, message)
  {
  }

  /** The selected messages, at their positions: in order, whole but for the front of the oldest, and none of the
      eligible messages since the oldest one is missing. */
  ghost predicate Selects(isSpace: char -> bool, messages: seq<Message>, selected: seq<Message>, positions: seq<nat>) {
    && |positions| == |selected| && Increasing(positions)
    && (forall i :: 0 <= i < |positions| ==>
          && positions[i] < |messages| && Said(isSpace, messages[positions[i]])
          && selected[i].role == messages[positions[i]].role
          && (i > 0 ==> selected[i] == messages[positions[i]]))
    && (positions != [] ==>
          && CutInFront(selected[0].content, messages[positions[0]].content)
          && AllSince(isSpace, messages, positions, positions[0]))
  }

  /** At most two messages a turn are selected and at most the budget of characters; nothing eligible is left out or
      cut unless one of the two is used up. */
  ghost predicate UsesUp(isSpace: char -> bool, messages: seq<Message>, selected: seq<Message>, positions: seq<nat>,
                         turns: int, budget: nat)
    requires Selects(isSpace, messages, selected, positions)
  {
    && |selected| <= 2 * turns && |Text(selected)| <= budget
    && (|Text(selected)| < budget ==>
          && (positions != [] ==> selected[0] == messages[positions[0]])
          && (|selected| < 2 * turns ==> AllSince(isSpace, messages, positions, 0)))
  }

  /** For at least one turn: the selection is the exact tail of the last 2 * turns eligible messages. */
  lemma TailOfEligible(isSpace: char -> bool, messages: seq<Message>, turns: int, maxChars: int)
    requires turns >= 1
    ensures var candidates := Newest(EligibleOf(isSpace, messages), turns * 2);
      var selected := Clip(Candidates(isSpace, messages, turns), Budget(maxChars));
      && Text(selected) == Newest(Text(candidates), Budget(maxChars)) && NewestPart(selected, candidates)
      && (selected == [] <==> candidates == [] || Budget(maxChars) == 0)
      && (|Text(selected)| < Budget(maxChars) ==> selected == candidates)
  {
    var eligible := EligibleOf(isSpace, messages);
    var candidates := Newest(eligible, turns * 2);
    ContextBudget.TailSliceIsNewest(eligible, turns * 2);
    EligibleNonempty(isSpace, messages);
    forall i | 0 <= i < |candidates| ensures candidates[i].content != "" {
      assert candidates[i] in eligible;
    }
    hide Clip, Text, EligibleOf, Newest, Eligible, NewestPart;
    ClipIsTail(candidates, Budget(maxChars));
    ClipShape(candidates, Budget(maxChars));
    if |Text(Clip(candidates, Budget(maxChars)))| < Budget(maxChars) { ClipOfShort(candidates, Budget(maxChars)); }
  }

  /** A budget that is not used up cuts nothing. */
  lemma {:induction false} ClipOfShort(messages: seq<Message>, budget: nat)
    requires |Text(Clip(messages, budget))| < budget
    ensures Clip(messages, budget) == messages
  {
    hide Clip, Text, Newest;
    if messages != [] {
      var before, last := messages[..|messages| - 1], messages[|messages| - 1];
      var content := Newest(last.content, budget);
      assert messages == before + [last];
      ClipUnfold(before, last, budget);
      TextAppend(Clip(before, budget - |content|), Message(last.role, content));
      WholePart(last.content, budget);
      ClipOfShort(before, budget - |content|);
    } else {
      ClipEnds(budget);
    }
  }

  /** The selection in terms of the messages themselves. */
  lemma HistoryIsExactTail(isSpace: char -> bool, messages: seq<Message>, turns: int, maxChars: int)
    returns (positions: seq<nat>)
    requires turns >= 1
    ensures var selected := Clip(Candidates(isSpace, messages, turns), Budget(maxChars));
      && Selects(isSpace, messages, selected, positions)
      && UsesUp(isSpace, messages, selected, positions, turns, Budget(maxChars))
  {
    hide Clip, Candidates, EligibleOf, Text, Said, Selects, NewestPart, Places, Newest;
    var eligible := EligibleOf(isSpace, messages);
    var all := EligiblePositions(isSpace, messages);
    var candidates := Newest(eligible, turns * 2);
    TailOfEligible(isSpace, messages, turns, maxChars);
    var selected := Clip(Candidates(isSpace, messages, turns), Budget(maxChars));
    PartIsShorter(selected, candidates);
    PlacesAreAsMany(isSpace, messages, eligible, all);
    positions := all[|all| - |selected|..];
    AtPositions(isSpace, messages, eligible, all, turns * 2, selected);
    NewestText(Text(candidates), Budget(maxChars));
    if selected == candidates { WholeSelection(isSpace, messages, eligible, all, turns * 2); }
  }

  lemma NewestText(text: string, n: nat)
    ensures |Newest(text, n)| <= n
  {
  }

  lemma PartIsShorter(r: seq<Message>, messages: seq<Message>)
    requires NewestPart(r, messages)
    ensures |r| <= |messages|
  {
  }

  lemma PlacesAreAsMany(isSpace: char -> bool, messages: seq<Message>, eligible: seq<Message>, all: seq<nat>)
    requires Places(isSpace, messages, eligible, all)
    ensures |all| == |eligible|
  {
  }

  lemma AtPositions(isSpace: char -> bool, messages: seq<Message>, eligible: seq<Message>, all: seq<nat>, n: nat,
                    selected: seq<Message>)
    requires Places(isSpace, messages, eligible, all) && NewestPart(selected, Newest(eligible, n))
    ensures |selected| <= |all| && Selects(isSpace, messages, selected, all[|all| - |selected|..])
  {
    hide Said, Newest, CutInFront, Places, NewestPart, AllSince, Increasing;
    PartOfTail(selected, eligible, n);
    PartIsShorter(selected, eligible);
    PlacesAreAsMany(isSpace, messages, eligible, all);
    var from := |all| - |selected|;
    var positions := all[from..];
    if positions != [] { NoneMissing(isSpace, messages, eligible, all, from); }
    forall i | 0 <= i < |positions|
      ensures positions[i] < |messages| && Said(isSpace, messages[positions[i]])
      ensures selected[i].role == messages[positions[i]].role
      ensures i > 0 ==> selected[i] == messages[positions[i]]
      ensures i == 0 ==> CutInFront(selected[0].content, messages[positions[0]].content)
    {
      assert positions[i] == all[from + i];
      SelectedAt(isSpace, messages, eligible, all, selected, i);
    }
    TailOfIncreasing(isSpace, messages, eligible, all, from);
  }

  lemma SelectedAt(isSpace: char -> bool, messages: seq<Message>, eligible: seq<Message>, all: seq<nat>,
                   selected: seq<Message>, i: nat)
    requires Places(isSpace, messages, eligible, all) && NewestPart(selected, eligible) && i < |selected|
    ensures var k := |all| - |selected| + i;
      && 0 <= k < |all| && all[k] < |messages| && Said(isSpace, messages[all[k]])
      && selected[i].role == messages[all[k]].role && (i > 0 ==> selected[i] == messages[all[k]])
      && (i == 0 ==> CutInFront(selected[0].content, messages[all[k]].content))
  {
    hide Said, CutInFront, AllSince;
  }

  lemma TailOfIncreasing(isSpace: char -> bool, messages: seq<Message>, eligible: seq<Message>, all: seq<nat>,
                         from: nat)
    requires Places(isSpace, messages, eligible, all) && from <= |all|
    ensures Increasing(all[from..])
  {
  }

  lemma NoneMissing(isSpace: char -> bool, messages: seq<Message>, eligible: seq<Message>, all: seq<nat>, from: nat)
    requires Places(isSpace, messages, eligible, all) && from < |all|
    ensures AllSince(isSpace, messages, all[from..], all[from])
  {
    hide Said;
    forall k | all[from] <= k < |messages| && Said(isSpace, messages[k]) ensures k in all[from..] {
      assert k in all;
      var i :| 0 <= i < |all| && all[i] == k;
      assert from <= i && all[from..][i - from] == k;
    }
  }

  /** A newest part of a newest part is one of the whole. */
  lemma PartOfTail(r: seq<Message>, messages: seq<Message>, n: nat)
    requires NewestPart(r, Newest(messages, n))
    ensures NewestPart(r, messages)
  {
    hide CutInFront;
  }

  lemma WholeSelection(isSpace: char -> bool, messages: seq<Message>, eligible: seq<Message>, all: seq<nat>, n: nat)
    requires Places(isSpace, messages, eligible, all)
    ensures var selected := Newest(eligible, n);
      var positions := all[|all| - |selected|..];
      && (positions != [] ==> selected[0] == messages[positions[0]])
      && |selected| <= n
      && (|selected| < n ==> AllSince(isSpace, messages, positions, 0))
  {
    hide Said, AllSince;
    var selected := Newest(eligible, n);
    if |selected| < n { assert all[|all| - |selected|..] == all; }
  }
}
