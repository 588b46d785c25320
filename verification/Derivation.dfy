// Fitting a conversation into one model call: which turns, which prior summary and how much of
// each text remain when the prompt must fit a token cap.
module Derivation {
  import opened MemoryStore

  datatype Turn = Turn(id: nat, event: Option<nat>, scope: Scope, content: string)

  /** Tokens of the prompt built from these turns, the summary flag and the prior summary. */
  type Counter = (seq<Turn>, bool, Option<Record>) -> nat

  datatype Limits = Limits(rolling: bool, context: nat, output: nat)

  datatype Bounded = Prompt(turns: seq<Turn>, prior: Option<Record>) | Overflow

  const MARKER := "\U{2026}[\U{622A}\U{65AD}]"

  predicate Fits(c: Counter, l: Limits, turns: seq<Turn>, prior: Option<Record>) {
    c(turns, l.rolling, prior) + l.output <= l.context
  }

  // ----- which turns enter -----------------------------------------------------

  function Ids(turns: seq<Turn>): (ids: set<nat>)
    ensures forall i :: 0 <= i < |turns| ==> turns[i].id in ids
    ensures forall id :: id in ids ==> exists i :: 0 <= i < |turns| && turns[i].id == id
  {
    set i | 0 <= i < |turns| :: turns[i].id
  }

  lemma IdsSnoc(turns: seq<Turn>, turn: Turn)
    ensures Ids(turns + [turn]) == Ids(turns) + {turn.id}
  {
    var all := turns + [turn];
    assert all[|turns|] == turn;
    forall id | id in Ids(turns) ensures id in Ids(all) {
      var i :| 0 <= i < |turns| && turns[i].id == id;
      assert all[i].id == id;
    }
  }

  function FirstOfEach(turns: seq<Turn>): seq<Turn> {
    if turns == [] then []
    else
      var before := FirstOfEach(turns[..|turns| - 1]);
      if turns[|turns| - 1].id in Ids(before) then before else before + [turns[|turns| - 1]]
  }

  function LastTwo(turns: seq<Turn>): (last: seq<Turn>)
    ensures |last| == if |turns| < 2 then |turns| else 2
  {
    if |turns| <= 2 then turns else turns[|turns| - 2..]
  }

  /** Turns the prior summary already covers are dropped, except in the final exchange. */
  function NotCovered(turns: seq<Turn>, covered: seq<nat>, final: set<nat>): seq<Turn> {
    if turns == [] then []
    else
      var before, last := NotCovered(turns[..|turns| - 1], covered, final), turns[|turns| - 1];
      if last.id !in covered || last.id in final then before + [last] else before
  }

  function Initial(turns: seq<Turn>, prior: Option<Record>): seq<Turn> {
    var unique := FirstOfEach(turns);
    if prior.None? then unique else NotCovered(unique, prior.value.sources, Ids(LastTwo(unique)))
  }

  // ----- shrinking -----------------------------------------------------------------

  /** With a summary the newest turn before the final exchange goes first, else the oldest. */
  function Pop(turns: seq<Turn>, rolling: bool): (rest: seq<Turn>)
    requires |turns| > 2
    ensures |rest| == |turns| - 1
  {
    var at := if rolling then |turns| - 3 else 0;
    turns[..at] + turns[at + 1..]
  }

  function TotalLength(turns: seq<Turn>): nat {
    if turns == [] then 0 else TotalLength(turns[..|turns| - 1]) + |turns[|turns| - 1].content|
  }

  /** The first turn of greatest length. */
  function Longest(turns: seq<Turn>): (k: nat)
    requires turns != []
    ensures k < |turns|
    ensures forall i :: 0 <= i < |turns| ==> |turns[i].content| <= |turns[k].content|
    ensures forall i :: 0 <= i < k ==> |turns[i].content| < |turns[k].content|
  {
    if |turns| == 1 then 0
    else
      var last, k := |turns| - 1, Longest(turns[..|turns| - 1]);
      if |turns[last].content| > |turns[k].content| then last else k
  }

  function Clip(turn: Turn): (clipped: Turn)
    requires |turn.content| > 32
    ensures 21 <= |clipped.content| < |turn.content|
  {
    var half := |turn.content| / 2;
    turn.(content := turn.content[..if half < 16 then 16 else half] + MARKER)
  }

  lemma {:induction false} TotalLengthUpdate(turns: seq<Turn>, k: nat, turn: Turn)
    requires k < |turns|
    ensures TotalLength(turns[k := turn]) == TotalLength(turns) - |turns[k].content| + |turn.content|
  {
    var n := |turns| - 1;
    if k == n {
      assert turns[k := turn][..n] == turns[..n];
    } else {
      assert turns[k := turn][..n] == turns[..n][k := turn];
      TotalLengthUpdate(turns[..n], k, turn);
    }
  }

  function ClipLongest(turns: seq<Turn>): (shorter: seq<Turn>)
    requires turns != [] && |turns[Longest(turns)].content| > 32
    ensures |shorter| == |turns| && TotalLength(shorter) < TotalLength(turns)
  {
    var k := Longest(turns);
    TotalLengthUpdate(turns, k, Clip(turns[k]));
    turns[k := Clip(turns[k])]
  }

  /** Terminates whatever the counter answers: turns, then the prior summary, then text get less. */
  function Shrink(c: Counter, l: Limits, turns: seq<Turn>, prior: Option<Record>): Bounded
    requires turns != []
    decreases |turns|, if prior.Some? then 1 else 0, TotalLength(turns)
  {
    if Fits(c, l, turns, prior) then Prompt(turns, prior)
    else if |turns| > 2 then Shrink(c, l, Pop(turns, l.rolling), prior)
    else if prior.Some? then Shrink(c, l, turns, None)
    else if |turns[Longest(turns)].content| <= 32 then Overflow
    else Shrink(c, l, ClipLongest(turns), None)
  }

  method LongestIndex(turns: seq<Turn>) returns (k: nat)
    requires turns != []
    ensures k == Longest(turns)
  {
    k := 0;
    for i := 1 to |turns|
      invariant k == Longest(turns[..i])
    {
      assert turns[..i + 1][..i] == turns[..i];
      if |turns[i].content| > |turns[k].content| { k := i; }
    }
    assert turns[..|turns|] == turns;
  }

  method BoundedInput(c: Counter, l: Limits, turns: seq<Turn>, previous: Option<Record>) returns (result: Bounded)
    requires turns != []
    ensures result == Shrink(c, l, Initial(turns, previous), previous)
    ensures SendsWhatEnters(c, l, turns, previous, result)
  {
    BoundedInputSends(c, l, turns, previous);
    hide SendsWhatEnters, Shrink, NotCovered;
    var selected := Distinct(turns);
    InitialIsNotEmpty(turns, previous);
    if previous.Some? {
      selected := NotCovered(selected, previous.value.sources, Ids(LastTwo(selected)));
    }
    result := ShrinkToFit(c, l, selected, previous);
  }

  /** The first turn of every id. */
  method Distinct(turns: seq<Turn>) returns (selected: seq<Turn>)
    ensures selected == FirstOfEach(turns)
  {
    var seen: set<nat> := {};
    selected := [];
    for i := 0 to |turns|
      invariant selected == FirstOfEach(turns[..i]) && seen == Ids(selected)
    {
      assert turns[..i + 1][..i] == turns[..i];
      if turns[i].id !in seen {
        IdsSnoc(selected, turns[i]);
        selected := selected + [turns[i]];
        seen := seen + {turns[i].id};
      }
    }
    assert turns[..|turns|] == turns;
  }

  /** The loop that gives up turns, then the prior summary, then text until the prompt fits. */
  method ShrinkToFit(c: Counter, l: Limits, initial: seq<Turn>, previous: Option<Record>) returns (result: Bounded)
    requires initial != []
    ensures result == Shrink(c, l, initial, previous)
  {
    var selected, prior := initial, previous;
    while true
      invariant selected != [] && Shrink(c, l, selected, prior) == Shrink(c, l, initial, previous)
      decreases |selected|, if prior.Some? then 1 else 0, TotalLength(selected)
    {
      if Fits(c, l, selected, prior) { return Prompt(selected, prior); }
      if |selected| > 2 {
        var at := if l.rolling then |selected| - 3 else 0;
        selected := selected[..at] + selected[at + 1..];
      } else if prior.Some? {
        prior := None;
      } else {
        var k := LongestIndex(selected);
        if |selected[k].content| <= 32 { return Overflow; }
        TotalLengthUpdate(selected, k, Clip(selected[k]));
        selected := selected[k := Clip(selected[k])];
      }
    }
  }

  // ----- what remains of a turn and of a list of turns ----------------------------------

  /** The same message, its text whole or cut once at no fewer than 16 characters and marked. */
  ghost predicate CutFrom(turn: Turn, original: Turn) {
    && turn.id == original.id && turn.event == original.event && turn.scope == original.scope
    && (turn.content == original.content
        || exists n: nat :: 16 <= n < |original.content| && turn.content == original.content[..n] + MARKER)
  }

  /** Cutting again removes the old marker with the text. */
  lemma ClipCuts(turn: Turn, original: Turn)
    requires |turn.content| > 32 && CutFrom(turn, original)
    ensures CutFrom(Clip(turn), original)
  {
    var half := |turn.content| / 2;
    var keep := if half < 16 then 16 else half;
    if turn.content == original.content {
      assert Clip(turn).content == original.content[..keep] + MARKER;
    } else {
      var n: nat :| 16 <= n < |original.content| && turn.content == original.content[..n] + MARKER;
      assert keep <= n;
      assert turn.content[..keep] == original.content[..keep];
    }
  }

  /** What is left of a text is its first half and the marker. */
  lemma ClipHalves(turn: Turn)
    requires |turn.content| > 32
    ensures var half := |turn.content| / 2;
            Clip(turn) == turn.(content := turn.content[..half] + ['\U{2026}', '[', '\U{622A}', '\U{65AD}', ']'])
  {
  }

  ghost predicate Increasing(at: seq<nat>) {
    forall i, j :: 0 <= i < j < |at| ==> at[i] < at[j]
  }

  ghost predicate PickedAt(part: seq<Turn>, whole: seq<Turn>, at: seq<nat>) {
    && |at| == |part| && Increasing(at)
    && forall i :: 0 <= i < |at| ==> at[i] < |whole| && part[i] == whole[at[i]]
  }

  ghost predicate PlacedAt(part: seq<Turn>, whole: seq<Turn>, at: seq<nat>) {
    && |at| == |part| && Increasing(at)
    && forall i :: 0 <= i < |at| ==> at[i] < |whole| && CutFrom(part[i], whole[at[i]])
  }

  /** An order-preserving subsequence, up to cut texts. */
  ghost predicate Within(part: seq<Turn>, whole: seq<Turn>) {
    exists at :: PlacedAt(part, whole, at)
  }

  ghost predicate DistinctIds(turns: seq<Turn>) {
    forall i, j :: 0 <= i < j < |turns| ==> turns[i].id != turns[j].id
  }

  /** The same messages in the same order as the end of the list. */
  ghost predicate EndsWith(turns: seq<Turn>, last: seq<Turn>) {
    |last| <= |turns| && SameMessages(turns[|turns| - |last|..], last)
  }

  ghost predicate SameMessages(turns: seq<Turn>, originals: seq<Turn>) {
    |turns| == |originals| && forall i :: 0 <= i < |turns| ==> CutFrom(turns[i], originals[i])
  }

  lemma PickSnoc(part: seq<Turn>, whole: seq<Turn>, at: seq<nat>)
    requires whole != [] && PickedAt(part, whole[..|whole| - 1], at)
    ensures PickedAt(part, whole, at)
    ensures PickedAt(part + [whole[|whole| - 1]], whole, at + [|whole| - 1])
  {
    assert forall i :: 0 <= i < |at| ==> whole[..|whole| - 1][at[i]] == whole[at[i]];
  }

  lemma NothingPicked() returns (at: seq<nat>)
    ensures PickedAt([], [], at) && DistinctIds([])
  {
    at := [];
  }

  lemma DistinctSnoc(turns: seq<Turn>, turn: Turn)
    requires DistinctIds(turns) && turn.id !in Ids(turns)
    ensures DistinctIds(turns + [turn])
  {
  }

  lemma {:induction false} FirstOfEachIsPicked(turns: seq<Turn>) returns (at: seq<nat>)
    ensures PickedAt(FirstOfEach(turns), turns, at) && DistinctIds(FirstOfEach(turns))
    ensures Ids(FirstOfEach(turns)) == Ids(turns)
  {
    hide PickedAt, DistinctIds, Ids;
    if turns == [] {
      at := NothingPicked();
    } else {
      var n := |turns| - 1;
      var before := FirstOfEach(turns[..n]);
      assert turns == turns[..n] + [turns[n]];
      at := FirstOfEachIsPicked(turns[..n]);
      PickSnoc(before, turns, at);
      IdsSnoc(turns[..n], turns[n]);
      IdsSnoc(before, turns[n]);
      if turns[n].id !in Ids(before) {
        DistinctSnoc(before, turns[n]);
        at := at + [n];
      } else {
        assert Ids(turns) == Ids(turns[..n]);
      }
    }
  }

  lemma {:induction false} NotCoveredIsPicked(turns: seq<Turn>, covered: seq<nat>, final: set<nat>)
    returns (at: seq<nat>)
    ensures PickedAt(NotCovered(turns, covered, final), turns, at)
  {
    if turns == [] {
      at := [];
    } else {
      var n := |turns| - 1;
      at := NotCoveredIsPicked(turns[..n], covered, final);
      PickSnoc(NotCovered(turns[..n], covered, final), turns, at);
      if turns[n].id !in covered || turns[n].id in final { at := at + [n]; }
    }
  }

  lemma {:induction false} NotCoveredKeepsEnd(turns: seq<Turn>, last: seq<Turn>, covered: seq<nat>, final: set<nat>)
    requires forall i :: 0 <= i < |last| ==> last[i].id in final
    ensures NotCovered(turns + last, covered, final) == NotCovered(turns, covered, final) + last
  {
    if last == [] {
      assert turns + last == turns;
    } else {
      var n := |last| - 1;
      assert (turns + last)[..|turns + last| - 1] == turns + last[..n];
      NotCoveredKeepsEnd(turns, last[..n], covered, final);
      assert NotCovered(turns, covered, final) + last
             == NotCovered(turns, covered, final) + last[..n] + [last[n]];
    }
  }

  lemma InitialKeepsFinalExchange(turns: seq<Turn>, prior: Option<Record>)
    ensures |LastTwo(FirstOfEach(turns))| <= |Initial(turns, prior)|
    ensures var initial, last := Initial(turns, prior), LastTwo(FirstOfEach(turns));
            initial[|initial| - |last|..] == last
  {
    var unique := FirstOfEach(turns);
    var last := LastTwo(unique);
    var head := unique[..|unique| - |last|];
    assert unique == head + last;
    if prior.Some? { NotCoveredKeepsEnd(head, last, prior.value.sources, Ids(last)); }
  }

  lemma InitialIsNotEmpty(turns: seq<Turn>, prior: Option<Record>)
    requires turns != []
    ensures Initial(turns, prior) != [] && FirstOfEach(turns) != []
  {
    var at := FirstOfEachIsPicked(turns);
    assert turns[0].id in Ids(FirstOfEach(turns));
    InitialKeepsFinalExchange(turns, prior);
  }

  lemma PickOfPick(a: seq<Turn>, b: seq<Turn>, c: seq<Turn>, p: seq<nat>, q: seq<nat>) returns (at: seq<nat>)
    requires PlacedAt(a, b, p) && PickedAt(b, c, q)
    ensures PlacedAt(a, c, at)
    ensures PickedAt(a, b, p) ==> PickedAt(a, c, at)
  {
    at := seq(|p|, i requires 0 <= i < |p| => q[p[i]]);
  }

  lemma InitialIsPicked(turns: seq<Turn>, prior: Option<Record>) returns (at: seq<nat>)
    ensures PickedAt(Initial(turns, prior), turns, at) && DistinctIds(Initial(turns, prior))
  {
    var unique := FirstOfEach(turns);
    var q := FirstOfEachIsPicked(turns);
    if prior.None? { return q; }
    var final := Ids(LastTwo(unique));
    var p := NotCoveredIsPicked(unique, prior.value.sources, final);
    at := PickOfPick(NotCovered(unique, prior.value.sources, final), unique, turns, p, q);
  }

  // ----- what shrinking keeps ---------------------------------------------------------

  lemma PopKeepsEnd(turns: seq<Turn>, rolling: bool, n: nat)
    requires |turns| > 2 && n <= 2
    ensures Pop(turns, rolling)[|turns| - 1 - n..] == turns[|turns| - n..]
  {
  }

  lemma PopStaysPlaced(turns: seq<Turn>, rolling: bool, whole: seq<Turn>, at: seq<nat>, last: seq<Turn>)
    returns (rest: seq<nat>)
    requires |turns| > 2 && PlacedAt(turns, whole, at) && |last| <= 2 && EndsWith(turns, last)
    ensures PlacedAt(Pop(turns, rolling), whole, rest) && EndsWith(Pop(turns, rolling), last)
  {
    hide CutFrom, SameMessages;
    var k := if rolling then |turns| - 3 else 0;
    rest := at[..k] + at[k + 1..];
    PopKeepsEnd(turns, rolling, |last|);
    var popped := Pop(turns, rolling);
    forall i | 0 <= i < |rest| ensures rest[i] < |whole| && CutFrom(popped[i], whole[rest[i]]) {
      var j := if i < k then i else i + 1;
      assert popped[i] == turns[j] && rest[i] == at[j];
    }
  }

  lemma {:induction false} ShrinkStaysPlaced(
    c: Counter, l: Limits, turns: seq<Turn>, prior: Option<Record>, whole: seq<Turn>, at: seq<nat>, last: seq<Turn>)
    returns (end: seq<nat>)
    requires turns != [] && PlacedAt(turns, whole, at) && |last| <= 2 && EndsWith(turns, last)
    ensures var r := Shrink(c, l, turns, prior);
            r.Prompt? ==>
              && Fits(c, l, r.turns, r.prior) && (r.prior == prior || r.prior == None)
              && PlacedAt(r.turns, whole, end) && EndsWith(r.turns, last) && r.turns != []
    decreases |turns|, if prior.Some? then 1 else 0, TotalLength(turns)
  {
    if Fits(c, l, turns, prior) { return at; }
    if |turns| > 2 {
      var rest := PopStaysPlaced(turns, l.rolling, whole, at, last);
      end := ShrinkStaysPlaced(c, l, Pop(turns, l.rolling), prior, whole, rest, last);
    } else if prior.Some? {
      end := ShrinkStaysPlaced(c, l, turns, None, whole, at, last);
    } else if |turns[Longest(turns)].content| > 32 {
      ClipStaysPlaced(turns, whole, at, last);
      end := ShrinkStaysPlaced(c, l, ClipLongest(turns), None, whole, at, last);
    } else {
      end := at;
    }
  }

  lemma ClipStaysPlaced(turns: seq<Turn>, whole: seq<Turn>, at: seq<nat>, last: seq<Turn>)
    requires turns != [] && |turns[Longest(turns)].content| > 32
    requires PlacedAt(turns, whole, at) && EndsWith(turns, last)
    ensures PlacedAt(ClipLongest(turns), whole, at) && EndsWith(ClipLongest(turns), last)
  {
    var k := Longest(turns);
    ClipCuts(turns[k], whole[at[k]]);
    ClipKeepsEnd(turns, last);
    hide CutFrom, Clip, TotalLength, EndsWith;
  }

  lemma SameUpdated(turns: seq<Turn>, last: seq<Turn>, from: nat, k: nat, turn: Turn)
    requires from <= k < |turns| && SameMessages(turns[from..], last) && CutFrom(turn, last[k - from])
    ensures SameMessages(turns[k := turn][from..], last)
  {
    hide CutFrom;
    var now := turns[k := turn][from..];
    forall i | 0 <= i < |last| ensures CutFrom(now[i], last[i]) {
      assert now[i] == if i == k - from then turn else turns[from..][i];
    }
  }

  lemma ClipKeepsEnd(turns: seq<Turn>, last: seq<Turn>)
    requires turns != [] && |turns[Longest(turns)].content| > 32 && EndsWith(turns, last)
    ensures EndsWith(ClipLongest(turns), last)
  {
    var k, from := Longest(turns), |turns| - |last|;
    var clipped := Clip(turns[k]);
    assert ClipLongest(turns) == turns[k := clipped];
    if k >= from {
      assert turns[from..][k - from] == turns[k];
      ClipCuts(turns[k], last[k - from]);
      hide CutFrom, Clip, TotalLength, SameMessages, ClipLongest, Longest;
      SameUpdated(turns, last, from, k, clipped);
    } else {
      hide CutFrom, Clip, TotalLength, SameMessages, ClipLongest, Longest;
      assert turns[k := clipped][from..] == turns[from..];
    }
  }

  /**
   * On success the prompt plus the output fits the cap; the turns are an order-preserving
   * subsequence of the conversation without repeated ids, texts at most cut and marked; and
   * the final exchange is still there.
   */
  lemma BoundedInputIsSound(c: Counter, l: Limits, turns: seq<Turn>, previous: Option<Record>)
    requires turns != []
    ensures Initial(turns, previous) != []
    ensures var r := Shrink(c, l, Initial(turns, previous), previous);
            r.Prompt? ==>
              && Fits(c, l, r.turns, r.prior) && (r.prior == previous || r.prior == None)
              && Within(r.turns, turns) && DistinctIds(r.turns)
              && EndsWith(r.turns, LastTwo(FirstOfEach(turns)))
  {
    hide Shrink, CutFrom, Initial, FirstOfEach;
    InitialIsNotEmpty(turns, previous);
    InitialKeepsFinalExchange(turns, previous);
    var initial := Initial(turns, previous);
    var picked := InitialIsPicked(turns, previous);
    var last := LastTwo(FirstOfEach(turns));
    var identity := WholeIsPlaced(initial, last);
    var end := ShrinkStaysPlaced(c, l, initial, previous, initial, identity, last);
    var r := Shrink(c, l, initial, previous);
    if r.Prompt? {
      var at := PickOfPick(r.turns, initial, turns, end, picked);
      PlacedIdsDistinct(r.turns, initial, end);
    }
  }

  lemma WholeIsPlaced(whole: seq<Turn>, last: seq<Turn>) returns (identity: seq<nat>)
    requires |last| <= |whole| && whole[|whole| - |last|..] == last
    ensures PlacedAt(whole, whole, identity) && EndsWith(whole, last)
  {
    identity := seq(|whole|, i requires 0 <= i < |whole| => i);
  }

  lemma PlacedIdsDistinct(part: seq<Turn>, whole: seq<Turn>, at: seq<nat>)
    requires PlacedAt(part, whole, at) && DistinctIds(whole)
    ensures DistinctIds(part)
  {
    forall i, j | 0 <= i < j < |part| ensures part[i].id != part[j].id {
      assert at[i] < at[j];
      assert whole[at[i]].id != whole[at[j]].id;
    }
  }

  // ----- nothing is given up before it must be ------------------------------------------

  /** After shedding m turns: with a summary the oldest and the final exchange stay, else the newest. */
  function Kept<T>(initial: seq<T>, rolling: bool, m: nat): seq<T>
    requires m == 0 || m + 2 <= |initial|
  {
    if m == 0 then initial
    else if rolling then initial[..|initial| - 2 - m] + initial[|initial| - 2..]
    else initial[m..]
  }

  function Most<T>(initial: seq<T>): nat {
    if |initial| > 2 then |initial| - 2 else 0
  }

  lemma PopKept(initial: seq<Turn>, rolling: bool, m: nat)
    requires m + 2 < |initial|
    ensures Pop(Kept(initial, rolling, m), rolling) == Kept(initial, rolling, m + 1)
  {
  }

  lemma {:induction false} ShrinkSkips(c: Counter, l: Limits, initial: seq<Turn>, prior: Option<Record>, m: nat)
    requires initial != [] && m <= Most(initial)
    requires forall j :: 0 <= j < m ==> !Fits(c, l, Kept(initial, l.rolling, j), prior)
    ensures Kept(initial, l.rolling, m) != []
    ensures Shrink(c, l, initial, prior) == Shrink(c, l, Kept(initial, l.rolling, m), prior)
  {
    if m > 0 {
      ShrinkSkips(c, l, initial, prior, m - 1);
      PopKept(initial, l.rolling, m - 1);
    }
  }

  /** The first candidate that fits is returned: with fewest turns shed, and the prior summary kept. */
  lemma FirstFittingIsReturned(c: Counter, l: Limits, initial: seq<Turn>, prior: Option<Record>, m: nat)
    requires initial != [] && m <= Most(initial)
    requires Fits(c, l, Kept(initial, l.rolling, m), prior)
    requires forall j :: 0 <= j < m ==> !Fits(c, l, Kept(initial, l.rolling, j), prior)
    ensures Shrink(c, l, initial, prior) == Prompt(Kept(initial, l.rolling, m), prior)
  {
    ShrinkSkips(c, l, initial, prior, m);
  }

  /** The prior summary goes only when no shedding fits, and texts are cut only when it is gone. */
  lemma PriorIsGivenUpLast(c: Counter, l: Limits, initial: seq<Turn>, prior: Option<Record>)
    requires initial != []
    requires forall j :: 0 <= j <= Most(initial) ==> !Fits(c, l, Kept(initial, l.rolling, j), prior)
    ensures var final := Kept(initial, l.rolling, Most(initial));
            && final != []
            && Shrink(c, l, initial, prior) == Shrink(c, l, final, None)
            && (Fits(c, l, final, None) ==> Shrink(c, l, initial, prior) == Prompt(final, None))
  {
    ShrinkSkips(c, l, initial, prior, Most(initial));
  }

  /** The longest text halved, n times over. */
  function CutTimes(turns: seq<Turn>, n: nat): (cut: seq<Turn>)
    ensures |cut| == |turns|
  {
    if n == 0 then turns
    else
      var before := CutTimes(turns, n - 1);
      if before == [] || |before[Longest(before)].content| <= 32 then before else ClipLongest(before)
  }

  ghost predicate CanBeCut(turns: seq<Turn>) {
    exists i :: 0 <= i < |turns| && |turns[i].content| > 32
  }

  lemma CutOnceMore(c: Counter, l: Limits, final: seq<Turn>, n: nat)
    requires 0 < |final| <= 2
    ensures |CutTimes(final, n)| == |CutTimes(final, n + 1)| == |final|
    ensures Fits(c, l, CutTimes(final, n), None)
        ==> Shrink(c, l, CutTimes(final, n), None) == Prompt(CutTimes(final, n), None)
    ensures !Fits(c, l, CutTimes(final, n), None) && CanBeCut(CutTimes(final, n))
        ==> Shrink(c, l, CutTimes(final, n), None) == Shrink(c, l, CutTimes(final, n + 1), None)
  {
    hide ClipLongest, Fits;
    var turns := CutTimes(final, n);
    if CanBeCut(turns) {
      var i :| 0 <= i < |turns| && |turns[i].content| > 32;
      assert |turns[Longest(turns)].content| > 32;
      hide Longest;
      assert CutTimes(final, n + 1) == ClipLongest(turns);
    }
  }

  /** Texts are cut no more often than needed, the longest first. */
  lemma {:induction false} FirstFittingCutIsReturned(c: Counter, l: Limits, final: seq<Turn>, done: nat, n: nat)
    requires 0 < |final| <= 2 && done <= n && Fits(c, l, CutTimes(final, n), None)
    requires forall j :: done <= j < n ==> !Fits(c, l, CutTimes(final, j), None) && CanBeCut(CutTimes(final, j))
    ensures |CutTimes(final, done)| == |final|
    ensures Shrink(c, l, CutTimes(final, done), None) == Prompt(CutTimes(final, n), None)
    decreases n - done
  {
    hide *;
    CutOnceMore(c, l, final, done);
    if done < n { FirstFittingCutIsReturned(c, l, final, done + 1, n); }
  }

  /** At most two of the last messages, none longer than 32 characters. */
  ghost predicate ShortEnd(short: seq<Turn>, turns: seq<Turn>) {
    && 0 < |short| <= 2 && |short| <= |turns|
    && forall i :: 0 <= i < |short| ==>
         |short[i].content| <= 32 && short[i].id == turns[|turns| - |short|..][i].id
  }

  lemma ShortEndUnclipped(short: seq<Turn>, turns: seq<Turn>)
    requires turns != [] && |turns[Longest(turns)].content| > 32 && ShortEnd(short, ClipLongest(turns))
    ensures ShortEnd(short, turns)
  {
    var from, k, clipped := |turns| - |short|, Longest(turns), Clip(turns[Longest(turns)]);
    assert ClipLongest(turns) == turns[k := clipped] && clipped.id == turns[k].id;
    hide Clip, Longest, TotalLength;
    forall i | 0 <= i < |short| ensures ClipLongest(turns)[from..][i].id == turns[from..][i].id {
      assert ClipLongest(turns)[from..][i] == ClipLongest(turns)[from + i] && turns[from..][i] == turns[from + i];
    }
  }

  /** An overflow means the final exchange did not fit even with every text down to 32 characters. */
  lemma {:induction false} OverflowMeansNothingFits(c: Counter, l: Limits, turns: seq<Turn>, prior: Option<Record>)
    returns (short: seq<Turn>)
    requires turns != [] && Shrink(c, l, turns, prior) == Overflow
    ensures ShortEnd(short, turns) && |short| == |LastTwo(turns)| && !Fits(c, l, short, None)
    decreases |turns|, if prior.Some? then 1 else 0, TotalLength(turns)
  {
    if |turns| > 2 {
      short := OverflowMeansNothingFits(c, l, Pop(turns, l.rolling), prior);
      PopKeepsEnd(turns, l.rolling, |short|);
    } else if prior.Some? {
      short := OverflowMeansNothingFits(c, l, turns, None);
    } else if |turns[Longest(turns)].content| > 32 {
      short := OverflowMeansNothingFits(c, l, ClipLongest(turns), None);
      ShortEndUnclipped(short, turns);
    } else {
      short := turns;
      assert turns[|turns| - |short|..] == turns;
    }
  }

  // ----- which turns are sent, told from the conversation -----------------------------

  /** No earlier turn has the same id. */
  predicate IsFirst(turns: seq<Turn>, i: nat) {
    i < |turns| && forall j :: 0 <= j < i ==> turns[j].id != turns[i].id
  }

  /** A first turn with at most one other behind it: the final exchange. */
  ghost predicate InFinalExchange(turns: seq<Turn>, i: nat) {
    && IsFirst(turns, i)
    && forall j, k {:trigger IsFirst(turns, j), IsFirst(turns, k)} ::
         i < j < k && IsFirst(turns, j) ==> !IsFirst(turns, k)
  }

  /** A first turn that the prior summary does not cover, or one of the final exchange. */
  ghost predicate Enters(turns: seq<Turn>, prior: Option<Record>, i: nat) {
    && IsFirst(turns, i)
    && (prior.None? || turns[i].id !in prior.value.sources || InFinalExchange(turns, i))
  }

  /** Exactly the turns that enter, in order. */
  ghost predicate AllThatEnter(turns: seq<Turn>, prior: Option<Record>, part: seq<Turn>, at: seq<nat>) {
    PickedAt(part, turns, at) && forall i :: 0 <= i < |turns| ==> (i in at <==> Enters(turns, prior, i))
  }

  lemma InIds(turns: seq<Turn>, id: nat)
    ensures id in Ids(turns) <==> exists j :: 0 <= j < |turns| && turns[j].id == id
  {
  }

  lemma OneMoreFirst(turns: seq<Turn>, at: seq<nat>)
    requires turns != [] && forall i: nat :: i in at <==> i < |turns| - 1 && IsFirst(turns[..|turns| - 1], i)
    ensures var more := if IsFirst(turns, |turns| - 1) then at + [|turns| - 1] else at;
            forall i: nat :: i in more <==> i < |turns| && IsFirst(turns, i)
  {
    var n := |turns| - 1;
    forall i: nat | i < n ensures IsFirst(turns[..n], i) <==> IsFirst(turns, i) {
    }
    assert (at + [n])[|at|] == n;
  }

  lemma {:induction false} FirstOfEachAt(turns: seq<Turn>) returns (at: seq<nat>)
    ensures PickedAt(FirstOfEach(turns), turns, at)
    ensures forall i: nat :: i in at <==> i < |turns| && IsFirst(turns, i)
  {
    hide PickedAt, Ids, PlacedAt, DistinctIds;
    if turns == [] {
      at := NothingPicked();
    } else {
      var n := |turns| - 1;
      var before := FirstOfEach(turns[..n]);
      var _ := FirstOfEachIsPicked(turns[..n]);
      at := FirstOfEachAt(turns[..n]);
      PickSnoc(before, turns, at);
      OneMoreFirst(turns, at);
      LastIsFirst(turns);
      if turns[n].id !in Ids(before) { at := at + [n]; }
    }
  }

  lemma LastIsFirst(turns: seq<Turn>)
    requires turns != []
    ensures IsFirst(turns, |turns| - 1) <==> turns[|turns| - 1].id !in Ids(turns[..|turns| - 1])
  {
    InIds(turns[..|turns| - 1], turns[|turns| - 1].id);
  }

  predicate NotToDrop(turn: Turn, covered: seq<nat>, final: set<nat>) {
    turn.id !in covered || turn.id in final
  }

  lemma {:induction false} NotCoveredAt(turns: seq<Turn>, covered: seq<nat>, final: set<nat>) returns (at: seq<nat>)
    ensures PickedAt(NotCovered(turns, covered, final), turns, at)
    ensures forall i: nat :: i in at <==> i < |turns| && NotToDrop(turns[i], covered, final)
  {
    hide PickedAt;
    if turns == [] {
      at := NothingPicked();
    } else {
      var n := |turns| - 1;
      at := NotCoveredAt(turns[..n], covered, final);
      PickSnoc(NotCovered(turns[..n], covered, final), turns, at);
      hide NotCovered;
      if turns[n].id !in covered || turns[n].id in final {
        assert (at + [n])[|at|] == n;
        at := at + [n];
      }
    }
  }

  /** Position k of the first turns belongs to the final exchange exactly if it is one of the last two. */
  lemma FinalExchangeIsLastTwo(turns: seq<Turn>, first: seq<nat>, k: nat)
    requires Increasing(first) && k < |first|
    requires forall i :: i in first <==> 0 <= i < |turns| && IsFirst(turns, i)
    ensures InFinalExchange(turns, first[k]) <==> k + 2 >= |first|
  {
    if k + 2 < |first| {
      assert first[k] in first && first[k + 1] in first && first[k + 2] in first;
      assert first[k] < first[k + 1] < first[k + 2];
    }
    assert first[k] in first;
    if !InFinalExchange(turns, first[k]) {
      var j: nat, m: nat :| first[k] < j < m && IsFirst(turns, j) && IsFirst(turns, m);
      assert j in first && m in first;
      var x :| 0 <= x < |first| && first[x] == j;
      var y :| 0 <= y < |first| && first[y] == m;
      assert k < x;
      assert x < y;
    }
  }

  lemma InLastTwo(unique: seq<Turn>, k: nat)
    requires DistinctIds(unique) && k < |unique|
    ensures unique[k].id in Ids(LastTwo(unique)) <==> k + 2 >= |unique|
  {
    var last := LastTwo(unique);
    var from := |unique| - |last|;
    InIds(last, unique[k].id);
    if k + 2 >= |unique| { assert last[k - from] == unique[k]; }
  }

  /** What enters is exactly what the conversation and the prior summary say. */
  lemma EnteringTurns(turns: seq<Turn>, prior: Option<Record>) returns (at: seq<nat>)
    ensures AllThatEnter(turns, prior, Initial(turns, prior), at)
  {
    hide *;
    var unique := FirstOfEach(turns);
    var first := FirstOfEachAt(turns);
    if prior.None? {
      FirstAreAll(turns, prior, unique, first);
      return first;
    }
    var distinct := FirstOfEachIsPicked(turns);
    var p := NotCoveredAt(unique, prior.value.sources, Ids(LastTwo(unique)));
    at := ComposedEnter(turns, prior, unique, first, p);
  }

  lemma FirstAreAll(turns: seq<Turn>, prior: Option<Record>, unique: seq<Turn>, first: seq<nat>)
    requires unique == FirstOfEach(turns) && PickedAt(unique, turns, first) && prior.None?
    requires forall i: nat :: i in first <==> i < |turns| && IsFirst(turns, i)
    ensures AllThatEnter(turns, prior, Initial(turns, prior), first)
  {
    hide PickedAt, FirstOfEach;
  }

  lemma ComposedEnter(turns: seq<Turn>, prior: Option<Record>, unique: seq<Turn>, first: seq<nat>, p: seq<nat>)
    returns (at: seq<nat>)
    requires unique == FirstOfEach(turns) && PickedAt(unique, turns, first) && prior.Some?
    requires DistinctIds(unique)
    requires PickedAt(NotCovered(unique, prior.value.sources, Ids(LastTwo(unique))), unique, p)
    requires forall i: nat :: i in first <==> i < |turns| && IsFirst(turns, i)
    requires forall k: nat ::
               k in p <==> k < |unique| && NotToDrop(unique[k], prior.value.sources, Ids(LastTwo(unique)))
    ensures AllThatEnter(turns, prior, Initial(turns, prior), at)
  {
    hide Ids, FirstOfEach, NotCovered, LastTwo, DistinctIds, IsFirst, InFinalExchange, CutFrom, Within, PlacedAt;
    at := Composed(NotCovered(unique, prior.value.sources, Ids(LastTwo(unique))), unique, turns, p, first);
    forall i | 0 <= i < |turns| ensures i in at <==> Enters(turns, prior, i) {
      if i in first {
        var k :| 0 <= k < |first| && first[k] == i;
        assert unique[k] == turns[i];
        InLastTwo(unique, k);
        FinalExchangeIsLastTwo(turns, first, k);
        SamePlace(first, p, at, k);
      } else {
        NotComposed(first, p, at, i);
      }
    }
  }

  lemma Composed(a: seq<Turn>, b: seq<Turn>, c: seq<Turn>, p: seq<nat>, q: seq<nat>) returns (at: seq<nat>)
    requires PickedAt(a, b, p) && PickedAt(b, c, q)
    ensures PickedAt(a, c, at) && |at| == |p|
    ensures forall i :: 0 <= i < |p| ==> p[i] < |q| && at[i] == q[p[i]]
  {
    at := seq(|p|, i requires 0 <= i < |p| => q[p[i]]);
  }

  lemma SamePlace(q: seq<nat>, p: seq<nat>, at: seq<nat>, k: nat)
    requires Increasing(q) && k < |q| && |at| == |p|
    requires forall i :: 0 <= i < |p| ==> p[i] < |q| && at[i] == q[p[i]]
    ensures q[k] in at <==> k in p
  {
    if k in p {
      var i :| 0 <= i < |p| && p[i] == k;
      assert at[i] == q[k];
    }
    if q[k] in at {
      var i :| 0 <= i < |at| && at[i] == q[k];
      assert p[i] == k;
    }
  }

  lemma NotComposed(q: seq<nat>, p: seq<nat>, at: seq<nat>, i: nat)
    requires |at| == |p| && i !in q
    requires forall i :: 0 <= i < |p| ==> p[i] < |q| && at[i] == q[p[i]]
    ensures i !in at
  {
  }

  /** The final exchange is the end of what enters. */
  lemma FinalExchangeEntersLast(turns: seq<Turn>, prior: Option<Record>, part: seq<Turn>, at: seq<nat>, k: nat)
    requires AllThatEnter(turns, prior, part, at) && k < |at|
    ensures InFinalExchange(turns, at[k]) <==> k + 2 >= |at|
  {
    hide InFinalExchange, CutFrom, Within, PlacedAt, DistinctIds, FirstOfEach;
    var first := FirstOfEachAt(turns);
    assert at[k] in at && at[k] in first;
    var x :| 0 <= x < |first| && first[x] == at[k];
    FinalExchangeIsLastTwo(turns, first, x);
    if k + 2 < |at| {
      assert at[k + 1] in at && at[k + 2] in at;
      assert at[k + 1] in first && at[k + 2] in first;
      ThreeInARow(first, at[k], at[k + 1], at[k + 2], x);
    }
    if x + 2 < |first| {
      var y, z := |first| - 2, |first| - 1;
      FinalExchangeIsLastTwo(turns, first, y);
      FinalExchangeIsLastTwo(turns, first, z);
      assert first[y] in first && first[z] in first;
      assert Enters(turns, prior, first[y]) && Enters(turns, prior, first[z]);
      ThreeInARow(at, first[x], first[y], first[z], k);
    }
  }

  lemma ThreeInARow(at: seq<nat>, a: nat, b: nat, c: nat, k: nat)
    requires Increasing(at) && k < |at| && at[k] == a && a < b < c && b in at && c in at
    ensures k + 2 < |at|
  {
    var y :| 0 <= y < |at| && at[y] == b;
    var z :| 0 <= z < |at| && at[z] == c;
    assert k < y;
    assert y < z;
  }

  /**
   * What remains of the turns that enter: the final exchange always; with a summary the older
   * ones, without it the newer ones; and nothing else once the prior summary or a text is cut.
   */
  ghost predicate Sends(rolling: bool, turns: seq<Turn>, prior: Option<Record>, r: Bounded, at: seq<nat>) {
    && r.Prompt? && PlacedAt(r.turns, turns, at)
    && (forall i :: i in at ==> Enters(turns, prior, i))
    && (forall i :: 0 <= i < |turns| && InFinalExchange(turns, i) ==> i in at)
    && (forall i, k :: 0 <= i < |turns| && Enters(turns, prior, i) && i !in at && k in at && !InFinalExchange(turns, k)
          ==> if rolling then k < i else i < k)
    && ((r.prior == prior && PickedAt(r.turns, turns, at))
        || (r.prior == None && forall i :: i in at ==> InFinalExchange(turns, i)))
  }

  /** A prompt fits the cap; it is all that enters if that fits, and in any case what `Sends` says of a part of it. */
  ghost predicate SendsWhatEnters(c: Counter, l: Limits, turns: seq<Turn>, prior: Option<Record>, r: Bounded) {
    && (r.Prompt? ==> c(r.turns, l.rolling, r.prior) + l.output <= l.context)
    && (r.Prompt? ==> exists at: seq<nat> :: Sends(l.rolling, turns, prior, r, at))
    && exists part, at: seq<nat> ::
         AllThatEnter(turns, prior, part, at)
         && (c(part, l.rolling, prior) + l.output <= l.context ==> r == Prompt(part, prior))
  }

  lemma {:induction false} ShrinkCutsOnly(c: Counter, l: Limits, turns: seq<Turn>, prior: Option<Record>,
                                          originals: seq<Turn>)
    requires 0 < |turns| <= 2 && SameMessages(turns, originals)
    ensures var r := Shrink(c, l, turns, prior);
            r.Prompt? ==> SameMessages(r.turns, originals) && (r.prior == None || r == Prompt(turns, prior))
    decreases if prior.Some? then 1 else 0, TotalLength(turns)
  {
    hide CutFrom;
    if Fits(c, l, turns, prior) {
    } else if prior.Some? {
      ShrinkCutsOnly(c, l, turns, None, originals);
    } else if |turns[Longest(turns)].content| > 32 {
      var k := Longest(turns);
      ClipCuts(turns[k], originals[k]);
      ShrinkCutsOnly(c, l, ClipLongest(turns), None, originals);
    }
  }

  /** How many turns were shed, and that nothing else happened to a prompt that keeps the prior summary. */
  lemma {:induction false} ShrinkSheds(c: Counter, l: Limits, initial: seq<Turn>, prior: Option<Record>, m: nat)
    returns (shed: nat)
    requires initial != [] && m <= Most(initial)
    ensures shed <= Most(initial) && Kept(initial, l.rolling, m) != []
    ensures var r := Shrink(c, l, Kept(initial, l.rolling, m), prior);
            r.Prompt? ==>
              || r == Prompt(Kept(initial, l.rolling, shed), prior)
              || (&& r.prior == None && shed == Most(initial)
                  && SameMessages(r.turns, Kept(initial, l.rolling, Most(initial))))
    decreases Most(initial) - m
  {
    hide SameMessages;
    var turns := Kept(initial, l.rolling, m);
    shed := m;
    if !Fits(c, l, turns, prior) {
      if m < Most(initial) {
        PopKept(initial, l.rolling, m);
        shed := ShrinkSheds(c, l, initial, prior, m + 1);
      } else {
        SameAsItself(turns);
        ShrinkCutsOnly(c, l, turns, prior, turns);
      }
    }
  }

  lemma SameAsItself(turns: seq<Turn>)
    ensures SameMessages(turns, turns)
  {
  }

  lemma KeptPicked(part: seq<Turn>, turns: seq<Turn>, at: seq<nat>, rolling: bool, m: nat)
    requires PickedAt(part, turns, at) && (m == 0 || m + 2 <= |part|)
    ensures PickedAt(Kept(part, rolling, m), turns, Kept(at, rolling, m))
  {
  }

  lemma SamePlaced(r: seq<Turn>, part: seq<Turn>, turns: seq<Turn>, at: seq<nat>)
    requires PickedAt(part, turns, at) && SameMessages(r, part)
    ensures PlacedAt(r, turns, at)
  {
  }

  /** Which entries of a list are kept after shedding m of them. */
  lemma KeptIndex(at: seq<nat>, rolling: bool, m: nat, k: nat)
    requires Increasing(at) && k < |at| && (m == 0 || m + 2 <= |at|)
    ensures at[k] in Kept(at, rolling, m) <==>
            m == 0 || (if rolling then k + 2 + m < |at| || k + 2 >= |at| else k >= m)
  {
    var kept := Kept(at, rolling, m);
    if m > 0 {
      if rolling {
        if k + 2 + m < |at| { assert kept[k] == at[k]; }
        if k + 2 >= |at| { assert kept[k - m] == at[k]; }
      } else if k >= m {
        assert kept[k - m] == at[k];
      }
    }
  }

  lemma KeptEntries(turns: seq<Turn>, prior: Option<Record>, part: seq<Turn>, at: seq<nat>, rolling: bool, m: nat)
    requires AllThatEnter(turns, prior, part, at) && m <= Most(at)
    ensures var kept := Kept(at, rolling, m);
            && (forall i: nat :: i in kept ==> i < |turns| && Enters(turns, prior, i))
            && (forall i :: 0 <= i < |turns| && InFinalExchange(turns, i) ==> i in kept)
            && (forall i, k :: 0 <= i < |turns| && Enters(turns, prior, i) && i !in kept && k in kept
                               && !InFinalExchange(turns, k)
                  ==> if rolling then k < i else i < k)
            && (m == Most(at) ==> forall i: nat :: i in kept ==> InFinalExchange(turns, i))
  {
    hide InFinalExchange, IsFirst, CutFrom, PlacedAt, AllThatEnter, Kept;
    EnterFacts(turns, prior, part, at);
    var kept := Kept(at, rolling, m);
    forall i: nat | i in kept ensures i in at { KeptWithin(at, rolling, m, i); }
    forall i | 0 <= i < |turns| && InFinalExchange(turns, i) ensures i in kept {
      EndIsKept(turns, prior, part, at, rolling, m, i);
    }
    forall i, k | 0 <= i < |turns| && Enters(turns, prior, i) && i !in kept && k in kept && !InFinalExchange(turns, k)
      ensures if rolling then k < i else i < k
    {
      ShedApart(turns, prior, part, at, rolling, m, i, k);
    }
    if m == Most(at) {
      forall i: nat | i in kept ensures InFinalExchange(turns, i) {
        OnlyEndKept(turns, prior, part, at, rolling, i);
      }
    }
  }

  lemma EnterFacts(turns: seq<Turn>, prior: Option<Record>, part: seq<Turn>, at: seq<nat>)
    requires AllThatEnter(turns, prior, part, at)
    ensures Increasing(at) && (forall i: nat :: i in at <==> i < |turns| && Enters(turns, prior, i))
  {
  }

  lemma KeptWithin(at: seq<nat>, rolling: bool, m: nat, i: nat)
    requires m <= Most(at) && i in Kept(at, rolling, m)
    ensures i in at
  {
  }

  lemma EndIsKept(turns: seq<Turn>, prior: Option<Record>, part: seq<Turn>, at: seq<nat>, rolling: bool, m: nat, i: nat)
    requires AllThatEnter(turns, prior, part, at) && m <= Most(at) && i < |turns| && InFinalExchange(turns, i)
    ensures i in Kept(at, rolling, m)
  {
    hide PickedAt, CutFrom, Kept, InFinalExchange;
    EnterFacts(turns, prior, part, at);
    IsFirstInEnd(turns, i);
    assert Enters(turns, prior, i);
    var x :| 0 <= x < |at| && at[x] == i;
    FinalExchangeEntersLast(turns, prior, part, at, x);
    KeptIndex(at, rolling, m, x);
  }

  lemma IsFirstInEnd(turns: seq<Turn>, i: nat)
    requires InFinalExchange(turns, i)
    ensures IsFirst(turns, i)
  {
  }

  lemma ShedApart(turns: seq<Turn>, prior: Option<Record>, part: seq<Turn>, at: seq<nat>, rolling: bool, m: nat,
                  i: nat, k: nat)
    requires AllThatEnter(turns, prior, part, at) && m <= Most(at) && i < |turns| && Enters(turns, prior, i)
    requires i !in Kept(at, rolling, m) && k in Kept(at, rolling, m) && !InFinalExchange(turns, k)
    ensures if rolling then k < i else i < k
  {
    hide PickedAt, CutFrom, Kept, InFinalExchange, AllThatEnter, Enters;
    EnterFacts(turns, prior, part, at);
    KeptWithin(at, rolling, m, k);
    var x :| 0 <= x < |at| && at[x] == i;
    var y :| 0 <= y < |at| && at[y] == k;
    FinalExchangeEntersLast(turns, prior, part, at, y);
    KeptIndex(at, rolling, m, x);
    KeptIndex(at, rolling, m, y);
  }

  lemma OnlyEndKept(turns: seq<Turn>, prior: Option<Record>, part: seq<Turn>, at: seq<nat>, rolling: bool, i: nat)
    requires AllThatEnter(turns, prior, part, at) && i in Kept(at, rolling, Most(at))
    ensures InFinalExchange(turns, i)
  {
    hide PickedAt, CutFrom, Kept, InFinalExchange, AllThatEnter, Enters;
    EnterFacts(turns, prior, part, at);
    KeptWithin(at, rolling, Most(at), i);
    var x :| 0 <= x < |at| && at[x] == i;
    FinalExchangeEntersLast(turns, prior, part, at, x);
    KeptIndex(at, rolling, Most(at), x);
  }

  /**
   * What a prompt holds, told from the conversation, the prior summary and the counter alone:
   * everything that enters when that fits; else a part of it that sheds one end.
   */
  lemma BoundedInputSends(c: Counter, l: Limits, turns: seq<Turn>, previous: Option<Record>)
    requires turns != []
    ensures Initial(turns, previous) != []
    ensures var r := Shrink(c, l, Initial(turns, previous), previous);
            SendsWhatEnters(c, l, turns, previous, r)
  {
    hide AllThatEnter, Sends, Shrink, Initial, Kept, SameMessages, Within, EndsWith, DistinctIds;
    BoundedInputIsSound(c, l, turns, previous);
    InitialIsNotEmpty(turns, previous);
    var initial := Initial(turns, previous);
    var r := Shrink(c, l, initial, previous);
    var at := EnteringTurns(turns, previous);
    SentWhole(c, l, initial, previous);
    var shed := ShrinkSheds(c, l, initial, previous, 0);
    NothingShed(initial, l.rolling);
    if r.Prompt? { SendsAfterShedding(l.rolling, turns, previous, initial, at, shed, r); }
  }

  lemma SentWhole(c: Counter, l: Limits, initial: seq<Turn>, prior: Option<Record>)
    requires initial != []
    ensures Fits(c, l, initial, prior) ==> Shrink(c, l, initial, prior) == Prompt(initial, prior)
  {
  }

  lemma NothingShed(initial: seq<Turn>, rolling: bool)
    ensures Kept(initial, rolling, 0) == initial && 0 <= Most(initial)
  {
  }

  lemma SendsAfterShedding(rolling: bool, turns: seq<Turn>, prior: Option<Record>, initial: seq<Turn>, at: seq<nat>,
                           shed: nat, r: Bounded)
    requires AllThatEnter(turns, prior, initial, at) && shed <= Most(initial) && r.Prompt?
    requires || r == Prompt(Kept(initial, rolling, shed), prior)
             || (&& r.prior == None && shed == Most(initial)
                 && SameMessages(r.turns, Kept(initial, rolling, Most(initial))))
    ensures |at| == |initial| && Sends(rolling, turns, prior, r, Kept(at, rolling, shed))
  {
    hide Kept, CutFrom, Enters, InFinalExchange, Increasing, SameMessages;
    KeptEntries(turns, prior, initial, at, rolling, shed);
    KeptPicked(initial, turns, at, rolling, shed);
    SameAsItself(Kept(initial, rolling, shed));
    SamePlaced(r.turns, Kept(initial, rolling, shed), turns, Kept(at, rolling, shed));
  }
}
