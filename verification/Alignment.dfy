// Turning transcript snapshots into events: each snapshot is aligned with the saved tail, and
// event ids are a hash chain over the items, so they must not depend on how the transcript
// was cut into snapshots.
module Alignment {

  datatype Option<+T> = None | Some(value: T)

  // ----- where the saved tail ends in a snapshot ---------------------------------

  function Suffix(s: seq<nat>, size: nat): seq<nat>
    requires size <= |s|
  {
    s[|s| - size..]
  }

  predicate OccursAt(current: seq<nat>, needle: seq<nat>, at: nat) {
    at + |needle| <= |current| && current[at..at + |needle|] == needle
  }

  /** The positions below a bound at which the needle occurs, in order. */
  function Occurrences(current: seq<nat>, needle: seq<nat>, below: nat): (found: seq<nat>)
    ensures forall k: nat :: k in found <==> k < below && OccursAt(current, needle, k)
    ensures forall i, j :: 0 <= i < j < |found| ==> found[i] < found[j]
  {
    if below == 0 then []
    else
      var before := Occurrences(current, needle, below - 1);
      assert forall i :: 0 <= i < |before| ==> before[i] in before;
      if OccursAt(current, needle, below - 1) then before + [below - 1] else before
  }

  function Matches(previous: seq<nat>, current: seq<nat>, size: nat): seq<nat>
    requires size <= |previous| && size <= |current|
  {
    Occurrences(current, Suffix(previous, size), |current| - size + 1)
  }

  function AlignFrom(previous: seq<nat>, current: seq<nat>, size: nat): (start: Option<nat>)
    requires size <= |previous| && size <= |current|
    ensures start.Some? ==> start.value <= |current|
  {
    if size == 0 then None
    else
      var matches := Matches(previous, current, size);
      assert |matches| > 0 ==> matches[0] in matches;
      if |matches| == 1 then Some(matches[0] + size)
      else if |matches| > 1 then None
      else AlignFrom(previous, current, size - 1)
  }

  function Longest(previous: seq<nat>, current: seq<nat>): nat {
    if |previous| < |current| then |previous| else |current|
  }

  function Align(previous: seq<nat>, current: seq<nat>): (start: Option<nat>)
    ensures start.Some? ==> start.value <= |current|
  {
    if previous == [] then Some(|current|) else AlignFrom(previous, current, Longest(previous, current))
  }

  method FindAll(current: seq<nat>, needle: seq<nat>) returns (matches: seq<nat>)
    requires |needle| <= |current|
    ensures matches == Occurrences(current, needle, |current| - |needle| + 1)
  {
    matches := [];
    for index := 0 to |current| - |needle| + 1
      invariant matches == Occurrences(current, needle, index)
    {
      if current[index..index + |needle|] == needle { matches := matches + [index]; }
    }
  }

  method AlignTail(previous: seq<nat>, current: seq<nat>) returns (start: Option<nat>)
    ensures start == Align(previous, current)
  {
    hide Occurrences;
    if previous == [] { return Some(|current|); }
    var size: nat := Longest(previous, current);
    while size > 0
      invariant size <= |previous| && size <= |current|
      invariant AlignFrom(previous, current, size) == Align(previous, current)
    {
      var matches := FindAll(current, previous[|previous| - size..]);
      if |matches| == 1 { return Some(matches[0] + size); }
      if |matches| > 1 { return None; }
      size := size - 1;
    }
    return None;
  }

  /** Some suffix of this size of the saved tail is in the snapshot. */
  ghost predicate SuffixOccurs(previous: seq<nat>, current: seq<nat>, size: nat) {
    size <= |previous| && exists at: nat :: OccursAt(current, Suffix(previous, size), at)
  }

  ghost predicate OccursOnceAt(previous: seq<nat>, current: seq<nat>, size: nat, at: nat) {
    && size <= |previous| && OccursAt(current, Suffix(previous, size), at)
    && forall k: nat :: OccursAt(current, Suffix(previous, size), k) ==> k == at
  }

  ghost predicate IsLongestOccurring(previous: seq<nat>, current: seq<nat>, size: nat) {
    && 0 < size && SuffixOccurs(previous, current, size)
    && forall n: nat :: n > size ==> !SuffixOccurs(previous, current, n)
  }

  lemma MatchesAreOccurrences(previous: seq<nat>, current: seq<nat>, size: nat)
    requires 0 < size <= |previous| && size <= |current|
    ensures Matches(previous, current, size) != [] <==> SuffixOccurs(previous, current, size)
    ensures |Matches(previous, current, size)| == 1 ==>
              OccursOnceAt(previous, current, size, Matches(previous, current, size)[0])
    ensures |Matches(previous, current, size)| > 1 ==> forall at: nat :: !OccursOnceAt(previous, current, size, at)
  {
    var matches := Matches(previous, current, size);
    forall at: nat | OccursAt(current, Suffix(previous, size), at) ensures at in matches {}
    if matches != [] { assert matches[0] in matches; }
    if |matches| > 1 { assert matches[1] in matches && matches[0] in matches && matches[0] != matches[1]; }
    if |matches| == 1 {
      forall k: nat | OccursAt(current, Suffix(previous, size), k) ensures k == matches[0] { assert k in matches; }
    }
  }

  /** The longest occurring suffix of the tail occurs once, and ends here. */
  ghost predicate AlignedAt(previous: seq<nat>, current: seq<nat>, start: nat) {
    exists n: nat, at: nat ::
      IsLongestOccurring(previous, current, n) && OccursOnceAt(previous, current, n, at) && start == at + n
  }

  lemma LongestIsUnique(previous: seq<nat>, current: seq<nat>, n: nat, m: nat)
    requires IsLongestOccurring(previous, current, n) && IsLongestOccurring(previous, current, m)
    ensures n == m
  {
  }

  lemma {:induction false} AlignFromIsLongest(previous: seq<nat>, current: seq<nat>, size: nat, start: nat)
    requires size <= |previous| && size <= |current|
    requires forall n: nat :: n > size ==> !SuffixOccurs(previous, current, n)
    ensures AlignFrom(previous, current, size) == Some(start) <==> AlignedAt(previous, current, start)
  {
    hide SuffixOccurs, OccursOnceAt;
    if size == 0 {
    } else {
      MatchesAreOccurrences(previous, current, size);
      var matches := Matches(previous, current, size);
      if matches == [] {
        AlignFromIsLongest(previous, current, size - 1, start);
      } else {
        assert IsLongestOccurring(previous, current, size);
        OnlyThisSize(previous, current, size, start);
        if |matches| == 1 { OnceAtOnePlace(previous, current, size, matches[0]); }
      }
    }
  }

  lemma OnceAtOnePlace(previous: seq<nat>, current: seq<nat>, n: nat, at: nat)
    requires OccursOnceAt(previous, current, n, at)
    ensures forall k: nat :: OccursOnceAt(previous, current, n, k) ==> k == at
  {
  }

  lemma OnlyThisSize(previous: seq<nat>, current: seq<nat>, size: nat, start: nat)
    requires IsLongestOccurring(previous, current, size)
    ensures AlignedAt(previous, current, start) <==>
            start >= size && OccursOnceAt(previous, current, size, start - size)
  {
    if AlignedAt(previous, current, start) {
      var n: nat, at: nat :|
        IsLongestOccurring(previous, current, n) && OccursOnceAt(previous, current, n, at) && start == at + n;
      LongestIsUnique(previous, current, n, size);
    }
  }

  /** The alignment is found exactly when the longest occurring suffix of the tail occurs once. */
  lemma AlignIsLongestUnique(previous: seq<nat>, current: seq<nat>, start: nat)
    requires previous != []
    ensures Align(previous, current) == Some(start) <==> AlignedAt(previous, current, start)
  {
    forall n: nat | n > Longest(previous, current) ensures !SuffixOccurs(previous, current, n) {}
    AlignFromIsLongest(previous, current, Longest(previous, current), start);
  }

  // ----- windows of a growing transcript ---------------------------------------------

  ghost predicate Distinct(s: seq<nat>) {
    forall i, j :: 0 <= i < j < |s| ==> s[i] != s[j]
  }

  /** The tail saved at position n and the window that starts at a share this many items. */
  function Overlap(tail: seq<nat>, n: nat, a: nat): nat {
    if n <= a then 0 else if |tail| < n - a then |tail| else n - a
  }

  /** A tail that ends at n and a window that runs from a to the present end of the transcript. */
  ghost predicate Views(all: seq<nat>, tail: seq<nat>, n: nat, a: nat) {
    && tail != [] && |tail| <= n <= |all| && a <= |all|
    && tail == all[n - |tail|..n]
  }

  lemma SuffixIsSlice(all: seq<nat>, tail: seq<nat>, n: nat, a: nat, size: nat)
    requires Views(all, tail, n, a) && size <= |tail|
    ensures Suffix(tail, size) == all[n - size..n]
  {
  }

  /** The shared items do occur where they should. */
  lemma OverlapOccurs(all: seq<nat>, tail: seq<nat>, n: nat, a: nat)
    requires Views(all, tail, n, a) && a < n
    ensures OccursAt(all[a..], Suffix(tail, Overlap(tail, n, a)), n - a - Overlap(tail, n, a))
  {
    hide Suffix;
    var o := Overlap(tail, n, a);
    SuffixIsSlice(all, tail, n, a, o);
    SliceOfDrop(all, a, n - a - o, n - a);
  }

  lemma SliceOfDrop(s: seq<nat>, drop: nat, i: nat, j: nat)
    requires i <= j && drop + j <= |s|
    ensures s[drop..][i..j] == s[drop + i..drop + j]
  {
  }

  /**
   * Without any assumption on repeats: the first new item is found exactly when no longer
   * suffix of the tail occurs in the window and the shared items occur in it only once.
   */
  lemma AlignIsRightIff(all: seq<nat>, tail: seq<nat>, n: nat, a: nat)
    requires Views(all, tail, n, a) && a < n
    ensures var o := Overlap(tail, n, a);
            Align(tail, all[a..]) == Some(n - a) <==>
            IsLongestOccurring(tail, all[a..], o) && OccursOnceAt(tail, all[a..], o, n - a - o)
  {
    hide Align, AlignedAt, OccursAt, Suffix, IsLongestOccurring, OccursOnceAt;
    var o, current := Overlap(tail, n, a), all[a..];
    OverlapOccurs(all, tail, n, a);
    AlignIsLongestUnique(tail, current, n - a);
    RightEndIff(tail, current, n - a, o);
  }

  lemma RightEndIff(tail: seq<nat>, current: seq<nat>, end: nat, o: nat)
    requires 0 < o == (if |tail| < end then |tail| else end)
    requires OccursAt(current, Suffix(tail, o), end - o)
    ensures AlignedAt(tail, current, end) <==>
            IsLongestOccurring(tail, current, o) && OccursOnceAt(tail, current, o, end - o)
  {
    hide OccursAt, Suffix;
    assert SuffixOccurs(tail, current, o);
    if AlignedAt(tail, current, end) {
      var k: nat, at: nat :|
        IsLongestOccurring(tail, current, k) && OccursOnceAt(tail, current, k, at) && end == at + k;
      assert o <= k;
    }
  }

  /** With distinct fingerprints an occurrence is where the items really are. */
  lemma OccursWhereItIs(all: seq<nat>, tail: seq<nat>, n: nat, a: nat, size: nat, at: nat)
    requires Views(all, tail, n, a) && Distinct(all) && 0 < size <= |tail|
    requires OccursAt(all[a..], Suffix(tail, size), at)
    ensures a + at + size == n
  {
    SuffixIsSlice(all, tail, n, a, size);
    assert all[a..][at..at + size][size - 1] == all[a + at + size - 1];
    assert all[n - size..n][size - 1] == all[n - 1];
  }

  lemma DistinctOverlapAligns(all: seq<nat>, tail: seq<nat>, n: nat, a: nat)
    requires Views(all, tail, n, a) && Distinct(all) && a < n
    ensures Align(tail, all[a..]) == Some(n - a)
  {
    hide Align, Distinct, OccursAt, Suffix;
    var o, current := Overlap(tail, n, a), all[a..];
    forall size: nat, at: nat | 0 < size <= |tail| && OccursAt(current, Suffix(tail, size), at)
      ensures a + at + size == n
    {
      OccursWhereItIs(all, tail, n, a, size, at);
    }
    OverlapOccurs(all, tail, n, a);
    AlignIsRightIff(all, tail, n, a);
    assert OccursOnceAt(tail, current, o, n - a - o);
    assert SuffixOccurs(tail, current, o);
  }

  lemma DistinctGapPauses(all: seq<nat>, tail: seq<nat>, n: nat, a: nat)
    requires Views(all, tail, n, a) && Distinct(all) && n <= a
    ensures Align(tail, all[a..]) == None
  {
    hide Align, Distinct, OccursAt, Suffix;
    var current := all[a..];
    forall size: nat | size > 0 ensures !SuffixOccurs(tail, current, size) {
      forall at: nat | size <= |tail| ensures !OccursAt(current, Suffix(tail, size), at) {
        if OccursAt(current, Suffix(tail, size), at) { OccursWhereItIs(all, tail, n, a, size, at); }
      }
    }
    forall start: nat ensures Align(tail, current) != Some(start) {
      AlignIsLongestUnique(tail, current, start);
    }
  }

  /** Distinct fingerprints: an overlapping window aligns at the first new item, any other pauses. */
  lemma DistinctAligns(all: seq<nat>, tail: seq<nat>, n: nat, a: nat)
    requires Views(all, tail, n, a) && Distinct(all)
    ensures Align(tail, all[a..]) == if a < n then Some(n - a) else None
  {
    if a < n { DistinctOverlapAligns(all, tail, n, a); } else { DistinctGapPauses(all, tail, n, a); }
  }

  /** With a repeated item an overlapping window can align too late, and new items are lost. */
  lemma RepeatLosesItems()
    ensures exists all, tail, n: nat, a: nat ::
      Views(all, tail, n, a) && a < n && Align(tail, all[a..]).Some? && Align(tail, all[a..]).value > n - a
  {
    var all, tail := [1, 2, 1, 2], [1, 2];
    var current := all[1..];
    assert current == [2, 1, 2];
    assert Views(all, tail, 2, 1);
    assert OccursAt(current, Suffix(tail, 2), 1) by { assert current[1..3] == [1, 2]; }
    assert !OccursAt(current, Suffix(tail, 2), 0) by { assert current[0..2][0] == 2; }
    assert OccursOnceAt(tail, current, 2, 1);
    assert IsLongestOccurring(tail, current, 2);
    AlignIsLongestUnique(tail, current, 3);
    assert AlignedAt(tail, current, 3);
  }

  // ----- events -------------------------------------------------------------------------

  datatype Item = Item(isSelf: bool, sender: Option<nat>, text: string, structure: nat)

  /** Fingerprints and the chain hash are functions of what they are computed from. */
  datatype Hashing = Hashing(item: Item -> nat, link: (nat, nat) -> nat)

  datatype Event = Event(target: nat, chain: nat, sender: nat, text: string)

  datatype Cursor = Cursor(tail: seq<nat>, chain: nat)

  const GENESIS := Cursor([], 0)
  const TAIL: nat := 100

  function Fingerprints(h: Hashing, items: seq<Item>): (fps: seq<nat>)
    ensures |fps| == |items| && forall i :: 0 <= i < |items| ==> fps[i] == h.item(items[i])
  {
    if items == [] then [] else Fingerprints(h, items[..|items| - 1]) + [h.item(items[|items| - 1])]
  }

  function Chained(h: Hashing, chain: nat, items: seq<Item>): nat {
    if items == [] then chain
    else h.link(Chained(h, chain, items[..|items| - 1]), h.item(items[|items| - 1]))
  }

  lemma NothingEmitted(h: Hashing, target: nat, chain: nat, items: seq<Item>)
    requires items == []
    ensures Chained(h, chain, items) == chain && Emitted(h, target, chain, items) == []
  {
  }

  lemma EmittedStep(h: Hashing, target: nat, chain: nat, items: seq<Item>, i: nat)
    requires i < |items|
    ensures Chained(h, chain, items[..i + 1]) == h.link(Chained(h, chain, items[..i]), h.item(items[i]))
    ensures Emitted(h, target, chain, items[..i + 1])
            == Emitted(h, target, chain, items[..i])
               + if items[i].isSelf then [] else [EventOf(target, Chained(h, chain, items[..i + 1]), items[i])]
  {
    assert items[..i + 1][..i] == items[..i];
  }

  predicate Proven(group: bool, item: Item) { item.isSelf || !group || item.sender.Some? }

  function EventOf(target: nat, chain: nat, item: Item): Event {
    Event(target, chain, if item.sender.Some? then item.sender.value else target, item.text)
  }

  /** Own messages only advance the chain. */
  function Emitted(h: Hashing, target: nat, chain: nat, items: seq<Item>): seq<Event> {
    if items == [] then []
    else
      var before, last := items[..|items| - 1], items[|items| - 1];
      Emitted(h, target, chain, before)
      + if last.isSelf then [] else [EventOf(target, Chained(h, chain, items), last)]
  }

  /** The items up to the first whose group sender is unproven. */
  function ProvenPrefix(group: bool, items: seq<Item>): (n: nat)
    ensures n <= |items|
    ensures forall i :: 0 <= i < n ==> Proven(group, items[i])
    ensures n < |items| ==> !Proven(group, items[n])
  {
    if items == [] || !Proven(group, items[0]) then 0 else 1 + ProvenPrefix(group, items[1..])
  }

  function LastFew(fps: seq<nat>): (tail: seq<nat>)
    ensures |tail| <= TAIL && |tail| <= |fps|
  {
    if |fps| <= TAIL then fps else fps[|fps| - TAIL..]
  }

  datatype Reason = Unenrolled | IdentityMismatch | Ambiguous | SenderUnproven

  datatype Handled = Handled(events: seq<Event>, cursor: Cursor, paused: Option<Reason>)

  /** One snapshot: align, emit from the first new item on, and save only if all of it was emitted. */
  function Handle(h: Hashing, target: nat, group: bool, cursor: Cursor, items: seq<Item>): Handled {
    var start := Align(cursor.tail, Fingerprints(h, items));
    if start.None? then Handled([], cursor, Some(Ambiguous))
    else
      var news := items[start.value..];
      var n := ProvenPrefix(group, news);
      var events := Emitted(h, target, cursor.chain, news[..n]);
      if n < |news| then Handled(events, cursor, Some(SenderUnproven))
      else Handled(events, Cursor(LastFew(Fingerprints(h, items)), Chained(h, cursor.chain, news)), None)
  }

  datatype Target = Target(group: bool, header: nat)

  datatype Snapshot = Snapshot(target: nat, group: bool, header: nat, items: seq<Item>)

  class AtspiObserveConnector {
    const h: Hashing
    const enrollment: map<nat, Target>
    const allowed: set<nat>
    var cursors: map<nat, Cursor>
    var paused: Option<Reason>

    constructor (h: Hashing, enrollment: map<nat, Target>, allowed: set<nat>, saved: map<nat, Cursor>)
      requires allowed != {} && allowed <= enrollment.Keys
      ensures this.h == h && this.enrollment == enrollment && this.allowed == allowed
      ensures cursors == saved && paused == None
    {
      this.h, this.enrollment, this.allowed := h, enrollment, allowed;
      cursors, paused := saved, None;
    }

    function CursorOf(target: nat): Cursor
      reads this
    {
      if target in cursors then cursors[target] else GENESIS
    }

    predicate Identified(s: Snapshot) {
      s.target in enrollment && s.target in allowed
      && enrollment[s.target] == Target(s.group, s.header)
    }

    /** A snapshot of an unknown or changed target only pauses; any other is handled from its cursor. */
    method OnSnapshot(s: Snapshot) returns (events: seq<Event>)
      modifies this
      ensures !Identified(s) ==>
                events == [] && unchanged(this`cursors)
                && paused == Some(if s.target in enrollment && s.target in allowed
                                  then IdentityMismatch else Unenrolled)
      ensures Identified(s) ==>
                Handled(events, CursorOf(s.target), paused)
                == Handle(h, s.target, s.group, old(CursorOf(s.target)), s.items)
      ensures forall t :: t != s.target ==> CursorOf(t) == old(CursorOf(t))
    {
      hide Handle;
      events := [];
      if s.target !in enrollment || s.target !in allowed {
        paused := Some(Unenrolled);
      } else if s.group != enrollment[s.target].group || s.header != enrollment[s.target].header {
        paused := Some(IdentityMismatch);
      } else {
        var cursor := if s.target in cursors then cursors[s.target] else GENESIS;
        cursors := cursors[s.target := cursor];
        var handled := HandleItems(s, cursor);
        events, paused := handled.events, handled.paused;
        cursors := cursors[s.target := handled.cursor];
      }
    }

    method HandleItems(s: Snapshot, cursor: Cursor) returns (handled: Handled)
      ensures handled == Handle(h, s.target, s.group, cursor, s.items)
    {
      hide Align, Emitted, Chained, Fingerprints, LastFew;
      var fps := Fingerprints(h, s.items);
      var start := AlignTail(cursor.tail, fps);
      if start.None? { return Handled([], cursor, Some(Ambiguous)); }
      var chain, events, complete := EmitNew(s, start.value, cursor.chain);
      if !complete { return Handled(events, cursor, Some(SenderUnproven)); }
      assert s.items[start.value..][..|s.items| - start.value] == s.items[start.value..];
      return Handled(events, Cursor(LastFew(fps), chain), None);
    }

    /** The loop over the new items: the chain covers every item, events only the others' messages. */
    method EmitNew(s: Snapshot, start: nat, chain0: nat) returns (chain: nat, events: seq<Event>, complete: bool)
      requires start <= |s.items|
      ensures var news := s.items[start..]; var n := ProvenPrefix(s.group, news);
              && events == Emitted(h, s.target, chain0, news[..n]) && complete == (n == |news|)
              && (n == |news| ==> chain == Chained(h, chain0, news))
    {
      hide Emitted, Chained, ProvenPrefix;
      var news := s.items[start..];
      chain, events := chain0, [];
      NothingEmitted(h, s.target, chain0, news[..0]);
      for i := 0 to |news|
        invariant chain == Chained(h, chain0, news[..i])
        invariant events == Emitted(h, s.target, chain0, news[..i])
        invariant forall k :: 0 <= k < i ==> Proven(s.group, news[k])
      {
        var item := news[i];
        EmittedStep(h, s.target, chain0, news, i);
        chain := h.link(chain, h.item(item));
        if item.isSelf { continue; }
        if s.group && item.sender.None? {
          PrefixEndsAt(s.group, news, i);
          return chain, events, false;
        }
        events := events + [EventOf(s.target, chain, item)];
      }
      AllProven(s.group, news);
      return chain, events, true;
    }
  }

  lemma PrefixEndsAt(group: bool, items: seq<Item>, i: nat)
    requires i < |items| && !Proven(group, items[i])
    requires forall k :: 0 <= k < i ==> Proven(group, items[k])
    ensures ProvenPrefix(group, items) == i
  {
  }

  // ----- what one snapshot does -------------------------------------------------------------

  /** The chain before the first item and after each one, every item a link of it. */
  ghost predicate Links(h: Hashing, chain: nat, items: seq<Item>, chains: seq<nat>) {
    && |chains| == |items| + 1 && chains[0] == chain
    && forall k :: 0 <= k < |items| ==> chains[k + 1] == h.link(chains[k], h.item(items[k]))
  }

  /** The events are, in order, those of exactly the others' messages, each with the chain up to it. */
  ghost predicate EventsAt(target: nat, items: seq<Item>, chains: seq<nat>, at: seq<nat>, events: seq<Event>)
    requires |chains| == |items| + 1
  {
    && |at| == |events|
    && (forall i :: 0 <= i < |at| ==> at[i] < |items| && !items[at[i]].isSelf
                                      && Tells(target, items[at[i]], chains[at[i] + 1], events[i]))
    && (forall i, j :: 0 <= i < j < |at| ==> at[i] < at[j])
    && (forall k :: 0 <= k < |items| && !items[k].isSelf ==> k in at)
  }

  ghost predicate Tells(target: nat, item: Item, chain: nat, event: Event) {
    && event.target == target && event.chain == chain && event.text == item.text
    && event.sender == (match item.sender case Some(sender) => sender case None => target)
  }

  lemma LinksStep(h: Hashing, chain: nat, items: seq<Item>, chains: seq<nat>, item: Item)
    requires Links(h, chain, items, chains)
    ensures Links(h, chain, items + [item], chains + [h.link(chains[|items|], h.item(item))])
  {
  }

  lemma EventsStep(target: nat, items: seq<Item>, chains: seq<nat>, at: seq<nat>, events: seq<Event>, item: Item,
                   next: nat)
    requires |chains| == |items| + 1 && EventsAt(target, items, chains, at, events)
    ensures item.isSelf ==> EventsAt(target, items + [item], chains + [next], at, events)
    ensures !item.isSelf ==> EventsAt(target, items + [item], chains + [next], at + [|items|],
                                      events + [EventOf(target, next, item)])
  {
    var more := at + [|items|];
    assert more[|at|] == |items|;
    forall k | 0 <= k < |items| && !items[k].isSelf ensures k in more {
      var i :| 0 <= i < |at| && at[i] == k;
      assert more[i] == k;
    }
  }

  lemma {:induction false} EmittedTells(h: Hashing, target: nat, chain: nat, items: seq<Item>)
    returns (chains: seq<nat>, at: seq<nat>)
    ensures Links(h, chain, items, chains) && chains[|items|] == Chained(h, chain, items)
    ensures EventsAt(target, items, chains, at, Emitted(h, target, chain, items))
  {
    hide EventsAt, EventOf;
    if items == [] {
      chains, at := [chain], [];
      NothingTold(target, chains);
    } else {
      var n := |items| - 1;
      var before, last := items[..n], items[n];
      assert items == before + [last];
      chains, at := EmittedTells(h, target, chain, before);
      var events, next := Emitted(h, target, chain, before), Chained(h, chain, items);
      EventsStep(target, before, chains, at, events, last, next);
      LinksStep(h, chain, before, chains, last);
      chains := chains + [next];
      assert events + [] == events;
      if !last.isSelf { at := at + [n]; }
    }
  }

  lemma NothingTold(target: nat, chains: seq<nat>)
    requires |chains| == 1
    ensures EventsAt(target, [], chains, [], [])
  {
  }

  /** The sender of another member's message in a group has to be known. */
  ghost predicate StopsAt(group: bool, items: seq<Item>, start: nat, stop: nat) {
    && start <= stop <= |items|
    && (stop < |items| ==> group && !items[stop].isSelf && items[stop].sender.None?)
    && forall k :: start <= k < stop ==> items[k].isSelf || !group || items[k].sender.Some?
  }

  ghost predicate SavesLast(h: Hashing, items: seq<Item>, tail: seq<nat>) {
    && |tail| == (if |items| < 100 then |items| else 100)
    && forall i :: 0 <= i < |tail| ==> tail[i] == h.item(items[|items| - |tail| + i])
  }

  /** The events of the items from the alignment to where handling stops, and the chain there. */
  ghost predicate Emits(h: Hashing, target: nat, chain: nat, items: seq<Item>, events: seq<Event>, end: nat) {
    exists chains: seq<nat>, at: seq<nat> ::
      Links(h, chain, items, chains) && EventsAt(target, items, chains, at, events) && chains[|items|] == end
  }

  ghost predicate Does(h: Hashing, target: nat, cursor: Cursor, items: seq<Item>, start: nat, stop: nat, r: Handled)
    requires start <= stop <= |items|
  {
    if stop < |items| then
      && r.cursor == cursor && r.paused == Some(SenderUnproven)
      && exists end: nat :: Emits(h, target, cursor.chain, items[start..stop], r.events, end)
    else
      && SavesLast(h, items, r.cursor.tail) && r.paused == None
      && Emits(h, target, cursor.chain, items[start..stop], r.events, r.cursor.chain)
  }

  /**
   * One snapshot: with no alignment nothing is emitted; a message that lacks its sender pauses
   * with the events before it and keeps the cursor; otherwise all new items are in the chain,
   * the others' messages are emitted, and the last hundred items are saved.
   */
  lemma SnapshotOutcome(h: Hashing, target: nat, group: bool, cursor: Cursor, items: seq<Item>)
    ensures var r := Handle(h, target, group, cursor, items);
            match Align(cursor.tail, Fingerprints(h, items))
            case None => r == Handled([], cursor, Some(Ambiguous))
            case Some(start) =>
              exists stop: nat :: StopsAt(group, items, start, stop) && Does(h, target, cursor, items, start, stop, r)
  {
    hide *;
    var aligned := Align(cursor.tail, Fingerprints(h, items));
    if aligned.Some? {
      var start := aligned.value;
      var stop := HandlingStops(group, items, start);
      HandlingDoes(h, target, group, cursor, items, start, stop);
    } else {
      Unaligned(h, target, group, cursor, items);
    }
  }

  lemma Unaligned(h: Hashing, target: nat, group: bool, cursor: Cursor, items: seq<Item>)
    requires Align(cursor.tail, Fingerprints(h, items)).None?
    ensures Handle(h, target, group, cursor, items) == Handled([], cursor, Some(Ambiguous))
  {
  }

  lemma HandlingStops(group: bool, items: seq<Item>, start: nat) returns (stop: nat)
    requires start <= |items|
    ensures stop == start + ProvenPrefix(group, items[start..]) && StopsAt(group, items, start, stop)
  {
    var news := items[start..];
    stop := start + ProvenPrefix(group, news);
    forall k | start <= k < stop ensures Proven(group, items[k]) { assert items[k] == news[k - start]; }
    assert stop < |items| ==> items[stop] == news[stop - start];
  }

  lemma HandlingDoes(h: Hashing, target: nat, group: bool, cursor: Cursor, items: seq<Item>, start: nat, stop: nat)
    requires Align(cursor.tail, Fingerprints(h, items)) == Some(start) && start <= |items|
    requires stop == start + ProvenPrefix(group, items[start..])
    ensures stop <= |items| && Does(h, target, cursor, items, start, stop, Handle(h, target, group, cursor, items))
  {
    hide Align, Emitted, Chained, EventsAt, Links, ProvenPrefix, Proven, Emits, SavesLast, LastFew, Fingerprints;
    ProvenWithin(group, items[start..]);
    LastFewAreSaved(h, items);
    var done := items[start..stop];
    assert done == items[start..][..stop - start];
    var chains, at := EmittedTells(h, target, cursor.chain, done);
    if stop == |items| { assert done == items[start..]; }
    EmitsThis(h, target, cursor.chain, done, chains, at);
    assert items[start..][..|items| - start] == items[start..];
  }

  lemma LastFewAreSaved(h: Hashing, items: seq<Item>)
    ensures SavesLast(h, items, LastFew(Fingerprints(h, items)))
  {
    var fps := Fingerprints(h, items);
    hide Fingerprints;
    var drop := if |fps| <= TAIL then 0 else |fps| - TAIL;
    assert LastFew(fps) == fps[drop..];
    forall i | 0 <= i < |fps| - drop ensures LastFew(fps)[i] == h.item(items[drop + i]) {
      assert fps[drop..][i] == fps[drop + i];
    }
  }

  lemma ProvenWithin(group: bool, items: seq<Item>)
    ensures ProvenPrefix(group, items) <= |items|
  {
  }

  lemma EmitsThis(h: Hashing, target: nat, chain: nat, items: seq<Item>, chains: seq<nat>, at: seq<nat>)
    requires Links(h, chain, items, chains) && chains[|items|] == Chained(h, chain, items)
    requires EventsAt(target, items, chains, at, Emitted(h, target, chain, items))
    ensures Emits(h, target, chain, items, Emitted(h, target, chain, items), Chained(h, chain, items))
  {
  }

  // ----- the same events however the transcript was cut -----------------------------------

  /** A snapshot as a window of the transcript: from one position up to its end at the time. */
  datatype Window = Window(from: nat, to: nat)

  ghost predicate Fair(transcript: seq<Item>, w: Window) {
    w.from < w.to <= |transcript|
  }

  /** Windows end ever later, and each one still shows the last item of the one before. */
  ghost predicate Overlapping(transcript: seq<Item>, windows: seq<Window>) {
    && (forall i :: 0 <= i < |windows| ==> Fair(transcript, windows[i]))
    && (forall i :: 0 < i < |windows| ==> windows[i].from < windows[i - 1].to <= windows[i].to)
  }

  /** What a connector emits over a sequence of windows, and the cursor it is left with. */
  function Observed(h: Hashing, target: nat, group: bool, transcript: seq<Item>, windows: seq<Window>)
    : (seq<Event>, Cursor)
  {
    if windows == [] then ([], GENESIS)
    else
      var (events, cursor) := Observed(h, target, group, transcript, windows[..|windows| - 1]);
      var w := windows[|windows| - 1];
      if w.from <= w.to <= |transcript| then
        var r := Handle(h, target, group, cursor, transcript[w.from..w.to]);
        (events + r.events, r.cursor)
      else (events, cursor)
  }

  lemma {:induction false} EmittedAppends(h: Hashing, target: nat, chain: nat, a: seq<Item>, b: seq<Item>)
    ensures Chained(h, chain, a + b) == Chained(h, Chained(h, chain, a), b)
    ensures Emitted(h, target, chain, a + b)
            == Emitted(h, target, chain, a) + Emitted(h, target, Chained(h, chain, a), b)
  {
    if b == [] {
      assert a + b == a;
    } else {
      var n := |b| - 1;
      EmittedAppends(h, target, chain, a, b[..n]);
      assert (a + b)[..|a + b| - 1] == a + b[..n] && (a + b)[|a + b| - 1] == b[n];
    }
  }

  lemma AllProven(group: bool, items: seq<Item>)
    requires forall i :: 0 <= i < |items| ==> Proven(group, items[i])
    ensures ProvenPrefix(group, items) == |items| && items[..|items|] == items
  {
  }

  /** The cursor after a window: the chain since the baseline, and the last items of the window. */
  ghost predicate CursorAt(h: Hashing, transcript: seq<Item>, base: nat, w: Window, cursor: Cursor) {
    && base <= w.to <= |transcript| && w.from <= w.to
    && cursor.tail == SavedTail(h, transcript, w)
    && cursor.chain == Chained(h, GENESIS.chain, transcript[base..w.to])
  }

  lemma FingerprintsOfWindow(h: Hashing, transcript: seq<Item>, w: Window)
    requires Fair(transcript, w)
    ensures Fingerprints(h, transcript[w.from..w.to]) == Fingerprints(h, transcript)[w.from..w.to]
  {
  }

  lemma TailIsView(h: Hashing, transcript: seq<Item>, w: Window)
    requires Fair(transcript, w)
    ensures Views(Fingerprints(h, transcript), LastFew(Fingerprints(h, transcript[w.from..w.to])), w.to, 0)
  {
    FingerprintsOfWindow(h, transcript, w);
    TailOfSlice(Fingerprints(h, transcript), w.from, w.to);
  }

  lemma TailOfSlice(all: seq<nat>, from: nat, to: nat)
    requires from < to <= |all|
    ensures Views(all, LastFew(all[from..to]), to, 0)
  {
    var window := all[from..to];
    if |window| > TAIL { assert window[|window| - TAIL..] == all[to - TAIL..to]; }
  }

  lemma HandleWhenProven(h: Hashing, target: nat, group: bool, cursor: Cursor, items: seq<Item>, start: nat)
    requires Align(cursor.tail, Fingerprints(h, items)) == Some(start)
    requires forall i :: 0 <= i < |items| ==> Proven(group, items[i])
    ensures start <= |items|
    ensures var news := items[start..];
            Handle(h, target, group, cursor, items)
            == Handled(Emitted(h, target, cursor.chain, news),
                       Cursor(LastFew(Fingerprints(h, items)), Chained(h, cursor.chain, news)), None)
  {
    AllProven(group, items[start..]);
  }

  lemma ViewUpTo(all: seq<nat>, tail: seq<nat>, n: nat, a: nat, to: nat)
    requires Views(all, tail, n, 0) && a <= to && n <= to <= |all|
    ensures Views(all[..to], tail, n, a)
  {
    assert all[..to][n - |tail|..n] == all[n - |tail|..n];
  }

  /** The tail a window leaves behind. */
  function SavedTail(h: Hashing, transcript: seq<Item>, w: Window): seq<nat>
    requires w.from <= w.to <= |transcript|
  {
    LastFew(Fingerprints(h, transcript[w.from..w.to]))
  }

  /**
   * No longer suffix of the saved tail occurs in the next window, and the items the two share
   * occur in it only once.
   */
  ghost predicate AlignsRight(h: Hashing, transcript: seq<Item>, before: Window, w: Window)
    requires Fair(transcript, before) && Fair(transcript, w)
  {
    var tail, fps := SavedTail(h, transcript, before), Fingerprints(h, transcript[w.from..w.to]);
    var o := Overlap(tail, before.to, w.from);
    && w.from + o <= before.to
    && IsLongestOccurring(tail, fps, o) && OccursOnceAt(tail, fps, o, before.to - w.from - o)
  }

  /** Every window overlaps the one before and aligns with what that one saved. */
  ghost predicate WellCut(h: Hashing, transcript: seq<Item>, windows: seq<Window>) {
    && Overlapping(transcript, windows)
    && forall i :: 0 < i < |windows| ==> AlignsRight(h, transcript, windows[i - 1], windows[i])
  }

  /** Exactly then the alignment finds the first new item of the window. */
  lemma WindowAlignsIff(h: Hashing, transcript: seq<Item>, before: Window, w: Window)
    requires Fair(transcript, before) && Fair(transcript, w) && w.from < before.to <= w.to
    ensures AlignsRight(h, transcript, before, w) <==>
            Align(SavedTail(h, transcript, before), Fingerprints(h, transcript[w.from..w.to]))
            == Some(before.to - w.from)
  {
    hide Align, Views, Fingerprints, LastFew, IsLongestOccurring, OccursOnceAt;
    var fps, tail := Fingerprints(h, transcript), SavedTail(h, transcript, before);
    FingerprintsOfWindow(h, transcript, w);
    TailIsView(h, transcript, before);
    ViewUpTo(fps, tail, before.to, w.from, w.to);
    assert fps[w.from..w.to] == fps[..w.to][w.from..];
    AlignIsRightIff(fps[..w.to], tail, before.to, w.from);
  }

  lemma DistinctUpTo(all: seq<nat>, to: nat)
    requires Distinct(all) && to <= |all|
    ensures Distinct(all[..to])
  {
  }

  /** With distinct fingerprints overlapping windows are enough. */
  lemma DistinctIsWellCut(h: Hashing, transcript: seq<Item>, windows: seq<Window>)
    requires Distinct(Fingerprints(h, transcript)) && Overlapping(transcript, windows)
    ensures WellCut(h, transcript, windows)
  {
    hide Align, Views, Fingerprints, LastFew, AlignsRight, Distinct, SavedTail;
    var fps := Fingerprints(h, transcript);
    forall i | 0 < i < |windows| ensures AlignsRight(h, transcript, windows[i - 1], windows[i]) {
      var before, w := windows[i - 1], windows[i];
      var tail := SavedTail(h, transcript, before);
      assert Fair(transcript, before) && Fair(transcript, w);
      SavedIsView(h, transcript, before);
      FingerprintsOfWindow(h, transcript, w);
      ViewUpTo(fps, tail, before.to, w.from, w.to);
      DistinctUpTo(fps, w.to);
      assert fps[w.from..w.to] == fps[..w.to][w.from..];
      DistinctAligns(fps[..w.to], tail, before.to, w.from);
      WindowAlignsIff(h, transcript, before, w);
    }
  }

  lemma SavedIsView(h: Hashing, transcript: seq<Item>, w: Window)
    requires Fair(transcript, w)
    ensures Views(Fingerprints(h, transcript), SavedTail(h, transcript, w), w.to, 0)
  {
    TailIsView(h, transcript, w);
  }

  lemma WindowAdvances(h: Hashing, target: nat, group: bool, transcript: seq<Item>, base: nat,
                       before: Window, cursor: Cursor, w: Window)
    requires Fair(transcript, before) && CursorAt(h, transcript, base, before, cursor)
    requires Fair(transcript, w) && w.from < before.to <= w.to && AlignsRight(h, transcript, before, w)
    requires forall i :: 0 <= i < |transcript| ==> Proven(group, transcript[i])
    ensures var r := Handle(h, target, group, cursor, transcript[w.from..w.to]);
            && r.events == Emitted(h, target, cursor.chain, transcript[before.to..w.to])
            && CursorAt(h, transcript, base, w, r.cursor) && r.paused == None
  {
    hide Align, Handle, Emitted, Chained, LastFew, Proven, AlignsRight;
    var n := before.to;
    WindowAlignsIff(h, transcript, before, w);
    var items := transcript[w.from..w.to];
    HandleWhenProven(h, target, group, cursor, items, n - w.from);
    assert items[n - w.from..] == transcript[n..w.to];
    EmittedAppends(h, target, GENESIS.chain, transcript[base..n], transcript[n..w.to]);
    assert transcript[base..n] + transcript[n..w.to] == transcript[base..w.to];
  }

  lemma WellCutBefore(h: Hashing, transcript: seq<Item>, windows: seq<Window>)
    requires |windows| > 1 && WellCut(h, transcript, windows)
    ensures WellCut(h, transcript, windows[..|windows| - 1])
    ensures var before, w := windows[|windows| - 2], windows[|windows| - 1];
            && Fair(transcript, before) && Fair(transcript, w) && w.from < before.to <= w.to
            && AlignsRight(h, transcript, before, w)
  {
    hide AlignsRight;
    var front := windows[..|windows| - 1];
    forall i | 0 < i < |front| ensures AlignsRight(h, transcript, front[i - 1], front[i]) {
      assert front[i - 1] == windows[i - 1] && front[i] == windows[i];
    }
  }

  /**
   * Chunking independence: with proven senders and windows that align, repeated items or not,
   * the events after the baseline, ids included, are those of the items since the baseline,
   * whatever the windows were.
   */
  lemma {:induction false} ChunkingIndependence(
    h: Hashing, target: nat, group: bool, transcript: seq<Item>, windows: seq<Window>)
    requires windows != [] && WellCut(h, transcript, windows)
    requires forall i :: 0 <= i < |transcript| ==> Proven(group, transcript[i])
    ensures var base, last := windows[0].to, windows[|windows| - 1];
            var (events, cursor) := Observed(h, target, group, transcript, windows);
            && base <= last.to <= |transcript|
            && events == Emitted(h, target, GENESIS.chain, transcript[base..last.to])
            && CursorAt(h, transcript, base, last, cursor)
  {
    hide Handle, Emitted, Fingerprints, Proven, AlignsRight, CursorAt;
    var w := windows[|windows| - 1];
    if |windows| == 1 {
      assert windows[..0] == [];
      BaselineEmitsNothing(h, target, group, transcript, w);
    } else {
      var before := windows[..|windows| - 1];
      WellCutBefore(h, transcript, windows);
      ChunkingIndependence(h, target, group, transcript, before);
      var base, last := windows[0].to, before[|before| - 1];
      var (events, cursor) := Observed(h, target, group, transcript, before);
      CursorChain(h, transcript, base, last, cursor);
      WindowAdvances(h, target, group, transcript, base, last, cursor, w);
      EmittedAppends(h, target, GENESIS.chain, transcript[base..last.to], transcript[last.to..w.to]);
      assert transcript[base..last.to] + transcript[last.to..w.to] == transcript[base..w.to];
    }
  }

  lemma CursorChain(h: Hashing, transcript: seq<Item>, base: nat, w: Window, cursor: Cursor)
    requires CursorAt(h, transcript, base, w, cursor)
    ensures base <= w.to <= |transcript| && cursor.chain == Chained(h, GENESIS.chain, transcript[base..w.to])
  {
  }

  lemma BaselineEmitsNothing(h: Hashing, target: nat, group: bool, transcript: seq<Item>, w: Window)
    requires Fair(transcript, w)
    ensures var r := Handle(h, target, group, GENESIS, transcript[w.from..w.to]);
            && r.events == Emitted(h, target, GENESIS.chain, transcript[w.to..w.to])
            && CursorAt(h, transcript, w.to, w, r.cursor)
  {
    var items := transcript[w.from..w.to];
    assert items[|items|..] == [] && transcript[w.to..w.to] == [];
  }

  /** Two ways to cut the same transcript after the same baseline give the same events and ids. */
  lemma SameEventsForAnyCut(
    h: Hashing, target: nat, group: bool, transcript: seq<Item>, one: seq<Window>, other: seq<Window>)
    requires forall i :: 0 <= i < |transcript| ==> Proven(group, transcript[i])
    requires one != [] && WellCut(h, transcript, one) && other != [] && WellCut(h, transcript, other)
    requires one[0].to == other[0].to && one[|one| - 1].to == other[|other| - 1].to
    ensures Observed(h, target, group, transcript, one).0 == Observed(h, target, group, transcript, other).0
    ensures Observed(h, target, group, transcript, one).1.chain == Observed(h, target, group, transcript, other).1.chain
  {
    ChunkingIndependence(h, target, group, transcript, one);
    ChunkingIndependence(h, target, group, transcript, other);
  }

  /** A baseline on an empty transcript saves an empty tail, so the next window is a baseline again. */
  lemma EmptyBaselineSwallowsNextWindow(h: Hashing, target: nat, group: bool, items: seq<Item>)
    ensures var first := Handle(h, target, group, GENESIS, []);
            && first.paused == None && first.cursor.tail == []
            && Handle(h, target, group, first.cursor, items).events == []
            && Handle(h, target, group, first.cursor, items).paused == None
  {
    assert items[|items|..] == [];
  }
}
