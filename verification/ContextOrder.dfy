// Exactly which memories and turns a context takes, by their place among what was offered,
// and in which order they are offered.
module ContextOrder {
  import opened ContextSelection

  // ----- the order of the memories ------------------------------------------------

  /** Commitments before others, then the higher score, then importance, then the younger one. */
  predicate MayStandBefore(a: Hit, b: Hit) {
    if a.commitment != b.commitment then a.commitment
    else
      || a.score > b.score
      || (a.score == b.score
          && (a.importance > b.importance || (a.importance == b.importance && a.at >= b.at)))
  }

  lemma {:induction false} FilterOfAll<T(!new)>(s: seq<T>, first: T -> bool, rest: T -> bool)
    requires forall i :: 0 <= i < |s| ==> first(s[i]) && !rest(s[i])
    ensures Filter(s, first) == s && Filter(s, rest) == []
  {
    if s != [] { FilterOfAll(s[..|s| - 1], first, rest); }
  }

  /** Where the first kind stands in front, picking it out and appending the rest changes nothing. */
  lemma {:induction false} FilterInFront<T(!new)>(s: seq<T>, first: T -> bool, rest: T -> bool)
    requires forall i :: 0 <= i < |s| ==> first(s[i]) == !rest(s[i])
    requires forall i, j :: 0 <= i < j < |s| && first(s[j]) ==> first(s[i])
    ensures Filter(s, first) + Filter(s, rest) == s
  {
    if s != [] {
      var n := |s| - 1;
      if first(s[n]) {
        FilterOfAll(s, first, rest);
      } else {
        FilterInFront(s[..n], first, rest);
        assert Filter(s, first) == Filter(s[..n], first) + [];
        assert Filter(s, first) + (Filter(s[..n], rest) + [s[n]]) == s[..n] + [s[n]];
      }
    }
  }

  lemma PreferredIsOrder()
    ensures Order(Preferred)
  {
  }

  lemma CommitmentsInFront(s: seq<Hit>)
    requires Sorted(s, Preferred)
    ensures forall i, j :: 0 <= i < j < |s| && s[j].commitment ==> s[i].commitment
    ensures forall i, j :: 0 <= i < j < |s| ==> MayStandBefore(s[i], s[j])
  {
    forall i, j | 0 <= i < j < |s| ensures MayStandBefore(s[i], s[j]) && (s[j].commitment ==> s[i].commitment) {
      assert !Preferred(s[j], s[i]);
    }
  }

  /** The hits are offered sorted as a whole, and ties keep their order. */
  lemma HitsAreOfferedInOrder(hits: seq<Hit>)
    ensures multiset(OfferedHits(hits)) == multiset(hits)
    ensures var offered := OfferedHits(hits);
            forall i, j :: 0 <= i < j < |offered| ==> MayStandBefore(offered[i], offered[j])
    ensures OfferedHits(hits) == StableSort(hits, Preferred) && Order(Preferred)
  {
    hide StableSort, Sorted, MayStandBefore, Preferred, Filter;
    PreferredIsOrder();
    StableSortSorts(hits, Preferred);
    var sorted := StableSort(hits, Preferred);
    CommitmentsInFront(sorted);
    var first, rest := (h: Hit) => h.commitment, (h: Hit) => !h.commitment;
    FilterInFront(sorted, first, rest);
    OfferedHitsAreAll(hits);
  }

  // ----- the order of the turns ---------------------------------------------------

  ghost predicate FirstWithId(turns: seq<Turn>, k: nat) {
    k < |turns| && forall j :: 0 <= j < k ==> turns[j].id != turns[k].id
  }

  /** What `keep` selects of the first n. */
  function Chosen<T>(offered: seq<T>, keep: set<nat>, n: nat): seq<T>
    requires n <= |offered|
  {
    if n == 0 then [] else Chosen(offered, keep, n - 1) + if n - 1 in keep then [offered[n - 1]] else []
  }

  /** What `keep` selects from position k on. */
  function ChosenFrom<T>(offered: seq<T>, keep: set<nat>, k: nat): seq<T>
    requires k <= |offered|
    decreases |offered| - k
  {
    if k == |offered| then [] else (if k in keep then [offered[k]] else []) + ChosenFrom(offered, keep, k + 1)
  }

  lemma {:induction false} ChosenAgree<T>(a: seq<T>, b: seq<T>, x: set<nat>, y: set<nat>, n: nat)
    requires n <= |a| && n <= |b| && forall k :: 0 <= k < n ==> a[k] == b[k] && (k in x <==> k in y)
    ensures Chosen(a, x, n) == Chosen(b, y, n)
  {
    if n > 0 { ChosenAgree(a, b, x, y, n - 1); }
  }

  lemma {:induction false} ChosenFromAgree<T>(a: seq<T>, x: set<nat>, y: set<nat>, k: nat)
    requires k <= |a| && forall i :: k <= i < |a| ==> (i in x <==> i in y)
    ensures ChosenFrom(a, x, k) == ChosenFrom(a, y, k)
    decreases |a| - k
  {
    if k < |a| { ChosenFromAgree(a, x, y, k + 1); }
  }

  ghost predicate KeepsFirsts(turns: seq<Turn>, current: nat, keep: set<nat>) {
    forall k: nat :: k in keep <==> FirstWithId(turns, k) && turns[k].id != current
  }

  lemma IdsOfNew(turns: seq<Turn>, current: nat, id: nat)
    ensures id in TurnIds(NewIds(turns, current))
            <==> (id != current && exists j :: 0 <= j < |turns| && turns[j].id == id)
  {
    if turns != [] {
      var n := |turns| - 1;
      IdsOfNew(turns[..n], current, id);
      TurnIdsSnoc(NewIds(turns[..n], current), turns[n]);
      if j :| 0 <= j < |turns| && turns[j].id == id && id != current {
        if j < n { assert turns[..n][j].id == id; }
      }
    }
  }

  lemma TurnIdsSnoc(turns: seq<Turn>, t: Turn)
    ensures TurnIds(turns + [t]) == TurnIds(turns) + {t.id}
  {
    var more := turns + [t];
    assert more[|turns|] == t;
    forall u | u in turns ensures u in more {
    }
  }

  lemma OneMoreFirst(turns: seq<Turn>, current: nat, before: set<nat>) returns (keep: set<nat>)
    requires turns != [] && KeepsFirsts(turns[..|turns| - 1], current, before)
    ensures var n := |turns| - 1;
            && KeepsFirsts(turns, current, keep)
            && (forall k :: 0 <= k < n ==> (k in keep <==> k in before))
            && (n in keep <==> FirstWithId(turns, n) && turns[n].id != current)
  {
    var n := |turns| - 1;
    forall k: nat | k < n ensures FirstWithId(turns[..n], k) <==> FirstWithId(turns, k) {
    }
    keep := if FirstWithId(turns, n) && turns[n].id != current then before + {n} else before;
  }

  lemma LastIsNew(turns: seq<Turn>, current: nat)
    requires turns != []
    ensures var n := |turns| - 1;
            turns[n].id in TurnIds(NewIds(turns[..n], current))
            <==> turns[n].id != current && !FirstWithId(turns, n)
  {
    IdsOfNew(turns[..|turns| - 1], current, turns[|turns| - 1].id);
  }

  lemma {:induction false} NewIdsAreFirsts(turns: seq<Turn>, current: nat) returns (keep: set<nat>)
    ensures KeepsFirsts(turns, current, keep) && NewIds(turns, current) == Chosen(turns, keep, |turns|)
  {
    hide FirstWithId, TurnIds, KeepsFirsts;
    if turns == [] {
      keep := {};
      NoFirsts(current);
    } else {
      var n := |turns| - 1;
      var before := NewIdsAreFirsts(turns[..n], current);
      LastIsNew(turns, current);
      keep := OneMoreFirst(turns, current, before);
      ChosenAgree(turns[..n], turns, before, keep, n);
      var front := Chosen(turns, keep, n);
      assert NewIds(turns, current) == front + if n in keep then [turns[n]] else [] by {
        assert front + [] == front;
      }
      assert Chosen(turns, keep, n + 1) == front + if n in keep then [turns[n]] else [];
    }
  }

  lemma NoFirsts(current: nat)
    ensures KeepsFirsts([], current, {})
  {
  }

  /** The turns offered: in time order, of each id but the current one the first. */
  lemma TurnsAreOfferedInOrder(recent: seq<Turn>, current: nat) returns (sorted: seq<Turn>, keep: set<nat>)
    ensures sorted == StableSort(recent, Later) && Order(Later)
    ensures multiset(sorted) == multiset(recent)
    ensures forall i, j :: 0 <= i < j < |sorted| ==> sorted[i].at <= sorted[j].at
    ensures KeepsFirsts(sorted, current, keep) && OfferedTurns(recent, current) == Chosen(sorted, keep, |sorted|)
  {
    sorted := StableSort(recent, Later);
    StableSortSorts(recent, Later);
    keep := NewIdsAreFirsts(sorted, current);
  }

  // ----- the two passes, place by place ---------------------------------------------

  /** A memory is kept exactly if the prompt with those kept before it and itself fits. */
  ghost predicate GreedyHits(c: Counter, budget: nat, offered: seq<Hit>, keep: set<nat>) {
    forall k :: 0 <= k < |offered| ==> (k in keep <==> c(Chosen(offered, keep, k) + [offered[k]], []) <= budget)
  }

  /** A turn is kept exactly if the prompt with it and the newer ones that are kept fits. */
  ghost predicate GreedyTurns(c: Counter, budget: nat, hits: seq<Hit>, offered: seq<Turn>, keep: set<nat>) {
    forall k :: 0 <= k < |offered| ==>
      (k in keep <==> c(hits, [offered[k]] + ChosenFrom(offered, keep, k + 1)) <= budget)
  }

  lemma {:induction false} TakesHitsGreedily(c: Counter, budget: nat, offered: seq<Hit>, done: nat, keep0: set<nat>)
    returns (keep: set<nat>)
    requires done <= |offered| && forall k :: k in keep0 ==> k < done
    ensures TakeHits(c, budget, Chosen(offered, keep0, done), offered[done..]) == Chosen(offered, keep, |offered|)
    ensures forall k :: 0 <= k < done ==> (k in keep <==> k in keep0)
    ensures forall k :: done <= k < |offered| ==>
              (k in keep <==> c(Chosen(offered, keep, k) + [offered[k]], []) <= budget)
    decreases |offered| - done
  {
    hide *;
    if done == |offered| {
      keep := keep0;
      NothingLeft(c, budget, offered, keep0);
    } else {
      var next := TakeOrLeave(c, budget, offered, done, keep0);
      keep := TakesHitsGreedily(c, budget, offered, done + 1, next);
      ChosenAgree(offered, offered, keep0, keep, done);
    }
  }

  lemma NothingLeft(c: Counter, budget: nat, offered: seq<Hit>, keep: set<nat>)
    ensures TakeHits(c, budget, Chosen(offered, keep, |offered|), offered[|offered|..])
            == Chosen(offered, keep, |offered|)
  {
  }

  lemma TakeOrLeave(c: Counter, budget: nat, offered: seq<Hit>, done: nat, keep: set<nat>) returns (next: set<nat>)
    requires done < |offered| && forall k :: k in keep ==> k < done
    ensures TakeHits(c, budget, Chosen(offered, keep, done), offered[done..])
            == TakeHits(c, budget, Chosen(offered, next, done + 1), offered[done + 1..])
    ensures forall k :: k in next ==> k < done + 1
    ensures forall k :: 0 <= k < done ==> (k in next <==> k in keep)
    ensures done in next <==> c(Chosen(offered, keep, done) + [offered[done]], []) <= budget
  {
    var chosen, h := Chosen(offered, keep, done), offered[done];
    next := if c(chosen + [h], []) <= budget then keep + {done} else keep;
    ChosenAgree(offered, offered, keep, next, done);
    assert offered[done..][1..] == offered[done + 1..];
    assert chosen + [] == chosen;
  }

  lemma {:induction false} TakesTurnsGreedily(c: Counter, budget: nat, hits: seq<Hit>, offered: seq<Turn>, from: nat,
                                              keep0: set<nat>)
    returns (keep: set<nat>)
    requires from <= |offered| && forall k :: k in keep0 ==> k >= from
    ensures TakeTurns(c, budget, hits, offered[..from], ChosenFrom(offered, keep0, from))
            == ChosenFrom(offered, keep, 0)
    ensures forall k :: from <= k ==> (k in keep <==> k in keep0)
    ensures forall k :: 0 <= k < from ==>
              (k in keep <==> c(hits, [offered[k]] + ChosenFrom(offered, keep, k + 1)) <= budget)
  {
    keep := keep0;
    if from > 0 {
      var k := from - 1;
      var chosen := ChosenFrom(offered, keep0, from);
      var next := if c(hits, [offered[k]] + chosen) <= budget then keep0 + {k} else keep0;
      ChosenFromAgree(offered, keep0, next, from);
      assert offered[..from][..k] == offered[..k];
      assert [] + chosen == chosen;
      keep := TakesTurnsGreedily(c, budget, hits, offered, k, next);
      ChosenFromAgree(offered, keep0, keep, from);
    }
  }

  /** What is selected, exactly: no other selection satisfies the two greedy conditions. */
  lemma SelectionIsGreedy(c: Counter, budget: nat, current: Turn, recent: seq<Turn>, hits: seq<Hit>)
    returns (keepHits: set<nat>, keepTurns: set<nat>)
    ensures var b := Bundled(c, budget, current, recent, hits);
            var offeredHits, offeredTurns := OfferedHits(hits), OfferedTurns(recent, current.id);
            && b.hits == Chosen(offeredHits, keepHits, |offeredHits|) && GreedyHits(c, budget, offeredHits, keepHits)
            && b.turns == ChosenFrom(offeredTurns, keepTurns, 0)
            && GreedyTurns(c, budget, b.hits, offeredTurns, keepTurns)
  {
    hide StableSort, Filter, NewIds;
    var offered, turns := OfferedHits(hits), OfferedTurns(recent, current.id);
    assert offered[0..] == offered && turns[..|turns|] == turns;
    keepHits := TakesHitsGreedily(c, budget, offered, 0, {});
    keepTurns := TakesTurnsGreedily(c, budget, Chosen(offered, keepHits, |offered|), turns, |turns|, {});
  }

  /** What is counted as omitted: ids that were there to be had and are not in the context. */
  lemma OmittedAreCounted(c: Counter, budget: nat, current: Turn, recent: seq<Turn>, hits: seq<Hit>)
    requires c([], []) <= budget
    ensures var b := Bundled(c, budget, current, recent, hits);
            && b.omittedTurns == |TurnIds(recent) - {current.id} - TurnIds(b.turns)|
            && (DistinctHits(hits) ==> b.omittedMemories == |HitIds(hits) - HitIds(b.hits)|)
  {
    ContextIsSound(c, budget, current, recent, hits);
    hide TakeHits, TakeTurns, OfferedTurns, OfferedHits, Sub;
    var b := Bundled(c, budget, current, recent, hits);
    var offered := OfferedTurns(recent, current.id);
    OfferedIds(recent, current.id);
    OfferedTurnsAreChronological(recent, current.id);
    SubMembers(b.turns, offered);
    TurnIdCount(offered);
    TurnIdCount(b.turns);
    Difference(TurnIds(offered), TurnIds(b.turns));
    SubMembers(b.hits, OfferedHits(hits));
    OfferedHitsAreAll(hits);
    SameMembersSameIds(OfferedHits(hits), hits);
    if DistinctHits(hits) {
      IdCount(hits);
      Difference(HitIds(hits), HitIds(b.hits));
    }
  }

  lemma Difference(a: set<nat>, b: set<nat>)
    requires b <= a
    ensures |a - b| == |a| - |b|
  {
    assert a == (a - b) + b;
  }

  lemma OfferedIds(recent: seq<Turn>, current: nat)
    ensures TurnIds(OfferedTurns(recent, current)) == TurnIds(recent) - {current}
  {
    var sorted := StableSort(recent, Later);
    forall id ensures id in TurnIds(OfferedTurns(recent, current)) <==> id in TurnIds(recent) - {current} {
      IdsOfNew(sorted, current, id);
      if id in TurnIds(recent) {
        var t :| t in recent && t.id == id;
        assert t in multiset(sorted);
        var j :| 0 <= j < |sorted| && sorted[j] == t;
      }
      if j :| 0 <= j < |sorted| && sorted[j].id == id {
        assert sorted[j] in multiset(recent);
      }
    }
  }

  lemma {:induction false} TurnIdCount(turns: seq<Turn>)
    requires DistinctTurns(turns)
    ensures |TurnIds(turns)| == |turns|
  {
    if turns != [] {
      var n := |turns| - 1;
      TurnIdCount(turns[..n]);
      assert turns == turns[..n] + [turns[n]];
      TurnIdsSnoc(turns[..n], turns[n]);
    }
  }
}
