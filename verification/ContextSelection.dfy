// Choosing what goes into a bounded prompt: commitments first, then other memories, then the
// newest turns, each taken only if the assembled prompt still fits.
module ContextSelection {

  datatype Result<+T> = Ok(value: T) | Err(error: Refusal)

  datatype Refusal = BadLimits | NoInputBudget | OtherConversation | WrongSystemRole | SystemTooLong

  datatype Role = System | User | Assistant | Tool

  datatype Turn = Turn(id: nat, scope: nat, at: int, content: string)

  datatype Hit = Hit(id: nat, scope: nat, commitment: bool, score: real, importance: real, at: int)

  /** Tokens of the system messages, these hits, these turns and the current turn. */
  type Counter = (seq<Hit>, seq<Turn>) -> nat

  datatype Bundle = Bundle(hits: seq<Hit>, turns: seq<Turn>, estimated: nat,
                           omittedTurns: int, omittedMemories: int, truncated: bool)

  // ----- stable sorting ---------------------------------------------------------

  /** A total preorder given by its strict part. */
  ghost predicate Order<T(!new)>(before: (T, T) -> bool) {
    && (forall a, b :: before(a, b) ==> !before(b, a))
    && (forall a, b, c :: !before(b, a) && !before(c, b) ==> !before(c, a))
  }

  /** Insertion after everything that does not come strictly later. */
  function Insert<T>(sorted: seq<T>, x: T, before: (T, T) -> bool): (r: seq<T>)
    ensures multiset(r) == multiset(sorted) + multiset{x}
    ensures |r| == |sorted| + 1
  {
    if sorted == [] then [x]
    else
      var n := |sorted| - 1;
      assert sorted == sorted[..n] + [sorted[n]];
      if before(x, sorted[n]) then Insert(sorted[..n], x, before) + [sorted[n]] else sorted + [x]
  }

  function StableSort<T>(s: seq<T>, before: (T, T) -> bool): (r: seq<T>)
    ensures multiset(r) == multiset(s)
    ensures |r| == |s|
  {
    if s == [] then []
    else
      assert s == s[..|s| - 1] + [s[|s| - 1]];
      Insert(StableSort(s[..|s| - 1], before), s[|s| - 1], before)
  }

  ghost predicate Sorted<T>(s: seq<T>, before: (T, T) -> bool) {
    forall i, j :: 0 <= i < j < |s| ==> !before(s[j], s[i])
  }

  lemma {:induction false} InsertSorts<T(!new)>(sorted: seq<T>, x: T, before: (T, T) -> bool)
    requires Order(before) && Sorted(sorted, before)
    ensures Sorted(Insert(sorted, x, before), before)
  {
    if sorted != [] {
      var n := |sorted| - 1;
      if before(x, sorted[n]) {
        InsertSorts(sorted[..n], x, before);
        var r := Insert(sorted[..n], x, before);
        forall i | 0 <= i < |r| ensures !before(sorted[n], r[i]) {
          assert r[i] in multiset(r);
          assert r[i] == x || r[i] in multiset(sorted[..n]);
        }
      } else {
        forall i | 0 <= i < |sorted| ensures !before(x, sorted[i]) {
          assert !before(sorted[n], sorted[i]) || i == n;
        }
      }
    }
  }

  lemma {:induction false} StableSortSorts<T(!new)>(s: seq<T>, before: (T, T) -> bool)
    requires Order(before)
    ensures Sorted(StableSort(s, before), before)
  {
    if s != [] {
      StableSortSorts(s[..|s| - 1], before);
      InsertSorts(StableSort(s[..|s| - 1], before), s[|s| - 1], before);
    }
  }

  function Filter<T>(s: seq<T>, keep: T -> bool): (r: seq<T>) {
    if s == [] then []
    else Filter(s[..|s| - 1], keep) + if keep(s[|s| - 1]) then [s[|s| - 1]] else []
  }

  lemma {:induction false} FilterAppends<T>(a: seq<T>, x: T, keep: T -> bool)
    ensures Filter(a + [x], keep) == Filter(a, keep) + if keep(x) then [x] else []
  {
    assert (a + [x])[..|a|] == a;
  }

  lemma {:induction false} InsertIsStable<T(!new)>(sorted: seq<T>, x: T, before: (T, T) -> bool, keep: T -> bool)
    requires Order(before) && Sorted(sorted, before)
    requires forall a, b :: keep(a) && keep(b) ==> !before(a, b)
    ensures Filter(Insert(sorted, x, before), keep) == Filter(sorted, keep) + if keep(x) then [x] else []
  {
    if sorted == [] {
      FilterAppends([], x, keep);
      assert [] + [x] == [x];
    } else {
      var n := |sorted| - 1;
      if before(x, sorted[n]) {
        InsertIsStable(sorted[..n], x, before, keep);
        FilterAppends(Insert(sorted[..n], x, before), sorted[n], keep);
        FilterAppends(sorted[..n], sorted[n], keep);
        assert sorted == sorted[..n] + [sorted[n]];
      } else {
        FilterAppends(sorted, x, keep);
      }
    }
  }

  /** Items that tie, whichever they are, keep their order. */
  lemma {:induction false} StableSortIsStable<T(!new)>(s: seq<T>, before: (T, T) -> bool, keep: T -> bool)
    requires Order(before) && forall a, b :: keep(a) && keep(b) ==> !before(a, b)
    ensures Filter(StableSort(s, before), keep) == Filter(s, keep)
  {
    if s != [] {
      StableSortIsStable(s[..|s| - 1], before, keep);
      StableSortSorts(s[..|s| - 1], before);
      InsertIsStable(StableSort(s[..|s| - 1], before), s[|s| - 1], before, keep);
    }
  }

  // ----- subsequences --------------------------------------------------------------

  ghost predicate Sub<T>(a: seq<T>, b: seq<T>) {
    a == [] || (b != [] && (Sub(a, b[..|b| - 1])
                            || (a[|a| - 1] == b[|b| - 1] && Sub(a[..|a| - 1], b[..|b| - 1]))))
  }

  lemma {:induction false} SubReflexive<T>(a: seq<T>)
    ensures Sub(a, a)
  {
    if a != [] { SubReflexive(a[..|a| - 1]); }
  }

  lemma {:induction false} SubOfAppend<T>(a: seq<T>, b: seq<T>, more: seq<T>)
    requires Sub(a, b)
    ensures Sub(a, b + more)
  {
    if more == [] {
      assert b + more == b;
    } else {
      SubOfAppend(a, b, more[..|more| - 1]);
      assert (b + more)[..|b + more| - 1] == b + more[..|more| - 1];
    }
  }

  lemma {:induction false} SubOfSuffix<T>(front: seq<T>, a: seq<T>)
    ensures Sub(a, front + a)
  {
    if a != [] {
      SubOfSuffix(front, a[..|a| - 1]);
      assert (front + a)[..|front + a| - 1] == front + a[..|a| - 1];
    }
  }

  lemma {:induction false} SubAppendBoth<T>(a: seq<T>, b: seq<T>, x: T)
    requires Sub(a, b)
    ensures Sub(a + [x], b + [x])
  {
    assert (a + [x])[..|a|] == a && (b + [x])[..|b|] == b;
  }

  lemma {:induction false} SubPrependBoth<T>(a: seq<T>, b: seq<T>, x: T)
    requires Sub(a, b)
    ensures Sub([x] + a, [x] + b)
  {
    if a == [] {
      SubReflexive([x]);
      SubOfAppend([x], [x], b);
      assert [x] + a == [x];
    } else {
      assert ([x] + b)[..|b|] == [x] + b[..|b| - 1] && ([x] + a)[..|a|] == [x] + a[..|a| - 1];
      if Sub(a, b[..|b| - 1]) { SubPrependBoth(a, b[..|b| - 1], x); }
      else { SubPrependBoth(a[..|a| - 1], b[..|b| - 1], x); }
    }
  }

  /** What holds of all ordered pairs of a list holds of its subsequences. */
  lemma {:induction false} SubMembers<T>(a: seq<T>, b: seq<T>)
    requires Sub(a, b)
    ensures |a| <= |b| && forall x :: x in a ==> x in b
  {
    if a != [] {
      if Sub(a, b[..|b| - 1]) { SubMembers(a, b[..|b| - 1]); }
      else {
        SubMembers(a[..|a| - 1], b[..|b| - 1]);
        assert a == a[..|a| - 1] + [a[|a| - 1]];
      }
    }
  }

  lemma {:induction false} SubKeepsPairs<T>(a: seq<T>, b: seq<T>, good: (T, T) -> bool)
    requires Sub(a, b) && forall i, j :: 0 <= i < j < |b| ==> good(b[i], b[j])
    ensures forall i, j :: 0 <= i < j < |a| ==> good(a[i], a[j])
  {
    if a != [] {
      if Sub(a, b[..|b| - 1]) {
        SubKeepsPairs(a, b[..|b| - 1], good);
      } else {
        SubKeepsPairs(a[..|a| - 1], b[..|b| - 1], good);
        SubMembers(a[..|a| - 1], b[..|b| - 1]);
        forall i | 0 <= i < |a| - 1 ensures good(a[i], a[|a| - 1]) {
          assert a[..|a| - 1][i] in b[..|b| - 1];
        }
      }
    }
  }

  // ----- the two greedy passes ---------------------------------------------------------

  /** Memories in the order offered, each kept only if the prompt with it still fits. */
  function TakeHits(c: Counter, budget: nat, chosen: seq<Hit>, offered: seq<Hit>): seq<Hit>
    decreases |offered|
  {
    if offered == [] then chosen
    else if c(chosen + [offered[0]], []) <= budget then TakeHits(c, budget, chosen + [offered[0]], offered[1..])
    else TakeHits(c, budget, chosen, offered[1..])
  }

  /** Turns from the newest back, each kept at the front only if the prompt still fits. */
  function TakeTurns(c: Counter, budget: nat, hits: seq<Hit>, offered: seq<Turn>, chosen: seq<Turn>): seq<Turn>
    decreases |offered|
  {
    if offered == [] then chosen
    else
      var n := |offered| - 1;
      if c(hits, [offered[n]] + chosen) <= budget
      then TakeTurns(c, budget, hits, offered[..n], [offered[n]] + chosen)
      else TakeTurns(c, budget, hits, offered[..n], chosen)
  }

  lemma {:induction false} TakeHitsAppends(c: Counter, budget: nat, chosen: seq<Hit>, a: seq<Hit>, b: seq<Hit>)
    ensures TakeHits(c, budget, chosen, a + b) == TakeHits(c, budget, TakeHits(c, budget, chosen, a), b)
    decreases |a|
  {
    if a == [] {
      assert a + b == b;
    } else {
      assert (a + b)[1..] == a[1..] + b;
      var next := if c(chosen + [a[0]], []) <= budget then chosen + [a[0]] else chosen;
      TakeHitsAppends(c, budget, next, a[1..], b);
    }
  }

  lemma {:induction false} TakeHitsFits(c: Counter, budget: nat, chosen: seq<Hit>, offered: seq<Hit>, base: seq<Hit>)
    requires c(chosen, []) <= budget && Sub(chosen, base)
    ensures var r := TakeHits(c, budget, chosen, offered);
            c(r, []) <= budget && Sub(r, base + offered) && chosen <= r
    decreases |offered|
  {
    if offered == [] {
      assert base + offered == base;
    } else {
      var h := offered[0];
      assert base + [h] + offered[1..] == base + offered;
      if c(chosen + [h], []) <= budget {
        SubAppendBoth(chosen, base, h);
        TakeHitsFits(c, budget, chosen + [h], offered[1..], base + [h]);
      } else {
        SubOfAppend(chosen, base, [h]);
        TakeHitsFits(c, budget, chosen, offered[1..], base + [h]);
      }
    }
  }

  lemma {:induction false} TakeTurnsFits(c: Counter, budget: nat, hits: seq<Hit>, offered: seq<Turn>, chosen: seq<Turn>,
                                         base: seq<Turn>)
    requires c(hits, chosen) <= budget && Sub(chosen, base)
    ensures var r := TakeTurns(c, budget, hits, offered, chosen);
            && c(hits, r) <= budget && Sub(r, offered + base)
            && |chosen| <= |r| && r[|r| - |chosen|..] == chosen
    decreases |offered|
  {
    if offered == [] {
      assert offered + base == base;
    } else {
      var n := |offered| - 1;
      var t := offered[n];
      assert offered[..n] + ([t] + base) == offered + base;
      if c(hits, [t] + chosen) <= budget {
        SubPrependBoth(chosen, base, t);
        TakeTurnsFits(c, budget, hits, offered[..n], [t] + chosen, [t] + base);
      } else {
        SubPrepend(chosen, base, t);
        TakeTurnsFits(c, budget, hits, offered[..n], chosen, [t] + base);
      }
    }
  }

  lemma {:induction false} SubPrepend<T>(a: seq<T>, b: seq<T>, x: T)
    requires Sub(a, b)
    ensures Sub(a, [x] + b)
  {
    if a != [] {
      assert ([x] + b)[..|b|] == [x] + b[..|b| - 1];
      if Sub(a, b[..|b| - 1]) { SubPrepend(a, b[..|b| - 1], x); }
      else { SubPrepend(a[..|a| - 1], b[..|b| - 1], x); }
    }
  }

  // ----- maximality -----------------------------------------------------------------------

  /** More memories or more turns never make a prompt shorter. */
  ghost predicate Monotone(c: Counter) {
    forall h0, h1, t0, t1 :: Sub(h0, h1) && Sub(t0, t1) ==> c(h0, t0) <= c(h1, t1)
  }

  lemma FittingHitIsKept(c: Counter, budget: nat, chosen: seq<Hit>, offered: seq<Hit>)
    requires offered != [] && c(chosen, []) <= budget
    ensures var h, r := offered[0], TakeHits(c, budget, chosen, offered);
            if c(chosen + [h], []) <= budget then h in r else chosen <= r
  {
    var h := offered[0];
    if c(chosen + [h], []) <= budget {
      SubReflexive(chosen + [h]);
      TakeHitsFits(c, budget, chosen + [h], offered[1..], chosen + [h]);
      assert TakeHits(c, budget, chosen, offered)[|chosen|] == h;
    } else {
      SubReflexive(chosen);
      TakeHitsFits(c, budget, chosen, offered, chosen);
    }
  }

  /** An omitted memory overflowed when it was offered, and so it would in the finished prompt. */
  lemma {:induction false} OmittedHitOverflows(
    c: Counter, budget: nat, chosen: seq<Hit>, offered: seq<Hit>, k: nat, turns: seq<Turn>)
    returns (a: seq<Hit>, b: seq<Hit>)
    requires Monotone(c) && k < |offered| && c(chosen, []) <= budget
    requires offered[k] !in TakeHits(c, budget, chosen, offered)
    ensures TakeHits(c, budget, chosen, offered) == a + b && c(a + [offered[k]] + b, turns) > budget
    ensures c(a + b + [offered[k]], turns) > budget
    decreases |offered|
  {
    if k > 0 {
      var next := if c(chosen + [offered[0]], []) <= budget then chosen + [offered[0]] else chosen;
      assert offered[1..][k - 1] == offered[k];
      a, b := OmittedHitOverflows(c, budget, next, offered[1..], k - 1, turns);
    } else {
      FittingHitIsKept(c, budget, chosen, offered);
      a, b := chosen, TakeHits(c, budget, chosen, offered)[|chosen|..];
      OverflowStays(c, budget, chosen, offered[0], b, turns);
    }
  }

  lemma OverflowStays(c: Counter, budget: nat, chosen: seq<Hit>, h: Hit, b: seq<Hit>, turns: seq<Turn>)
    requires Monotone(c) && c(chosen + [h], []) > budget
    ensures c(chosen + [h] + b, turns) > budget && c(chosen + b + [h], turns) > budget
  {
    SubReflexive(chosen + [h]);
    SubOfAppend(chosen + [h], chosen + [h], b);
    SubReflexive(chosen);
    SubOfAppend(chosen, chosen, b);
    SubAppendBoth(chosen, chosen + b, h);
    assert Sub([], turns);
  }

  lemma FittingTurnIsKept(c: Counter, budget: nat, hits: seq<Hit>, offered: seq<Turn>, chosen: seq<Turn>)
    requires offered != [] && c(hits, chosen) <= budget
    ensures var t, r := offered[|offered| - 1], TakeTurns(c, budget, hits, offered, chosen);
            && |chosen| <= |r| && r[|r| - |chosen|..] == chosen
            && (c(hits, [t] + chosen) <= budget ==> t in r)
  {
    var n := |offered| - 1;
    var t := offered[n];
    SubReflexive(chosen);
    TakeTurnsFits(c, budget, hits, offered, chosen, chosen);
    if c(hits, [t] + chosen) <= budget {
      SubReflexive([t] + chosen);
      TakeTurnsFits(c, budget, hits, offered[..n], [t] + chosen, [t] + chosen);
      var r := TakeTurns(c, budget, hits, offered, chosen);
      assert r[|r| - |chosen| - 1..][0] == t;
    }
  }

  lemma {:induction false} SubConcat<T>(a: seq<T>, b: seq<T>, x: seq<T>, y: seq<T>)
    requires Sub(a, b) && Sub(x, y)
    ensures Sub(a + x, b + y)
  {
    if x == [] {
      assert a + x == a;
      SubOfAppend(a, b, y);
    } else {
      assert (b + y)[..|b + y| - 1] == b + y[..|y| - 1] && (a + x)[..|a + x| - 1] == a + x[..|x| - 1];
      if Sub(x, y[..|y| - 1]) { SubConcat(a, b, x, y[..|y| - 1]); }
      else { SubConcat(a, b, x[..|x| - 1], y[..|y| - 1]); }
    }
  }

  /** What the turns pass puts before those already chosen, in the order offered. */
  lemma {:induction false} TurnsTaken(c: Counter, budget: nat, hits: seq<Hit>, offered: seq<Turn>, chosen: seq<Turn>)
    returns (a: seq<Turn>)
    ensures TakeTurns(c, budget, hits, offered, chosen) == a + chosen && Sub(a, offered)
    decreases |offered|
  {
    if offered == [] {
      a := [];
    } else {
      var n := |offered| - 1;
      var t := offered[n];
      assert offered == offered[..n] + [t];
      if c(hits, [t] + chosen) <= budget {
        var before := TurnsTaken(c, budget, hits, offered[..n], [t] + chosen);
        a := before + [t];
        SubAppendBoth(before, offered[..n], t);
        assert before + ([t] + chosen) == a + chosen;
      } else {
        a := TurnsTaken(c, budget, hits, offered[..n], chosen);
        SubOfAppend(a, offered[..n], [t]);
      }
    }
  }

  /** An omitted turn, put back in its place among those offered, would overflow. */
  lemma {:induction false} OmittedTurnOverflows(
    c: Counter, budget: nat, hits: seq<Hit>, offered: seq<Turn>, chosen: seq<Turn>, base: seq<Turn>, k: nat)
    returns (a: seq<Turn>, b: seq<Turn>)
    requires Monotone(c) && k < |offered| && c(hits, chosen) <= budget && Sub(chosen, base)
    requires offered[k] !in TakeTurns(c, budget, hits, offered, chosen)
    ensures TakeTurns(c, budget, hits, offered, chosen) == a + b && c(hits, a + [offered[k]] + b) > budget
    ensures Sub(a + [offered[k]] + b, offered + base)
    decreases |offered|
  {
    hide Sub;
    var n := |offered| - 1;
    var t := offered[n];
    assert offered[..n] + ([t] + base) == offered + base;
    SubPrependBoth(chosen, base, t);
    if k < n {
      SubPrepend(chosen, base, t);
      var next := if c(hits, [t] + chosen) <= budget then [t] + chosen else chosen;
      a, b := OmittedTurnOverflows(c, budget, hits, offered[..n], next, [t] + base, k);
    } else {
      FittingTurnIsKept(c, budget, hits, offered, chosen);
      a := TurnsTaken(c, budget, hits, offered[..n], chosen);
      b := chosen;
      TurnOverflowStays(c, budget, hits, a, t, chosen);
      SubConcat(a, offered[..n], [t] + chosen, [t] + base);
      assert a + ([t] + chosen) == a + [t] + chosen;
    }
  }

  lemma TurnOverflowStays(c: Counter, budget: nat, hits: seq<Hit>, a: seq<Turn>, t: Turn, chosen: seq<Turn>)
    requires Monotone(c) && c(hits, [t] + chosen) > budget
    ensures c(hits, a + [t] + chosen) > budget
  {
    SubOfSuffix(a, [t] + chosen);
    assert a + ([t] + chosen) == a + [t] + chosen;
    SubReflexive(hits);
  }

  // ----- building the bundle -----------------------------------------------------------------

  predicate Later(a: Turn, b: Turn) { a.at < b.at }

  /** Commitments first, then by score, importance and age, the highest first. */
  predicate Preferred(a: Hit, b: Hit) {
    if a.commitment != b.commitment then a.commitment
    else if a.score != b.score then a.score > b.score
    else if a.importance != b.importance then a.importance > b.importance
    else a.at > b.at
  }

  function TurnIds(turns: seq<Turn>): set<nat> {
    set t | t in turns :: t.id
  }

  function HitIds(hits: seq<Hit>): set<nat> {
    set h | h in hits :: h.id
  }

  /** The first turn of every id, and none of the current one. */
  function NewIds(turns: seq<Turn>, current: nat): seq<Turn> {
    if turns == [] then []
    else
      var before, last := NewIds(turns[..|turns| - 1], current), turns[|turns| - 1];
      if last.id == current || last.id in TurnIds(before) then before else before + [last]
  }

  function OfferedTurns(recent: seq<Turn>, current: nat): seq<Turn> {
    NewIds(StableSort(recent, Later), current)
  }

  function OfferedHits(hits: seq<Hit>): seq<Hit> {
    var ordered := StableSort(hits, Preferred);
    Filter(ordered, (h: Hit) => h.commitment) + Filter(ordered, (h: Hit) => !h.commitment)
  }

  function Bundled(c: Counter, budget: nat, current: Turn, recent: seq<Turn>, hits: seq<Hit>): Bundle {
    var offered := OfferedTurns(recent, current.id);
    var chosen := TakeHits(c, budget, [], OfferedHits(hits));
    var turns := TakeTurns(c, budget, chosen, offered, []);
    var omittedTurns, omittedMemories := |offered| - |turns|, |hits| - |HitIds(chosen)|;
    Bundle(chosen, turns, c(chosen, turns), omittedTurns, omittedMemories, omittedTurns != 0 || omittedMemories != 0)
  }

  predicate SameScope(current: Turn, recent: seq<Turn>, hits: seq<Hit>) {
    (forall t :: t in recent ==> t.scope == current.scope) && (forall h :: h in hits ==> h.scope == current.scope)
  }

  method Build(c: Counter, context: int, reserved: int, current: Turn, recent: seq<Turn>, hits: seq<Hit>,
               systemRoles: seq<Role>)
    returns (result: Result<Bundle>)
    ensures result == if context < 1 || reserved < 0 then Err(BadLimits)
                      else if context - reserved < 1 then Err(NoInputBudget)
                      else if !SameScope(current, recent, hits) then Err(OtherConversation)
                      else if exists role :: role in systemRoles && role != System then Err(WrongSystemRole)
                      else if c([], []) > context - reserved then Err(SystemTooLong)
                      else Ok(Bundled(c, context - reserved, current, recent, hits))
  {
    hide StableSort, Filter;
    if context < 1 || reserved < 0 { return Err(BadLimits); }
    if context - reserved < 1 { return Err(NoInputBudget); }
    if !SameScope(current, recent, hits) { return Err(OtherConversation); }
    if exists role :: role in systemRoles && role != System { return Err(WrongSystemRole); }
    var budget: nat := context - reserved;
    var offered := Deduplicate(StableSort(recent, Later), current.id);
    if c([], []) > budget { return Err(SystemTooLong); }
    var ordered := StableSort(hits, Preferred);
    var commitments, others := Filter(ordered, (h: Hit) => h.commitment), Filter(ordered, (h: Hit) => !h.commitment);
    var chosen := PickHits(c, budget, [], commitments);
    chosen := PickHits(c, budget, chosen, others);
    TakeHitsAppends(c, budget, [], commitments, others);
    var turns := PickTurns(c, budget, chosen, offered);
    var omittedTurns, omittedMemories := |offered| - |turns|, |hits| - |HitIds(chosen)|;
    return Ok(Bundle(chosen, turns, c(chosen, turns), omittedTurns, omittedMemories,
                     omittedTurns != 0 || omittedMemories != 0));
  }

  method Deduplicate(turns: seq<Turn>, current: nat) returns (kept: seq<Turn>)
    ensures kept == NewIds(turns, current)
  {
    var seen := {current};
    kept := [];
    for i := 0 to |turns|
      invariant kept == NewIds(turns[..i], current) && seen == TurnIds(kept) + {current}
    {
      assert turns[..i + 1][..i] == turns[..i];
      if turns[i].id !in seen {
        kept := kept + [turns[i]];
        seen := seen + {turns[i].id};
      }
    }
    assert turns[..|turns|] == turns;
  }

  method PickHits(c: Counter, budget: nat, chosen: seq<Hit>, offered: seq<Hit>) returns (picked: seq<Hit>)
    ensures picked == TakeHits(c, budget, chosen, offered)
  {
    picked := chosen;
    for i := 0 to |offered|
      invariant TakeHits(c, budget, picked, offered[i..]) == TakeHits(c, budget, chosen, offered)
    {
      assert offered[i..][1..] == offered[i + 1..];
      var trial := picked + [offered[i]];
      if c(trial, []) <= budget { picked := trial; }
    }
  }

  method PickTurns(c: Counter, budget: nat, hits: seq<Hit>, offered: seq<Turn>) returns (picked: seq<Turn>)
    ensures picked == TakeTurns(c, budget, hits, offered, [])
  {
    picked := [];
    var i := |offered|;
    assert offered[..|offered|] == offered;
    while i > 0
      invariant 0 <= i <= |offered|
      invariant TakeTurns(c, budget, hits, offered[..i], picked) == TakeTurns(c, budget, hits, offered, [])
    {
      i := i - 1;
      assert offered[..i + 1][..i] == offered[..i];
      var trial := [offered[i]] + picked;
      if c(hits, trial) <= budget { picked := trial; }
    }
  }

  // ----- what the bundle promises ---------------------------------------------------------------

  ghost predicate DistinctTurns(turns: seq<Turn>) {
    forall i, j :: 0 <= i < j < |turns| ==> turns[i].id != turns[j].id
  }

  ghost predicate Chronological(turns: seq<Turn>) {
    forall i, j :: 0 <= i < j < |turns| ==> turns[i].at <= turns[j].at
  }

  ghost predicate DistinctHits(hits: seq<Hit>) {
    forall i, j :: 0 <= i < j < |hits| ==> hits[i].id != hits[j].id
  }

  lemma {:induction false} NewIdsAreSub(turns: seq<Turn>, current: nat)
    ensures var r := NewIds(turns, current);
            Sub(r, turns) && DistinctTurns(r) && forall t :: t in r ==> t.id != current
  {
    if turns != [] {
      var n := |turns| - 1;
      NewIdsAreSub(turns[..n], current);
      assert turns == turns[..n] + [turns[n]];
      SubAppendBoth(NewIds(turns[..n], current), turns[..n], turns[n]);
      SubOfAppend(NewIds(turns[..n], current), turns[..n], [turns[n]]);
    }
  }

  lemma OfferedTurnsAreChronological(recent: seq<Turn>, current: nat)
    ensures Chronological(OfferedTurns(recent, current)) && DistinctTurns(OfferedTurns(recent, current))
    ensures forall t :: t in OfferedTurns(recent, current) ==> t in recent && t.id != current
  {
    var sorted := StableSort(recent, Later);
    StableSortSorts(recent, Later);
    NewIdsAreSub(sorted, current);
    SubKeepsPairs(NewIds(sorted, current), sorted, (a: Turn, b: Turn) => !Later(b, a));
    SubMembers(NewIds(sorted, current), sorted);
    forall t | t in sorted ensures t in recent { assert t in multiset(sorted); }
  }

  lemma NothingIsSub()
    ensures Sub<Turn>([], []) && Sub<Hit>([], [])
  {
  }

  /**
   * The built context fits the budget; its turns are a chronological subsequence of the recent
   * ones without repeats and without the current one; its memories are among the hits.
   */
  lemma ContextIsSound(c: Counter, budget: nat, current: Turn, recent: seq<Turn>, hits: seq<Hit>)
    requires c([], []) <= budget
    ensures var b := Bundled(c, budget, current, recent, hits);
            && b.estimated == c(b.hits, b.turns) <= budget
            && Sub(b.turns, OfferedTurns(recent, current.id)) && Chronological(b.turns) && DistinctTurns(b.turns)
            && (forall t :: t in b.turns ==> t in recent && t.id != current.id)
            && Sub(b.hits, OfferedHits(hits))
  {
    hide TakeHits, TakeTurns, OfferedTurns, OfferedHits, Sub;
    var offered := OfferedTurns(recent, current.id);
    NothingIsSub();
    OfferedTurnsAreChronological(recent, current.id);
    TakeHitsFits(c, budget, [], OfferedHits(hits), []);
    assert [] + OfferedHits(hits) == OfferedHits(hits);
    var chosen := TakeHits(c, budget, [], OfferedHits(hits));
    TakeTurnsFits(c, budget, chosen, offered, [], []);
    assert offered + [] == offered;
    var turns := TakeTurns(c, budget, chosen, offered, []);
    SubKeepsPairs(turns, offered, (a: Turn, b: Turn) => a.at <= b.at && a.id != b.id);
    SubMembers(turns, offered);
  }

  /** Put back in its chronological place, a turn makes the prompt overflow. */
  ghost predicate OverflowsInPlace(c: Counter, budget: nat, b: Bundle, offered: seq<Turn>, t: Turn) {
    exists x, y :: x + y == b.turns && c(b.hits, x + [t] + y) > budget && Sub(x + [t] + y, offered)
  }

  /** For a monotone counter the selection is maximal: any omitted memory or turn would overflow. */
  lemma SelectionIsMaximal(c: Counter, budget: nat, current: Turn, recent: seq<Turn>, hits: seq<Hit>)
    requires Monotone(c) && c([], []) <= budget
    ensures var b := Bundled(c, budget, current, recent, hits);
            && (forall h :: h in OfferedHits(hits) && h !in b.hits ==> c(b.hits + [h], b.turns) > budget)
            && (forall t :: t in OfferedTurns(recent, current.id) && t !in b.turns ==>
                  OverflowsInPlace(c, budget, b, OfferedTurns(recent, current.id), t))
  {
    var b := Bundled(c, budget, current, recent, hits);
    var offered, turns := OfferedHits(hits), OfferedTurns(recent, current.id);
    TakeHitsFits(c, budget, [], offered, []);
    forall h | h in offered && h !in b.hits ensures c(b.hits + [h], b.turns) > budget {
      var k :| 0 <= k < |offered| && offered[k] == h;
      var x, y := OmittedHitOverflows(c, budget, [], offered, k, b.turns);
    }
    forall t | t in turns && t !in b.turns
      ensures OverflowsInPlace(c, budget, b, turns, t)
    {
      var k :| 0 <= k < |turns| && turns[k] == t;
      var x, y := OmittedTurnOverflows(c, budget, b.hits, turns, [], [], k);
      assert turns + [] == turns;
    }
  }

  // ----- the truncation flag -------------------------------------------------------------------

  lemma {:induction false} FilterSplits(s: seq<Hit>)
    ensures multiset(Filter(s, (h: Hit) => h.commitment)) + multiset(Filter(s, (h: Hit) => !h.commitment))
            == multiset(s)
  {
    if s != [] {
      var before, last := s[..|s| - 1], s[|s| - 1];
      FilterSplits(before);
      assert s == before + [last];
      FilterAppends(before, last, (h: Hit) => h.commitment);
      FilterAppends(before, last, (h: Hit) => !h.commitment);
    }
  }

  lemma OfferedHitsAreAll(hits: seq<Hit>)
    ensures multiset(OfferedHits(hits)) == multiset(hits)
  {
    FilterSplits(StableSort(hits, Preferred));
  }

  lemma {:induction false} IdCount(hits: seq<Hit>)
    ensures |HitIds(hits)| <= |hits|
    ensures DistinctHits(hits) ==> |HitIds(hits)| == |hits|
  {
    if hits != [] {
      var n := |hits| - 1;
      IdCount(hits[..n]);
      assert hits == hits[..n] + [hits[n]];
      assert HitIds(hits) == HitIds(hits[..n]) + {hits[n].id};
    }
  }

  lemma SameMembersSameIds(a: seq<Hit>, b: seq<Hit>)
    requires multiset(a) == multiset(b)
    ensures forall h :: h in a <==> h in b
  {
    forall h ensures h in a <==> h in b { assert h in multiset(a) <==> h in multiset(b); }
  }

  lemma {:induction false} RepeatedIdsCountLess(hits: seq<Hit>)
    ensures |HitIds(hits)| == |hits| ==> DistinctHits(hits)
  {
    if hits != [] {
      var n := |hits| - 1;
      RepeatedIdsCountLess(hits[..n]);
      IdCount(hits[..n]);
      assert hits == hits[..n] + [hits[n]];
      assert HitIds(hits) == HitIds(hits[..n]) + {hits[n].id};
    }
  }

  lemma SubsetOfSameSize(a: set<nat>, b: set<nat>)
    requires a <= b
    ensures |a| <= |b| && (|a| == |b| <==> a == b)
  {
    if a != b {
      var x :| x in b && x !in a;
      assert a <= b - {x};
      CardinalityOfSubset(a, b - {x});
    }
  }

  lemma {:induction false} CardinalityOfSubset(a: set<nat>, b: set<nat>)
    requires a <= b
    ensures |a| <= |b|
  {
    if a != {} {
      var x :| x in a;
      CardinalityOfSubset(a - {x}, b - {x});
    }
  }

  lemma {:induction false} SubOfSameLength<T>(a: seq<T>, b: seq<T>)
    requires Sub(a, b) && |a| == |b|
    ensures a == b
  {
    if a != [] {
      assert !Sub(a, b[..|b| - 1]) by {
        if Sub(a, b[..|b| - 1]) { SubMembers(a, b[..|b| - 1]); }
      }
      SubOfSameLength(a[..|a| - 1], b[..|b| - 1]);
    }
  }

  /** Some hit was left out of the context. */
  ghost predicate SomeHitOmitted(hits: seq<Hit>, chosen: seq<Hit>) {
    exists h :: h in hits && h !in chosen
  }

  ghost predicate SomeTurnOmitted(offered: seq<Turn>, chosen: seq<Turn>) {
    exists t :: t in offered && t !in chosen
  }

  lemma HitsOmittedCount(hits: seq<Hit>, chosen: seq<Hit>)
    requires DistinctHits(hits) && forall h :: h in chosen ==> h in hits
    ensures |hits| - |HitIds(chosen)| != 0 <==> SomeHitOmitted(hits, chosen)
  {
    IdCount(hits);
    SubsetOfSameSize(HitIds(chosen), HitIds(hits));
    if !SomeHitOmitted(hits, chosen) {
      assert HitIds(chosen) == HitIds(hits);
    } else {
      var h :| h in hits && h !in chosen;
      assert h.id !in HitIds(chosen) by {
        forall x | x in chosen ensures x.id != h.id {
          var i :| 0 <= i < |hits| && hits[i] == x;
          var j :| 0 <= j < |hits| && hits[j] == h;
          assert i != j;
        }
      }
      assert h.id in HitIds(hits);
    }
  }

  lemma TurnsOmittedCount(offered: seq<Turn>, chosen: seq<Turn>)
    requires Sub(chosen, offered) && DistinctTurns(offered)
    ensures |offered| - |chosen| != 0 <==> SomeTurnOmitted(offered, chosen)
  {
    SubMembers(chosen, offered);
    if |offered| == |chosen| {
      SubOfSameLength(chosen, offered);
    } else {
      OmittedExists(chosen, offered);
    }
  }

  lemma {:induction false} OmittedExists(chosen: seq<Turn>, offered: seq<Turn>)
    requires Sub(chosen, offered) && DistinctTurns(offered) && |chosen| < |offered|
    ensures SomeTurnOmitted(offered, chosen)
  {
    var n := |offered| - 1;
    if Sub(chosen, offered[..n]) {
      SubMembers(chosen, offered[..n]);
      assert offered[n] in offered && offered[n] !in chosen;
    } else {
      var m := |chosen| - 1;
      OmittedExists(chosen[..m], offered[..n]);
      var t :| t in offered[..n] && t !in chosen[..m];
      assert chosen == chosen[..m] + [chosen[m]];
      assert t in offered && t !in chosen;
    }
  }

  /** With distinct memory hits the truncation flag says exactly whether something was left out. */
  lemma TruncationFlagIsExact(c: Counter, budget: nat, current: Turn, recent: seq<Turn>, hits: seq<Hit>)
    requires c([], []) <= budget && DistinctHits(hits)
    ensures var b := Bundled(c, budget, current, recent, hits);
            b.truncated <==> SomeHitOmitted(hits, b.hits) || SomeTurnOmitted(OfferedTurns(recent, current.id), b.turns)
  {
    ContextIsSound(c, budget, current, recent, hits);
    hide TakeHits, TakeTurns, OfferedTurns, OfferedHits, Sub;
    var b := Bundled(c, budget, current, recent, hits);
    SubMembers(b.hits, OfferedHits(hits));
    OfferedHitsAreAll(hits);
    SameMembersSameIds(OfferedHits(hits), hits);
    HitsOmittedCount(hits, b.hits);
    OfferedTurnsAreChronological(recent, current.id);
    TurnsOmittedCount(OfferedTurns(recent, current.id), b.turns);
  }

  /** Two hits with one id set the flag whatever was selected: the converse needs distinct hits. */
  lemma RepeatedHitsAlwaysFlagged(c: Counter, budget: nat, current: Turn, recent: seq<Turn>, hits: seq<Hit>)
    requires c([], []) <= budget && !DistinctHits(hits)
    ensures Bundled(c, budget, current, recent, hits).truncated
  {
    ContextIsSound(c, budget, current, recent, hits);
    hide TakeHits, TakeTurns, OfferedTurns, OfferedHits, Sub;
    var b := Bundled(c, budget, current, recent, hits);
    SubMembers(b.hits, OfferedHits(hits));
    OfferedHitsAreAll(hits);
    SameMembersSameIds(OfferedHits(hits), hits);
    SubsetOfSameSize(HitIds(b.hits), HitIds(hits));
    IdCount(hits);
    RepeatedIdsCountLess(hits);
  }

  ghost predicate FirstHit(hits: seq<Hit>, i: nat) {
    i < |hits| && forall j :: 0 <= j < i ==> hits[j].id != hits[i].id
  }

  lemma FirstHitOf(hits: seq<Hit>, h: Hit)
    ensures FirstHit(hits + [h], |hits|) <==> h.id !in HitIds(hits)
    ensures forall i: nat :: i < |hits| ==> (FirstHit(hits + [h], i) <==> FirstHit(hits, i))
  {
    forall i: nat | i < |hits| ensures FirstHit(hits + [h], i) <==> FirstHit(hits, i) {
      assert forall j :: 0 <= j <= i ==> (hits + [h])[j] == hits[j];
    }
    if h.id in HitIds(hits) {
      var g :| g in hits && g.id == h.id;
      var j :| 0 <= j < |hits| && hits[j] == g;
      assert (hits + [h])[j].id == h.id;
    } else {
      forall j | 0 <= j < |hits| ensures (hits + [h])[j].id != h.id {
        assert hits[j] in hits;
      }
    }
  }

  /** The service merges the two searches so that the builder always gets distinct hits. */
  method MergeHits(commitments: seq<Hit>, hits: seq<Hit>) returns (merged: seq<Hit>)
    ensures DistinctHits(merged) && HitIds(merged) == HitIds(commitments + hits)
    ensures Sub(merged, commitments + hits)
    ensures forall i: nat :: FirstHit(commitments + hits, i) ==> (commitments + hits)[i] in merged
  {
    hide Sub, FirstHit, HitIds, DistinctHits;
    NothingMerged();
    var all := commitments + hits;
    var seen: set<nat> := {};
    merged := [];
    for i := 0 to |all|
      invariant DistinctHits(merged) && seen == HitIds(merged) == HitIds(all[..i])
      invariant Sub(merged, all[..i])
      invariant forall k: nat :: k < i && FirstHit(all[..i], k) ==> all[k] in merged
    {
      FirstHitOf(all[..i], all[i]);
      assert all[..i + 1] == all[..i] + [all[i]];
      SubOfAppend(merged, all[..i], [all[i]]);
      SubAppendBoth(merged, all[..i], all[i]);
      HitIdsSnoc(all[..i], all[i]);
      HitIdsSnoc(merged, all[i]);
      if all[i].id !in seen {
        merged := merged + [all[i]];
        seen := seen + {all[i].id};
      }
    }
    assert all[..|all|] == all;
    FirstHitIsThere(all);
    forall i: nat | FirstHit(all, i) ensures all[i] in merged {
      assert FirstHit(all[..|all|], i);
    }
  }

  lemma NothingMerged()
    ensures Sub<Hit>([], []) && DistinctHits([]) && HitIds([]) == {}
  {
  }

  lemma FirstHitIsThere(hits: seq<Hit>)
    ensures forall i: nat :: FirstHit(hits, i) ==> i < |hits|
  {
  }

  lemma HitIdsSnoc(hits: seq<Hit>, h: Hit)
    ensures HitIds(hits + [h]) == HitIds(hits) + {h.id}
    ensures DistinctHits(hits) && h.id !in HitIds(hits) ==> DistinctHits(hits + [h])
  {
  }
}
