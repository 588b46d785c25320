// A chat's message history, newest first, and the two ways of selecting what is new
// in it: page by page, and in one slice of the newest thousand rows.
module WechatHistory {

  datatype Option<+T> = None | Some(value: T)

  datatype Row = Row(localId: int, chatId: string, kind: int, content: string, isSelf: bool, sender: string)

  const PAGE_SIZE: nat := 100
  const MAX_PAGES: nat := 10
  const WINDOW: nat := 1000

  function Ids(rows: seq<Row>): set<int> {
    set r | r in rows :: r.localId
  }

  predicate DistinctIds(rows: seq<Row>) {
    forall i, j :: 0 <= i < j < |rows| ==> rows[i].localId != rows[j].localId
  }

  /** History only grows at the front: rows arrive newest first and none is removed. */
  ghost predicate GrowsTo(before: seq<Row>, after: seq<Row>) {
    |before| <= |after| && after[|after| - |before|..] == before
  }

  function Slice(history: seq<Row>, from: nat, count: nat): seq<Row> {
    if from >= |history| then []
    else if from + count >= |history| then history[from..]
    else history[from..from + count]
  }

  function PageAt(history: seq<Row>, index: nat): seq<Row> {
    Slice(history, index * PAGE_SIZE, PAGE_SIZE)
  }

  function Newest(history: seq<Row>): seq<Row> {
    PageAt(history, 0)
  }

  // ----- selection --------------------------------------------------------

  /** One past the last row whose id is an anchor; 0 when there is none. */
  function OverlapEnd(rows: seq<Row>, anchors: set<int>): (end: nat)
    ensures end <= |rows|
    ensures end > 0 ==> rows[end - 1].localId in anchors
    ensures forall i :: end <= i < |rows| ==> rows[i].localId !in anchors
  {
    if rows == [] then 0
    else if rows[|rows| - 1].localId in anchors then |rows|
    else OverlapEnd(rows[..|rows| - 1], anchors)
  }

  function NotIn(rows: seq<Row>, anchors: set<int>): seq<Row> {
    if rows == [] then []
    else if rows[|rows| - 1].localId in anchors then NotIn(rows[..|rows| - 1], anchors)
    else NotIn(rows[..|rows| - 1], anchors) + [rows[|rows| - 1]]
  }

  /** Paging over a still history from page `index` on; None when the anchors are lost. */
  function PagedFrom(history: seq<Row>, anchors: set<int>, index: nat): Option<seq<Row>>
    requires index < MAX_PAGES
    decreases MAX_PAGES - index
  {
    var page := PageAt(history, index);
    var end := OverlapEnd(page, anchors);
    if end > 0 then Some(NotIn(page[..end], anchors))
    else if anchors == {} && |page| < PAGE_SIZE then Some(NotIn(page, anchors))
    else if |page| < PAGE_SIZE || index == MAX_PAGES - 1 then None
    else match PagedFrom(history, anchors, index + 1)
         case None => None
         case Some(rest) => Some(NotIn(page, anchors) + rest)
  }

  function Paged(history: seq<Row>, anchors: set<int>): Option<seq<Row>> {
    PagedFrom(history, anchors, 0)
  }

  /** The one-query selection over the newest thousand rows. */
  function OneShot(history: seq<Row>, anchors: set<int>): Option<seq<Row>> {
    var rows := Slice(history, 0, WINDOW);
    var end := OverlapEnd(rows, anchors);
    if end == 0 && (anchors != {} || |rows| >= PAGE_SIZE) then None
    else Some(NotIn(if end > 0 then rows[..end] else rows, anchors))
  }

  // ----- facts about the pieces -------------------------------------------

  lemma {:induction false} NotInConcat(a: seq<Row>, b: seq<Row>, anchors: set<int>)
    ensures NotIn(a + b, anchors) == NotIn(a, anchors) + NotIn(b, anchors)
  {
    if b == [] {
      assert a + b == a;
    } else {
      assert (a + b)[..|a + b| - 1] == a + b[..|b| - 1];
      NotInConcat(a, b[..|b| - 1], anchors);
    }
  }

  lemma {:induction false} NotInAll(rows: seq<Row>, anchors: set<int>)
    requires forall i :: 0 <= i < |rows| ==> rows[i].localId !in anchors
    ensures NotIn(rows, anchors) == rows
  {
    if rows != [] {
      NotInAll(rows[..|rows| - 1], anchors);
    }
  }

  lemma {:induction false} NotInNone(rows: seq<Row>, anchors: set<int>)
    requires forall i :: 0 <= i < |rows| ==> rows[i].localId in anchors
    ensures NotIn(rows, anchors) == []
  {
    if rows != [] {
      NotInNone(rows[..|rows| - 1], anchors);
    }
  }

  lemma OverlapEndUnique(rows: seq<Row>, anchors: set<int>, end: nat)
    requires end <= |rows|
    requires end > 0 ==> rows[end - 1].localId in anchors
    requires forall i :: end <= i < |rows| ==> rows[i].localId !in anchors
    ensures OverlapEnd(rows, anchors) == end
  {
  }

  lemma GrowsTransitive(a: seq<Row>, b: seq<Row>, c: seq<Row>)
    requires GrowsTo(a, b) && GrowsTo(b, c)
    ensures GrowsTo(a, c)
  {
    assert c[|c| - |a|..] == c[|c| - |b|..][|b| - |a|..];
  }

  // ----- paging against the whole history ---------------------------------

  /** One past the last anchor of the page that holds row `first`. */
  ghost function KeptEnd(history: seq<Row>, anchors: set<int>, first: nat): nat {
    (first / PAGE_SIZE) * PAGE_SIZE + OverlapEnd(PageAt(history, first / PAGE_SIZE), anchors)
  }

  lemma PageRows(history: seq<Row>, index: nat)
    requires index * PAGE_SIZE <= |history|
    ensures var page := PageAt(history, index);
      && |page| <= PAGE_SIZE && index * PAGE_SIZE + |page| <= |history|
      && (|page| < PAGE_SIZE ==> index * PAGE_SIZE + |page| == |history|)
      && page == history[index * PAGE_SIZE..index * PAGE_SIZE + |page|]
  {
  }

  lemma HitPage(history: seq<Row>, anchors: set<int>, index: nat, first: nat)
    requires index < MAX_PAGES && index * PAGE_SIZE <= first < |history|
    requires first < (index + 1) * PAGE_SIZE && history[first].localId in anchors
    ensures first < KeptEnd(history, anchors, first) <= |history|
    ensures PagedFrom(history, anchors, index)
         == Some(NotIn(history[index * PAGE_SIZE..KeptEnd(history, anchors, first)], anchors))
  {
    PageRows(history, index);
    var page := PageAt(history, index);
    assert page[first - index * PAGE_SIZE] == history[first];
    assert first / PAGE_SIZE == index;
    assert page[..OverlapEnd(page, anchors)]
        == history[index * PAGE_SIZE..KeptEnd(history, anchors, first)];
  }

  /** A full page without anchors is kept whole and paging goes on, unless it was the last. */
  lemma MissPage(history: seq<Row>, anchors: set<int>, index: nat)
    requires index < MAX_PAGES && (index + 1) * PAGE_SIZE <= |history|
    requires forall i :: index * PAGE_SIZE <= i < (index + 1) * PAGE_SIZE ==> history[i].localId !in anchors
    ensures PagedFrom(history, anchors, index)
         == if index == MAX_PAGES - 1 then None
            else match PagedFrom(history, anchors, index + 1)
                 case None => None
                 case Some(rest) => Some(history[index * PAGE_SIZE..(index + 1) * PAGE_SIZE] + rest)
  {
    PageRows(history, index);
    var page := PageAt(history, index);
    assert page == history[index * PAGE_SIZE..(index + 1) * PAGE_SIZE];
    OverlapEndUnique(page, anchors, 0);
    NotInAll(page, anchors);
  }

  lemma ShortPage(history: seq<Row>, anchors: set<int>, index: nat)
    requires index < MAX_PAGES && index * PAGE_SIZE <= |history| < (index + 1) * PAGE_SIZE
    requires forall i :: index * PAGE_SIZE <= i < |history| ==> history[i].localId !in anchors
    ensures PagedFrom(history, anchors, index)
         == if anchors == {} then Some(history[index * PAGE_SIZE..]) else None
  {
    PageRows(history, index);
    var page := PageAt(history, index);
    assert page == history[index * PAGE_SIZE..];
    OverlapEndUnique(page, anchors, 0);
    NotInAll(page, anchors);
  }

  lemma NotInExtends(history: seq<Row>, anchors: set<int>, from: nat, mid: nat, end: nat)
    requires from <= mid <= end <= |history|
    requires forall i :: from <= i < mid ==> history[i].localId !in anchors
    ensures NotIn(history[from..end], anchors) == history[from..mid] + NotIn(history[mid..end], anchors)
  {
    assert history[from..end] == history[from..mid] + history[mid..end];
    NotInConcat(history[from..mid], history[mid..end], anchors);
    NotInAll(history[from..mid], anchors);
  }

  /** Paging keeps the rows ahead of the first anchored page, and that page up to its last anchor. */
  lemma {:induction false} PagedFromAt(history: seq<Row>, anchors: set<int>, index: nat, first: nat)
    requires index < MAX_PAGES && index * PAGE_SIZE <= first < |history|
    requires history[first].localId in anchors
    requires forall i :: index * PAGE_SIZE <= i < first ==> history[i].localId !in anchors
    ensures first < WINDOW ==>
              && first < KeptEnd(history, anchors, first) <= |history|
              && PagedFrom(history, anchors, index)
                 == Some(NotIn(history[index * PAGE_SIZE..KeptEnd(history, anchors, first)], anchors))
    ensures first >= WINDOW ==> PagedFrom(history, anchors, index) == None
    decreases MAX_PAGES - index
  {
    hide PagedFrom, NotIn, KeptEnd;
    if first < (index + 1) * PAGE_SIZE {
      HitPage(history, anchors, index, first);
    } else {
      MissPage(history, anchors, index);
      if index < MAX_PAGES - 1 {
        PagedFromAt(history, anchors, index + 1, first);
        if first < WINDOW {
          NotInExtends(history, anchors, index * PAGE_SIZE, (index + 1) * PAGE_SIZE,
                       KeptEnd(history, anchors, first));
        }
      }
    }
  }

  /** With no anchor in reach, paging reports a loss, unless there never was one and a page falls short. */
  lemma {:induction false} PagedFromWithout(history: seq<Row>, anchors: set<int>, index: nat)
    requires index < MAX_PAGES && index * PAGE_SIZE <= |history|
    requires forall i :: index * PAGE_SIZE <= i < |history| && i < WINDOW ==> history[i].localId !in anchors
    ensures PagedFrom(history, anchors, index)
         == if anchors == {} && |history| < WINDOW then Some(history[index * PAGE_SIZE..]) else None
    decreases MAX_PAGES - index
  {
    hide PagedFrom;
    if |history| < (index + 1) * PAGE_SIZE {
      ShortPage(history, anchors, index);
    } else {
      MissPage(history, anchors, index);
      if index < MAX_PAGES - 1 {
        PagedFromWithout(history, anchors, index + 1);
        assert history[index * PAGE_SIZE..]
            == history[index * PAGE_SIZE..(index + 1) * PAGE_SIZE] + history[(index + 1) * PAGE_SIZE..];
      }
    }
  }

  /**
   * Exactly once: over a still history, paging from the anchors of an earlier one selects
   * exactly the arrivals since, unless a thousand or more arrived.
   */
  lemma PagedSelectsArrivals(arrived: seq<Row>, known: seq<Row>)
    requires DistinctIds(arrived + known)
    ensures Paged(arrived + known, Ids(Newest(known)))
         == if |arrived| < WINDOW then Some(arrived) else None
  {
    var history, anchors := arrived + known, Ids(Newest(known));
    assert forall i :: 0 <= i < |arrived| ==> history[i] == arrived[i];
    forall i | 0 <= i < |arrived| ensures history[i].localId !in anchors {
      forall r | r in Newest(known) ensures r.localId != history[i].localId {
        var j :| 0 <= j < |known| && known[j] == r;
        assert history[|arrived| + j] == r;
      }
    }
    if known == [] {
      assert anchors == {} && history == arrived;
      PagedFromWithout(history, anchors, 0);
      assert history[0..] == arrived;
    } else {
      assert Newest(known)[0] == known[0];
      assert history[|arrived|].localId in anchors;
      PagedFromAt(history, anchors, 0, |arrived|);
      if |arrived| < WINDOW {
        KeptEndIsAnchor(history, anchors, |arrived|);
        ArrivalsUpTo(arrived, known, KeptEnd(history, anchors, |arrived|));
      }
    }
  }

  lemma ArrivalsUpTo(arrived: seq<Row>, known: seq<Row>, end: nat)
    requires forall i :: 0 <= i < |arrived| ==> arrived[i].localId !in Ids(Newest(known))
    requires |arrived| <= end <= |arrived + known| && end - |arrived| <= PAGE_SIZE
    ensures NotIn((arrived + known)[..end], Ids(Newest(known))) == arrived
  {
    hide NotIn;
    var anchors, tail := Ids(Newest(known)), known[..end - |arrived|];
    assert (arrived + known)[..end] == arrived + tail;
    NotInConcat(arrived, tail, anchors);
    NotInAll(arrived, anchors);
    forall j | 0 <= j < |tail| ensures tail[j].localId in anchors {
      assert tail[j] == Newest(known)[j];
    }
    NotInNone(tail, anchors);
  }

  // ----- paging against the one-shot slice --------------------------------

  lemma {:induction false} NotInSome(rows: seq<Row>, anchors: set<int>, i: nat)
    requires i < |rows| && rows[i].localId !in anchors
    ensures NotIn(rows, anchors) != []
  {
    if i < |rows| - 1 {
      NotInSome(rows[..|rows| - 1], anchors, i);
    }
  }

  /** The rows between where paging stops and where the slice stops. */
  ghost predicate OnlyAnchorsBetween(history: seq<Row>, anchors: set<int>, from: nat, end: nat) {
    forall i :: from <= i < end && i < |history| ==> history[i].localId in anchors
  }

  /** Paging stops just past an anchor of the window. */
  lemma KeptEndIsAnchor(history: seq<Row>, anchors: set<int>, first: nat)
    requires first < |history| && first < WINDOW && history[first].localId in anchors
    ensures first < KeptEnd(history, anchors, first) <= |history|
    ensures KeptEnd(history, anchors, first) <= WINDOW
    ensures history[KeptEnd(history, anchors, first) - 1].localId in anchors
  {
    var index := first / PAGE_SIZE;
    PageRows(history, index);
    HitPage(history, anchors, index, first);
    var page := PageAt(history, index);
    assert page[OverlapEnd(page, anchors) - 1] == history[KeptEnd(history, anchors, first) - 1];
  }

  /** Where the two selections stop, given the first anchored row. */
  lemma BothSelect(history: seq<Row>, anchors: set<int>, first: nat)
    requires first < |history| && first < WINDOW && history[first].localId in anchors
    requires forall i :: 0 <= i < first ==> history[i].localId !in anchors
    ensures var near, far := KeptEnd(history, anchors, first), OverlapEnd(Slice(history, 0, WINDOW), anchors);
      && near <= far <= |history|
      && Paged(history, anchors) == Some(NotIn(history[..near], anchors))
      && OneShot(history, anchors) == Some(NotIn(history[..near], anchors) + NotIn(history[near..far], anchors))
  {
    hide NotIn, KeptEnd, PagedFrom;
    var rows := Slice(history, 0, WINDOW);
    var near, far := KeptEnd(history, anchors, first), OverlapEnd(rows, anchors);
    PagedFromAt(history, anchors, 0, first);
    KeptEndIsAnchor(history, anchors, first);
    assert rows[near - 1] == history[near - 1];
    assert rows[..far] == history[..near] + history[near..far];
    NotInConcat(history[..near], history[near..far], anchors);
  }

  /**
   * From anchors that were once read, the two selections agree on every history, in which no
   * stranger lies between the last anchor of the first anchored page and the last of the window;
   * and on no other.
   */
  lemma PagedAgreesWithSlice(history: seq<Row>, anchors: set<int>, first: nat)
    requires first < |history| && first < WINDOW && history[first].localId in anchors
    requires forall i :: 0 <= i < first ==> history[i].localId !in anchors
    ensures Paged(history, anchors) == OneShot(history, anchors)
       <==> OnlyAnchorsBetween(history, anchors, KeptEnd(history, anchors, first),
                               OverlapEnd(Slice(history, 0, WINDOW), anchors))
  {
    hide NotIn, KeptEnd, PagedFrom, Paged, OneShot, OverlapEnd;
    BothSelect(history, anchors, first);
    var near, far := KeptEnd(history, anchors, first), OverlapEnd(Slice(history, 0, WINDOW), anchors);
    var gap := history[near..far];
    if OnlyAnchorsBetween(history, anchors, near, far) {
      NotInNone(gap, anchors);
      assert NotIn(history[..near], anchors) + [] == NotIn(history[..near], anchors);
    } else {
      var i :| near <= i < far && i < |history| && history[i].localId !in anchors;
      NotInSome(gap, anchors, i - near);
      assert |NotIn(history[..near], anchors) + NotIn(gap, anchors)| > |NotIn(history[..near], anchors)|;
    }
  }

  /** Anchors out of the window are lost to both selections. */
  lemma BothLoseAnchors(history: seq<Row>, anchors: set<int>)
    requires anchors != {}
    requires forall i :: 0 <= i < |history| && i < WINDOW ==> history[i].localId !in anchors
    ensures Paged(history, anchors) == None == OneShot(history, anchors)
  {
    PagedFromWithout(history, anchors, 0);
    OverlapEndUnique(Slice(history, 0, WINDOW), anchors, 0);
  }

  /** With no anchors at all the two disagree exactly on histories of 100 to 999 rows. */
  lemma EmptyAnchorsDisagree(history: seq<Row>)
    ensures Paged(history, {}) == OneShot(history, {})
       <==> |history| < PAGE_SIZE || |history| >= WINDOW
  {
    PagedFromWithout(history, {}, 0);
    assert history[0..] == history;
    var rows := Slice(history, 0, WINDOW);
    OverlapEndUnique(rows, {}, 0);
    NotInAll(rows, {});
  }

  /** Anchors that still stand together in the history, as one earlier page of it, suffice. */
  lemma ContiguousAnchorsAgree(history: seq<Row>, anchors: set<int>, from: nat, end: nat)
    requires anchors != {} && from <= end <= |history|
    requires forall i :: 0 <= i < |history| ==> (history[i].localId in anchors <==> from <= i < end)
    ensures Paged(history, anchors) == OneShot(history, anchors)
    ensures Paged(history, anchors)
         == if from < end && from < WINDOW then Some(history[..from]) else None
  {
    hide PagedFrom, KeptEnd, NotIn, OneShot;
    if from < end && from < WINDOW {
      PagedAgreesWithSlice(history, anchors, from);
      BothSelect(history, anchors, from);
      KeptEndIsAnchor(history, anchors, from);
      var near := KeptEnd(history, anchors, from);
      NotInExtends(history, anchors, 0, from, near);
      NotInNone(history[from..near], anchors);
      assert history[..from] + [] == history[..from];
      assert history[0..near] == history[..near] && history[0..from] == history[..from];
    } else {
      BothLoseAnchors(history, anchors);
    }
  }
}
