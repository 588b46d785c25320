// The polling half of the WeChat connector: reading new rows while the history may
// grow between any two requests.
module WechatPolling {
  import opened WechatHistory

  datatype Pause =
    | AnchorLost | MessageWindowChanged | InvalidMessageList | WrongChatMessage
    | MessageIdentityMissing | DuplicatePageIdentity | RowRefused | Unavailable

  datatype Verdict = Skip | Emit(event: string) | Refuse

  datatype Polled = Paused(reason: Pause) | Events(events: seq<string>)

  /**
   * The remote service: any request may fail, and rows may arrive before it is served.  A steady
   * one serves every request and stays as it is.
   */
  class Upstream {
    const steady: bool
    var history: seq<Row>

    constructor (rows: seq<Row>, steady: bool)
      ensures history == rows && this.steady == steady
    {
      history, this.steady := rows, steady;
    }

    method Fetch(offset: nat) returns (rows: Option<seq<Row>>)
      requires DistinctIds(history)
      modifies this
      ensures DistinctIds(history) && GrowsTo(old(history), history)
      ensures rows.Some? ==> rows.value == Slice(history, offset, PAGE_SIZE)
      ensures steady ==> rows.Some? && history == old(history)
    {
      var arrivals: seq<Row>, served: bool := *, *;
      if !steady && DistinctIds(arrivals + history) {
        history := arrivals + history;
      }
      rows := if steady || served then Some(Slice(history, offset, PAGE_SIZE)) else None;
    }
  }

  function Reversed(rows: seq<Row>): (r: seq<Row>)
    ensures |r| == |rows|
  {
    if rows == [] then [] else Reversed(rows[1..]) + [rows[0]]
  }

  lemma {:induction false} ReversedConcat(a: seq<Row>, b: seq<Row>)
    ensures Reversed(a + b) == Reversed(b) + Reversed(a)
  {
    if a == [] {
      assert a + b == b;
    } else {
      assert (a + b)[1..] == a[1..] + b;
      ReversedConcat(a[1..], b);
    }
  }

  lemma {:induction false} ReversedTwice(a: seq<Row>)
    ensures Reversed(Reversed(a)) == a
  {
    if a != [] {
      ReversedConcat(Reversed(a[1..]), [a[0]]);
      ReversedTwice(a[1..]);
    }
  }

  /** The events of rows given oldest first, or None when one of them must pause the connector. */
  function EventsOf(classify: Row -> Verdict, rows: seq<Row>): Option<seq<string>> {
    if rows == [] then Some([])
    else match EventsOf(classify, rows[..|rows| - 1])
         case None => None
         case Some(events) =>
           match classify(rows[|rows| - 1])
           case Skip => Some(events)
           case Emit(event) => Some(events + [event])
           case Refuse => None
  }

  lemma {:induction false} EventsOfConcat(classify: Row -> Verdict, a: seq<Row>, b: seq<Row>)
    requires EventsOf(classify, a).Some? && EventsOf(classify, b).Some?
    ensures EventsOf(classify, a + b)
         == Some(EventsOf(classify, a).value + EventsOf(classify, b).value)
  {
    if b == [] {
      assert a + b == a;
      assert EventsOf(classify, a).value + [] == EventsOf(classify, a).value;
    } else {
      assert (a + b)[..|a + b| - 1] == a + b[..|b| - 1];
      EventsOfConcat(classify, a, b[..|b| - 1]);
      var before, init := EventsOf(classify, a).value, EventsOf(classify, b[..|b| - 1]).value;
      match classify(b[|b| - 1]) {
        case Emit(event) => assert before + (init + [event]) == before + init + [event];
        case _ =>
      }
    }
  }

  function OldestFirst(newestFirst: seq<Row>): seq<Row> {
    seq(|newestFirst|, i requires 0 <= i < |newestFirst| => newestFirst[|newestFirst| - 1 - i])
  }

  lemma {:induction false} ReversedIsOldestFirst(rows: seq<Row>)
    ensures Reversed(rows) == OldestFirst(rows)
  {
    if rows != [] { ReversedIsOldestFirst(rows[1..]); }
  }

  predicate Refused(classify: Row -> Verdict, rows: seq<Row>) {
    exists r :: r in rows && classify(r) == Refuse
  }

  /** The positions `at` are, in order, those of exactly the rows that give an event, each with its event. */
  ghost predicate EventsAt(classify: Row -> Verdict, rows: seq<Row>, at: seq<nat>, events: seq<string>) {
    && |at| == |events|
    && (forall i :: 0 <= i < |at| ==> at[i] < |rows| && classify(rows[at[i]]) == Emit(events[i]))
    && (forall i, j :: 0 <= i < j < |at| ==> at[i] < at[j])
    && (forall k :: 0 <= k < |rows| && classify(rows[k]).Emit? ==> k in at)
  }

  /** None of the rows, given oldest first, is refused, and these are the events of those that give one. */
  ghost predicate Gives(classify: Row -> Verdict, rows: seq<Row>, events: seq<string>) {
    !Refused(classify, rows) && exists at: seq<nat> :: EventsAt(classify, rows, at, events)
  }

  lemma {:induction false} EventsOfGives(classify: Row -> Verdict, rows: seq<Row>)
    ensures EventsOf(classify, rows).None? <==> Refused(classify, rows)
    ensures EventsOf(classify, rows).Some? ==> Gives(classify, rows, EventsOf(classify, rows).value)
  {
    if rows == [] {
      assert EventsAt(classify, rows, [], []);
    } else {
      var before, last := rows[..|rows| - 1], rows[|rows| - 1];
      EventsOfGives(classify, before);
      assert rows == before + [last];
      assert Refused(classify, rows) <==> Refused(classify, before) || classify(last) == Refuse;
      if EventsOf(classify, rows).Some? {
        var events := EventsOf(classify, before).value;
        var at: seq<nat> :| EventsAt(classify, before, at, events);
        OneMoreRow(classify, before, at, events, last);
      }
    }
  }

  lemma OneMoreRow(classify: Row -> Verdict, rows: seq<Row>, at: seq<nat>, events: seq<string>, last: Row)
    requires EventsAt(classify, rows, at, events)
    ensures classify(last) == Skip ==> EventsAt(classify, rows + [last], at, events)
    ensures classify(last).Emit?
        ==> EventsAt(classify, rows + [last], at + [|rows|], events + [classify(last).event])
  {
    var more, last' := at + [|rows|], |rows|;
    assert more[|at|] == last';
    forall k | 0 <= k < |rows| && classify(rows[k]).Emit? ensures k in more {
      var i :| 0 <= i < |at| && at[i] == k;
      assert more[i] == k;
    }
  }

  /** Rows give one list of events only. */
  lemma GivesOneThing(classify: Row -> Verdict, rows: seq<Row>, a: seq<string>, b: seq<string>)
    requires Gives(classify, rows, a) && Gives(classify, rows, b)
    ensures a == b
  {
    hide EventsAt;
    var s: seq<nat> :| EventsAt(classify, rows, s, a);
    var t: seq<nat> :| EventsAt(classify, rows, t, b);
    SamePositions(classify, rows, s, a, t, b, |s|);
    SamePositions(classify, rows, t, b, s, a, |t|);
  }

  lemma {:induction false} SamePositions(classify: Row -> Verdict, rows: seq<Row>,
                                         s: seq<nat>, a: seq<string>, t: seq<nat>, b: seq<string>, n: nat)
    requires EventsAt(classify, rows, s, a) && EventsAt(classify, rows, t, b) && n <= |s|
    ensures |s| == |a| && |t| == |b| && n <= |t|
    ensures forall i :: 0 <= i < n ==> s[i] == t[i] && a[i] == b[i]
  {
    if n > 0 {
      SamePositions(classify, rows, s, a, t, b, n - 1);
      NotBefore(classify, rows, s, a, t, b, n - 1);
      NotBefore(classify, rows, t, b, s, a, n - 1);
    }
  }

  lemma NotBefore(classify: Row -> Verdict, rows: seq<Row>,
                  s: seq<nat>, a: seq<string>, t: seq<nat>, b: seq<string>, n: nat)
    requires EventsAt(classify, rows, s, a) && EventsAt(classify, rows, t, b)
    requires n < |s| && n <= |t| && forall i :: 0 <= i < n ==> s[i] == t[i]
    ensures n < |t| && t[n] <= s[n]
  {
    assert s[n] in t;
    var j :| 0 <= j < |t| && t[j] == s[n];
    assert j >= n;
  }

  /** Every row is one of this chat with an identity. */
  predicate OfChat(chat: string, rows: seq<Row>) {
    forall r :: r in rows ==> r.chatId == chat && r.localId > 0
  }

  lemma KeptOfChat(chat: string, page: seq<Row>, upTo: seq<Row>, rows: seq<Row>, kept: seq<Row>)
    requires OfChat(chat, page) && OfChat(chat, rows) && upTo <= page
    requires DrawnFrom(kept, rows, upTo)
    ensures OfChat(chat, kept)
  {
    forall r | r in upTo ensures r in page {
    }
  }

  lemma NothingOfChat(chat: string)
    ensures OfChat(chat, [])
  {
  }

  /** The fault of the first row that has one. */
  function RowFault(rows: seq<Row>, chat: string): (fault: Option<Pause>)
    ensures fault.None? <==> OfChat(chat, rows)
    ensures fault.Some? ==> fault.value == WrongChatMessage || fault.value == MessageIdentityMissing
  {
    if rows == [] then None
    else if rows[0].chatId != chat then Some(WrongChatMessage)
    else if rows[0].localId <= 0 then Some(MessageIdentityMissing)
    else
      assert rows == [rows[0]] + rows[1..];
      RowFault(rows[1..], chat)
  }

  /** What a page must satisfy before any of its rows is used. */
  function PageFault(rows: seq<Row>, chat: string): Option<Pause> {
    if |rows| > PAGE_SIZE then Some(InvalidMessageList)
    else if RowFault(rows, chat).Some? then RowFault(rows, chat)
    else if !DistinctIds(rows) then Some(DuplicatePageIdentity)
    else None
  }

  /** Exactly the pages of at most 100 rows of this chat, each with its own identity, are used. */
  lemma PageUsedIff(rows: seq<Row>, chat: string)
    ensures PageFault(rows, chat).None?
       <==> && |rows| <= 100
            && (forall i :: 0 <= i < |rows| ==> rows[i].chatId == chat && rows[i].localId > 0)
            && (forall i, j :: 0 <= i < j < |rows| ==> rows[i].localId != rows[j].localId)
  {
  }

  // ----- one page ---------------------------------------------------------

  method LastOverlap(page: seq<Row>, anchors: set<int>) returns (end: nat)
    ensures end == OverlapEnd(page, anchors)
  {
    end := 0;
    for i := 0 to |page|
      invariant end == OverlapEnd(page[..i], anchors)
    {
      assert page[..i + 1][..i] == page[..i];
      if page[i].localId in anchors { end := i + 1; }
    }
    assert page[..|page|] == page;
  }

  predicate DrawnFrom(kept: seq<Row>, rows: seq<Row>, page: seq<Row>) {
    forall r :: r in kept ==> r in rows || r in page
  }

  lemma DrawnMore(kept: seq<Row>, rows: seq<Row>, page: seq<Row>)
    ensures DrawnFrom(rows, rows, page)
    ensures DrawnFrom(kept, rows, page) ==> forall i :: 0 <= i < |page| ==> DrawnFrom(kept + [page[i]], rows, page)
  {
  }

  method KeepNew(page: seq<Row>, anchors: set<int>, rows: seq<Row>, seen: set<int>)
    returns (kept: seq<Row>, seen': set<int>)
    requires seen == Ids(rows)
    ensures seen' == Ids(kept)
    ensures rows <= kept && Ids(kept) <= Ids(rows) + Ids(page)
    ensures DrawnFrom(kept, rows, page)
    ensures DistinctIds(page) && Ids(page) !! seen ==> kept == rows + NotIn(page, anchors)
  {
    hide DrawnFrom;
    kept, seen' := rows, seen;
    DrawnMore(rows, rows, page);
    ghost var clean := DistinctIds(page) && Ids(page) !! seen;
    for i := 0 to |page|
      invariant seen' == Ids(kept) && rows <= kept
      invariant DrawnFrom(kept, rows, page)
      invariant Ids(kept) <= Ids(rows) + Ids(page[..i])
      invariant clean ==> kept == rows + NotIn(page[..i], anchors)
    {
      assert page[..i + 1][..i] == page[..i];
      if clean {
        assert page[i].localId !in Ids(page[..i]);
        assert page[i] in page;
      }
      IdsExtend(kept, page[i]);
      IdsExtend(page[..i], page[i]);
      assert page[..i] + [page[i]] == page[..i + 1];
      DrawnMore(kept, rows, page);
      if page[i].localId !in anchors && page[i].localId !in seen' {
        kept := kept + [page[i]];
        seen' := seen' + {page[i].localId};
      }
    }
    assert page[..|page|] == page;
  }

  lemma IdsExtend(rows: seq<Row>, r: Row)
    ensures Ids(rows + [r]) == Ids(rows) + {r.localId}
  {
    var more := rows + [r];
    assert more[|rows|] == r;
    forall x | x in rows ensures x in more {
    }
  }

  // ----- all pages --------------------------------------------------------

  /** Where paging stands before page `index`, if the history is still what it was at the start. */
  ghost predicate Gathering(start: seq<Row>, anchors: set<int>, index: nat, rows: seq<Row>) {
    && index < MAX_PAGES && index * PAGE_SIZE <= |start|
    && Ids(rows) <= Ids(start[..index * PAGE_SIZE])
    && Paged(start, anchors)
       == match PagedFrom(start, anchors, index)
          case None => None
          case Some(rest) => Some(rows + rest)
  }

  lemma PagesApart(start: seq<Row>, index: nat)
    requires DistinctIds(start) && index * PAGE_SIZE <= |start|
    ensures var page := PageAt(start, index);
            DistinctIds(page) && Ids(page) !! Ids(start[..index * PAGE_SIZE])
  {
    PageRows(start, index);
    var page, before := PageAt(start, index), start[..index * PAGE_SIZE];
    forall i | 0 <= i < |page| ensures page[i] == start[index * PAGE_SIZE + i] {
    }
    forall x, y | x in before && y in page ensures x.localId != y.localId {
      var i :| 0 <= i < |before| && before[i] == x;
      var j :| 0 <= j < |page| && page[j] == y;
      assert start[i] == x && start[index * PAGE_SIZE + j] == y;
    }
  }

  lemma GatherNext(start: seq<Row>, anchors: set<int>, index: nat, rows: seq<Row>, kept: seq<Row>)
    requires DistinctIds(start) && Gathering(start, anchors, index, rows)
    requires kept == rows + NotIn(PageAt(start, index), anchors)
    requires Ids(kept) <= Ids(rows) + Ids(PageAt(start, index))
    requires OverlapEnd(PageAt(start, index), anchors) == 0
    requires |PageAt(start, index)| == PAGE_SIZE && index < MAX_PAGES - 1
    ensures Gathering(start, anchors, index + 1, kept)
  {
    GatheredIds(start, index, rows, kept);
    hide Ids, NotIn, Paged, PageAt;
    var page := PageAt(start, index);
    match PagedFrom(start, anchors, index + 1) {
      case None =>
      case Some(rest) => assert rows + (NotIn(page, anchors) + rest) == kept + rest;
    }
  }

  lemma GatheredIds(start: seq<Row>, index: nat, rows: seq<Row>, kept: seq<Row>)
    requires DistinctIds(start) && index * PAGE_SIZE <= |start| && |PageAt(start, index)| == PAGE_SIZE
    requires Ids(rows) <= Ids(start[..index * PAGE_SIZE]) && Ids(kept) <= Ids(rows) + Ids(PageAt(start, index))
    ensures (index + 1) * PAGE_SIZE <= |start| && Ids(kept) <= Ids(start[..(index + 1) * PAGE_SIZE])
  {
    PageRows(start, index);
    var page, before, upto := PageAt(start, index), start[..index * PAGE_SIZE], start[..(index + 1) * PAGE_SIZE];
    assert upto == before + page;
    forall x | x in before || x in page ensures x in upto {
    }
  }

  lemma GatherDone(start: seq<Row>, anchors: set<int>, index: nat, rows: seq<Row>)
    requires DistinctIds(start) && Gathering(start, anchors, index, rows)
    ensures var page := PageAt(start, index);
            var end := OverlapEnd(page, anchors);
            var kept := if end > 0 then page[..end] else page;
      && DistinctIds(kept) && Ids(kept) !! Ids(rows)
      && (end > 0 || (anchors == {} && |page| < PAGE_SIZE)
          ==> Paged(start, anchors) == Some(rows + NotIn(kept, anchors)))
  {
    PagesApart(start, index);
    var page := PageAt(start, index);
    var end := OverlapEnd(page, anchors);
    forall x | x in page[..end] ensures x in page {
    }
  }

  /** Paging gives up only where the whole selection does. */
  lemma GatherLost(start: seq<Row>, anchors: set<int>, index: nat, rows: seq<Row>)
    requires Gathering(start, anchors, index, rows)
    requires OverlapEnd(PageAt(start, index), anchors) == 0
    requires anchors != {} || |PageAt(start, index)| == PAGE_SIZE
    requires |PageAt(start, index)| < PAGE_SIZE || index == MAX_PAGES - 1
    ensures Paged(start, anchors) == None
  {
  }

  /** A page without overlap has not reached the anchors yet: that many rows are new. */
  lemma NotYetAtAnchors(anchored: seq<Row>, at: seq<Row>, index: nat)
    requires GrowsTo(anchored, at) && |at| - |anchored| >= index * PAGE_SIZE
    requires OverlapEnd(PageAt(at, index), Ids(Newest(anchored))) == 0
    ensures |at| - |anchored| >= index * PAGE_SIZE + |PageAt(at, index)|
    ensures |PageAt(at, index)| < PAGE_SIZE ==> anchored == []
  {
    PageRows(at, index);
    var page := PageAt(at, index);
    if anchored != [] {
      assert at[|at| - |anchored|..][0] == anchored[0] == Newest(anchored)[0];
      forall k | 0 <= k < |page| ensures page[k] != anchored[0] {
        assert page[k].localId != Newest(anchored)[0].localId;
      }
    }
  }

  lemma GatherStart(start: seq<Row>, anchors: set<int>, first: seq<Row>)
    requires first == Newest(start)
    ensures Gathering(start, anchors, 0, []) && Ids([]) == {}
    ensures first == PageAt(start, 0) && GrowsTo(start, start)
  {
    match Paged(start, anchors) {
      case None =>
      case Some(rest) => assert [] + rest == rest;
    }
  }

  lemma NoAnchors(none: seq<Row>)
    requires none == []
    ensures Ids(Newest(none)) == {}
  {
  }

  lemma PageBound(history: seq<Row>, index: nat)
    ensures |PageAt(history, index)| <= PAGE_SIZE
  {
  }

  lemma SlicePage(history: seq<Row>, index: nat)
    ensures Slice(history, index * PAGE_SIZE, PAGE_SIZE) == PageAt(history, index)
  {
  }

  lemma GrowsLength(before: seq<Row>, after: seq<Row>)
    requires GrowsTo(before, after)
    ensures |before| <= |after|
    ensures |before| == |after| ==> before == after
    ensures GrowsTo(after, after)
  {
  }

  function IdList(rows: seq<Row>): seq<int> {
    seq(|rows|, i requires 0 <= i < |rows| => rows[i].localId)
  }

  /** The newest page tells whether anything arrived. */
  lemma SameWindow(start: seq<Row>, now: seq<Row>)
    requires GrowsTo(start, now) && DistinctIds(now)
    ensures IdList(Newest(start)) == IdList(Newest(now)) <==> now == start
    ensures now != start ==> |now| > |start|
  {
    if now != start {
      assert |now| > |start|;
      if start != [] {
        assert now[|now| - |start|..][0] == start[0];
        assert IdList(Newest(start))[0] == now[|now| - |start|].localId != now[0].localId;
        assert IdList(Newest(now))[0] == now[0].localId;
      } else {
        assert |IdList(Newest(now))| > 0;
      }
    }
  }

  lemma WholeArrival(anchored: seq<Row>, start: seq<Row>, rows: seq<Row>)
    requires GrowsTo(anchored, start) && DistinctIds(start)
    requires Paged(start, Ids(Newest(anchored))) == Some(rows)
    ensures start == rows + anchored && |rows| < WINDOW
  {
    var arrived := start[..|start| - |anchored|];
    assert start == arrived + anchored;
    PagedSelectsArrivals(arrived, anchored);
  }

  /**
   * The run since the last baseline: the history then (`base`), the history the anchors were
   * taken from, the rows received, oldest first, and the events they gave.  Every arrival up
   * to the anchored history has been received once, in order.
   */
  datatype Run = Run(base: seq<Row>, anchored: seq<Row>, received: seq<Row>, emitted: seq<string>)

  ghost predicate RunOk(classify: Row -> Verdict, anchors: Option<set<int>>, run: Run, history: seq<Row>) {
    && DistinctIds(history)
    && (anchors.Some? ==>
          && anchors.value == Ids(Newest(run.anchored))
          && GrowsTo(run.anchored, history)
          && run.anchored == Reversed(run.received) + run.base
          && EventsOf(classify, run.received) == Some(run.emitted))
  }

  /** The run after taking in rows that arrived since, newest first, and their events. */
  ghost predicate Advanced(classify: Row -> Verdict, before: Run, after: Run,
                           arrived: seq<Row>, events: seq<string>)
  {
    && |arrived| < WINDOW && after.anchored == arrived + before.anchored
    && EventsOf(classify, Reversed(arrived)) == Some(events)
    && after.base == before.base
    && after.received == before.received + Reversed(arrived)
    && after.emitted == before.emitted + events
  }

  /** The rows a run has not received yet. */
  ghost function Arrived(run: Run, history: seq<Row>): seq<Row>
    requires GrowsTo(run.anchored, history)
  {
    history[..|history| - |run.anchored|]
  }

  /** The rows a run received, newest first. */
  ghost function Since(run: Run): seq<Row>
    requires GrowsTo(run.base, run.anchored)
  {
    run.anchored[..|run.anchored| - |run.base|]
  }

  /** What a successful poll takes in: all that arrived, of this chat, and exactly its events in order. */
  ghost predicate TookIn(chat: string, classify: Row -> Verdict, before: Run, history: seq<Row>,
                         arrived: seq<Row>, events: seq<string>)
  {
    && history == arrived + before.anchored && OfChat(chat, arrived)
    && Gives(classify, OldestFirst(arrived), events)
  }

  /** A row is refused among those that were not received yet. */
  ghost predicate Stuck(classify: Row -> Verdict, run: Run, history: seq<Row>) {
    GrowsTo(run.anchored, history) && Refused(classify, Arrived(run, history))
  }

  ghost predicate WellMarked(chat: string, history: seq<Row>) {
    DistinctIds(history) && forall r :: r in history ==> r.chatId == chat && r.localId > 0
  }

  /** Well-marked rows, fewer than a thousand of them new, and each of these can be taken in. */
  ghost predicate Readable(chat: string, classify: Row -> Verdict, run: Run, history: seq<Row>) {
    && WellMarked(chat, history) && GrowsTo(run.anchored, history)
    && |Arrived(run, history)| < WINDOW && !Refused(classify, Arrived(run, history))
  }

  lemma RefusedAnyOrder(classify: Row -> Verdict, rows: seq<Row>)
    ensures Refused(classify, OldestFirst(rows)) <==> Refused(classify, rows)
  {
    var oldest := OldestFirst(rows);
    forall i | 0 <= i < |rows| ensures rows[i] in oldest && oldest[i] in rows {
      assert oldest[|rows| - 1 - i] == rows[i];
    }
  }

  /** Rows that were taken in gave exactly their events; rows that were not hold one that is refused. */
  lemma TakenInGives(classify: Row -> Verdict, rows: seq<Row>)
    ensures EventsOf(classify, Reversed(rows)).None? <==> Refused(classify, rows)
    ensures EventsOf(classify, Reversed(rows)).Some?
        ==> Gives(classify, OldestFirst(rows), EventsOf(classify, Reversed(rows)).value)
  {
    hide Gives, EventsOf, Refused;
    ReversedIsOldestFirst(rows);
    RefusedAnyOrder(classify, rows);
    EventsOfGives(classify, OldestFirst(rows));
  }

  lemma PageIsWellMarked(chat: string, history: seq<Row>, offset: nat)
    requires WellMarked(chat, history)
    ensures PageFault(Slice(history, offset, PAGE_SIZE), chat) == None
  {
    var page := Slice(history, offset, PAGE_SIZE);
    forall i | 0 <= i < |page| ensures page[i] == history[offset + i] {}
  }

  lemma ReadableIsPaged(chat: string, classify: Row -> Verdict, run: Run, history: seq<Row>)
    requires Readable(chat, classify, run, history)
    ensures Paged(history, Ids(Newest(run.anchored))) == Some(Arrived(run, history))
    ensures !Refused(classify, Arrived(run, history)) && WellMarked(chat, history)
  {
    hide Paged, Ids, Newest, EventsOf, Reversed;
    var arrived := Arrived(run, history);
    assert arrived + run.anchored == history;
    PagedSelectsArrivals(arrived, run.anchored);
  }

  lemma AdvancedParts(classify: Row -> Verdict, before: Run, after: Run, arrived: seq<Row>, events: seq<string>)
    requires Advanced(classify, before, after, arrived, events)
    ensures after.base == before.base && after.emitted == before.emitted + events
  {
  }

  lemma RunHistory(classify: Row -> Verdict, anchors: Option<set<int>>, run: Run, history: seq<Row>)
    requires RunOk(classify, anchors, run, history)
    ensures DistinctIds(history) && GrowsTo(history, history)
    ensures anchors.Some? ==> GrowsTo(run.anchored, history) && anchors.value == Ids(Newest(run.anchored))
  {
  }

  lemma RunGrows(classify: Row -> Verdict, anchors: Option<set<int>>, run: Run,
                 history: seq<Row>, later: seq<Row>)
    requires RunOk(classify, anchors, run, history) && GrowsTo(history, later) && DistinctIds(later)
    ensures RunOk(classify, anchors, run, later)
  {
    if anchors.Some? { GrowsTransitive(run.anchored, history, later); }
  }

  lemma RunStarts(classify: Row -> Verdict, history: seq<Row>)
    requires DistinctIds(history)
    ensures RunOk(classify, Some(Ids(Slice(history, 0, PAGE_SIZE))), Run(history, history, [], []), history)
  {
    FreshRun(history);
  }

  lemma RefusedIsStuck(classify: Row -> Verdict, anchors: Option<set<int>>, run: Run, history: seq<Row>,
                       rows: seq<Row>)
    requires RunOk(classify, anchors, run, history) && anchors.Some? && Paged(history, anchors.value) == Some(rows)
    ensures Refused(classify, rows) <==> Stuck(classify, run, history)
  {
    hide Paged, Ids, Newest, EventsOf, Reversed, Refused;
    WholeArrival(run.anchored, history, rows);
  }

  lemma AdvancedTookIn(chat: string, classify: Row -> Verdict, before: Run, after: Run, arrived: seq<Row>,
                       events: seq<string>)
    requires Advanced(classify, before, after, arrived, events) && OfChat(chat, arrived)
    ensures TookIn(chat, classify, before, after.anchored, arrived, events)
  {
    hide Gives, EventsOf, Reversed, OfChat, OldestFirst;
    TakenInGives(classify, arrived);
  }

  /** All that a run emitted: exactly the events of what arrived since its baseline, in order. */
  lemma RunGives(classify: Row -> Verdict, anchors: Option<set<int>>, run: Run, history: seq<Row>)
    requires RunOk(classify, anchors, run, history) && anchors.Some?
    ensures GrowsTo(run.base, run.anchored)
    ensures Gives(classify, OldestFirst(Since(run)), run.emitted)
  {
    var since := Reversed(run.received);
    assert Since(run) == since;
    ReversedTwice(run.received);
    TakenInGives(classify, since);
  }

  /** The rows a still history pages out are all its arrivals, and the run takes them in. */
  lemma RunAdvances(classify: Row -> Verdict, anchors: set<int>, run: Run, history: seq<Row>,
                    rows: seq<Row>, events: seq<string>)
    requires RunOk(classify, Some(anchors), run, history) && Paged(history, anchors) == Some(rows)
    requires EventsOf(classify, Reversed(rows)) == Some(events)
    ensures var next := Run(run.base, history, run.received + Reversed(rows), run.emitted + events);
      && RunOk(classify, Some(Ids(Newest(history))), next, history)
      && Advanced(classify, run, next, rows, events)
  {
    hide Paged, EventsOf, Reversed, Ids, Newest, GrowsTo, DistinctIds;
    WholeArrival(run.anchored, history, rows);
    ReversedConcat(run.received, Reversed(rows));
    ReversedTwice(rows);
    EventsOfConcat(classify, run.received, Reversed(rows));
    FreshRun(history);
    assert rows + (Reversed(run.received) + run.base)
        == Reversed(run.received + Reversed(rows)) + run.base;
  }

  lemma FreshRun(history: seq<Row>)
    ensures GrowsTo(history, history) && history == Reversed([]) + history
    ensures Slice(history, 0, PAGE_SIZE) == Newest(history)
    ensures forall classify :: EventsOf(classify, []) == Some([])
  {
  }

  // ----- the connector ----------------------------------------------------

  class Connector {
    const chat: string
    const classify: Row -> Verdict
    var anchors: Option<set<int>>
    var paused: Option<Pause>
    ghost var run: Run

    constructor (chat: string, classify: Row -> Verdict)
      ensures this.chat == chat && this.classify == classify && anchors == None && paused == None
    {
      this.chat, this.classify := chat, classify;
      anchors, paused := None, None;
      run := Run([], [], [], []);
    }

    /** Account, chat and foreground checks: outcomes the remote side decides. */
    method Guard(up: Upstream) returns (fault: Option<Pause>)
      requires DistinctIds(up.history)
      modifies up, this`paused
      ensures DistinctIds(up.history) && GrowsTo(old(up.history), up.history)
      ensures paused == fault
      ensures old(paused).Some? ==> fault == old(paused)
      ensures old(paused).None? && fault.Some? ==> fault.value == Unavailable
      ensures up.steady ==> up.history == old(up.history) && (old(paused).None? ==> fault.None?)
    {
      FreshRun(up.history);
      if paused.Some? { return paused; }
      var rows := up.Fetch(0);
      fault := if rows.Some? then None else Some(Unavailable);
      paused := fault;
    }

    method ReadPage(up: Upstream, offset: nat) returns (page: seq<Row>, fault: Option<Pause>)
      requires DistinctIds(up.history)
      modifies up
      ensures DistinctIds(up.history) && GrowsTo(old(up.history), up.history)
      ensures fault.None? ==> page == Slice(up.history, offset, PAGE_SIZE) && OfChat(chat, page)
      ensures fault.Some? ==> fault.value !in {AnchorLost, MessageWindowChanged, RowRefused}
      ensures up.steady ==> up.history == old(up.history)
      ensures up.steady && WellMarked(chat, up.history) ==> fault.None?
    {
      if WellMarked(chat, up.history) { PageIsWellMarked(chat, up.history, offset); }
      var rows := up.Fetch(offset);
      if rows.None? { return [], Some(Unavailable); }
      page, fault := rows.value, PageFault(rows.value, chat);
    }

    method GuardedPage(up: Upstream) returns (page: seq<Row>, fault: Option<Pause>)
      requires DistinctIds(up.history)
      modifies up, this`paused
      ensures DistinctIds(up.history) && GrowsTo(old(up.history), up.history) && paused == fault
      ensures fault.None? ==> page == Slice(up.history, 0, PAGE_SIZE)
      ensures old(paused).None? && fault.Some? ==> fault.value !in {AnchorLost, MessageWindowChanged, RowRefused}
      ensures old(paused).Some? ==> fault == old(paused)
      ensures up.steady ==> up.history == old(up.history)
      ensures up.steady && WellMarked(chat, up.history) && old(paused).None? ==> fault.None?
    {
      hide *;
      page := [];
      fault := Guard(up);
      if fault.Some? { return; }
      ghost var guarded := up.history;
      page, fault := ReadPage(up, 0);
      GrowsTransitive(old(up.history), guarded, up.history);
      paused := fault;
    }

    method Baseline(up: Upstream) returns (fault: Option<Pause>)
      requires RunOk(classify, anchors, run, up.history)
      modifies up, this
      ensures RunOk(classify, anchors, run, up.history) && GrowsTo(old(up.history), up.history)
      ensures paused == fault
      ensures fault.None? ==> anchors.Some? && run == Run(up.history, up.history, [], [])
      ensures fault.Some? ==> unchanged(this`anchors) && unchanged(this`run)
      ensures old(paused).None? && fault.Some? ==> fault.value !in {AnchorLost, MessageWindowChanged, RowRefused}
      ensures old(paused).Some? ==> fault == old(paused)
      ensures up.steady ==> up.history == old(up.history)
      ensures up.steady && WellMarked(chat, up.history) && old(paused).None? ==> fault.None?
    {
      hide *;
      RunHistory(classify, anchors, run, up.history);
      var page;
      page, fault := GuardedPage(up);
      RunGrows(classify, anchors, run, old(up.history), up.history);
      if fault.Some? { return; }
      anchors, run := Some(Ids(page)), Run(up.history, up.history, [], []);
      RunStarts(classify, up.history);
    }

    /** Reading pages until one overlaps the anchors; the first page is that of the history so far. */
    method GatherPages(up: Upstream, first: seq<Row>) returns (rows: seq<Row>, fault: Option<Pause>)
      requires RunOk(classify, anchors, run, up.history) && anchors.Some? && first == Newest(up.history)
      requires OfChat(chat, first)
      modifies up
      ensures DistinctIds(up.history) && GrowsTo(old(up.history), up.history)
      ensures fault.None? && |up.history| == |old(up.history)|
          ==> Paged(old(up.history), anchors.value) == Some(rows)
      ensures fault == Some(AnchorLost) ==> |up.history| - |run.anchored| >= WINDOW
      ensures fault !in {Some(MessageWindowChanged), Some(RowRefused)}
      ensures fault.None? ==> OfChat(chat, rows)
      ensures up.steady ==> up.history == old(up.history)
      ensures up.steady && WellMarked(chat, up.history) && Paged(up.history, anchors.value).Some? ==> fault.None?
    {
      hide WellMarked;
      hide RunOk, Ids, Newest, PageAt, Slice, Paged, PagedFrom, NotIn, OverlapEnd, Reversed, EventsOf;
      hide GrowsTo, DistinctIds, PageFault, Gathering, OfChat;
      ghost var start := up.history;
      ghost var at := start;
      var known := anchors.value;
      var page, seen: set<int> := first, {};
      rows, fault := [], None;
      var index: nat := 0;
      RunHistory(classify, anchors, run, start);
      GatherStart(start, known, first);
      NothingOfChat(chat);
      GrowsLength(run.anchored, start);
      while true
        invariant fault == None && index < MAX_PAGES && page == PageAt(at, index)
        invariant GrowsTo(start, at) && GrowsTo(at, up.history) && GrowsTo(run.anchored, at)
        invariant DistinctIds(up.history) && seen == Ids(rows) && OfChat(chat, page) && OfChat(chat, rows)
        invariant up.steady ==> up.history == start && |at| == |start|
        invariant |at| - |run.anchored| >= index * PAGE_SIZE
        invariant |at| == |start| ==> page == PageAt(start, index) && Gathering(start, known, index, rows)
        decreases MAX_PAGES - index
      {
        PageBound(at, index);
        GrowsLength(start, at);
        GrowsLength(at, up.history);
        GrowsTransitive(start, at, up.history);
        var end := LastOverlap(page, known);
        var kept := if end > 0 then page[..end] else page;
        ghost var before := rows;
        if |at| == |start| { GatherDone(start, known, index, rows); }
        rows, seen := KeepNew(kept, known, rows, seen);
        KeptOfChat(chat, page, kept, before, rows);
        if end > 0 || (known == {} && |page| < PAGE_SIZE) { return; }
        NotYetAtAnchors(run.anchored, at, index);
        if |page| < PAGE_SIZE || index == MAX_PAGES - 1 {
          NoAnchors([]);
          if |at| == |start| { GatherLost(start, known, index, before); }
          return rows, Some(AnchorLost);
        }
        if |at| == |start| { GatherNext(start, known, index, before, rows); }
        page, at, fault := NextPage(up, start, at, index + 1);
        if fault.Some? { return; }
        index := index + 1;
        GrowsLength(start, at);
        GrowsLength(at, up.history);
      }
    }

    method NextPage(up: Upstream, ghost start: seq<Row>, ghost at: seq<Row>, index: nat)
      returns (page: seq<Row>, ghost now: seq<Row>, fault: Option<Pause>)
      requires DistinctIds(up.history)
      requires GrowsTo(start, at) && GrowsTo(at, up.history) && GrowsTo(run.anchored, at)
      modifies up
      ensures DistinctIds(up.history) && GrowsTo(old(up.history), up.history)
      ensures GrowsTo(start, now) && GrowsTo(now, up.history) && GrowsTo(run.anchored, now)
      ensures GrowsTo(start, up.history) && |at| <= |now|
      ensures fault.None? ==> page == PageAt(now, index) && OfChat(chat, page)
      ensures fault.Some? ==> fault.value !in {AnchorLost, MessageWindowChanged, RowRefused}
      ensures up.steady ==> up.history == old(up.history)
      ensures up.steady && WellMarked(chat, up.history) ==> fault.None?
    {
      hide *;
      ghost var prior := up.history;
      page, fault := ReadPage(up, index * PAGE_SIZE);
      now := up.history;
      GrowsTransitive(at, prior, now);
      GrowsTransitive(start, at, now);
      GrowsTransitive(run.anchored, at, now);
      GrowsLength(at, now);
      SlicePage(now, index);
    }

    method Convert(rows: seq<Row>) returns (events: Option<seq<string>>)
      ensures events == EventsOf(classify, Reversed(rows))
    {
      var oldest := Reversed(rows);
      var found: seq<string> := [];
      for i := 0 to |oldest|
        invariant EventsOf(classify, oldest[..i]) == Some(found)
      {
        assert oldest[..i + 1][..i] == oldest[..i];
        match classify(oldest[i]) {
          case Skip =>
          case Emit(event) => found := found + [event];
          case Refuse =>
            NoEventsAfter(classify, oldest, i);
            return None;
        }
      }
      assert oldest[..|oldest|] == oldest;
      events := Some(found);
    }

    /** The page reads of one poll: a first page, the pages behind it, and the first page again. */
    method ReadNew(up: Upstream) returns (first: seq<Row>, rows: seq<Row>, fault: Option<Pause>)
      requires RunOk(classify, anchors, run, up.history) && anchors.Some?
      modifies up
      ensures RunOk(classify, anchors, run, up.history) && GrowsTo(old(up.history), up.history)
      ensures fault.None? ==> first == Newest(up.history) && Paged(up.history, anchors.value) == Some(rows)
      ensures fault.None? ==> OfChat(chat, rows)
      ensures fault != Some(RowRefused)
      ensures fault == Some(AnchorLost) ==> |up.history| - |run.anchored| >= WINDOW
      ensures fault == Some(MessageWindowChanged) ==> |up.history| > |old(up.history)|
      ensures up.steady ==> up.history == old(up.history)
      ensures up.steady && WellMarked(chat, up.history) && Paged(up.history, anchors.value).Some? ==> fault.None?
    {
      hide *;
      ghost var h0 := up.history;
      RunHistory(classify, anchors, run, up.history);
      var last;
      rows := [];
      first, fault := ReadPage(up, 0);
      ghost var start := up.history;
      RunGrows(classify, anchors, run, h0, start);
      FreshRun(start);
      if fault.Some? { return; }
      rows, fault := GatherPages(up, first);
      ghost var h2 := up.history;
      GrowsTransitive(h0, start, h2);
      RunGrows(classify, anchors, run, start, h2);
      if fault.Some? { return; }
      last, fault := ReadPage(up, 0);
      GrowsTransitive(h0, h2, up.history);
      GrowsTransitive(start, h2, up.history);
      RunGrows(classify, anchors, run, h2, up.history);
      FreshRun(up.history);
      if fault.Some? { return; }
      SameWindow(start, up.history);
      GrowsLength(h0, start);
      if IdList(last) != IdList(first) { return first, rows, Some(MessageWindowChanged); }
      GrowsLength(start, h2);
      GrowsLength(h2, up.history);
    }

    /** Turn the rows of a completed read into events, or pause on a row that cannot be. */
    method TakeIn(up: Upstream, first: seq<Row>, rows: seq<Row>) returns (r: Polled)
      requires RunOk(classify, anchors, run, up.history) && anchors.Some? && paused == None
      requires first == Newest(up.history) && Paged(up.history, anchors.value) == Some(rows)
      modifies this
      ensures RunOk(classify, anchors, run, up.history)
      ensures r.Paused? ==> r.reason == RowRefused && paused == Some(RowRefused)
      ensures r.Paused? ==> unchanged(this`anchors) && unchanged(this`run)
      ensures r.Paused? <==> Refused(classify, rows)
      ensures r.Paused? ==> Stuck(classify, run, up.history)
      ensures r.Events? ==> anchors.Some? && paused == None
      ensures r.Events? ==> Advanced(classify, old(run), run, rows, r.events) && run.anchored == up.history
    {
      hide *;
      TakenInGives(classify, rows);
      RefusedIsStuck(classify, anchors, run, up.history, rows);
      var events := Convert(rows);
      if events.None? { paused := Some(RowRefused); return Paused(RowRefused); }
      RunAdvances(classify, anchors.value, run, up.history, rows, events.value);
      anchors := Some(Ids(first));
      run := Run(run.base, up.history, run.received + Reversed(rows), run.emitted + events.value);
      r := Events(events.value);
    }

    method PollFirst(up: Upstream) returns (r: Polled)
      requires RunOk(classify, anchors, run, up.history) && anchors.None? && paused.None?
      modifies up, this
      ensures RunOk(classify, anchors, run, up.history) && GrowsTo(old(up.history), up.history)
      ensures r.Paused? ==> paused == Some(r.reason) && unchanged(this`anchors) && unchanged(this`run)
      ensures r.Paused? ==> r.reason !in {AnchorLost, MessageWindowChanged, RowRefused}
      ensures r.Events? ==> anchors.Some? && paused == None
      ensures r.Events? ==> r.events == [] && run == Run(up.history, up.history, [], [])
      ensures up.steady ==> up.history == old(up.history)
    {
      hide *;
      var fault := Baseline(up);
      r := if fault.Some? then Paused(fault.value) else Events([]);
    }

    method PollAgain(up: Upstream) returns (r: Polled, ghost arrived: seq<Row>)
      requires RunOk(classify, anchors, run, up.history) && anchors.Some? && paused.None?
      modifies up, this
      ensures RunOk(classify, anchors, run, up.history) && GrowsTo(old(up.history), up.history)
      ensures r.Paused? ==> paused == Some(r.reason) && unchanged(this`anchors) && unchanged(this`run)
      ensures r.Events? ==> anchors.Some? && paused == None
      ensures r.Events? ==> Advanced(classify, old(run), run, arrived, r.events) && run.anchored == up.history
      ensures r == Paused(AnchorLost) ==> |up.history| - |run.anchored| >= WINDOW
      ensures r.Events? ==> OfChat(chat, arrived)
      ensures r == Paused(RowRefused) ==> Stuck(classify, run, up.history)
      ensures r == Paused(MessageWindowChanged) ==> |up.history| > |old(up.history)|
      ensures up.steady ==> up.history == old(up.history)
      ensures up.steady && Readable(chat, classify, old(run), old(up.history)) ==> r.Events?
    {
      hide *;
      ghost var readable := Readable(chat, classify, run, up.history);
      if readable {
        RunHistory(classify, anchors, run, up.history);
        ReadableIsPaged(chat, classify, run, up.history);
      }
      var first, rows, fault := ReadNew(up);
      arrived := rows;
      RunHistory(classify, anchors, run, up.history);
      if fault.Some? {
        paused := fault;
        r := Paused(fault.value);
      } else {
        r := TakeIn(up, first, rows);
      }
    }

    /**
     * One poll.  `arrived` is what it received, newest first: on success exactly the rows that
     * came since the last success, and on a pause nothing.
     */
    method Poll(up: Upstream) returns (r: Polled, ghost arrived: seq<Row>)
      requires RunOk(classify, anchors, run, up.history)
      modifies up, this
      ensures RunOk(classify, anchors, run, up.history) && GrowsTo(old(up.history), up.history)
      ensures r.Paused? ==> paused == Some(r.reason) && unchanged(this`anchors) && unchanged(this`run)
      ensures r.Events? ==> anchors.Some? && paused == None
      ensures r.Events? && old(anchors).None? ==> r.events == [] && run == Run(up.history, up.history, [], [])
      ensures r.Events? ==> run.anchored == up.history
      ensures r.Events? && old(anchors).Some? ==> Advanced(classify, old(run), run, arrived, r.events)
      ensures r.Events? && old(anchors).Some? ==> TookIn(chat, classify, old(run), up.history, arrived, r.events)
      ensures old(paused).None? && r == Paused(RowRefused) ==> Stuck(classify, run, up.history)
      ensures old(paused).None? && r == Paused(AnchorLost) ==> |up.history| - |run.anchored| >= WINDOW
      ensures old(paused).None? && r == Paused(MessageWindowChanged) ==> |up.history| > |old(up.history)|
      ensures old(paused).Some? ==> r == Paused(old(paused).value)
      ensures up.steady ==> up.history == old(up.history)
      ensures up.steady && old(paused).None? && old(anchors).Some? ==>
                Readable(chat, classify, old(run), old(up.history)) ==> r.Events?
    {
      hide *;
      ghost var h0 := up.history;
      RunHistory(classify, anchors, run, h0);
      var fault := Guard(up);
      ghost var h1 := up.history;
      RunGrows(classify, anchors, run, h0, h1);
      GrowsLength(h0, h1);
      arrived := [];
      if fault.Some? {
        r := Paused(fault.value);
      } else if anchors.None? {
        r := PollFirst(up);
        GrowsTransitive(h0, h1, up.history);
      } else {
        r, arrived := PollAgain(up);
        if r.Events? { AdvancedTookIn(chat, classify, old(run), run, arrived, r.events); }
        GrowsTransitive(h0, h1, up.history);
      }
    }

    /**
     * Polling again, at most three times in all, when only the window moved under the reads;
     * the anchors stay what they were until a poll succeeds.  A pause that was already standing
     * is raised again, unless it is for a moved window: that one is cleared, and comes back only
     * if the window moves twice more.
     */
    method PollStable(up: Upstream) returns (r: Polled, ghost arrived: seq<Row>)
      requires RunOk(classify, anchors, run, up.history)
      modifies up, this
      ensures RunOk(classify, anchors, run, up.history) && GrowsTo(old(up.history), up.history)
      ensures r.Paused? ==> paused == Some(r.reason) && unchanged(this`anchors) && unchanged(this`run)
      ensures r.Events? ==> anchors.Some? && paused == None && run.anchored == up.history
      ensures r.Events? && old(anchors).None? ==> r.events == [] && run == Run(up.history, up.history, [], [])
      ensures r.Events? && old(anchors).Some? ==> Advanced(classify, old(run), run, arrived, r.events)
      ensures r.Events? && old(anchors).Some? ==> TookIn(chat, classify, old(run), up.history, arrived, r.events)
      ensures r == Paused(RowRefused) && old(paused) != Some(RowRefused) ==> Stuck(classify, run, up.history)
      ensures up.steady ==> up.history == old(up.history)
      ensures old(paused).Some? && old(paused).value != MessageWindowChanged ==> r == Paused(old(paused).value)
      ensures r == Paused(MessageWindowChanged)
              ==> |up.history| >= |old(up.history)| + (if old(paused).None? then 3 else 2)
      ensures up.steady && old(paused) in {None, Some(MessageWindowChanged)} && old(anchors).Some? ==>
                Readable(chat, classify, old(run), old(up.history)) ==> r.Events?
    {
      hide *;
      RunHistory(classify, anchors, run, up.history);
      var attempt := 0;
      while true
        invariant RunOk(classify, anchors, run, up.history) && GrowsTo(old(up.history), up.history)
        invariant unchanged(this`anchors) && unchanged(this`run)
        invariant paused == (if attempt == 0 then old(paused) else None) && attempt < 3
        invariant attempt > 0 ==> old(paused).None? || old(paused).value == MessageWindowChanged
        invariant |up.history| >= |old(up.history)| + attempt - (if old(paused).None? then 0 else 1)
        invariant up.steady ==> up.history == old(up.history)
        decreases 3 - attempt
      {
        ghost var before := up.history;
        r, arrived := Poll(up);
        GrowsTransitive(old(up.history), before, up.history);
        if r != Paused(MessageWindowChanged) || attempt == 2 { return; }
        paused, attempt := None, attempt + 1;
      }
    }

    /**
     * A baseline, then polls until one pauses: in all, the events of every row that arrived
     * between the baseline and the last successful poll, once and in order.
     */
    method EventsFrom(up: Upstream, polls: nat)
      returns (events: seq<string>, fault: Option<Pause>, ghost started: bool)
      requires RunOk(classify, anchors, run, up.history)
      modifies up, this
      ensures RunOk(classify, anchors, run, up.history) && GrowsTo(old(up.history), up.history)
      ensures paused == fault
      ensures old(paused).Some? ==> fault == old(paused) && !started
      ensures !started ==> fault.Some? && events == [] && unchanged(this`anchors) && unchanged(this`run)
      ensures started ==> anchors.Some? && GrowsTo(old(up.history), run.base) && events == run.emitted
      ensures fault.None? && polls > 0 ==> run.anchored == up.history
      ensures started ==> GrowsTo(run.base, run.anchored) && Gives(classify, OldestFirst(Since(run)), events)
    {
      hide *;
      events := [];
      fault := Baseline(up);
      started := fault.None?;
      if fault.Some? { return; }
      ghost var base := up.history;
      FreshRun(base);
      for i := 0 to polls
        invariant RunOk(classify, anchors, run, up.history) && GrowsTo(old(up.history), up.history)
        invariant anchors.Some? && paused == None && fault == None && old(paused).None? && started
        invariant run.base == base && run.emitted == events && GrowsTo(old(up.history), base)
        invariant i > 0 ==> run.anchored == up.history
      {
        ghost var before, now := up.history, run;
        var r, arrived := PollStable(up);
        GrowsTransitive(old(up.history), before, up.history);
        if r.Paused? {
          RunGives(classify, anchors, run, up.history);
          return events, Some(r.reason), true;
        }
        AdvancedParts(classify, now, run, arrived, r.events);
        events := events + r.events;
      }
      RunGives(classify, anchors, run, up.history);
    }
  }

  lemma NothingArrived(classify: Row -> Verdict, run: Run, arrived: seq<Row>, r: Polled)
    requires r.Events? && Advanced(classify, Run([], [], [], []), run, arrived, r.events) && run.anchored == []
    ensures r.events == []
  {
  }

  /** A moved window that paused the last poll does not stop the next one. */
  method ClearsMovedWindow() returns (r: Polled)
    ensures r == Events([])
  {
    var up := new Upstream([], true);
    var c := new Connector("", row => Skip);
    ghost var arrived;
    var fault := c.Baseline(up);
    c.paused := Some(MessageWindowChanged);
    r, arrived := c.PollStable(up);
    NothingArrived(c.classify, c.run, arrived, r);
  }

  lemma {:induction false} NoEventsAfter(classify: Row -> Verdict, rows: seq<Row>, i: nat)
    requires i < |rows| && classify(rows[i]).Refuse?
    ensures EventsOf(classify, rows) == None
    decreases |rows|
  {
    if i < |rows| - 1 {
      NoEventsAfter(classify, rows[..|rows| - 1], i);
    }
  }
}
