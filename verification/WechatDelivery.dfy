// The sending half of the WeChat connector: one POST per message id, and what an
// acknowledgement proves about the history it was read from.
module WechatDelivery {
  import opened WechatHistory

  datatype Message = Message(id: string, channel: string, chatRef: string, text: string)

  datatype Receipt = Failed | Unknown | Acknowledged(localId: int)

  datatype Stop =
    | ReplyIdentityRebound | AckAlreadyPresent | SendNotConfirmed | AmbiguousReadback
    | InvalidSelfReadback | ReadbackTimeout | Unavailable

  /** A call returns a receipt, raises a pause, or is cancelled at some await. */
  datatype Outcome = Returned(receipt: Receipt) | Raised(stop: Stop) | Cancelled

  datatype Post = Post(id: string, text: string)

  datatype Reply<+T> = Served(value: T) | Broken | Interrupted

  /** An id that no row has. */
  function FreshId(history: seq<Row>): (id: int)
    ensures forall r :: r in history ==> r.localId < id
    ensures id > 0
  {
    if history == [] then 1
    else if FreshId(history[1..]) <= history[0].localId then history[0].localId + 1 else FreshId(history[1..])
  }

  /** The row that a message leaves in the history when it is sent. */
  function Echo(history: seq<Row>, text: string): Row {
    Row(FreshId(history), "", 1, text, true, "me")
  }

  lemma EchoIsFresh(history: seq<Row>, text: string)
    requires DistinctIds(history)
    ensures DistinctIds([Echo(history, text)] + history) && GrowsTo(history, [Echo(history, text)] + history)
  {
    var now := [Echo(history, text)] + history;
    assert now[1..] == history;
    forall i, j | 0 <= i < j < |now| ensures now[i].localId != now[j].localId {
      assert now[j] in history;
    }
  }

  /**
   * The remote service; between any two requests rows may arrive.  A steady one serves every
   * request, nobody else writes, and what is sent appears.
   */
  class Remote {
    const steady: bool
    var history: seq<Row>

    constructor (rows: seq<Row>, steady: bool)
      ensures history == rows && this.steady == steady
    {
      history, this.steady := rows, steady;
    }

    method Page() returns (rows: Reply<seq<Row>>)
      requires DistinctIds(history)
      modifies this
      ensures DistinctIds(history) && GrowsTo(old(history), history)
      ensures rows.Served? ==> rows.value == Newest(history)
      ensures steady ==> rows.Served? && history == old(history)
    {
      var arrivals: seq<Row>, fate: int := *, *;
      if !steady && DistinctIds(arrivals + history) { history := arrivals + history; }
      rows := if steady || fate == 0 then Served(Newest(history)) else if fate == 1 then Broken else Interrupted;
    }

    /** The send request: whether it is confirmed is up to the service. */
    method Send(text: string) returns (confirmed: Reply<bool>)
      requires DistinctIds(history)
      modifies this
      ensures DistinctIds(history) && GrowsTo(old(history), history)
      ensures steady ==> confirmed == Served(true) && history == [Echo(old(history), text)] + old(history)
    {
      var arrivals: seq<Row>, fate: int, success: bool := *, *, *;
      if steady {
        EchoIsFresh(history, text);
        history := [Echo(history, text)] + history;
        return Served(true);
      }
      if DistinctIds(arrivals + history) { history := arrivals + history; }
      confirmed := if fate == 0 then Served(success) else if fate == 1 then Broken else Interrupted;
    }
  }

  // ----- the readback -----------------------------------------------------

  predicate Answers(row: Row, previous: set<int>, text: string) {
    row.localId !in previous && row.kind == 1 && row.content == text
  }

  function Matches(page: seq<Row>, previous: set<int>, text: string): (m: seq<Row>)
    ensures forall r :: r in m <==> r in page && Answers(r, previous, text)
    ensures |m| <= |page|
  {
    if page == [] then []
    else if Answers(page[0], previous, text) then [page[0]] + Matches(page[1..], previous, text)
    else Matches(page[1..], previous, text)
  }

  /** The rows that arrived since an earlier history. */
  ghost function Arrived(before: seq<Row>, now: seq<Row>): seq<Row>
    requires GrowsTo(before, now)
  {
    now[..|now| - |before|]
  }

  /** Among these rows, nothing but the row with this id answers the message. */
  ghost predicate SoleAnswer(rows: seq<Row>, previous: set<int>, text: string, localId: int) {
    forall r :: r in rows && Answers(r, previous, text) ==> r.localId == localId
  }

  lemma {:induction false} NoMatches(page: seq<Row>, previous: set<int>, text: string)
    requires forall r :: r in page ==> !Answers(r, previous, text)
    ensures Matches(page, previous, text) == []
  {
    if page != [] { NoMatches(page[1..], previous, text); }
  }

  /** Right after sending, with nothing else arrived, the echo is the one answer. */
  lemma EchoAnswers(history: seq<Row>, text: string)
    requires DistinctIds(history)
    ensures Matches(Newest([Echo(history, text)] + history), Ids(Newest(history)), text) == [Echo(history, text)]
    ensures Echo(history, text).isSelf && Echo(history, text).sender != ""
    ensures Echo(history, text).localId == FreshId(history)
  {
    var echo, page := Echo(history, text), Newest([Echo(history, text)] + history);
    forall r | r in page[1..] ensures r in Newest(history) {
      var k :| 0 <= k < |page[1..]| && page[1..][k] == r;
      assert page[k + 1] == history[k] == Newest(history)[k];
    }
    forall r | r in Newest(history) ensures r.localId < echo.localId {
      assert r in history;
    }
    assert page[0] == echo;
    NoMatches(page[1..], Ids(Newest(history)), text);
  }

  ghost predicate SelfAnswer(row: Row, previous: set<int>, text: string, localId: int) {
    row.localId == localId && row.isSelf && row.sender != "" && Answers(row, previous, text)
  }

  /** What an acknowledgement proves: a new self-sent answer, and the only one on the newest page. */
  ghost predicate Proven(before: seq<Row>, now: seq<Row>, text: string, localId: int) {
    && GrowsTo(before, now)
    && SoleAnswer(Newest(now), Ids(Newest(before)), text, localId)
    && exists row :: row in Arrived(before, now) && SelfAnswer(row, Ids(Newest(before)), text, localId)
  }

  /** A row of the newest page that the earlier newest page did not hold has arrived since. */
  lemma NotPreviousArrived(before: seq<Row>, now: seq<Row>, row: Row)
    requires GrowsTo(before, now) && row in Newest(now) && row.localId !in Ids(Newest(before))
    ensures row in Arrived(before, now)
  {
    var k :| 0 <= k < |Newest(now)| && Newest(now)[k] == row;
    var n := |now| - |before|;
    assert now[k] == row && k < PAGE_SIZE && now[n..] == before;
    forall j | n <= j < |now| && j < n + PAGE_SIZE ensures now[j] != row {
      assert now[j] == now[n..][j - n] && Newest(before)[j - n] in Newest(before);
    }
    assert Arrived(before, now)[k] == row;
  }

  lemma {:induction false} SingleMatch(page: seq<Row>, previous: set<int>, text: string, other: Row)
    requires |Matches(page, previous, text)| == 1
    requires other in page && Answers(other, previous, text)
    ensures other == Matches(page, previous, text)[0]
  {
    assert other in Matches(page, previous, text);
  }

  lemma ReadbackProves(before: seq<Row>, now: seq<Row>, text: string)
    requires GrowsTo(before, now)
    requires var m := Matches(Newest(now), Ids(Newest(before)), text);
             |m| == 1 && m[0].isSelf && m[0].sender != ""
    ensures Proven(before, now, text, Matches(Newest(now), Ids(Newest(before)), text)[0].localId)
  {
    hide Newest, Ids;
    var previous := Ids(Newest(before));
    var row := Matches(Newest(now), previous, text)[0];
    assert row in Matches(Newest(now), previous, text);
    NotPreviousArrived(before, now, row);
    assert SelfAnswer(row, previous, text, row.localId);
    forall other | other in Newest(now) && Answers(other, previous, text)
      ensures other.localId == row.localId
    {
      SingleMatch(Newest(now), previous, text, other);
    }
  }

  /** While no more than a page has arrived, the acknowledged row is the only answer of all. */
  lemma UniqueWithinPage(before: seq<Row>, now: seq<Row>, text: string, localId: int)
    requires Proven(before, now, text, localId) && |now| - |before| <= PAGE_SIZE
    ensures GrowsTo(before, now)
    ensures SoleAnswer(Arrived(before, now), Ids(Newest(before)), text, localId)
  {
    forall other | other in Arrived(before, now) ensures other in Newest(now) {
      var k :| 0 <= k < |now| - |before| && now[k] == other;
      assert Newest(now)[k] == other;
    }
  }

  /** Past a page of arrivals it need not be: an older answer can lie behind the newest page. */
  lemma TwinBehindThePage(text: string, arrivals: nat) returns (before: seq<Row>, now: seq<Row>)
    requires text != "" && arrivals > PAGE_SIZE
    ensures DistinctIds(now) && Proven(before, now, text, 1) && |now| - |before| == arrivals
    ensures !SoleAnswer(Arrived(before, now), Ids(Newest(before)), text, 1)
  {
    var hit, twin := Row(1, "", 1, text, true, "me"), Row(2, "", 1, text, true, "me");
    var filler := seq(arrivals - 2, i => Row(i + 3, "", 1, "", true, "me"));
    before, now := [], [hit] + filler + [twin];
    assert Newest(now) == [hit] + filler[..PAGE_SIZE - 1];
    assert Arrived(before, now) == now && now[arrivals - 1] == twin && now[0] == hit;
    assert SelfAnswer(hit, Ids(Newest(before)), text, 1);
    assert Answers(twin, Ids(Newest(before)), text) && twin in Arrived(before, now);
  }

  /** Whatever is acknowledged with this many arrivals is the only answer among all of them. */
  ghost predicate AlwaysUnique(arrivals: nat) {
    forall before, now, text, localId ::
      text != "" && DistinctIds(now) && Proven(before, now, text, localId) && |now| - |before| == arrivals
      ==> SoleAnswer(Arrived(before, now), Ids(Newest(before)), text, localId)
  }

  /** An acknowledgement means a unique answer exactly while no more than a page has arrived. */
  lemma UniqueIffWithinPage(arrivals: nat)
    ensures AlwaysUnique(arrivals) <==> arrivals <= PAGE_SIZE
  {
    hide Proven, SoleAnswer, DistinctIds;
    if arrivals > PAGE_SIZE {
      var before, now := TwinBehindThePage("x", arrivals);
    } else {
      forall before, now, text, localId | Proven(before, now, text, localId) && |now| - |before| == arrivals
        ensures GrowsTo(before, now) && SoleAnswer(Arrived(before, now), Ids(Newest(before)), text, localId)
      {
        UniqueWithinPage(before, now, text, localId);
      }
    }
  }

  // ----- sending ----------------------------------------------------------

  /** Each id was posted at most once, and exactly the posted ids are remembered with their text. */
  ghost predicate SentOk(attempts: map<string, Receipt>, texts: map<string, string>, posts: seq<Post>) {
    && texts.Keys == attempts.Keys
    && (forall i, j :: 0 <= i < j < |posts| ==> posts[i].id != posts[j].id)
    && (forall i :: 0 <= i < |posts| ==> posts[i].id in attempts && texts[posts[i].id] == posts[i].text)
    && (forall id :: id in attempts ==> attempts[id] != Failed && Post(id, texts[id]) in posts)
  }

  lemma Posted(attempts: map<string, Receipt>, texts: map<string, string>, posts: seq<Post>, post: Post)
    requires SentOk(attempts, texts, posts) && post.id !in attempts
    ensures SentOk(attempts[post.id := Unknown], texts[post.id := post.text], posts + [post])
  {
    var more := posts + [post];
    assert more[|posts|] == post;
    forall id | id in attempts ensures Post(id, texts[id]) in more {
    }
  }

  lemma Confirmed(attempts: map<string, Receipt>, texts: map<string, string>, posts: seq<Post>,
                  id: string, receipt: Receipt)
    requires SentOk(attempts, texts, posts) && id in attempts && receipt != Failed
    ensures SentOk(attempts[id := receipt], texts, posts)
  {
  }

  class Sender {
    const channel: string
    const chatRef: string
    const blocksDuplicates: bool
    const validReply: string -> bool
    var attempts: map<string, Receipt>
    var replyTexts: map<string, string>
    var paused: Option<Stop>
    ghost var posts: seq<Post>

    constructor (channel: string, chatRef: string, blocksDuplicates: bool, validReply: string -> bool)
      ensures Valid() && posts == [] && paused == None
    {
      this.channel, this.chatRef := channel, chatRef;
      this.blocksDuplicates, this.validReply := blocksDuplicates, validReply;
      attempts, replyTexts, paused, posts := map[], map[], None, [];
    }

    ghost predicate Valid()
      reads this
    {
      SentOk(attempts, replyTexts, posts)
    }

    /** A message whose text is on the newest page already is held back, where that is asked for. */
    predicate Blocked(text: string, history: seq<Row>) {
      blocksDuplicates && exists row :: row in Newest(history) && row.content == text
    }

    /** A new message for this chat that passes every check of its own. */
    predicate Sendable(message: Message, history: seq<Row>)
      reads this
    {
      && paused.None? && message.id !in attempts && message.channel == channel && message.chatRef == chatRef
      && validReply(message.text) && !Blocked(message.text, history)
    }

    method Guard(remote: Remote) returns (fault: Option<Outcome>)
      requires DistinctIds(remote.history)
      modifies remote, this`paused
      ensures DistinctIds(remote.history) && GrowsTo(old(remote.history), remote.history)
      ensures fault.Some? ==> fault.value.Raised? || fault.value.Cancelled?
      ensures fault.Some? && fault.value.Raised? ==> paused == Some(fault.value.stop)
      ensures fault.None? ==> paused == None && old(paused).None?
      ensures fault.Some? && fault.value.Cancelled? ==> paused == None
      ensures remote.steady ==> remote.history == old(remote.history) && (old(paused).None? ==> fault.None?)
    {
      assert remote.history[|remote.history| - |remote.history|..] == remote.history;
      if paused.Some? { return Some(Raised(paused.value)); }
      var rows := remote.Page();
      match rows {
        case Served(_) => fault := None;
        case Broken => paused := Some(Unavailable); fault := Some(Raised(Unavailable));
        case Interrupted => fault := Some(Cancelled);
      }
    }

    /** The checks and the page read that come before the POST; no failure here has sent anything. */
    method Prepare(text: string, remote: Remote) returns (fault: Option<Outcome>, page: seq<Row>)
      requires DistinctIds(remote.history)
      modifies remote, this`paused
      ensures DistinctIds(remote.history) && GrowsTo(old(remote.history), remote.history)
      ensures fault.Some? ==> fault.value.Raised? || fault.value.Cancelled?
      ensures fault.None? ==> page == Newest(remote.history) && old(paused).None? && paused == None
      ensures remote.steady ==> remote.history == old(remote.history)
      ensures remote.steady && old(paused).None? ==>
                if Blocked(text, old(remote.history)) then fault == Some(Raised(AckAlreadyPresent)) else fault.None?
    {
      hide GrowsTo, DistinctIds, Newest;
      page := [];
      fault := Guard(remote);
      if fault.Some? { return; }
      ghost var guarded := remote.history;
      var rows := remote.Page();
      GrowsTransitive(old(remote.history), guarded, remote.history);
      match rows {
        case Broken => paused := Some(Unavailable); fault := Some(Raised(Unavailable));
        case Interrupted => fault := Some(Cancelled);
        case Served(served) =>
          page := served;
          if blocksDuplicates && exists row :: row in page && row.content == text {
            paused := Some(AckAlreadyPresent);
            fault := Some(Raised(AckAlreadyPresent));
          }
      }
    }

    /** Reading pages until one answers, a check fails, or the rounds before the deadline are over. */
    method ReadBack(text: string, previous: set<int>, remote: Remote, rounds: nat) returns (r: Outcome)
      requires DistinctIds(remote.history)
      modifies remote, this`paused
      ensures DistinctIds(remote.history) && GrowsTo(old(remote.history), remote.history)
      ensures r.Returned? ==>
        var m := Matches(Newest(remote.history), previous, text);
        |m| == 1 && m[0].isSelf && m[0].sender != "" && r.receipt == Acknowledged(m[0].localId)
      ensures !r.Raised? ==> paused == None
      ensures remote.steady && old(paused).None? ==>
        var m := Matches(Newest(old(remote.history)), previous, text);
        |m| == 1 && m[0].isSelf && m[0].sender != "" ==> r.Returned? && remote.history == old(remote.history)
    {
      hide GrowsTo, DistinctIds, Newest, Matches;
      FreshHistory(remote.history);
      var round := 0;
      while true
        invariant DistinctIds(remote.history) && GrowsTo(old(remote.history), remote.history)
        invariant round <= rounds
        invariant round == 0 ==> paused == old(paused) && remote.history == old(remote.history)
        invariant remote.steady ==> remote.history == old(remote.history)
        invariant remote.steady && old(paused).None? && round > 0
                  ==> |Matches(Newest(old(remote.history)), previous, text)| == 0
        decreases rounds - round
      {
        ghost var h := remote.history;
        var fault := Guard(remote);
        GrowsTransitive(old(remote.history), h, remote.history);
        if fault.Some? { return fault.value; }
        h := remote.history;
        var page := remote.Page();
        GrowsTransitive(old(remote.history), h, remote.history);
        if page.Broken? { return Raised(Unavailable); }
        if page.Interrupted? { return Cancelled; }
        var matches := Matches(page.value, previous, text);
        if |matches| > 1 { return Raised(AmbiguousReadback); }
        if |matches| == 1 {
          if !matches[0].isSelf || matches[0].sender == "" { return Raised(InvalidSelfReadback); }
          return Returned(Acknowledged(matches[0].localId));
        }
        if round == rounds { return Raised(ReadbackTimeout); }
        round := round + 1;
      }
    }

    /** The one POST for this id: remembered before it is made, and never made again. */
    method PostOnce(message: Message, previous: set<int>, remote: Remote, rounds: nat) returns (r: Outcome)
      requires Valid() && DistinctIds(remote.history) && message.id !in attempts
      requires previous == Ids(Newest(remote.history)) && paused == None
      modifies this, remote
      ensures Valid() && DistinctIds(remote.history) && GrowsTo(old(remote.history), remote.history)
      ensures posts == old(posts) + [Post(message.id, message.text)]
      ensures !r.Raised? && (r.Returned? ==> r.receipt != Failed)
      ensures attempts == old(attempts)[message.id := if r.Returned? then r.receipt else Unknown]
      ensures r.Returned? && r.receipt.Acknowledged? ==>
        Proven(old(remote.history), remote.history, message.text, r.receipt.localId)
      ensures paused.Some? <==> r == Returned(Unknown)
      ensures remote.steady ==>
        && r == Returned(Acknowledged(FreshId(old(remote.history))))
        && remote.history == [Echo(old(remote.history), message.text)] + old(remote.history)
    {
      hide SentOk, GrowsTo, DistinctIds, Newest, Ids, Matches, Proven, FreshId, Echo;
      EchoAnswers(remote.history, message.text);
      ghost var before := remote.history;
      Posted(attempts, replyTexts, posts, Post(message.id, message.text));
      attempts := attempts[message.id := Unknown];
      replyTexts := replyTexts[message.id := message.text];
      posts := posts + [Post(message.id, message.text)];
      var confirmed := remote.Send(message.text);
      ghost var sent := remote.history;
      if confirmed.Interrupted? { return Cancelled; }
      if confirmed.Broken? { paused := Some(Unavailable); return Returned(Unknown); }
      if !confirmed.value { paused := Some(SendNotConfirmed); return Returned(Unknown); }
      r := ReadBack(message.text, previous, remote, rounds);
      GrowsTransitive(before, sent, remote.history);
      if r.Raised? {
        paused := Some(r.stop);
        return Returned(Unknown);
      }
      if r.Returned? {
        ReadbackProves(before, remote.history, message.text);
        Confirmed(attempts, replyTexts, posts, message.id, r.receipt);
        attempts := attempts[message.id := r.receipt];
      }
    }

    /**
     * Deliver one message.  `posted` says whether this call sent it, and `before` is the history
     * its first page came from.
     */
    method Deliver(message: Message, remote: Remote, rounds: nat)
      returns (r: Outcome, ghost posted: bool, ghost before: seq<Row>)
      requires Valid() && DistinctIds(remote.history)
      modifies this, remote
      ensures Valid() && DistinctIds(remote.history) && GrowsTo(old(remote.history), remote.history)
      ensures !posted ==> unchanged(this`posts) && unchanged(this`attempts) && unchanged(this`replyTexts)
      ensures posted ==> posts == old(posts) + [Post(message.id, message.text)]
      ensures posted ==> message.id !in old(attempts) && old(paused).None? && validReply(message.text)
      ensures posted ==> message.channel == channel && message.chatRef == chatRef
      ensures posted ==> attempts == old(attempts)[message.id := if r.Returned? then r.receipt else Unknown]
      ensures posted ==> r.Cancelled? || (r.Returned? && r.receipt != Failed)
      ensures posted ==> (paused.Some? <==> r == Returned(Unknown))
      ensures remote.steady && old(Sendable(message, remote.history)) ==>
        && posted && r == Returned(Acknowledged(FreshId(old(remote.history)))) && paused == None
        && remote.history == [Echo(old(remote.history), message.text)] + old(remote.history)
      ensures message.id in old(attempts) ==>
        r == if old(replyTexts)[message.id] == message.text then Returned(old(attempts)[message.id])
             else Raised(ReplyIdentityRebound)
      ensures !posted && message.id !in old(attempts) && r.Returned? ==> r.receipt == Failed
      ensures posted && r.Returned? && r.receipt.Acknowledged? ==>
        GrowsTo(old(remote.history), before) && Proven(before, remote.history, message.text, r.receipt.localId)
    {
      hide GrowsTo, DistinctIds, Newest, Ids, Proven;
      before, posted := remote.history, false;
      FreshHistory(before);
      SameKeys(attempts, replyTexts, posts);
      hide SentOk;
      if message.id in attempts {
        if replyTexts[message.id] != message.text {
          paused := Some(ReplyIdentityRebound);
          r := Raised(ReplyIdentityRebound);
        } else {
          r := Returned(attempts[message.id]);
        }
      } else if message.channel != channel || message.chatRef != chatRef || !validReply(message.text) {
        r := Returned(Failed);
      } else {
        var fault, page := Prepare(message.text, remote);
        before := remote.history;
        if fault.Some? {
          r := fault.value;
        } else {
          posted := true;
          r := PostOnce(message, Ids(page), remote, rounds);
          GrowsTransitive(old(remote.history), before, remote.history);
        }
      }
    }

    /** Any sequence of deliveries, repeats included, posts each id at most once. */
    method DeliverAll(messages: seq<Message>, remote: Remote, rounds: nat)
      requires Valid() && DistinctIds(remote.history)
      modifies this, remote
      ensures Valid() && old(posts) <= posts
    {
      hide SentOk, DistinctIds, GrowsTo;
      for i := 0 to |messages|
        invariant Valid() && DistinctIds(remote.history) && old(posts) <= posts
      {
        var r, posted, before := Deliver(messages[i], remote, rounds);
      }
    }
  }

  lemma SameKeys(attempts: map<string, Receipt>, texts: map<string, string>, posts: seq<Post>)
    requires SentOk(attempts, texts, posts)
    ensures texts.Keys == attempts.Keys
  {
  }

  lemma FreshHistory(history: seq<Row>)
    ensures GrowsTo(history, history)
  {
  }
}
