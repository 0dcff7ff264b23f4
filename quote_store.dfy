/**
 * The quote controller (server/controllers/quoteController.js) over the two
 * collections it touches: the quotes, kept as a map from id to document plus
 * the collection's natural (insertion) order, and the like documents.
 * The handlers are the methods of `Store`; the pure functions and lemmas
 * before it state what each handler does to the collections.
 */
module QuoteStore {
  import opened Basics
  import opened QuoteSchema
  import opened LikeSchema
  import opened QuoteFeed
  import opened QuoteStats

  /** The 404 of a missing (or, for reads, inactive) quote, or a create/update that fails validation. */
  datatype StoreError = NotFound | Invalid(violations: seq<Violation>)

  predicate DistinctSeq(ids: seq<QuoteId>) {
    forall i, j :: 0 <= i < j < |ids| ==> ids[i] != ids[j]
  }

  /** Every id the order lists has a document. */
  predicate Covers(order: seq<QuoteId>, quotes: map<QuoteId, Quote>) {
    forall i :: 0 <= i < |order| ==> order[i] in quotes
  }

  /** The quote collection in its natural order, as `find` and `aggregate` scan it. */
  function DocumentsOf(order: seq<QuoteId>, quotes: map<QuoteId, Quote>): (r: seq<Quote>)
    requires Covers(order, quotes)
    ensures |r| == |order| && forall i :: 0 <= i < |order| ==> r[i] == quotes[order[i]]
  {
    seq(|order|, i requires 0 <= i < |order| => quotes[order[i]])
  }

  /**
   * The state the controller relies on: the order enumerates the documents
   * once each, a document is stored under its own id, ids are below the next
   * one to be issued, stored documents passed their validators, and the like
   * collection honours its unique index.
   */
  ghost predicate Consistent(quotes: map<QuoteId, Quote>, order: seq<QuoteId>, likes: seq<Like>, nextId: QuoteId) {
    && Covers(order, quotes)
    && (forall id :: id in quotes ==> id in order)
    && DistinctSeq(order)
    && (forall id :: id in quotes ==> quotes[id].id == id && id < nextId && WellFormed(quotes[id]))
    && UniquePairs(likes)
  }

  /**
   * Each stored counter equals the number of like documents for its quote.
   * The controller keeps this only as long as no create or update body sets
   * `likes` itself.
   */
  predicate LikesConsistent(quotes: map<QuoteId, Quote>, ledger: seq<Like>) {
    forall id :: id in quotes ==> quotes[id].likes == CountFor(ledger, id)
  }

  /** The paths identity and well-formedness depend on; counters and timestamps are not among them. */
  predicate SameContent(a: Quote, b: Quote) {
    a.id == b.id && a.quote == b.quote && a.bookTitle == b.bookTitle && a.author == b.author && a.tags == b.tags
  }

  /** Writes that touch only counters, flags and timestamps keep the state consistent. */
  lemma ConsistentUnderCounters(quotes: map<QuoteId, Quote>, quotes': map<QuoteId, Quote>, order: seq<QuoteId>,
                                likes: seq<Like>, likes': seq<Like>, nextId: QuoteId)
    requires Consistent(quotes, order, likes, nextId) && UniquePairs(likes')
    requires quotes'.Keys == quotes.Keys
    requires forall id :: id in quotes ==> SameContent(quotes[id], quotes'[id])
    ensures Consistent(quotes', order, likes', nextId)
  {
    forall id | id in quotes' ensures quotes'[id].id == id && id < nextId && WellFormed(quotes'[id]) {
      assert SameContent(quotes[id], quotes'[id]);
    }
  }

  /** Storing a well-formed document under its own existing id keeps the state consistent. */
  lemma ConsistentAfterWrite(quotes: map<QuoteId, Quote>, order: seq<QuoteId>, likes: seq<Like>, nextId: QuoteId, q: Quote)
    requires Consistent(quotes, order, likes, nextId)
    requires q.id in quotes && WellFormed(q)
    ensures Consistent(quotes[q.id := q], order, likes, nextId)
  {
  }

  /** Appending a well-formed document under the next id keeps the state consistent. */
  lemma ConsistentAfterCreate(quotes: map<QuoteId, Quote>, order: seq<QuoteId>, likes: seq<Like>, nextId: QuoteId, q: Quote)
    requires Consistent(quotes, order, likes, nextId)
    requires q.id == nextId && WellFormed(q)
    ensures Consistent(quotes[nextId := q], order + [nextId], likes, nextId + 1)
  {
    assert forall i :: 0 <= i < |order| ==> order[i] in quotes && order[i] < nextId;
    assert nextId !in order;
    var order' := order + [nextId];
    assert forall i :: 0 <= i < |order| ==> order'[i] == order[i];
  }

  /** Removing a document and its id from the order keeps the state consistent. */
  lemma ConsistentAfterDelete(quotes: map<QuoteId, Quote>, order: seq<QuoteId>, likes: seq<Like>, nextId: QuoteId, id: QuoteId)
    requires Consistent(quotes, order, likes, nextId)
    ensures Consistent(quotes - {id}, RemoveId(order, id), likes, nextId)
  {
    RemoveIdDistinct(order, id);
    var order' := RemoveId(order, id);
    forall i | 0 <= i < |order'| ensures order'[i] in quotes - {id} {
      assert order'[i] in order';
    }
  }

  // ----- views -----

  /** `$inc: {views: 1}` (or `views += 1; save()`), which also stamps `updatedAt`. */
  function Viewed(q: Quote, now: int): Quote {
    q.(views := q.views + 1, updatedAt := now)
  }

  /** `findByIdAndUpdate(id, {$inc: {views: 1}})`: a missing id updates nothing. */
  function ViewOne(m: map<QuoteId, Quote>, id: QuoteId, now: int): map<QuoteId, Quote> {
    if id in m then m[id := Viewed(m[id], now)] else m
  }

  /** The increments of `Promise.all(quotes.map(...))`, applied in list order. */
  function ViewAll(m: map<QuoteId, Quote>, ids: seq<QuoteId>, now: int): (r: map<QuoteId, Quote>)
    ensures r.Keys == m.Keys
    ensures forall id :: id in m && id !in ids ==> r[id] == m[id]
  {
    if ids == [] then m else ViewOne(ViewAll(m, ids[..|ids| - 1], now), ids[|ids| - 1], now)
  }

  /** However often an id repeats, the views leave every path but `views` and `updatedAt` as it was. */
  lemma {:induction false} ViewAllShape(m: map<QuoteId, Quote>, ids: seq<QuoteId>, now: int)
    ensures ViewAll(m, ids, now).Keys == m.Keys
    ensures forall id :: id in m ==>
      ViewAll(m, ids, now)[id] == m[id].(views := ViewAll(m, ids, now)[id].views, updatedAt := ViewAll(m, ids, now)[id].updatedAt)
  {
    if ids != [] {
      ViewAllShape(m, ids[..|ids| - 1], now);
    }
  }

  function IdsOf(qs: seq<Quote>): (r: seq<QuoteId>)
    ensures |r| == |qs| && forall i :: 0 <= i < |qs| ==> r[i] == qs[i].id
  {
    seq(|qs|, i requires 0 <= i < |qs| => qs[i].id)
  }

  /** The ids whose views a `getQuotes` response increments: the paged data only. */
  function ViewedIds(r: Result<FeedResponse, FeedError>): seq<QuoteId> {
    if r.Ok? && r.value.Paged? then IdsOf(r.value.data) else []
  }

  /**
   * Incrementing the views of distinct ids keeps the set of documents, adds
   * exactly one view (and the new timestamp) to each listed document, and
   * leaves every other document as it was.
   */
  lemma {:induction false} ViewAllEffect(m: map<QuoteId, Quote>, ids: seq<QuoteId>, now: int)
    requires DistinctSeq(ids)
    ensures ViewAll(m, ids, now).Keys == m.Keys
    ensures forall id :: id in m ==> ViewAll(m, ids, now)[id] == if id in ids then Viewed(m[id], now) else m[id]
  {
    if ids != [] {
      var init := ids[..|ids| - 1];
      var last := ids[|ids| - 1];
      assert DistinctSeq(init);
      ViewAllEffect(m, init, now);
      assert last !in init;
      assert forall id :: id in ids <==> id in init || id == last;
    }
  }

  lemma IdsOfDistinct(qs: seq<Quote>)
    requires DistinctIds(qs)
    ensures DistinctSeq(IdsOf(qs))
  {
  }

  /** Under the invariant, `find` scans every stored document, and each document once. */
  lemma DocumentsDistinct(quotes: map<QuoteId, Quote>, order: seq<QuoteId>, likes: seq<Like>, nextId: QuoteId)
    requires Consistent(quotes, order, likes, nextId)
    ensures DistinctIds(DocumentsOf(order, quotes))
    ensures forall id :: id in quotes ==> quotes[id] in DocumentsOf(order, quotes)
  {
    forall id | id in quotes ensures quotes[id] in DocumentsOf(order, quotes) {
      var i :| 0 <= i < |order| && order[i] == id;
      assert DocumentsOf(order, quotes)[i] == quotes[id];
    }
  }

  /**
   * A paged `getQuotes` adds one view to each quote it returns and leaves
   * every other quote untouched; a sampled or failed one changes nothing.
   */
  lemma ListingViews(quotes: map<QuoteId, Quote>, order: seq<QuoteId>, likes: seq<Like>, nextId: QuoteId,
                     req: FeedRequest, draws: seq<nat>, now: int)
    requires Consistent(quotes, order, likes, nextId)
    ensures var r := Feed(DocumentsOf(order, quotes), req, draws);
      var after := ViewAll(quotes, ViewedIds(r), now);
      && after.Keys == quotes.Keys
      && (forall id :: id in quotes ==>
            after[id] == if r.Ok? && r.value.Paged? && quotes[id] in r.value.data then Viewed(quotes[id], now) else quotes[id])
  {
    var docs := DocumentsOf(order, quotes);
    var r := Feed(docs, req, draws);
    var ids := ViewedIds(r);
    if r.Ok? && r.value.Paged? {
      DocumentsDistinct(quotes, order, likes, nextId);
      assert ParseSortBy(req.sortBy) != Random;
      FeedPagedOrder(docs, req, draws);
      IdsOfDistinct(r.value.data);
      forall id | id in quotes ensures id in ids <==> quotes[id] in r.value.data {
        if id in ids {
          var i :| 0 <= i < |ids| && ids[i] == id;
          var q := r.value.data[i];
          assert q in docs;
          var j :| 0 <= j < |docs| && docs[j] == q;
          assert quotes[order[j]] == q && q.id == id;
          assert order[j] == id;
        }
        if quotes[id] in r.value.data {
          var i :| 0 <= i < |r.value.data| && r.value.data[i] == quotes[id];
          assert ids[i] == id;
        }
      }
    }
    ViewAllEffect(quotes, ids, now);
  }

  // ----- likes -----

  /** The collections `likeQuote` reads and writes. */
  datatype LikeState = LikeState(quotes: map<QuoteId, Quote>, ledger: seq<Like>)

  /** `$inc: {likes: delta}` on the quote, if it exists; the write stamps `updatedAt`. */
  function AdjustLikes(m: map<QuoteId, Quote>, id: QuoteId, delta: int, now: int): map<QuoteId, Quote> {
    if id in m then m[id := m[id].(likes := m[id].likes + delta, updatedAt := now)] else m
  }

  /** Delete the like document of the pair if there is one, create it otherwise. */
  function ToggleLedger(ledger: seq<Like>, key: LikeKey, now: int): seq<Like> {
    match FindLike(ledger, key)
    case Some(i) => RemoveAt(ledger, i)
    case None => ledger + [Like(key.user, key.quote, now, now)]
  }

  /**
   * One `likeQuote` call: the new state and the `liked` flag of the response.
   * The quote's existence is never checked: liking a missing quote still
   * creates the like document and updates no counter.
   */
  function LikeStep(s: LikeState, user: UserId, q: QuoteId, now: int): (r: (LikeState, bool))
    ensures r.0.quotes.Keys == s.quotes.Keys
    ensures forall id :: id in s.quotes && id != q ==> r.0.quotes[id] == s.quotes[id]
    ensures q in s.quotes ==> r.0.quotes[q].likes == s.quotes[q].likes + (if r.1 then 1 else -1)
  {
    var key := LikeKey(user, q);
    var liked := key !in Pairs(s.ledger);
    (LikeState(AdjustLikes(s.quotes, q, if liked then 1 else -1, now), ToggleLedger(s.ledger, key, now)), liked)
  }

  /** The toggle flips exactly the caller's pair and keeps the unique index. */
  lemma TogglePairs(ledger: seq<Like>, key: LikeKey, now: int)
    requires UniquePairs(ledger)
    ensures UniquePairs(ToggleLedger(ledger, key, now))
    ensures Pairs(ToggleLedger(ledger, key, now)) == if key in Pairs(ledger) then Pairs(ledger) - {key} else Pairs(ledger) + {key}
  {
    match FindLike(ledger, key)
    case Some(i) =>
      RemoveAtPairs(ledger, i);
    case None =>
      var c := CreateLike(ledger, Some(key.user), Some(key.quote), now);
      assert c.Ok?;
  }

  /** Liking twice is undoing: the pairs return to what they were. */
  lemma ToggleTwice(ledger: seq<Like>, key: LikeKey, now1: int, now2: int)
    requires UniquePairs(ledger)
    ensures Pairs(ToggleLedger(ToggleLedger(ledger, key, now1), key, now2)) == Pairs(ledger)
  {
    TogglePairs(ledger, key, now1);
    TogglePairs(ToggleLedger(ledger, key, now1), key, now2);
  }

  /** The toggle moves the like count of the caller's quote by one and no other count. */
  lemma ToggleCount(ledger: seq<Like>, key: LikeKey, now: int, id: QuoteId)
    ensures CountFor(ToggleLedger(ledger, key, now), id)
      == CountFor(ledger, id) + (if id != key.quote then 0 else if key in Pairs(ledger) then -1 else 1)
  {
    match FindLike(ledger, key)
    case Some(i) =>
      CountRemoveAt(ledger, i, id);
    case None =>
      CountAppendOne(ledger, Like(key.user, key.quote, now, now), id);
  }

  /**
   * `likeQuote` keeps every stored counter equal to the number of like
   * documents of its quote, and reports `liked` exactly when the pair was
   * absent before the call.
   */
  lemma LikeStepConsistent(s: LikeState, user: UserId, q: QuoteId, now: int)
    requires UniquePairs(s.ledger)
    ensures var (s', liked) := LikeStep(s, user, q, now);
      && UniquePairs(s'.ledger)
      && (LikesConsistent(s.quotes, s.ledger) ==> LikesConsistent(s'.quotes, s'.ledger))
      && (liked <==> LikeKey(user, q) !in Pairs(s.ledger))
      && (liked <==> LikeKey(user, q) in Pairs(s'.ledger))
  {
    var key := LikeKey(user, q);
    var (s', liked) := LikeStep(s, user, q, now);
    TogglePairs(s.ledger, key, now);
    if LikesConsistent(s.quotes, s.ledger) {
      forall id | id in s'.quotes ensures s'.quotes[id].likes == CountFor(s'.ledger, id) {
        ToggleCount(s.ledger, key, now, id);
      }
    }
  }

  /**
   * Two consecutive toggles by the same user undo each other: the flags are
   * opposite, the like pairs are as before, and every quote has its old
   * like count back, with nothing but `updatedAt` changed.
   */
  lemma LikeStepTwice(s: LikeState, user: UserId, q: QuoteId, now1: int, now2: int)
    requires UniquePairs(s.ledger)
    ensures var (s1, liked1) := LikeStep(s, user, q, now1);
      var (s2, liked2) := LikeStep(s1, user, q, now2);
      && liked2 == !liked1
      && Pairs(s2.ledger) == Pairs(s.ledger)
      && s2.quotes.Keys == s.quotes.Keys
      && forall id :: id in s.quotes ==> s2.quotes[id] == s.quotes[id].(updatedAt := s2.quotes[id].updatedAt)
  {
    var key := LikeKey(user, q);
    var (s1, liked1) := LikeStep(s, user, q, now1);
    TogglePairs(s.ledger, key, now1);
    TogglePairs(s1.ledger, key, now2);
  }

  /**
   * The like, like, unlike sequence: user one likes a quote with no likes,
   * user two likes it, user one toggles again; the flags are true, true,
   * false and the counter ends at one.
   */
  lemma LikeSequenceExample(m: map<QuoteId, Quote>, q: QuoteId, u1: UserId, u2: UserId, n1: int, n2: int, n3: int)
    requires q in m && m[q].likes == 0 && u1 != u2
    ensures var (s1, liked1) := LikeStep(LikeState(m, []), u1, q, n1);
      var (s2, liked2) := LikeStep(s1, u2, q, n2);
      var (s3, liked3) := LikeStep(s2, u1, q, n3);
      && liked1 && liked2 && !liked3
      && q in s3.quotes && s3.quotes[q].likes == 1
      && Pairs(s3.ledger) == {LikeKey(u2, q)}
  {
    var k1 := LikeKey(u1, q);
    var k2 := LikeKey(u2, q);
    var (s1, liked1) := LikeStep(LikeState(m, []), u1, q, n1);
    assert Pairs([]) == {};
    TogglePairs([], k1, n1);
    var (s2, liked2) := LikeStep(s1, u2, q, n2);
    TogglePairs(s1.ledger, k2, n2);
    var (s3, liked3) := LikeStep(s2, u1, q, n3);
    TogglePairs(s2.ledger, k1, n3);
    assert Pairs(s2.ledger) == {k1, k2};
  }

  // ----- delete -----

  /** The order with `id` taken out, the others keeping their positions relative to each other. */
  function RemoveId(s: seq<QuoteId>, id: QuoteId): (r: seq<QuoteId>)
    ensures forall x :: x in r <==> x in s && x != id
    ensures |r| <= |s|
  {
    if s == [] then []
    else (if s[0] == id then [] else [s[0]]) + RemoveId(s[1..], id)
  }

  lemma {:induction false} RemoveIdDistinct(s: seq<QuoteId>, id: QuoteId)
    requires DistinctSeq(s)
    ensures DistinctSeq(RemoveId(s, id))
  {
    if s != [] {
      assert DistinctSeq(s[1..]) by {
        assert forall i :: 0 <= i < |s[1..]| ==> s[1..][i] == s[i + 1];
      }
      RemoveIdDistinct(s[1..], id);
      assert s[0] !in s[1..];
      var t := RemoveId(s[1..], id);
      if s[0] != id {
        var r := [s[0]] + t;
        forall i, j | 0 <= i < j < |r| ensures r[i] != r[j] {
          assert r[j] == t[j - 1] && t[j - 1] in t;
          if i > 0 { assert r[i] == t[i - 1]; }
        }
      }
    }
  }

  // ----- counting -----

  function Elements(s: seq<QuoteId>): set<QuoteId> {
    set x | x in s
  }

  /** A sequence without repeats has as many elements as its set. */
  lemma {:induction false} DistinctCard(s: seq<QuoteId>)
    requires DistinctSeq(s)
    ensures |Elements(s)| == |s|
  {
    if s != [] {
      var init := s[..|s| - 1];
      var last := s[|s| - 1];
      assert DistinctSeq(init);
      DistinctCard(init);
      assert last !in init;
      assert s == init + [last];
      assert Elements(s) == Elements(init) + {last};
    }
  }

  /** The scan the aggregation makes covers every stored document once. */
  lemma DocumentCount(quotes: map<QuoteId, Quote>, order: seq<QuoteId>, likes: seq<Like>, nextId: QuoteId)
    requires Consistent(quotes, order, likes, nextId)
    ensures |DocumentsOf(order, quotes)| == |quotes|
  {
    DistinctCard(order);
    assert quotes.Keys == Elements(order);
  }

  /** View increments touch no path the invariants depend on, the like counters included. */
  lemma ViewsKeepInvariants(quotes: map<QuoteId, Quote>, order: seq<QuoteId>, likes: seq<Like>, nextId: QuoteId,
                            ids: seq<QuoteId>, now: int)
    requires Consistent(quotes, order, likes, nextId)
    ensures Consistent(ViewAll(quotes, ids, now), order, likes, nextId)
    ensures LikesConsistent(quotes, likes) ==> LikesConsistent(ViewAll(quotes, ids, now), likes)
  {
    var after := ViewAll(quotes, ids, now);
    ViewAllShape(quotes, ids, now);
    ConsistentUnderCounters(quotes, after, order, likes, likes, nextId);
    assert forall id :: id in quotes ==> after[id].likes == quotes[id].likes;
  }

  /** The view increments of `getQuotes`, one `findByIdAndUpdate` per listed id. */
  method ApplyViews(m: map<QuoteId, Quote>, ids: seq<QuoteId>, now: int) returns (m': map<QuoteId, Quote>)
    ensures m' == ViewAll(m, ids, now)
  {
    m' := m;
    var i := 0;
    while i < |ids|
      invariant 0 <= i <= |ids|
      invariant m' == ViewAll(m, ids[..i], now)
    {
      var id := ids[i];
      if id in m' {
        m' := m'[id := Viewed(m'[id], now)];
      }
      assert ids[..i + 1][..i] == ids[..i];
      i := i + 1;
    }
    assert ids[..|ids|] == ids;
  }

  /** The controller: every handler of the quote routes. */
  class Store {
    var quotes: map<QuoteId, Quote>
    var order: seq<QuoteId>
    var likes: seq<Like>
    /** The id the next created quote receives (the model's stand-in for a fresh ObjectId). */
    var nextId: QuoteId

    ghost predicate Valid()
      reads this
    {
      Consistent(quotes, order, likes, nextId)
    }

    constructor ()
      ensures Valid()
      ensures quotes == map[] && order == [] && likes == [] && nextId == 0
    {
      quotes := map[];
      order := [];
      likes := [];
      nextId := 0;
    }

    /**
     * `getQuotes`: the response is the feed over the collection as it stood
     * before the call; afterwards each quote of a paged response has one
     * more view. The sampled branch increments nothing.
     */
    method GetQuotes(req: FeedRequest, draws: seq<nat>, now: int) returns (r: Result<FeedResponse, FeedError>)
      requires Valid()
      modifies this
      ensures Valid()
      ensures r == Feed(old(DocumentsOf(order, quotes)), req, draws)
      ensures quotes == ViewAll(old(quotes), ViewedIds(r), now)
      ensures order == old(order) && likes == old(likes) && nextId == old(nextId)
      ensures old(LikesConsistent(quotes, likes)) ==> LikesConsistent(quotes, likes)
    {
      var docs := DocumentsOf(order, quotes);
      r := Feed(docs, req, draws);
      var ids := ViewedIds(r);
      ViewsKeepInvariants(quotes, order, likes, nextId, ids, now);
      var viewed := ApplyViews(quotes, ids, now);
      quotes := viewed;
    }

    /** `getQuote`: a missing or inactive quote is a 404 and changes nothing; otherwise one more view. */
    method GetQuote(id: QuoteId, now: int) returns (r: Result<Quote, StoreError>)
      requires Valid()
      modifies this
      ensures Valid()
      ensures r.Ok? <==> id in old(quotes) && old(quotes)[id].isActive
      ensures r.Ok? ==> r.value == Viewed(old(quotes)[id], now) && quotes == old(quotes)[id := r.value]
      ensures r.Err? ==> r.error == NotFound && quotes == old(quotes)
      ensures order == old(order) && likes == old(likes) && nextId == old(nextId)
      ensures old(LikesConsistent(quotes, likes)) ==> LikesConsistent(quotes, likes)
    {
      if id !in quotes || !quotes[id].isActive {
        return Err(NotFound);
      }
      var q := Viewed(quotes[id], now);
      quotes := quotes[id := q];
      r := Ok(q);
    }

    /** `createQuote`: the validated document under a fresh id, appended to the collection. */
    method CreateQuote(input: QuoteInput, now: int) returns (r: Result<Quote, seq<Violation>>)
      requires Valid()
      modifies this
      ensures Valid()
      ensures r == NewQuote(old(nextId), input, now)
      ensures r.Ok? ==> quotes == old(quotes)[old(nextId) := r.value] && order == old(order) + [old(nextId)] && nextId == old(nextId) + 1
      ensures r.Err? ==> quotes == old(quotes) && order == old(order) && nextId == old(nextId)
      ensures likes == old(likes)
      ensures old(LikesConsistent(quotes, likes)) && r.Ok? && r.value.likes == CountFor(likes, r.value.id)
        ==> LikesConsistent(quotes, likes)
    {
      r := NewQuote(nextId, input, now);
      if r.Ok? {
        ConsistentAfterCreate(quotes, order, likes, nextId, r.value);
        quotes := quotes[nextId := r.value];
        order := order + [nextId];
        nextId := nextId + 1;
      }
    }

    /**
     * `updateQuote`: a missing quote is a 404; otherwise the body is
     * validated and written path by path. Inactive quotes can be updated.
     */
    method UpdateQuote(id: QuoteId, input: QuoteInput, now: int) returns (r: Result<Quote, StoreError>)
      requires Valid()
      modifies this
      ensures Valid()
      ensures id !in old(quotes) ==> r == Err(NotFound)
      ensures id in old(quotes) ==>
        match UpdatedQuote(old(quotes)[id], input, now)
        case Ok(q) => r == Ok(q)
        case Err(vs) => r == Err(Invalid(vs))
      ensures r.Ok? ==> quotes == old(quotes)[id := r.value]
      ensures r.Err? ==> quotes == old(quotes)
      ensures order == old(order) && likes == old(likes) && nextId == old(nextId)
    {
      if id !in quotes {
        return Err(NotFound);
      }
      var u := UpdatedQuote(quotes[id], input, now);
      if u.Err? {
        return Err(Invalid(u.error));
      }
      ConsistentAfterWrite(quotes, order, likes, nextId, u.value);
      quotes := quotes[id := u.value];
      r := Ok(u.value);
    }

    /** `deleteQuote`: the document goes; its like documents stay behind. */
    method DeleteQuote(id: QuoteId) returns (found: bool)
      requires Valid()
      modifies this
      ensures Valid()
      ensures found <==> id in old(quotes)
      ensures found ==> quotes == old(quotes) - {id} && order == RemoveId(old(order), id)
      ensures !found ==> quotes == old(quotes) && order == old(order)
      ensures likes == old(likes) && nextId == old(nextId)
      ensures old(LikesConsistent(quotes, likes)) ==> LikesConsistent(quotes, likes)
    {
      if id !in quotes {
        return false;
      }
      ConsistentAfterDelete(quotes, order, likes, nextId, id);
      quotes := quotes - {id};
      order := RemoveId(order, id);
      found := true;
    }

    /** `likeQuote`: toggles the caller's like and moves the counter with it. */
    method LikeQuote(user: UserId, quoteId: QuoteId, now: int) returns (liked: bool)
      requires Valid()
      modifies this
      ensures Valid()
      ensures (LikeState(quotes, likes), liked) == LikeStep(old(LikeState(quotes, likes)), user, quoteId, now)
      ensures order == old(order) && nextId == old(nextId)
      ensures old(LikesConsistent(quotes, likes)) ==> LikesConsistent(quotes, likes)
    {
      var key := LikeKey(user, quoteId);
      ghost var before := LikeState(quotes, likes);
      LikeStepConsistent(before, user, quoteId, now);
      var existing := FindLike(likes, key);
      if existing.Some? {
        likes := RemoveAt(likes, existing.value);
        liked := false;
      } else {
        var created := CreateLike(likes, Some(user), Some(quoteId), now);
        assert created.Ok?;
        likes := created.value;
        liked := true;
      }
      quotes := AdjustLikes(quotes, quoteId, if liked then 1 else -1, now);
      ConsistentUnderCounters(before.quotes, quotes, order, before.ledger, likes, nextId);
    }

    /** `getQuoteStats`: the groups over every stored quote; their counts add up to the collection size. */
    method GetQuoteStats() returns (stats: seq<CategoryStat>)
      requires Valid()
      ensures stats == Stats(DocumentsOf(order, quotes))
      ensures SumCounts(stats) == |quotes|
    {
      stats := Stats(DocumentsOf(order, quotes));
      StatsPartition(DocumentsOf(order, quotes));
      DocumentCount(quotes, order, likes, nextId);
    }
  }
}
