/**
 * The feed query of `getQuotes` (server/controllers/quoteController.js): the
 * page/limit defaults, the filter, the sort, skip/limit and the `random`
 * branch's sample, as pure functions over the collection in its natural order.
 */
module QuoteFeed {
  import opened Basics
  import opened QuoteSchema

  datatype SortMode = Popular | Latest | Random

  /** The document path a non-random sort orders by, descending. */
  datatype SortKey = ByLikes | ByCreatedAt

  datatype FeedRequest = FeedRequest(page: Option<int>, limit: Option<int>, category: Option<string>, sortBy: Option<string>)

  /** The body of a successful response: the paged listing, or the sample of the random branch. */
  datatype FeedResponse =
    | Paged(data: seq<Quote>, total: nat, page: int, pages: int)
    | Sampled(data: seq<Quote>)
  {
    /** The `count` field of the response. */
    function Count(): nat {
      |data|
    }
  }

  /** The store rejects a negative `$skip` and a negative `$sample` size. */
  datatype FeedError = SkipRejected | SampleSizeRejected

  /** `sortBy || 'createdAt'` followed by the switch: every unknown value sorts like `latest`. */
  function ParseSortBy(sortBy: Option<string>): (m: SortMode)
    ensures m == Popular <==> sortBy == Some("popular")
    ensures m == Random <==> sortBy == Some("random")
  {
    match sortBy
    case None => Latest
    case Some(s) => if s == "popular" then Popular else if s == "random" then Random else Latest
  }

  /** `parseInt(x) || d`: an unparsable or zero value falls back to `d`, anything else is kept, negatives included. */
  function OrDefault(v: Option<int>, d: int): (r: int)
    ensures (v.None? || v.value == 0) ==> r == d
    ensures (v.Some? && v.value != 0) ==> r == v.value
  {
    if v.None? || v.value == 0 then d else v.value
  }

  function PageOf(req: FeedRequest): int {
    OrDefault(req.page, 1)
  }

  function LimitOf(req: FeedRequest): int {
    OrDefault(req.limit, 10)
  }

  function SkipOf(req: FeedRequest): int {
    (PageOf(req) - 1) * LimitOf(req)
  }

  /** The limit is never zero, whatever the query string says. */
  lemma LimitNonZero(req: FeedRequest)
    ensures LimitOf(req) != 0 && PageOf(req) != 0
    ensures req.limit.None? ==> LimitOf(req) == 10
    ensures req.page.None? ==> PageOf(req) == 1 && SkipOf(req) == 0
  {
  }

  /** `Math.ceil(total / limit)` for a non-zero integer limit. */
  function CeilDiv(total: nat, limit: int): int
    requires limit != 0
  {
    if limit > 0 then (total + limit - 1) / limit else -(total / -limit)
  }

  /** CeilDiv is the ceiling of the exact quotient, for either sign of the limit. */
  lemma CeilDivIsCeiling(total: nat, limit: int)
    requires limit != 0
    ensures var r := CeilDiv(total, limit);
      && (limit > 0 ==> r >= 0 && (r - 1) * limit < total <= r * limit)
      && (limit < 0 ==> r <= 0 && r * limit <= total < (r - 1) * limit)
  {
    if limit > 0 {
      var n := total + limit - 1;
      var q := n / limit;
      assert n == q * limit + n % limit;
      assert (q - 1) * limit == q * limit - limit;
    } else {
      var l := -limit;
      var q := total / l;
      assert total == q * l + total % l;
      assert (-q) * limit == q * l;
      assert (-q - 1) * limit == q * l + l;
    }
  }

  /** `category && category !== 'all'`: whether the query restricts the category. */
  predicate Restricts(category: Option<string>) {
    category.Some? && category.value != "" && category.value != "all"
  }

  /** The query document: `isActive: true`, plus the category when it restricts. */
  predicate Matches(q: Quote, category: Option<string>) {
    q.isActive && (Restricts(category) ==> CategoryName(q.category) == category.value)
  }

  predicate DistinctIds(qs: seq<Quote>) {
    forall i, j :: 0 <= i < j < |qs| ==> qs[i].id != qs[j].id
  }

  /** The matching documents, in the collection's order. */
  function Filter(qs: seq<Quote>, category: Option<string>): (r: seq<Quote>)
    ensures forall q :: q in r <==> q in qs && Matches(q, category)
    ensures |r| <= |qs|
  {
    if qs == [] then []
    else
      assert qs == [qs[0]] + qs[1..];
      if Matches(qs[0], category) then [qs[0]] + Filter(qs[1..], category) else Filter(qs[1..], category)
  }

  lemma DistinctTail(qs: seq<Quote>)
    requires qs != [] && DistinctIds(qs)
    ensures DistinctIds(qs[1..])
    ensures forall q :: q in qs[1..] ==> q.id != qs[0].id
  {
    forall i, j | 0 <= i < j < |qs[1..]| ensures qs[1..][i].id != qs[1..][j].id {
      assert qs[1..][i] == qs[i + 1] && qs[1..][j] == qs[j + 1];
    }
    forall q | q in qs[1..] ensures q.id != qs[0].id {
      var j :| 0 <= j < |qs[1..]| && qs[1..][j] == q;
      assert qs[j + 1] == q;
    }
  }

  lemma DistinctCons(x: Quote, s: seq<Quote>)
    requires DistinctIds(s) && forall q :: q in s ==> q.id != x.id
    ensures DistinctIds([x] + s)
  {
    var r := [x] + s;
    forall i, j | 0 <= i < j < |r| ensures r[i].id != r[j].id {
      if i == 0 { assert r[j] in s; } else { assert r[i] == s[i - 1] && r[j] == s[j - 1]; }
    }
  }

  /** Filtering keeps ids distinct. */
  lemma {:induction false} FilterDistinct(qs: seq<Quote>, category: Option<string>)
    requires DistinctIds(qs)
    ensures DistinctIds(Filter(qs, category))
  {
    if qs != [] {
      DistinctTail(qs);
      FilterDistinct(qs[1..], category);
      if Matches(qs[0], category) {
        DistinctCons(qs[0], Filter(qs[1..], category));
      }
    }
  }

  function Key(q: Quote, k: SortKey): int {
    match k
    case ByLikes => q.likes
    case ByCreatedAt => q.createdAt
  }

  /** Ordered by the key, largest first (`{likes: -1}`, `{createdAt: -1}`). */
  predicate SortedDesc(s: seq<Quote>, k: SortKey) {
    forall i, j :: 0 <= i < j < |s| ==> Key(s[i], k) >= Key(s[j], k)
  }

  /** One step of the stable insertion sort: `x` goes before the first element it is not below. */
  function Insert(x: Quote, s: seq<Quote>, k: SortKey): seq<Quote>
  {
    if s == [] || Key(x, k) >= Key(s[0], k) then [x] + s
    else [s[0]] + Insert(x, s[1..], k)
  }

  /** Inserting adds exactly `x`. */
  lemma {:induction false} InsertMultiset(x: Quote, s: seq<Quote>, k: SortKey)
    ensures multiset(Insert(x, s, k)) == multiset(s) + multiset{x}
    ensures |Insert(x, s, k)| == |s| + 1
  {
    if !(s == [] || Key(x, k) >= Key(s[0], k)) {
      InsertMultiset(x, s[1..], k);
      assert s == [s[0]] + s[1..];
    }
  }

  /** Inserting into a sorted sequence keeps it sorted; the head is `x` or the old head. */
  lemma {:induction false} InsertSorted(x: Quote, s: seq<Quote>, k: SortKey)
    requires SortedDesc(s, k)
    ensures SortedDesc(Insert(x, s, k), k)
    ensures Insert(x, s, k)[0] == x || (s != [] && Insert(x, s, k)[0] == s[0])
  {
    if s == [] || Key(x, k) >= Key(s[0], k) {
      ConsSorted(x, s, k);
    } else {
      SortedTail(s, k);
      InsertSorted(x, s[1..], k);
      ConsSorted(s[0], Insert(x, s[1..], k), k);
    }
  }

  lemma SortedTail(s: seq<Quote>, k: SortKey)
    requires s != [] && SortedDesc(s, k)
    ensures SortedDesc(s[1..], k)
    ensures |s| > 1 ==> Key(s[0], k) >= Key(s[1], k)
  {
    assert forall i :: 0 <= i < |s| - 1 ==> s[1..][i] == s[i + 1];
  }

  lemma ConsSorted(h: Quote, s: seq<Quote>, k: SortKey)
    requires SortedDesc(s, k) && (s != [] ==> Key(h, k) >= Key(s[0], k))
    ensures SortedDesc([h] + s, k)
  {
    var r := [h] + s;
    forall i, j | 0 <= i < j < |r| ensures Key(r[i], k) >= Key(r[j], k) {
      if i == 0 && j > 1 { assert r[j] == s[j - 1]; assert Key(s[0], k) >= Key(s[j - 1], k); }
    }
  }

  /**
   * The sort stage. Ties keep the collection's order; the store leaves that
   * order unspecified, and nothing proved below depends on it.
   */
  function SortDesc(s: seq<Quote>, k: SortKey): (r: seq<Quote>)
    ensures SortedDesc(r, k)
    ensures multiset(r) == multiset(s)
    ensures |r| == |s|
  {
    if s == [] then []
    else
      var rest := SortDesc(s[1..], k);
      InsertSorted(s[0], rest, k);
      InsertMultiset(s[0], rest, k);
      assert s == [s[0]] + s[1..];
      Insert(s[0], rest, k)
  }

  /** `.skip(skip).limit(n)`: the documents at positions [skip, skip + n) of `s`. */
  function Window(s: seq<Quote>, skip: nat, n: nat): (r: seq<Quote>)
    ensures |r| <= n
    ensures skip <= |s| ==> r == s[skip..Min(skip + n, |s|)]
    ensures skip >= |s| ==> r == []
  {
    s[Min(skip, |s|)..Min(skip + n, |s|)]
  }

  /** The position one random draw selects among `n` remaining documents. */
  function Pick(draws: seq<nat>, n: nat): (i: nat)
    requires n > 0
    ensures i < n
  {
    (if draws == [] then 0 else draws[0]) % n
  }

  function NextDraws(draws: seq<nat>): seq<nat> {
    if draws == [] then [] else draws[1..]
  }

  /**
   * `$sample: {size}` with its randomness supplied as `draws`: each step
   * takes one of the remaining documents, so no document is taken twice.
   */
  function Sample(pool: seq<Quote>, size: nat, draws: seq<nat>): (r: seq<Quote>)
    ensures |r| == Min(size, |pool|)
    ensures multiset(r) <= multiset(pool)
    decreases size
  {
    if size == 0 || pool == [] then []
    else
      var i := Pick(draws, |pool|);
      assert pool == pool[..i] + [pool[i]] + pool[i + 1..];
      [pool[i]] + Sample(pool[..i] + pool[i + 1..], size - 1, NextDraws(draws))
  }

  function SortKeyOf(m: SortMode): SortKey {
    if m == Popular then ByLikes else ByCreatedAt
  }

  /** The matching documents in the order the non-random branch sorts them. */
  function Ordered(all: seq<Quote>, req: FeedRequest): seq<Quote> {
    SortDesc(Filter(all, req.category), SortKeyOf(ParseSortBy(req.sortBy)))
  }

  /** The non-random branch: sort, skip, limit, count and page arithmetic. */
  function Listing(all: seq<Quote>, req: FeedRequest): FeedResponse
    requires SkipOf(req) >= 0
  {
    LimitNonZero(req);
    var total := |Filter(all, req.category)|;
    Paged(Window(Ordered(all, req), SkipOf(req), Abs(LimitOf(req))), total, PageOf(req), CeilDiv(total, LimitOf(req)))
  }

  /** A listing holds at most `limit` documents and at most `total`; a non-empty page starts inside the matches. */
  lemma ListingBounds(all: seq<Quote>, req: FeedRequest)
    requires SkipOf(req) >= 0
    ensures var r := Listing(all, req);
      && r.Paged? && r.Count() <= Abs(LimitOf(req)) && r.Count() <= r.total
      && (r.Count() > 0 ==> SkipOf(req) < r.total)
  {
    assert |Ordered(all, req)| == |Filter(all, req.category)|;
  }

  /** The whole of `getQuotes` short of the view increments. */
  function Feed(all: seq<Quote>, req: FeedRequest, draws: seq<nat>): (r: Result<FeedResponse, FeedError>)
    ensures r.Err? <==>
      if ParseSortBy(req.sortBy) == Random then LimitOf(req) < 0 else SkipOf(req) < 0
  {
    if ParseSortBy(req.sortBy) == Random then
      if LimitOf(req) < 0 then Err(SampleSizeRejected)
      else Ok(Sampled(Sample(Filter(all, req.category), LimitOf(req), draws)))
    else if SkipOf(req) < 0 then Err(SkipRejected)
    else Ok(Listing(all, req))
  }

  /**
   * A `sortBy` other than `popular` and `random`, missing included, gives the
   * response of `latest`: the default branch of the switch sorts like the
   * `latest` case.
   */
  lemma UnknownSortIsLatest(all: seq<Quote>, req: FeedRequest, draws: seq<nat>)
    requires req.sortBy != Some("popular") && req.sortBy != Some("random")
    ensures Feed(all, req, draws) == Feed(all, req.(sortBy := Some("latest")), draws)
    ensures Feed(all, req, draws) == Feed(all, req.(sortBy := None), draws)
  {
  }

  lemma {:induction false} InsertDistinct(x: Quote, s: seq<Quote>, k: SortKey)
    requires DistinctIds(s) && forall q :: q in s ==> q.id != x.id
    ensures DistinctIds(Insert(x, s, k))
  {
    if s == [] || Key(x, k) >= Key(s[0], k) {
      DistinctCons(x, s);
    } else {
      DistinctTail(s);
      InsertDistinct(x, s[1..], k);
      var rest := Insert(x, s[1..], k);
      InsertMultiset(x, s[1..], k);
      forall q | q in rest ensures q.id != s[0].id {
        assert q in multiset(rest);
      }
      DistinctCons(s[0], rest);
    }
  }

  /** Sorting keeps ids distinct. */
  lemma {:induction false} SortDistinct(s: seq<Quote>, k: SortKey)
    requires DistinctIds(s)
    ensures DistinctIds(SortDesc(s, k))
  {
    if s != [] {
      DistinctTail(s);
      SortDistinct(s[1..], k);
      var sorted := SortDesc(s[1..], k);
      forall q | q in sorted ensures q.id != s[0].id {
        assert q in multiset(sorted);
      }
      InsertDistinct(s[0], sorted, k);
    }
  }

  lemma RemoveIndexDistinct(pool: seq<Quote>, i: nat)
    requires i < |pool| && DistinctIds(pool)
    ensures DistinctIds(pool[..i] + pool[i + 1..])
    ensures forall q :: q in pool[..i] + pool[i + 1..] ==> q.id != pool[i].id
  {
    var rest := pool[..i] + pool[i + 1..];
    assert forall a :: 0 <= a < |rest| ==> rest[a] == pool[if a < i then a else a + 1];
  }

  lemma SubMultisetAvoids(t: seq<Quote>, s: seq<Quote>, x: Quote)
    requires multiset(t) <= multiset(s)
    requires forall q :: q in s ==> q.id != x.id
    ensures forall q :: q in t ==> q.id != x.id
  {
    forall q | q in t ensures q.id != x.id {
      assert q in multiset(t);
    }
  }

  /** A sample of distinct documents is itself distinct: `$sample` never returns a document twice. */
  lemma {:induction false} SampleDistinct(pool: seq<Quote>, size: nat, draws: seq<nat>)
    requires DistinctIds(pool)
    ensures DistinctIds(Sample(pool, size, draws))
    decreases size
  {
    if size != 0 && pool != [] {
      var i := Pick(draws, |pool|);
      var rest := pool[..i] + pool[i + 1..];
      RemoveIndexDistinct(pool, i);
      SampleDistinct(rest, size - 1, NextDraws(draws));
      var tail := Sample(rest, size - 1, NextDraws(draws));
      SubMultisetAvoids(tail, rest, pool[i]);
      DistinctCons(pool[i], tail);
    }
  }

  lemma SliceProperties(s: seq<Quote>, lo: nat, hi: nat, k: SortKey)
    requires lo <= hi <= |s|
    ensures SortedDesc(s, k) ==> SortedDesc(s[lo..hi], k)
    ensures DistinctIds(s) ==> DistinctIds(s[lo..hi])
    ensures forall q :: q in s[lo..hi] ==> q in s
  {
    assert forall i :: 0 <= i < hi - lo ==> s[lo..hi][i] == s[lo + i];
  }

  lemma OrderedMembers(all: seq<Quote>, req: FeedRequest)
    ensures forall q :: q in Ordered(all, req) ==> q in all && Matches(q, req.category)
    ensures |Ordered(all, req)| == |Filter(all, req.category)|
  {
    var o := Ordered(all, req);
    forall q | q in o ensures q in all && Matches(q, req.category) {
      assert q in multiset(o);
    }
  }

  /**
   * The non-random listing: the [skip, skip + limit) slice of the matching
   * documents sorted by the requested key, with the number of matches and
   * the number of pages of that size.
   */
  lemma FeedPagedWindow(all: seq<Quote>, req: FeedRequest, draws: seq<nat>)
    requires Feed(all, req, draws).Ok? && ParseSortBy(req.sortBy) != Random
    ensures var resp := Feed(all, req, draws).value;
      var total := |Filter(all, req.category)|;
      && resp.Paged?
      && SkipOf(req) >= 0
      && resp.total == total
      && resp.page == PageOf(req)
      && resp.pages == CeilDiv(total, LimitOf(req))
      && resp.Count() <= Abs(LimitOf(req))
      && resp.data == (if SkipOf(req) <= total
                       then Ordered(all, req)[SkipOf(req)..Min(SkipOf(req) + Abs(LimitOf(req)), total)]
                       else [])
  {
    LimitNonZero(req);
    assert Feed(all, req, draws) == Ok(Listing(all, req));
  }

  /**
   * What the listing holds: only active documents matching the category,
   * ordered by likes for `popular` and by creation time otherwise, each at
   * most once.
   */
  lemma FeedPagedOrder(all: seq<Quote>, req: FeedRequest, draws: seq<nat>)
    requires Feed(all, req, draws).Ok? && ParseSortBy(req.sortBy) != Random
    ensures var resp := Feed(all, req, draws).value;
      && resp.Paged?
      && SortedDesc(resp.data, SortKeyOf(ParseSortBy(req.sortBy)))
      && (forall q :: q in resp.data ==> q in all && Matches(q, req.category))
      && (DistinctIds(all) ==> DistinctIds(resp.data))
  {
    FeedPagedWindow(all, req, draws);
    var o := Ordered(all, req);
    var total := |Filter(all, req.category)|;
    OrderedMembers(all, req);
    var skip := SkipOf(req);
    if DistinctIds(all) {
      FilterDistinct(all, req.category);
      SortDistinct(Filter(all, req.category), SortKeyOf(ParseSortBy(req.sortBy)));
    }
    if skip <= total {
      SliceProperties(o, skip, Min(skip + Abs(LimitOf(req)), total), SortKeyOf(ParseSortBy(req.sortBy)));
    }
  }

  /**
   * The random branch: at most `limit` distinct matching documents, no
   * total or page count, and the page number plays no part.
   */
  lemma FeedSampledContract(all: seq<Quote>, req: FeedRequest, draws: seq<nat>)
    requires Feed(all, req, draws).Ok? && ParseSortBy(req.sortBy) == Random
    ensures var resp := Feed(all, req, draws).value;
      && resp.Sampled?
      && LimitOf(req) > 0
      && resp.Count() == Min(LimitOf(req), |Filter(all, req.category)|)
      && (forall q :: q in resp.data ==> q in all && Matches(q, req.category))
      && (DistinctIds(all) ==> DistinctIds(resp.data))
    ensures forall p :: Feed(all, req.(page := p), draws) == Feed(all, req, draws)
  {
    LimitNonZero(req);
    var matches := Filter(all, req.category);
    var data := Sample(matches, LimitOf(req), draws);
    forall q | q in data ensures q in all && Matches(q, req.category) {
      assert q in multiset(data);
    }
    if DistinctIds(all) {
      FilterDistinct(all, req.category);
      SampleDistinct(matches, LimitOf(req), draws);
    }
  }

  lemma MulMonotone(a: int, b: int, c: nat)
    requires a <= b
    ensures a * c <= b * c
  {
  }

  /** Position i of the ordered matches lies on page i / limit + 1, within the page count. */
  lemma PageArithmetic(i: nat, limit: int, total: nat)
    requires 0 < limit && i < total
    ensures var skip := (i / limit + 1 - 1) * limit;
      && 0 <= skip <= i < skip + limit
      && i - skip == i % limit
      && 1 <= i / limit + 1 <= CeilDiv(total, limit)
  {
    var skip := (i / limit) * limit;
    assert i == skip + i % limit;
    var pages := CeilDiv(total, limit);
    CeilDivIsCeiling(total, limit);
    if pages <= i / limit {
      MulMonotone(pages, i / limit, limit);
      assert false;
    }
  }

  /**
   * Paging covers the ordered matches: with a positive limit, the match at
   * position i appears on page i / limit + 1 at offset i % limit, and that
   * page is within the reported page count.
   */
  lemma PageCoverage(all: seq<Quote>, req: FeedRequest, draws: seq<nat>, i: nat)
    requires ParseSortBy(req.sortBy) != Random && LimitOf(req) > 0
    requires i < |Filter(all, req.category)|
    ensures var limit := LimitOf(req);
      var r := Feed(all, req.(page := Some(i / limit + 1)), draws);
      && r.Ok?
      && i % limit < r.value.Count()
      && r.value.data[i % limit] == Ordered(all, req)[i]
      && 1 <= i / limit + 1 <= r.value.pages
  {
    var limit := LimitOf(req);
    var total := |Filter(all, req.category)|;
    var req' := req.(page := Some(i / limit + 1));
    PageArithmetic(i, limit, total);
    assert PageOf(req') == i / limit + 1 && LimitOf(req') == limit;
    assert SkipOf(req') == (i / limit + 1 - 1) * limit;
    assert Ordered(all, req') == Ordered(all, req);
    WindowCovers(all, req', draws, i);
  }

  /** A listing whose window spans position i holds the i-th ordered match at offset i - skip. */
  lemma WindowCovers(all: seq<Quote>, req: FeedRequest, draws: seq<nat>, i: nat)
    requires ParseSortBy(req.sortBy) != Random && LimitOf(req) > 0
    requires 0 <= SkipOf(req) <= i < SkipOf(req) + LimitOf(req)
    requires i < |Filter(all, req.category)|
    ensures var r := Feed(all, req, draws);
      && r.Ok?
      && i - SkipOf(req) < r.value.Count()
      && r.value.data[i - SkipOf(req)] == Ordered(all, req)[i]
      && r.value.pages == CeilDiv(|Filter(all, req.category)|, LimitOf(req))
  {
    FeedPagedWindow(all, req, draws);
  }
}
