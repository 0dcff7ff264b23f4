/**
 * The `getQuoteStats` aggregation (server/controllers/quoteController.js):
 * every quote of the collection, active or not, grouped by category with its
 * count, like and view sums and the average likes.
 */
module QuoteStats {
  import opened QuoteSchema

  /** One output document of the `$group` stage; `category` is its `_id`. */
  datatype CategoryStat = CategoryStat(category: Category, count: nat, totalLikes: int, totalViews: int, avgLikes: real)

  /** `$sum: 1` over the group of category `c`. */
  function CountIn(qs: seq<Quote>, c: Category): nat {
    if qs == [] then 0 else (if qs[0].category == c then 1 else 0) + CountIn(qs[1..], c)
  }

  /** `$sum: '$likes'` over the group of category `c`. */
  function LikesIn(qs: seq<Quote>, c: Category): int {
    if qs == [] then 0 else (if qs[0].category == c then qs[0].likes else 0) + LikesIn(qs[1..], c)
  }

  /** `$sum: '$views'` over the group of category `c`. */
  function ViewsIn(qs: seq<Quote>, c: Category): int {
    if qs == [] then 0 else (if qs[0].category == c then qs[0].views else 0) + ViewsIn(qs[1..], c)
  }

  /** The group document of a category that occurs; `$avg` is taken over exact reals. */
  function StatFor(qs: seq<Quote>, c: Category): (s: CategoryStat)
    requires CountIn(qs, c) > 0
    ensures s.category == c && s.count == CountIn(qs, c)
    ensures s.totalLikes == LikesIn(qs, c) && s.totalViews == ViewsIn(qs, c)
    ensures s.avgLikes == Average(s.totalLikes, s.count)
    ensures s.count > 0 && s.avgLikes * s.count as real == s.totalLikes as real
  {
    var n := CountIn(qs, c);
    var total := LikesIn(qs, c);
    AverageTimesCount(total, n);
    CategoryStat(c, n, total, ViewsIn(qs, c), Average(total, n))
  }

  /** `$avg` of a group of `n` values summing to `total`, over exact reals. */
  function Average(total: int, n: nat): real
    requires n > 0
  {
    total as real / n as real
  }

  lemma AverageTimesCount(total: int, n: nat)
    requires n > 0
    ensures Average(total, n) * n as real == total as real
  {
  }

  /** The groups of the categories in `cs` that occur in `qs`. */
  function StatsOver(qs: seq<Quote>, cs: seq<Category>): seq<CategoryStat> {
    if cs == [] then []
    else (if CountIn(qs, cs[0]) > 0 then [StatFor(qs, cs[0])] else []) + StatsOver(qs, cs[1..])
  }

  /**
   * The aggregation's output. The store leaves the order of the groups
   * unspecified; here they follow the declaration order of the categories.
   */
  function Stats(qs: seq<Quote>): seq<CategoryStat> {
    StatsOver(qs, Categories)
  }

  lemma {:induction false} CountInPositive(qs: seq<Quote>, c: Category)
    ensures CountIn(qs, c) > 0 <==> exists i :: 0 <= i < |qs| && qs[i].category == c
  {
    if qs != [] {
      CountInPositive(qs[1..], c);
      if qs[0].category != c && CountIn(qs, c) == 0 {
        forall i | 0 <= i < |qs| ensures qs[i].category != c {
          if i > 0 { assert qs[i] == qs[1..][i - 1]; }
        }
      }
      if CountIn(qs[1..], c) > 0 {
        var i :| 0 <= i < |qs[1..]| && qs[1..][i].category == c;
        assert qs[i + 1].category == c;
      }
    }
  }

  lemma {:induction false} StatsOverMembers(qs: seq<Quote>, cs: seq<Category>, s: CategoryStat)
    requires s in StatsOver(qs, cs)
    ensures s.category in cs && CountIn(qs, s.category) > 0 && s == StatFor(qs, s.category)
  {
    if cs != [] && !(CountIn(qs, cs[0]) > 0 && s == StatFor(qs, cs[0])) {
      StatsOverMembers(qs, cs[1..], s);
    }
  }

  lemma {:induction false} StatsOverComplete(qs: seq<Quote>, cs: seq<Category>, c: Category)
    requires c in cs && CountIn(qs, c) > 0
    ensures StatFor(qs, c) in StatsOver(qs, cs)
  {
    if cs[0] != c {
      StatsOverComplete(qs, cs[1..], c);
    }
  }

  /**
   * Each group is exact: its count, like sum and view sum are those of the
   * quotes of its category, and its average is the like sum over the count.
   */
  lemma StatsSound(qs: seq<Quote>, s: CategoryStat)
    requires s in Stats(qs)
    ensures s.count == CountIn(qs, s.category) > 0
    ensures s.totalLikes == LikesIn(qs, s.category) && s.totalViews == ViewsIn(qs, s.category)
    ensures s.avgLikes == Average(s.totalLikes, s.count)
  {
    StatsOverMembers(qs, Categories, s);
  }

  /** Average times count gives back the group's like sum. */
  lemma StatsAverageExact(qs: seq<Quote>, s: CategoryStat)
    requires s in Stats(qs)
    ensures s.count > 0 && s.avgLikes * s.count as real == s.totalLikes as real
  {
    StatsSound(qs, s);
    AverageTimesCount(s.totalLikes, s.count);
  }

  /** A category has a group exactly when some quote, active or not, belongs to it. */
  lemma StatsComplete(qs: seq<Quote>, c: Category)
    ensures (exists s :: s in Stats(qs) && s.category == c) <==> (exists i :: 0 <= i < |qs| && qs[i].category == c)
  {
    CountInPositive(qs, c);
    if CountIn(qs, c) > 0 {
      assert c in Categories by { assert c == Categories[0] || c == Categories[1] || c == Categories[2] || c == Categories[3] || c == Categories[4]; }
      StatsOverComplete(qs, Categories, c);
    }
    if exists s :: s in Stats(qs) && s.category == c {
      var s :| s in Stats(qs) && s.category == c;
      StatsOverMembers(qs, Categories, s);
    }
  }

  /** The grouping reads only category, likes and views: `isActive` in particular plays no part. */
  lemma {:induction false} StatsIgnoreOtherFields(a: seq<Quote>, b: seq<Quote>)
    requires |a| == |b|
    requires forall i :: 0 <= i < |a| ==> a[i].category == b[i].category && a[i].likes == b[i].likes && a[i].views == b[i].views
    ensures Stats(a) == Stats(b)
  {
    forall c ensures CountIn(a, c) == CountIn(b, c) && LikesIn(a, c) == LikesIn(b, c) && ViewsIn(a, c) == ViewsIn(b, c) {
      GroupSumsAgree(a, b, c);
    }
    assert forall c :: StatFor.requires(a, c) ==> StatFor(a, c) == StatFor(b, c);
    StatsOverAgree(a, b, Categories);
  }

  lemma {:induction false} GroupSumsAgree(a: seq<Quote>, b: seq<Quote>, c: Category)
    requires |a| == |b|
    requires forall i :: 0 <= i < |a| ==> a[i].category == b[i].category && a[i].likes == b[i].likes && a[i].views == b[i].views
    ensures CountIn(a, c) == CountIn(b, c) && LikesIn(a, c) == LikesIn(b, c) && ViewsIn(a, c) == ViewsIn(b, c)
  {
    if a != [] {
      assert forall i :: 0 <= i < |a[1..]| ==> a[1..][i] == a[i + 1] && b[1..][i] == b[i + 1];
      GroupSumsAgree(a[1..], b[1..], c);
    }
  }

  lemma {:induction false} StatsOverAgree(a: seq<Quote>, b: seq<Quote>, cs: seq<Category>)
    requires forall c :: CountIn(a, c) == CountIn(b, c) && LikesIn(a, c) == LikesIn(b, c) && ViewsIn(a, c) == ViewsIn(b, c)
    ensures StatsOver(a, cs) == StatsOver(b, cs)
  {
    if cs != [] {
      StatsOverAgree(a, b, cs[1..]);
    }
  }

  function SumCounts(stats: seq<CategoryStat>): nat {
    if stats == [] then 0 else stats[0].count + SumCounts(stats[1..])
  }

  function CountAcross(qs: seq<Quote>, cs: seq<Category>): nat {
    if cs == [] then 0 else CountIn(qs, cs[0]) + CountAcross(qs, cs[1..])
  }

  lemma {:induction false} SumCountsAppend(a: seq<CategoryStat>, b: seq<CategoryStat>)
    ensures SumCounts(a + b) == SumCounts(a) + SumCounts(b)
  {
    if a == [] {
      assert a + b == b;
    } else {
      assert (a + b)[1..] == a[1..] + b;
      SumCountsAppend(a[1..], b);
    }
  }

  lemma {:induction false} StatsOverCounts(qs: seq<Quote>, cs: seq<Category>)
    ensures SumCounts(StatsOver(qs, cs)) == CountAcross(qs, cs)
  {
    if cs != [] {
      StatsOverCounts(qs, cs[1..]);
      var head := if CountIn(qs, cs[0]) > 0 then [StatFor(qs, cs[0])] else [];
      SumCountsAppend(head, StatsOver(qs, cs[1..]));
    }
  }

  /** The group sums of a collection headed by `q`. */
  lemma GroupCons(q: Quote, qs: seq<Quote>, c: Category)
    ensures CountIn([q] + qs, c) == (if q.category == c then 1 else 0) + CountIn(qs, c)
    ensures LikesIn([q] + qs, c) == (if q.category == c then q.likes else 0) + LikesIn(qs, c)
  {
    assert ([q] + qs)[1..] == qs;
  }

  lemma {:induction false} CountAcrossSplit(qs: seq<Quote>, cs: seq<Category>)
    requires qs != []
    ensures CountAcross(qs, cs) == CountAcross([qs[0]], cs) + CountAcross(qs[1..], cs)
  {
    if cs != [] {
      CountAcrossSplit(qs, cs[1..]);
      assert qs == [qs[0]] + qs[1..];
      GroupCons(qs[0], qs[1..], cs[0]);
      GroupCons(qs[0], [], cs[0]);
      assert [qs[0]] + [] == [qs[0]];
    }
  }

  lemma {:induction false} CountAcrossOne(q: Quote, cs: seq<Category>)
    ensures CountAcross([q], cs) == multiset(cs)[q.category]
  {
    if cs != [] {
      CountAcrossOne(q, cs[1..]);
      GroupCons(q, [], cs[0]);
      assert [q] + [] == [q];
      assert cs == [cs[0]] + cs[1..];
    }
  }

  /** Each category is listed once in the enumeration. */
  lemma CategoriesOnce(c: Category)
    ensures multiset(Categories)[c] == 1
  {
    assert multiset(Categories) == multiset{Fiction, NonFiction, Poetry, Biography, Other};
  }

  lemma StatsOverCons(qs: seq<Quote>, c: Category, cs: seq<Category>)
    ensures StatsOver(qs, [c] + cs) == (if CountIn(qs, c) > 0 then [StatFor(qs, c)] else []) + StatsOver(qs, cs)
  {
    assert ([c] + cs)[1..] == cs;
  }

  lemma {:induction false} CountAcrossNone(cs: seq<Category>)
    ensures CountAcross([], cs) == 0
  {
    if cs != [] {
      CountAcrossNone(cs[1..]);
    }
  }

  lemma {:induction false} CountAcrossAll(qs: seq<Quote>)
    ensures CountAcross(qs, Categories) == |qs|
  {
    if qs != [] {
      CountAcrossSplit(qs, Categories);
      CountAcrossAll(qs[1..]);
      CountAcrossOne(qs[0], Categories);
      CategoriesOnce(qs[0].category);
    } else {
      CountAcrossNone(Categories);
    }
  }

  /** The groups partition the collection: their counts add up to the number of quotes. */
  lemma StatsPartition(qs: seq<Quote>)
    ensures SumCounts(Stats(qs)) == |qs|
  {
    StatsOverCounts(qs, Categories);
    CountAcrossAll(qs);
  }

  /**
   * The worked example: two fiction quotes with 3 and 5 likes and one poetry
   * quote with none give fiction {2, 8, avg 4} and poetry {1, 0, avg 0}.
   */
  lemma StatsExample(f1: Quote, f2: Quote, p: Quote)
    requires f1.category == Fiction && f1.likes == 3
    requires f2.category == Fiction && f2.likes == 5
    requires p.category == Poetry && p.likes == 0
    ensures var stats := Stats([f1, f2, p]);
      |stats| == 2
      && stats[0].category == Fiction && stats[0].count == 2 && stats[0].totalLikes == 8 && stats[0].avgLikes == 4.0
      && stats[1].category == Poetry && stats[1].count == 1 && stats[1].totalLikes == 0 && stats[1].avgLikes == 0.0
  {
    var qs := [f1, f2, p];
    var t1 := [f2, p];
    var t2 := [p];
    assert qs[1..] == t1 && t1[1..] == t2 && t2[1..] == [];
    assert CountIn(t2, Fiction) == 0 && CountIn(t1, Fiction) == 1 && CountIn(qs, Fiction) == 2;
    assert LikesIn(t2, Fiction) == 0 && LikesIn(t1, Fiction) == 5 && LikesIn(qs, Fiction) == 8;
    assert CountIn(t2, Poetry) == 1 && CountIn(t1, Poetry) == 1 && CountIn(qs, Poetry) == 1;
    assert LikesIn(t2, Poetry) == 0 && LikesIn(t1, Poetry) == 0 && LikesIn(qs, Poetry) == 0;
    assert CountIn(t2, NonFiction) == 0 && CountIn(t1, NonFiction) == 0 && CountIn(qs, NonFiction) == 0;
    assert CountIn(t2, Biography) == 0 && CountIn(t1, Biography) == 0 && CountIn(qs, Biography) == 0;
    assert CountIn(t2, Other) == 0 && CountIn(t1, Other) == 0 && CountIn(qs, Other) == 0;
    var c4 := [Other];
    var c3 := [Biography] + c4;
    var c2 := [Poetry] + c3;
    var c1 := [NonFiction] + c2;
    assert Categories == [Fiction] + c1;
    assert c4 == [Other] + [];
    StatsOverCons(qs, Other, []);
    StatsOverCons(qs, Biography, c4);
    StatsOverCons(qs, Poetry, c3);
    StatsOverCons(qs, NonFiction, c2);
    StatsOverCons(qs, Fiction, c1);
  }
}
