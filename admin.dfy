/**
 * The admin dashboard (client/src/pages/Admin.jsx): the guard that turns
 * away anyone who is not an administrator, and the four figures the page
 * shows above the quote list.
 */
module Admin {
  import opened Basics
  import opened ClientData
  import opened Auth

  datatype View = AccessDenied | Dashboard

  const AdminRole: string := "admin"

  /** `!user || user.role !== 'admin'` turns the visitor away. */
  function Guard(user: Option<User>): (v: View)
    ensures v == Dashboard <==> user.Some? && user.value.role == AdminRole
  {
    if user.None? || user.value.role != AdminRole then AccessDenied else Dashboard
  }

  /** A signed-out visitor never sees the dashboard, whatever dispatches led there. */
  lemma SignedOutDenied(s: AuthState, actions: seq<Action>)
    ensures Guard(Run(s, actions + [Logout]).user) == AccessDenied
  {
    EndsWithLogout(s, actions);
  }

  /**
   * In any session that starts from the initial state, whoever reaches the
   * dashboard is authenticated.
   */
  lemma DashboardNeedsSignIn(actions: seq<Action>)
    ensures var s := Run(InitialState, actions);
      Guard(s.user) == Dashboard ==> s.isAuthenticated
  {
    RunPreservesCoherent(InitialState, actions);
  }

  /** After a login the dashboard opens exactly for an account whose role is `admin`. */
  lemma DashboardAfterLogin(s: AuthState, u: User)
    ensures Guard(Reduce(s, Login(Some(u))).user) == Dashboard <==> u.role == AdminRole
  {
  }

  /** `quote.likes || 0`: a missing like count reads as zero. */
  function LikesOf(q: ClientQuote): int {
    q.likes.GetOr(0)
  }

  /** `quotesData?.total || quotes.length`: a missing or zero total falls back to the list length. */
  function TotalQuotes(data: Option<Payload>): int {
    if data.Some? && data.value.Listing? && data.value.total.Some? && data.value.total.value != 0
    then data.value.total.value
    else |Quotes(data)|
  }

  /** A reported total of 0 is falsy and is replaced by the number of quotes in the list. */
  lemma ZeroTotalFallsBack(qs: seq<ClientQuote>)
    ensures TotalQuotes(Some(Listing(Some(qs), Some(0)))) == |qs|
    ensures TotalQuotes(Some(Listing(Some(qs), None))) == |qs|
    ensures TotalQuotes(None) == 0
  {
  }

  /**
   * Behind the hook, the figure is the server's non-zero total when the
   * body carried one with its list, and otherwise the number of quotes
   * the body held in either shape.
   */
  lemma TotalQuotesAfterHook(p: Payload)
    ensures TotalQuotes(Some(Normalise(p))) ==
      if HasDataArray(p) && p.total.Some? && p.total.value != 0 then p.total.value
      else |CarouselQuotes(p)|
  {
  }

  /** `Array.isArray(quotesData?.data) ? quotesData.data : []`, before the data has arrived as well. */
  function Quotes(data: Option<Payload>): seq<ClientQuote> {
    if data.Some? then AdminQuotes(data.value) else []
  }

  /** `quotes.reduce((sum, q) => sum + (q.likes || 0), 0)`; without negative counts the sum is not negative. */
  function TotalLikes(qs: seq<ClientQuote>): (r: int)
    ensures (forall i :: 0 <= i < |qs| ==> LikesOf(qs[i]) >= 0) ==> r >= 0
    decreases |qs|
  {
    if qs == [] then 0
    else
      var init := qs[..|qs| - 1];
      assert forall i :: 0 <= i < |init| ==> init[i] == qs[i];
      TotalLikes(init) + LikesOf(qs[|qs| - 1])
  }

  function Max(a: int, b: int): int {
    if a >= b then a else b
  }

  /** `Math.max(...quotes.map(q => q.likes || 0))`, and 0 for an empty list. */
  function MostLiked(qs: seq<ClientQuote>): (m: int)
    ensures qs != [] ==> exists i :: 0 <= i < |qs| && m == LikesOf(qs[i])
    ensures forall i :: 0 <= i < |qs| ==> LikesOf(qs[i]) <= m
    ensures qs == [] ==> m == 0
    decreases |qs|
  {
    if qs == [] then 0
    else if |qs| == 1 then LikesOf(qs[0])
    else
      var rest := MostLiked(qs[1..]);
      assert forall i :: 1 <= i < |qs| ==> qs[i] == qs[1..][i - 1];
      Max(LikesOf(qs[0]), rest)
  }

  /** A category counts when it is present and not the empty string (`filter(Boolean)`). */
  predicate Named(q: ClientQuote) {
    q.category.Some? && q.category.value != ""
  }

  /** `new Set(quotes.map(q => q.category).filter(Boolean))`. */
  function CategorySet(qs: seq<ClientQuote>): set<string>
    decreases |qs|
  {
    if qs == [] then {}
    else (if Named(qs[0]) then {qs[0].category.value} else {}) + CategorySet(qs[1..])
  }

  /** The set's size. */
  function CategoriesCount(qs: seq<ClientQuote>): nat {
    |CategorySet(qs)|
  }

  /** The set holds exactly the non-empty categories that occur in the list. */
  lemma {:induction false} CategorySetMembers(qs: seq<ClientQuote>, c: string)
    ensures c in CategorySet(qs) <==> exists i :: 0 <= i < |qs| && Named(qs[i]) && qs[i].category.value == c
    decreases |qs|
  {
    if qs != [] {
      CategorySetMembers(qs[1..], c);
      assert forall i :: 1 <= i < |qs| ==> qs[i] == qs[1..][i - 1];
      if c in CategorySet(qs[1..]) {
        var j :| 0 <= j < |qs[1..]| && Named(qs[1..][j]) && qs[1..][j].category.value == c;
        assert qs[j + 1] == qs[1..][j];
      }
    }
  }

  /** There are never more distinct categories than quotes. */
  lemma {:induction false} CategoriesAtMostQuotes(qs: seq<ClientQuote>)
    ensures CategoriesCount(qs) <= |qs|
    decreases |qs|
  {
    if qs != [] {
      CategoriesAtMostQuotes(qs[1..]);
      var head: set<string> := if Named(qs[0]) then {qs[0].category.value} else {};
      assert |head + CategorySet(qs[1..])| <= |head| + |CategorySet(qs[1..])|;
    }
  }

  /** The sum of the likes is at most the list length times the largest. */
  lemma TotalLikesBound(qs: seq<ClientQuote>)
    ensures TotalLikes(qs) <= |qs| * MostLiked(qs)
  {
    SumBelow(qs, MostLiked(qs));
  }

  /** A bound on every count bounds the sum by the length times the bound. */
  lemma {:induction false} SumBelow(qs: seq<ClientQuote>, m: int)
    requires forall i :: 0 <= i < |qs| ==> LikesOf(qs[i]) <= m
    ensures TotalLikes(qs) <= |qs| * m
    decreases |qs|
  {
    if qs != [] {
      var init := qs[..|qs| - 1];
      assert forall i :: 0 <= i < |init| ==> init[i] == qs[i];
      SumBelow(init, m);
      assert |qs| * m == |init| * m + m;
    }
  }

  /** When no quote has a negative count the sum is at least the largest single count. */
  lemma {:induction false} TotalLikesAtLeastMost(qs: seq<ClientQuote>)
    requires forall i :: 0 <= i < |qs| ==> LikesOf(qs[i]) >= 0
    ensures MostLiked(qs) <= TotalLikes(qs)
    decreases |qs|
  {
    if qs != [] {
      var init := qs[..|qs| - 1];
      assert forall i :: 0 <= i < |init| ==> init[i] == qs[i];
      TotalLikesAtLeastMost(init);
      var j :| 0 <= j < |qs| && MostLiked(qs) == LikesOf(qs[j]);
      if j < |init| {
        assert init[j] == qs[j];
      }
    }
  }

  /** The total of a list built by appending one quote grows by that quote's count. */
  lemma TotalLikesSnoc(qs: seq<ClientQuote>, q: ClientQuote)
    ensures TotalLikes(qs + [q]) == TotalLikes(qs) + LikesOf(q)
  {
    assert (qs + [q])[..|qs|] == qs;
  }
}
