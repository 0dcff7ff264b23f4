/**
 * The Like document and its collection (server/models/Like.js): a like names
 * a user and a quote, both required, carries its timestamps, and the unique
 * index on (user, quote) allows at most one like per pair.
 */
module LikeSchema {
  import opened Basics
  import opened QuoteSchema

  /** Identity of an authenticated user, opaque to the store. */
  type UserId = nat

  /** The key of the unique index. */
  datatype LikeKey = LikeKey(user: UserId, quote: QuoteId)

  datatype Like = Like(user: UserId, quote: QuoteId, createdAt: int, updatedAt: int) {
    function Key(): LikeKey {
      LikeKey(user, quote)
    }
  }

  datatype LikeError = MissingUser | MissingQuote | DuplicateKey

  /** The unique index as a state invariant of the collection. */
  predicate UniquePairs(ledger: seq<Like>) {
    forall i, j :: 0 <= i < j < |ledger| ==> ledger[i].Key() != ledger[j].Key()
  }

  /** The (user, quote) pairs the collection holds. */
  function Pairs(ledger: seq<Like>): set<LikeKey> {
    set l | l in ledger :: l.Key()
  }

  /** The pairs that reference quote `q`. */
  function PairsFor(ledger: seq<Like>, q: QuoteId): set<LikeKey> {
    set k | k in Pairs(ledger) && k.quote == q
  }

  /** The number of like documents referencing quote `q`. */
  function CountFor(ledger: seq<Like>, q: QuoteId): (r: nat)
    ensures r <= |ledger|
    ensures r == 0 <==> forall l :: l in ledger ==> l.quote != q
  {
    if ledger == [] then 0
    else (if ledger[0].quote == q then 1 else 0) + CountFor(ledger[1..], q)
  }

  /**
   * `Like.create({user, quote})`: both references are required, and the
   * unique index rejects a second document for a pair already present,
   * leaving the collection unchanged.
   */
  function CreateLike(ledger: seq<Like>, user: Option<UserId>, quote: Option<QuoteId>, now: int)
    : (r: Result<seq<Like>, LikeError>)
    ensures r.Ok? <==> user.Some? && quote.Some? && LikeKey(user.value, quote.value) !in Pairs(ledger)
    ensures r.Err? ==> r.error == (if user.None? then MissingUser else if quote.None? then MissingQuote else DuplicateKey)
    ensures r.Ok? ==> r.value == ledger + [Like(user.value, quote.value, now, now)]
    ensures r.Ok? ==> Pairs(r.value) == Pairs(ledger) + {LikeKey(user.value, quote.value)}
    ensures r.Ok? && UniquePairs(ledger) ==> UniquePairs(r.value)
  {
    if user.None? then Err(MissingUser)
    else if quote.None? then Err(MissingQuote)
    else
      var like := Like(user.value, quote.value, now, now);
      if like.Key() in Pairs(ledger) then Err(DuplicateKey)
      else
        var r := ledger + [like];
        assert Pairs(r) == Pairs(ledger) + {like.Key()} by {
          assert forall l :: l in r <==> l in ledger || l == like;
        }
        assert forall i :: 0 <= i < |ledger| ==> ledger[i].Key() != like.Key() by {
          forall i | 0 <= i < |ledger| ensures ledger[i].Key() != like.Key() {
            assert ledger[i] in ledger;
          }
        }
        Ok(r)
  }

  /** `Like.findOne({user, quote})`: the position of the document for a pair, if any. */
  function FindLike(ledger: seq<Like>, key: LikeKey): (r: Option<nat>)
    ensures r.Some? <==> key in Pairs(ledger)
    ensures r.Some? ==> r.value < |ledger| && ledger[r.value].Key() == key
  {
    if ledger == [] then None
    else if ledger[0].Key() == key then Some(0)
    else
      var rest := FindLike(ledger[1..], key);
      assert Pairs(ledger) == {ledger[0].Key()} + Pairs(ledger[1..]) by {
        assert forall l :: l in ledger <==> l == ledger[0] || l in ledger[1..];
      }
      match rest
      case None => None
      case Some(i) => Some(i + 1)
  }

  /** `Like.findByIdAndDelete`: the collection without the document at position `i`. */
  function RemoveAt(ledger: seq<Like>, i: nat): seq<Like>
    requires i < |ledger|
  {
    ledger[..i] + ledger[i + 1..]
  }

  /** Under the unique index, deleting a document removes exactly its pair. */
  lemma RemoveAtPairs(ledger: seq<Like>, i: nat)
    requires i < |ledger| && UniquePairs(ledger)
    ensures Pairs(RemoveAt(ledger, i)) == Pairs(ledger) - {ledger[i].Key()}
    ensures UniquePairs(RemoveAt(ledger, i))
  {
    var r := RemoveAt(ledger, i);
    assert forall j :: 0 <= j < |r| ==> r[j] == ledger[if j < i then j else j + 1];
    forall k | k in Pairs(ledger) - {ledger[i].Key()} ensures k in Pairs(r) {
      var l :| l in ledger && l.Key() == k;
      var j :| 0 <= j < |ledger| && ledger[j] == l;
      assert j != i;
      assert r[if j < i then j else j - 1] == l;
    }
    forall k | k in Pairs(r) ensures k in Pairs(ledger) - {ledger[i].Key()} {
      var l :| l in r && l.Key() == k;
      var j :| 0 <= j < |r| && r[j] == l;
      assert ledger[if j < i then j else j + 1] == l;
    }
  }

  lemma {:induction false} CountAppend(a: seq<Like>, b: seq<Like>, q: QuoteId)
    ensures CountFor(a + b, q) == CountFor(a, q) + CountFor(b, q)
  {
    if a == [] {
      assert a + b == b;
    } else {
      assert (a + b)[1..] == a[1..] + b;
      CountAppend(a[1..], b, q);
    }
  }

  /** Deleting a document lowers the count of its quote by one and no other count. */
  lemma CountRemoveAt(ledger: seq<Like>, i: nat, q: QuoteId)
    requires i < |ledger|
    ensures CountFor(RemoveAt(ledger, i), q) == CountFor(ledger, q) - (if ledger[i].quote == q then 1 else 0)
  {
    assert ledger == ledger[..i] + ([ledger[i]] + ledger[i + 1..]);
    CountAppend(ledger[..i], [ledger[i]] + ledger[i + 1..], q);
    CountAppend([ledger[i]], ledger[i + 1..], q);
    CountAppend(ledger[..i], ledger[i + 1..], q);
  }

  /** Appending a document raises the count of its quote by one and no other count. */
  lemma CountAppendOne(ledger: seq<Like>, l: Like, q: QuoteId)
    ensures CountFor(ledger + [l], q) == CountFor(ledger, q) + (if l.quote == q then 1 else 0)
  {
    CountAppend(ledger, [l], q);
  }

  lemma PairsCons(ledger: seq<Like>)
    requires ledger != []
    ensures Pairs(ledger) == {ledger[0].Key()} + Pairs(ledger[1..])
  {
    assert forall l :: l in ledger <==> l == ledger[0] || l in ledger[1..];
  }

  lemma UniqueTail(ledger: seq<Like>)
    requires ledger != [] && UniquePairs(ledger)
    ensures UniquePairs(ledger[1..])
    ensures ledger[0].Key() !in Pairs(ledger[1..])
  {
    var rest := ledger[1..];
    forall i, j | 0 <= i < j < |rest| ensures rest[i].Key() != rest[j].Key() {
      assert rest[i] == ledger[i + 1] && rest[j] == ledger[j + 1];
    }
    forall l | l in rest ensures l.Key() != ledger[0].Key() {
      var j :| 0 <= j < |rest| && rest[j] == l;
      assert ledger[j + 1] == l;
    }
  }

  /**
   * Under the unique index the number of like documents for a quote is the
   * number of distinct users who like it.
   */
  lemma {:induction false} CountIsPairCount(ledger: seq<Like>, q: QuoteId)
    requires UniquePairs(ledger)
    ensures CountFor(ledger, q) == |PairsFor(ledger, q)|
  {
    if ledger == [] {
      assert PairsFor(ledger, q) == {};
    } else {
      UniqueTail(ledger);
      CountIsPairCount(ledger[1..], q);
      PairsForCons(ledger, q);
    }
  }

  lemma PairsForCons(ledger: seq<Like>, q: QuoteId)
    requires ledger != [] && UniquePairs(ledger)
    ensures |PairsFor(ledger, q)| == |PairsFor(ledger[1..], q)| + (if ledger[0].quote == q then 1 else 0)
  {
    var rest := ledger[1..];
    var k := ledger[0].Key();
    UniqueTail(ledger);
    PairsCons(ledger);
    if ledger[0].quote == q {
      assert PairsFor(ledger, q) == PairsFor(rest, q) + {k};
      assert k !in PairsFor(rest, q);
    } else {
      assert PairsFor(ledger, q) == PairsFor(rest, q);
    }
  }

  /** Uniqueness is on the pair only: one user may like two quotes, and two users one quote. */
  lemma UniquenessIsPerPair(u1: UserId, u2: UserId, q1: QuoteId, q2: QuoteId, now: int)
    requires u1 != u2 && q1 != q2
    ensures var ledger := [Like(u1, q1, now, now)];
      && CreateLike(ledger, Some(u1), Some(q2), now).Ok?
      && CreateLike(ledger, Some(u2), Some(q1), now).Ok?
      && CreateLike(ledger, Some(u1), Some(q1), now) == Err(DuplicateKey)
  {
    var ledger := [Like(u1, q1, now, now)];
    assert ledger[0] in ledger;
    assert Pairs(ledger) == {LikeKey(u1, q1)};
  }
}
