/**
 * The iteration order of a book side. Bid levels are visited from the
 * highest price down, ask levels from the lowest price up; in both cases the
 * first level visited is the best one for a counterparty.
 */
module PriceOrder {
  import opened Types

  /** `p` is a strictly better price than `q` on side `n`. */
  predicate Better(n: OrderNature, p: Price, q: Price) {
    match n
    case Bid => p > q
    case Ask => p < q
  }

  /** `b` is the best price of `s` on side `n`. */
  ghost predicate IsBest(n: OrderNature, b: Price, s: set<Price>) {
    b in s && forall q :: q in s && q != b ==> Better(n, b, q)
  }

  /** Every non-empty set of prices has a best price. */
  lemma {:induction false} BestExists(n: OrderNature, s: set<Price>)
    requires s != {}
    ensures exists b :: IsBest(n, b, s)
    decreases s
  {
    var x :| x in s;
    if s == {x} {
      assert IsBest(n, x, s);
    } else {
      BestExists(n, s - {x});
      var b :| IsBest(n, b, s - {x});
      if Better(n, b, x) {
        assert IsBest(n, b, s);
      } else {
        assert b != x && Better(n, x, b);
        forall q | q in s && q != x ensures Better(n, x, q) {
          if q != b {
            assert q in s - {x} && Better(n, b, q);
          }
        }
        assert IsBest(n, x, s);
      }
    }
  }

  /** The best price is unique. */
  lemma BestUnique(n: OrderNature, b: Price, c: Price, s: set<Price>)
    requires IsBest(n, b, s) && IsBest(n, c, s)
    ensures b == c
  {
  }

  ghost function Best(n: OrderNature, s: set<Price>): (b: Price)
    requires s != {}
    ensures IsBest(n, b, s)
  {
    BestExists(n, s);
    var b :| IsBest(n, b, s); b
  }

  /** Each price in `r` is strictly better than every later one. */
  ghost predicate BestFirstOrdered(n: OrderNature, r: seq<Price>) {
    forall j, k :: 0 <= j < k < |r| ==> Better(n, r[j], r[k])
  }

  /** The order in which side `n` visits the price levels `s`. */
  ghost function BestFirst(n: OrderNature, s: set<Price>): (r: seq<Price>)
    ensures |r| == |s|
    ensures forall p :: p in r <==> p in s
    ensures BestFirstOrdered(n, r)
    ensures s != {} ==> r[0] == Best(n, s)
    decreases s
  {
    if s == {} then []
    else
      var b := Best(n, s);
      var rest := BestFirst(n, s - {b});
      ConsOrdered(n, b, rest);
      [b] + rest
  }

  /** Putting a price better than all of `rest` in front keeps the arrangement best-first. */
  lemma ConsOrdered(n: OrderNature, b: Price, rest: seq<Price>)
    requires BestFirstOrdered(n, rest) && forall k :: 0 <= k < |rest| ==> Better(n, b, rest[k])
    ensures BestFirstOrdered(n, [b] + rest)
  {
    var r := [b] + rest;
    forall j, k | 0 <= j < k < |r| ensures Better(n, r[j], r[k]) {
      assert r[k] == rest[k - 1];
      if j > 0 {
        assert r[j] == rest[j - 1];
      }
    }
  }

  /**
   * The iteration order is the only best-first arrangement of the levels:
   * any sequence holding exactly the prices of `s`, each better than all
   * later ones, is `BestFirst(n, s)`.
   */
  lemma {:induction false} BestFirstUnique(n: OrderNature, s: set<Price>, r: seq<Price>)
    requires forall p :: p in r <==> p in s
    requires BestFirstOrdered(n, r)
    ensures r == BestFirst(n, s)
    decreases |r|
  {
    if r == [] {
      assert s == {};
    } else {
      BestFirstTail(n, s, r);
      BestFirstUnique(n, s - {r[0]}, r[1..]);
      ConsBestFirst(n, s, r);
    }
  }

  /** A best price followed by the iteration order of the remaining prices is the iteration order. */
  lemma ConsBestFirst(n: OrderNature, s: set<Price>, r: seq<Price>)
    requires r != [] && IsBest(n, r[0], s) && r[1..] == BestFirst(n, s - {r[0]})
    ensures r == BestFirst(n, s)
  {
    BestUnique(n, r[0], Best(n, s), s);
    assert BestFirst(n, s) == [r[0]] + BestFirst(n, s - {r[0]});
    assert r == [r[0]] + r[1..];
  }

  /** The head of a best-first arrangement is the best price; its tail arranges the rest. */
  lemma BestFirstTail(n: OrderNature, s: set<Price>, r: seq<Price>)
    requires r != [] && (forall p :: p in r <==> p in s) && BestFirstOrdered(n, r)
    ensures IsBest(n, r[0], s)
    ensures forall p :: p in r[1..] <==> p in s - {r[0]}
    ensures BestFirstOrdered(n, r[1..])
  {
    assert r[0] in s;
    forall q | q in s && q != r[0] ensures Better(n, r[0], q) {
      var k :| 0 <= k < |r| && r[k] == q;
    }
    forall p | p in r[1..] ensures p in s - {r[0]} {
      var k :| 1 <= k < |r| && r[k] == p;
      assert Better(n, r[0], r[k]);
    }
    forall p | p in s - {r[0]} ensures p in r[1..] {
      var k :| 0 <= k < |r| && r[k] == p;
      assert r[1..][k - 1] == p;
    }
    forall j, k | 0 <= j < k < |r| - 1 ensures Better(n, r[1..][j], r[1..][k]) {
      assert r[1..][j] == r[j + 1] && r[1..][k] == r[k + 1];
    }
  }

  /** On the bid side, the iteration visits strictly decreasing prices and starts at the highest. */
  lemma BidsHighestFirst(s: set<Price>)
    requires s != {}
    ensures forall j, k :: 0 <= j < k < |BestFirst(Bid, s)| ==> BestFirst(Bid, s)[j] > BestFirst(Bid, s)[k]
    ensures forall p :: p in s ==> p <= BestFirst(Bid, s)[0]
  {
  }

  /** On the ask side, the iteration visits strictly increasing prices and starts at the lowest. */
  lemma AsksLowestFirst(s: set<Price>)
    requires s != {}
    ensures forall j, k :: 0 <= j < k < |BestFirst(Ask, s)| ==> BestFirst(Ask, s)[j] < BestFirst(Ask, s)[k]
    ensures forall p :: p in s ==> BestFirst(Ask, s)[0] <= p
  {
  }
}
