/**
 * One price level: a FIFO queue of order entries, oldest first. A cancelled
 * entry is set to amount zero and stays in its slot as a tombstone; leading
 * zero entries are dropped from the front, so a stored level never starts
 * with a tombstone.
 */
module Level {
  import opened Wrappers
  import opened Types

  /** Entries are in arrival order: order ids strictly increase from front to back. */
  ghost predicate ArrivalOrdered(q: seq<OrderEntry>) {
    forall j, k :: 0 <= j < k < |q| ==> q[j].orderId < q[k].orderId
  }

  /** Every entry carries an id issued before `next`. */
  ghost predicate IssuedBelow(q: seq<OrderEntry>, next: nat) {
    forall k :: 0 <= k < |q| ==> q[k].orderId < next
  }

  /** The invariant of a level stored in a book side. */
  ghost predicate WellFormed(q: seq<OrderEntry>, next: nat) {
    q != [] && q[0].amount > 0 && ArrivalOrdered(q) && IssuedBelow(q, next)
  }

  /** The live (non-tombstone) orders of a level, with their accounts. */
  ghost function Live(q: seq<OrderEntry>): set<(OrderId, Account)> {
    set e | e in q && e.amount > 0 :: (e.orderId, e.account)
  }

  /** The level with the amount of order `id` replaced by `a`, in place. */
  function SetAmount(q: seq<OrderEntry>, id: OrderId, a: Amount): seq<OrderEntry> {
    seq(|q|, k requires 0 <= k < |q| => if q[k].orderId == id then q[k].(amount := a) else q[k])
  }

  /** The level with its leading zero-amount entries removed. */
  function DropLeadingZeros(q: seq<OrderEntry>): (r: seq<OrderEntry>)
    ensures |r| <= |q| && r == q[|q| - |r|..]
    ensures forall k :: 0 <= k < |q| - |r| ==> q[k].amount == 0
    ensures r == [] || r[0].amount > 0
  {
    if q != [] && q[0].amount == 0 then DropLeadingZeros(q[1..]) else q
  }

  /** The level after order `id` is set to amount `a` and the front is cleaned up. */
  function Settle(q: seq<OrderEntry>, id: OrderId, a: Amount): seq<OrderEntry> {
    DropLeadingZeros(SetAmount(q, id, a))
  }

  /** The amount of the first entry of `q` with order id `id`, or zero if there is none. */
  function AmountIn(q: seq<OrderEntry>, id: OrderId): (a: Amount)
    ensures (forall k :: 0 <= k < |q| ==> q[k].orderId != id) ==> a == 0
  {
    if q == [] then 0 else if q[0].orderId == id then q[0].amount else AmountIn(q[1..], id)
  }

  /** The front of the queue: the oldest entry, which is live in a stored level. */
  function Oldest(q: seq<OrderEntry>): (r: Option<OrderEntry>)
    requires ArrivalOrdered(q) && (q == [] || q[0].amount > 0)
    ensures r.None? <==> q == []
    ensures r.Some? ==> r.value in q
    ensures r.Some? ==> r.value.amount > 0 && (r.value.orderId, r.value.account) in Live(q)
    ensures r.Some? ==> forall e :: e in q ==> r.value.orderId <= e.orderId
  {
    if q == [] then None else Some(q[0])
  }

  /** Locates the entry of order `id`: the first index holding it, or None when no entry does. */
  method FindEntry(q: seq<OrderEntry>, id: OrderId) returns (r: Option<nat>)
    ensures r.Some? ==> r.value < |q| && q[r.value].orderId == id
    ensures r.Some? ==> forall j :: 0 <= j < r.value ==> q[j].orderId != id
    ensures r.None? ==> forall j :: 0 <= j < |q| ==> q[j].orderId != id
  {
    var k := 0;
    while k < |q|
      invariant 0 <= k <= |q|
      invariant forall j :: 0 <= j < k ==> q[j].orderId != id
    {
      if q[k].orderId == id {
        return Some(k);
      }
      k := k + 1;
    }
    return None;
  }

  /** A live order of a level sits at some index of it. */
  lemma LiveIndex(q: seq<OrderEntry>, x: (OrderId, Account)) returns (k: nat)
    requires x in Live(q)
    ensures k < |q| && q[k].orderId == x.0 && q[k].account == x.1 && q[k].amount > 0
  {
    var e :| e in q && e.amount > 0 && x == (e.orderId, e.account);
    k :| 0 <= k < |q| && q[k] == e;
  }

  /** The entry at index `k`, when live, is one of the level's live orders. */
  lemma IndexLive(q: seq<OrderEntry>, k: nat)
    requires k < |q| && q[k].amount > 0
    ensures (q[k].orderId, q[k].account) in Live(q)
  {
    assert q[k] in q;
  }

  /** In an arrival-ordered level an order id names at most one entry. */
  lemma IdsUnique(q: seq<OrderEntry>, j: nat, k: nat)
    requires ArrivalOrdered(q) && j < |q| && k < |q|
    requires q[j].orderId == q[k].orderId
    ensures j == k
  {
  }

  /**
   * Appending a newer live entry puts it at the back, keeps the existing
   * entries in front of it unchanged and in the same order, and adds it to
   * the live orders.
   */
  lemma AppendWellFormed(q: seq<OrderEntry>, e: OrderEntry, next: nat)
    requires q == [] || WellFormed(q, next)
    requires e.amount > 0 && e.orderId < next
    requires forall k :: 0 <= k < |q| ==> q[k].orderId < e.orderId
    ensures WellFormed(q + [e], next)
    ensures (q + [e])[..|q|] == q && (q + [e])[|q|] == e
    ensures Live(q + [e]) == Live(q) + {(e.orderId, e.account)}
  {
    LiveAppend(q, e);
    var r := q + [e];
    forall j, k | 0 <= j < k < |r| ensures r[j].orderId < r[k].orderId {
      if k == |q| {
        assert r[j] == q[j];
      }
    }
  }

  /** Appending a live entry adds exactly that entry's order to the live set. */
  lemma LiveAppend(q: seq<OrderEntry>, e: OrderEntry)
    requires e.amount > 0
    ensures Live(q + [e]) == Live(q) + {(e.orderId, e.account)}
  {
    var r := q + [e];
    forall x | x in Live(r) ensures x in Live(q) + {(e.orderId, e.account)} {
      var f :| f in r && f.amount > 0 && x == (f.orderId, f.account);
      if f != e {
        assert f in q;
      }
    }
    forall x | x in Live(q) + {(e.orderId, e.account)} ensures x in Live(r) {
      if x != (e.orderId, e.account) {
        var f :| f in q && f.amount > 0 && x == (f.orderId, f.account);
        assert f in r;
      } else {
        assert e in r;
      }
    }
  }

  /** Dropping leading tombstones loses no live order. */
  lemma {:induction false} LiveDrop(q: seq<OrderEntry>)
    ensures Live(DropLeadingZeros(q)) == Live(q)
  {
    if q != [] && q[0].amount == 0 {
      LiveDrop(q[1..]);
      LiveTail(q);
    }
  }

  /** A tombstone at the front contributes nothing to the live set. */
  lemma LiveTail(q: seq<OrderEntry>)
    requires q != [] && q[0].amount == 0
    ensures Live(q) == Live(q[1..])
  {
    forall x | x in Live(q) ensures x in Live(q[1..]) {
      var k := LiveIndex(q, x);
      assert q[1..][k - 1] == q[k];
      IndexLive(q[1..], k - 1);
    }
    forall x | x in Live(q[1..]) ensures x in Live(q) {
      var k := LiveIndex(q[1..], x);
      assert q[k + 1] == q[1..][k];
      IndexLive(q, k + 1);
    }
  }

  lemma SetAmountAt(q: seq<OrderEntry>, k: nat, a: Amount)
    requires ArrivalOrdered(q) && k < |q|
    ensures SetAmount(q, q[k].orderId, a) == q[k := q[k].(amount := a)]
  {
  }

  /** Setting a live order's amount to `a` keeps it live exactly when `a` is positive. */
  lemma LiveSetAmount(q: seq<OrderEntry>, k: nat, a: Amount)
    requires ArrivalOrdered(q) && k < |q| && q[k].amount > 0
    ensures Live(SetAmount(q, q[k].orderId, a))
         == (Live(q) - {(q[k].orderId, q[k].account)}) + (if a > 0 then {(q[k].orderId, q[k].account)} else {})
  {
    var x0 := (q[k].orderId, q[k].account);
    var r := SetAmount(q, q[k].orderId, a);
    SetAmountAt(q, k, a);
    var rhs := (Live(q) - {x0}) + (if a > 0 then {x0} else {});
    forall x | x in Live(r) ensures x in rhs {
      var f :| f in r && f.amount > 0 && x == (f.orderId, f.account);
      var j :| 0 <= j < |r| && r[j] == f;
      if j != k {
        assert q[j] == f && f in q;
        assert f.orderId != q[k].orderId;
      }
    }
    forall x | x in rhs ensures x in Live(r) {
      if x == x0 {
        assert r[k] in r;
      } else {
        var f :| f in q && f.amount > 0 && x == (f.orderId, f.account);
        var j :| 0 <= j < |q| && q[j] == f;
        assert j != k;
        assert r[j] == f && f in r;
      }
    }
  }

  /** Dropping leading tombstones keeps arrival order and issued ids. */
  lemma DropKeepsOrder(s: seq<OrderEntry>, next: nat)
    requires ArrivalOrdered(s) && IssuedBelow(s, next)
    ensures ArrivalOrdered(DropLeadingZeros(s)) && IssuedBelow(DropLeadingZeros(s), next)
  {
    var r := DropLeadingZeros(s);
    SuffixKeepsOrder(s, |s| - |r|, next);
  }

  lemma SuffixKeepsOrder(s: seq<OrderEntry>, d: nat, next: nat)
    requires d <= |s| && ArrivalOrdered(s) && IssuedBelow(s, next)
    ensures ArrivalOrdered(s[d..]) && IssuedBelow(s[d..], next)
  {
    var r := s[d..];
    forall j, k | 0 <= j < k < |r| ensures r[j].orderId < r[k].orderId {
      assert r[j] == s[d + j] && r[k] == s[d + k];
    }
    forall k | 0 <= k < |r| ensures r[k].orderId < next {
      assert r[k] == s[d + k];
    }
  }

  /** Changing only amounts keeps arrival order and issued ids. */
  lemma UpdateKeepsOrder(q: seq<OrderEntry>, k: nat, a: Amount, next: nat)
    requires ArrivalOrdered(q) && IssuedBelow(q, next) && k < |q|
    ensures ArrivalOrdered(q[k := q[k].(amount := a)]) && IssuedBelow(q[k := q[k].(amount := a)], next)
  {
    var s := q[k := q[k].(amount := a)];
    assert forall j :: 0 <= j < |s| ==> s[j].orderId == q[j].orderId;
  }

  /**
   * Setting a live order's amount and cleaning up the front leaves either an
   * empty level or a well-formed one, whose live orders are the old ones with
   * that order kept exactly when `a` is positive.
   */
  lemma SettleWellFormed(q: seq<OrderEntry>, k: nat, a: Amount, next: nat)
    requires WellFormed(q, next) && k < |q| && q[k].amount > 0
    ensures var r := Settle(q, q[k].orderId, a);
      && (r == [] || WellFormed(r, next))
      && Live(r) == (Live(q) - {(q[k].orderId, q[k].account)}) + (if a > 0 then {(q[k].orderId, q[k].account)} else {})
  {
    var s := SetAmount(q, q[k].orderId, a);
    SetAmountAt(q, k, a);
    UpdateKeepsOrder(q, k, a, next);
    LiveSetAmount(q, k, a);
    LiveDrop(s);
    DropKeepsOrder(s, next);
  }

  /** The amount recorded for an order id is the amount of its entry. */
  lemma {:induction false} AmountInAt(q: seq<OrderEntry>, k: nat)
    requires ArrivalOrdered(q) && k < |q|
    ensures AmountIn(q, q[k].orderId) == q[k].amount
  {
    if k > 0 {
      assert q[0].orderId < q[k].orderId;
      AmountInAt(q[1..], k - 1);
    }
  }

  /**
   * Cancelling an entry that is not the oldest zeroes it in place: the level
   * keeps its length, the entry keeps its slot, order id and account, and no
   * other entry changes.
   */
  lemma CancelNotOldest(q: seq<OrderEntry>, k: nat, next: nat)
    requires WellFormed(q, next) && 0 < k < |q|
    ensures var r := Settle(q, q[k].orderId, 0);
      && |r| == |q|
      && r[k].amount == 0 && r[k].orderId == q[k].orderId && r[k].account == q[k].account
      && forall j :: 0 <= j < |q| && j != k ==> r[j] == q[j]
  {
    SetAmountAt(q, k, 0);
  }

  /**
   * Cancelling the oldest entry removes it from the front instead of leaving a
   * tombstone: the result is the rest of the queue with its own leading
   * tombstones dropped, and no entry of it carries the cancelled id.
   */
  lemma CancelOldest(q: seq<OrderEntry>, next: nat)
    requires WellFormed(q, next)
    ensures var r := Settle(q, q[0].orderId, 0);
      && r == DropLeadingZeros(q[1..])
      && forall j :: 0 <= j < |r| ==> r[j].orderId != q[0].orderId
  {
    SettleOldest(q, next);
    NewerThanFront(q);
    NoIdInDrop(q[1..], q[0].orderId);
  }

  lemma SettleOldest(q: seq<OrderEntry>, next: nat)
    requires WellFormed(q, next)
    ensures Settle(q, q[0].orderId, 0) == DropLeadingZeros(q[1..])
  {
    var s := SetAmount(q, q[0].orderId, 0);
    SetAmountAt(q, 0, 0);
    assert s[0].amount == 0;
    assert s[1..] == q[1..];
  }

  lemma NoIdInDrop(t: seq<OrderEntry>, id: OrderId)
    requires forall j :: 0 <= j < |t| ==> t[j].orderId > id
    ensures forall j :: 0 <= j < |DropLeadingZeros(t)| ==> DropLeadingZeros(t)[j].orderId != id
  {
    var r := DropLeadingZeros(t);
    var d := |t| - |r|;
    forall j | 0 <= j < |r| ensures r[j].orderId != id {
      assert r[j] == t[d + j];
    }
  }

  lemma NewerThanFront(q: seq<OrderEntry>)
    requires ArrivalOrdered(q) && q != []
    ensures forall j :: 0 <= j < |q[1..]| ==> q[1..][j].orderId > q[0].orderId
  {
    forall j | 0 <= j < |q[1..]| ensures q[1..][j].orderId > q[0].orderId {
      assert q[1..][j] == q[j + 1];
    }
  }

  /**
   * Reducing an order to a positive amount keeps its time priority: the entry
   * stays in its slot with the new amount and nothing else changes.
   */
  lemma ReduceKeepsPosition(q: seq<OrderEntry>, k: nat, a: Amount, next: nat)
    requires WellFormed(q, next) && k < |q| && a > 0
    ensures Settle(q, q[k].orderId, a) == q[k := q[k].(amount := a)]
  {
    SetAmountAt(q, k, a);
  }
}
