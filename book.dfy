/**
 * The persistent state of the matching engine as a value, its consistency
 * invariant, and the state transitions the order book's documentation
 * describes: issuing an order id, resting an order at the back of its price
 * level, and setting an order's amount (zeroing it on cancellation), with
 * the user-facing error cases of cancellation and modification.
 */
module Book {
  import opened Wrappers
  import opened Types
  import opened Level
  import opened PriceOrder

  /** One side of the book: the level stored at each price that has resting orders. */
  type Levels = map<Price, seq<OrderEntry>>

  /** The fields of the root state: counter, bid and ask levels, registry, account index. */
  datatype EngineState = EngineState(
    next: OrderId,
    bids: Levels,
    asks: Levels,
    orders: map<OrderId, KeyBook>,
    accountInfo: map<AccountOwner, AccountInfo>)

  function Opposite(n: OrderNature): OrderNature {
    match n
    case Bid => Ask
    case Ask => Bid
  }

  function SideOf(s: EngineState, n: OrderNature): Levels {
    match n
    case Bid => s.bids
    case Ask => s.asks
  }

  function WithSide(s: EngineState, n: OrderNature, levels: Levels): EngineState {
    match n
    case Bid => s.(bids := levels)
    case Ask => s.(asks := levels)
  }

  /** The level at `p`, or the empty queue when the price has no level. */
  function LevelAt(levels: Levels, p: Price): seq<OrderEntry> {
    if p in levels then levels[p] else []
  }

  /** Stores `q` at `p`, removing the level when it has become empty. */
  function Resettle(levels: Levels, p: Price, q: seq<OrderEntry>): Levels {
    if q == [] then levels - {p} else levels[p := q]
  }

  /** The order ids the account index lists for owner `o` (none when it has no entry). */
  function OrdersOf(s: EngineState, o: AccountOwner): set<OrderId> {
    if o in s.accountInfo then s.accountInfo[o].orders else {}
  }

  /** Every stored level is well formed: non-empty, live front, arrival order, issued ids. */
  ghost predicate SideWellFormed(levels: Levels, next: nat) {
    forall p :: p in levels ==> WellFormed(levels[p], next)
  }

  /** Every live entry of level `q` is registered with price `p`, side `n` and its account. */
  ghost predicate LevelRegistered(q: seq<OrderEntry>, p: Price, n: OrderNature, orders: map<OrderId, KeyBook>) {
    forall x :: x in Live(q) ==> x.0 in orders && orders[x.0] == KeyBook(p, n, x.1)
  }

  /** Every live entry of side `n` is registered with its level's price, side `n` and its account. */
  ghost predicate LiveRegistered(levels: Levels, n: OrderNature, orders: map<OrderId, KeyBook>) {
    forall p :: p in levels ==> LevelRegistered(levels[p], p, n, orders)
  }

  /** Registered order `i` rests live, with its account, in the level its registry entry names. */
  ghost predicate Rests(s: EngineState, i: OrderId)
    requires i in s.orders
  {
    var kb := s.orders[i];
    kb.price in SideOf(s, kb.nature) && (i, kb.account) in Live(SideOf(s, kb.nature)[kb.price])
  }

  /** Every registered order rests live in the level its registry entry names. */
  ghost predicate RegisteredLive(s: EngineState) {
    forall i :: i in s.orders ==> Rests(s, i)
  }

  /** The account index lists exactly the registered orders of each owner. */
  ghost predicate IndexConsistent(orders: map<OrderId, KeyBook>, info: map<AccountOwner, AccountInfo>) {
    && (forall o, i :: o in info && i in info[o].orders ==> i in orders && orders[i].account.owner == o)
    && (forall i :: i in orders ==> orders[i].account.owner in info && i in info[orders[i].account.owner].orders)
  }

  ghost predicate Consistent(s: EngineState) {
    && SideWellFormed(s.bids, s.next)
    && SideWellFormed(s.asks, s.next)
    && LiveRegistered(s.bids, Bid, s.orders)
    && LiveRegistered(s.asks, Ask, s.orders)
    && RegisteredLive(s)
    && IndexConsistent(s.orders, s.accountInfo)
  }

  /** Every entry of `levels` is older than `id`. */
  ghost predicate NewerThanSide(levels: Levels, id: nat) {
    forall p, k :: p in levels && 0 <= k < |levels[p]| ==> levels[p][k].orderId < id
  }

  /** `id` has been issued and is newer than every entry in the book. */
  ghost predicate IsFresh(s: EngineState, id: OrderId) {
    id < s.next && NewerThanSide(s.bids, id) && NewerThanSide(s.asks, id)
  }

  // ---------------------------------------------------------------------------
  // Transitions

  /** The state of a new engine: no levels, no orders, counter at 0. */
  function Initial(): (s: EngineState)
    ensures Consistent(s)
  {
    EngineState(0, map[], map[], map[], map[])
  }

  /**
   * Issues the next order id: the current counter value, after which the
   * counter moves on by one. At the 64-bit maximum the increment would
   * overflow, so the request fails with an arithmetic error instead.
   */
  function NextId(s: EngineState): (res: (Result<OrderId, MatchingEngineError>, EngineState))
    requires Consistent(s)
    ensures Consistent(res.1)
    ensures s.next < MAX_ORDER_ID ==> res.0 == Success(s.next) && res.1 == s.(next := s.next + 1)
    ensures s.next == MAX_ORDER_ID ==> res.0 == Failure(ArithmeticError) && res.1 == s
    ensures res.0.Success? ==> IsFresh(res.1, res.0.value) && res.0.value !in s.orders
  {
    if s.next == MAX_ORDER_ID then (Failure(ArithmeticError), s)
    else
      NextIdFresh(s);
      (Success(s.next), s.(next := s.next + 1))
  }

  /**
   * Rests a new order: appends its entry at the back of the level at `p` on
   * side `n` (creating the level if needed), registers it and adds it to its
   * owner's account index entry.
   */
  function Rest(s: EngineState, n: OrderNature, p: Price, amount: Amount, account: Account, id: OrderId): (r: EngineState)
    requires Consistent(s) && amount > 0 && IsFresh(s, id)
    ensures Consistent(r)
    ensures id !in s.orders
    ensures SideOf(r, n) == SideOf(s, n)[p := LevelAt(SideOf(s, n), p) + [OrderEntry(amount, account, id)]]
    ensures SideOf(r, Opposite(n)) == SideOf(s, Opposite(n))
    ensures r.orders == s.orders[id := KeyBook(p, n, account)]
    ensures forall o :: OrdersOf(r, o) == if o == account.owner then OrdersOf(s, o) + {id} else OrdersOf(s, o)
    ensures r.next == s.next
  {
    var e := OrderEntry(amount, account, id);
    RestConsistent(s, n, p, e, Appended(s, n, p, e));
    Appended(s, n, p, e)
  }

  /** The raw update behind `Rest`: append `e` at the back of level `p` and register it. */
  function Appended(s: EngineState, n: OrderNature, p: Price, e: OrderEntry): EngineState {
    WithSide(s, n, SideOf(s, n)[p := LevelAt(SideOf(s, n), p) + [e]])
      .(orders := s.orders[e.orderId := KeyBook(p, n, e.account)],
        accountInfo := s.accountInfo[e.account.owner := AccountInfo(OrdersOf(s, e.account.owner) + {e.orderId})])
  }

  /** The resting amount of a registered order. */
  function AmountOf(s: EngineState, id: OrderId): (a: Amount)
    requires Consistent(s) && id in s.orders
    ensures a > 0
  {
    var kb := s.orders[id];
    var q := SideOf(s, kb.nature)[kb.price];
    RestingAmountPositive(s, id);
    AmountIn(q, id)
  }

  /** The raw update behind `Settled`, before anything is known about it. */
  function ApplyAmount(s: EngineState, id: OrderId, a: Amount): EngineState
    requires id in s.orders && s.orders[id].price in SideOf(s, s.orders[id].nature)
  {
    var kb := s.orders[id];
    var levels := SideOf(s, kb.nature);
    var s1 := WithSide(s, kb.nature, Resettle(levels, kb.price, Settle(levels[kb.price], id, a)));
    if a == 0 then
      s1.(orders := s.orders - {id},
          accountInfo := s.accountInfo[kb.account.owner := AccountInfo(OrdersOf(s, kb.account.owner) - {id})])
    else s1
  }

  /**
   * Sets the amount of registered order `id` to `a`, below its resting
   * amount, in place; then drops leading tombstones and removes the level if
   * it is empty. At amount zero the order is unregistered from the registry
   * and from its owner's account index entry.
   */
  function Settled(s: EngineState, id: OrderId, a: Amount): (r: EngineState)
    requires Consistent(s) && id in s.orders && a < AmountOf(s, id)
    ensures Consistent(r)
    ensures var kb := s.orders[id];
      && kb.price in SideOf(s, kb.nature)
      && SideOf(r, kb.nature) == Resettle(SideOf(s, kb.nature), kb.price, Settle(SideOf(s, kb.nature)[kb.price], id, a))
      && SideOf(r, Opposite(kb.nature)) == SideOf(s, Opposite(kb.nature))
    ensures a == 0 ==> r.orders == s.orders - {id} && forall o :: OrdersOf(r, o) == OrdersOf(s, o) - {id}
    ensures a > 0 ==> r.orders == s.orders && r.accountInfo == s.accountInfo && AmountOf(r, id) == a
    ensures r.next == s.next
  {
    SettledConsistent(s, id, a);
    ApplyAmountShape(s, id, a);
    ApplyAmount(s, id, a)
  }

  /**
   * The checks shared by cancellation and modification: the order must be
   * registered, and registered to the caller.
   */
  function Check(s: EngineState, id: OrderId, owner: AccountOwner): (r: Outcome<MatchingEngineError>)
    requires Consistent(s)
    ensures r == Fail(OrderNotPresent) <==> id !in s.orders
    ensures r == Fail(WrongOwnerOfOrder) <==> id in s.orders && s.orders[id].account.owner != owner
    ensures r == Pass <==> id in OrdersOf(s, owner)
  {
    if id !in s.orders then Fail(OrderNotPresent)
    else if s.orders[id].account.owner != owner then Fail(WrongOwnerOfOrder)
    else Pass
  }

  /**
   * Cancels order `id` for `owner`: after the checks pass, its entry is
   * zeroed and it is unregistered; on an error nothing changes.
   */
  function Cancel(s: EngineState, owner: AccountOwner, id: OrderId): (res: (Outcome<MatchingEngineError>, EngineState))
    requires Consistent(s)
    ensures Consistent(res.1)
    ensures res.0 == Check(s, id, owner)
    ensures res.0.Fail? ==> res.1 == s
    ensures res.0.Pass? ==> res.1 == Settled(s, id, 0)
    ensures res.0.Pass? ==> id !in res.1.orders && OrdersOf(res.1, owner) == OrdersOf(s, owner) - {id}
  {
    var c := Check(s, id, owner);
    if c.Fail? then (c, s) else (Pass, Settled(s, id, 0))
  }

  /**
   * Reduces order `id` of `owner` to `a`: after the checks pass, an amount
   * that is not strictly below the resting one is refused, otherwise the
   * amount is set in place (a zero amount cancels); on an error nothing
   * changes.
   */
  function Modify(s: EngineState, owner: AccountOwner, id: OrderId, a: Amount): (res: (Outcome<MatchingEngineError>, EngineState))
    requires Consistent(s)
    ensures Consistent(res.1)
    ensures Check(s, id, owner).Fail? ==> res.0 == Check(s, id, owner)
    ensures Check(s, id, owner).Pass? ==> (res.0 == Fail(TooLargeModifyOrder) <==> a >= AmountOf(s, id))
    ensures res.0.Fail? ==> res.1 == s
    ensures res.0.Pass? ==> id in s.orders && a < AmountOf(s, id) && res.1 == Settled(s, id, a)
  {
    var c := Check(s, id, owner);
    if c.Fail? then (c, s)
    else if a >= AmountOf(s, id) then (Fail(TooLargeModifyOrder), s)
    else (Pass, Settled(s, id, a))
  }

  // ---------------------------------------------------------------------------
  // Properties of the state

  /**
   * The order a counterparty meets first on side `n`: the oldest entry of the
   * best level. It is registered, rests with its full amount, and has price-time
   * priority over every other registered order of that side: the others have a
   * worse price, or the same price and a later id.
   */
  ghost function Front(s: EngineState, n: OrderNature): (r: Option<OrderEntry>)
    requires Consistent(s)
    ensures r.None? <==> SideOf(s, n) == map[]
    ensures r.Some? ==>
      && r.value.orderId in s.orders
      && s.orders[r.value.orderId] == KeyBook(BestFirst(n, SideOf(s, n).Keys)[0], n, r.value.account)
      && r.value.amount == AmountOf(s, r.value.orderId)
    ensures r.Some? ==> forall i :: i in s.orders && s.orders[i].nature == n ==>
      || Better(n, s.orders[r.value.orderId].price, s.orders[i].price)
      || (s.orders[i].price == s.orders[r.value.orderId].price && r.value.orderId <= i)
  {
    var levels := SideOf(s, n);
    if levels == map[] then None
    else
      assert levels.Keys != {} by {
        var p :| p in levels;
      }
      var best := Best(n, levels.Keys);
      assert WellFormed(levels[best], s.next);
      FrontPriority(s, n, best);
      Oldest(levels[best])
  }

  lemma FrontPriority(s: EngineState, n: OrderNature, best: Price)
    requires Consistent(s) && IsBest(n, best, SideOf(s, n).Keys)
    ensures var e := SideOf(s, n)[best][0];
      && e.orderId in s.orders
      && s.orders[e.orderId] == KeyBook(best, n, e.account)
      && e.amount == AmountOf(s, e.orderId)
      && forall i :: i in s.orders && s.orders[i].nature == n ==>
           Better(n, best, s.orders[i].price) || (s.orders[i].price == best && e.orderId <= i)
  {
    var levels := SideOf(s, n);
    var q := levels[best];
    assert WellFormed(q, s.next);
    assert LevelRegistered(q, best, n, s.orders);
    IndexLive(q, 0);
    var e := q[0];
    assert s.orders[e.orderId] == KeyBook(best, n, e.account);
    AmountInAt(q, 0);
    forall i | i in s.orders && s.orders[i].nature == n
      ensures Better(n, best, s.orders[i].price) || (s.orders[i].price == best && e.orderId <= i)
    {
      var kb := s.orders[i];
      assert Rests(s, i);
      if kb.price == best {
        var j := LiveIndex(q, (i, kb.account));
        assert j == 0 || q[0].orderId < q[j].orderId;
      }
    }
  }

  /**
   * Cancelling the only live order of a level removes the level's price from
   * its side, even when tombstones of earlier cancellations sit behind it: no
   * level without a live entry lingers.
   */
  lemma CancelSoleOrderRemovesLevel(s: EngineState, owner: AccountOwner, id: OrderId)
    requires Consistent(s) && Check(s, id, owner) == Pass
    requires var kb := s.orders[id]; Live(SideOf(s, kb.nature)[kb.price]) == {(id, kb.account)}
    ensures s.orders[id].price !in SideOf(Cancel(s, owner, id).1, s.orders[id].nature)
  {
    var kb := s.orders[id];
    var q := SideOf(s, kb.nature)[kb.price];
    var k := EntryOfRegistered(s, id);
    SettleWellFormed(q, k, 0, s.next);
    var settled := Settle(q, id, 0);
    assert Live(settled) == {};
    if settled != [] {
      assert WellFormed(settled, s.next);
      IndexLive(settled, 0);
      assert false;
    }
  }

  /** After a successful cancellation no live entry of the order is left on either side. */
  lemma CancelLeavesNoLiveEntry(s: EngineState, owner: AccountOwner, id: OrderId, n: OrderNature, p: Price)
    requires Consistent(s) && Check(s, id, owner) == Pass
    ensures var r := Cancel(s, owner, id).1;
      p in SideOf(r, n) ==> forall x :: x in Live(SideOf(r, n)[p]) ==> x.0 != id
  {
    var r := Cancel(s, owner, id).1;
    if p in SideOf(r, n) {
      assert LiveRegistered(SideOf(r, n), n, r.orders);
      assert LevelRegistered(SideOf(r, n)[p], p, n, r.orders);
    }
  }

  /** A modification to amount zero is a cancellation. */
  lemma ModifyToZeroIsCancel(s: EngineState, owner: AccountOwner, id: OrderId)
    requires Consistent(s)
    ensures Modify(s, owner, id, 0) == Cancel(s, owner, id)
  {
  }

  /** Cancelling or modifying another owner's order fails with `WrongOwnerOfOrder` and changes nothing. */
  lemma OwnershipEnforced(s: EngineState, owner: AccountOwner, id: OrderId, a: Amount)
    requires Consistent(s) && id in s.orders && s.orders[id].account.owner != owner
    ensures Cancel(s, owner, id) == (Fail(WrongOwnerOfOrder), s)
    ensures Modify(s, owner, id, a) == (Fail(WrongOwnerOfOrder), s)
  {
  }

  /** Cancelling or modifying an unregistered id fails with `OrderNotPresent` and changes nothing. */
  lemma AbsentOrderRejected(s: EngineState, owner: AccountOwner, id: OrderId, a: Amount)
    requires Consistent(s) && id !in s.orders
    ensures Cancel(s, owner, id) == (Fail(OrderNotPresent), s)
    ensures Modify(s, owner, id, a) == (Fail(OrderNotPresent), s)
  {
  }

  /**
   * Ids are issued from 0 upwards: two successive issues return consecutive
   * ids, and each issued id is newer than everything in the book.
   */
  lemma IdsIncrease(s: EngineState)
    requires Consistent(s) && s.next + 1 < MAX_ORDER_ID
    ensures var (r1, s1) := NextId(s); var (r2, s2) := NextId(s1);
      r1.Success? && r2.Success? && r1.value < r2.value && r2.value == r1.value + 1
      && IsFresh(s2, r2.value) && r2.value !in s1.orders
  {
  }

  lemma FirstIdIsZero()
    ensures NextId(Initial()).0 == Success(0)
  {
  }

  // ---------------------------------------------------------------------------
  // Proofs of the transitions

  lemma SideMonotone(levels: Levels, next: nat, next': nat)
    requires SideWellFormed(levels, next) && next <= next'
    ensures SideWellFormed(levels, next') && NewerThanSide(levels, next)
  {
    forall p | p in levels ensures WellFormed(levels[p], next') {
    }
  }

  lemma NextIdFresh(s: EngineState)
    requires Consistent(s) && s.next < MAX_ORDER_ID
    ensures s.next !in s.orders
    ensures Consistent(s.(next := s.next + 1)) && IsFresh(s.(next := s.next + 1), s.next)
  {
    SideMonotone(s.bids, s.next, s.next + 1);
    SideMonotone(s.asks, s.next, s.next + 1);
    FreshNotRegistered(s, s.next);
  }

  /** A live order of a side whose entries are all older than `id` is older than `id`. */
  lemma NewerLive(levels: Levels, id: nat, p: Price, x: (OrderId, Account))
    requires NewerThanSide(levels, id) && p in levels && x in Live(levels[p])
    ensures x.0 < id
  {
    var k := LiveIndex(levels[p], x);
  }

  /** Every registered order is older than an id newer than the whole book. */
  lemma FreshNotRegistered(s: EngineState, id: nat)
    requires Consistent(s) && NewerThanSide(s.bids, id) && NewerThanSide(s.asks, id)
    ensures forall i :: i in s.orders ==> i < id
  {
    forall i | i in s.orders ensures i < id {
      var kb := s.orders[i];
      NewerLive(SideOf(s, kb.nature), id, kb.price, (i, kb.account));
    }
  }

  /** Appending a newer live entry keeps a side well formed and adds just that order to its level's live orders. */
  lemma AppendSide(levels: Levels, p: Price, e: OrderEntry, next: nat)
    requires SideWellFormed(levels, next) && NewerThanSide(levels, e.orderId)
    requires e.amount > 0 && e.orderId < next
    ensures var levels' := levels[p := LevelAt(levels, p) + [e]];
      && SideWellFormed(levels', next)
      && Live(levels'[p]) == Live(LevelAt(levels, p)) + {(e.orderId, e.account)}
  {
    var q := LevelAt(levels, p);
    assert forall k :: 0 <= k < |q| ==> q[k].orderId < e.orderId;
    AppendWellFormed(q, e, next);
  }

  /** Registering a newer order keeps the live entries of a side registered. */
  lemma RegisterKeepsSide(levels: Levels, n: OrderNature, orders: map<OrderId, KeyBook>, id: OrderId, kb: KeyBook)
    requires LiveRegistered(levels, n, orders) && NewerThanSide(levels, id)
    ensures LiveRegistered(levels, n, orders[id := kb])
  {
    forall p | p in levels ensures LevelRegistered(levels[p], p, n, orders[id := kb]) {
      forall x | x in Live(levels[p]) ensures x.0 != id {
        NewerLive(levels, id, p, x);
      }
    }
  }

  /** Appending and registering a newer order keeps the live entries of its side registered. */
  lemma AppendRegistered(levels: Levels, n: OrderNature, orders: map<OrderId, KeyBook>, p: Price, e: OrderEntry, next: nat)
    requires SideWellFormed(levels, next) && NewerThanSide(levels, e.orderId)
    requires LiveRegistered(levels, n, orders)
    requires e.amount > 0 && e.orderId < next
    ensures LiveRegistered(levels[p := LevelAt(levels, p) + [e]], n, orders[e.orderId := KeyBook(p, n, e.account)])
  {
    var levels' := levels[p := LevelAt(levels, p) + [e]];
    var orders' := orders[e.orderId := KeyBook(p, n, e.account)];
    AppendSide(levels, p, e, next);
    RegisterKeepsSide(levels, n, orders, e.orderId, KeyBook(p, n, e.account));
    forall p2 | p2 in levels' ensures LevelRegistered(levels'[p2], p2, n, orders') {
      if p2 == p {
        forall x | x in Live(levels'[p2]) ensures x.0 in orders' && orders'[x.0] == KeyBook(p2, n, x.1) {
          if x != (e.orderId, e.account) {
            assert p2 in levels && x in Live(levels[p2]);
          }
        }
      }
    }
  }

  /** Adding a new order to the registry and to its owner's entry keeps the account index consistent. */
  lemma RegisterIndex(orders: map<OrderId, KeyBook>, info: map<AccountOwner, AccountInfo>, id: OrderId, kb: KeyBook)
    requires IndexConsistent(orders, info) && id !in orders
    ensures var o := kb.account.owner;
      var cur := if o in info then info[o].orders else {};
      IndexConsistent(orders[id := kb], info[o := AccountInfo(cur + {id})])
  {
  }

  lemma RestConsistent(s: EngineState, n: OrderNature, p: Price, e: OrderEntry, r: EngineState)
    requires Consistent(s) && e.amount > 0 && IsFresh(s, e.orderId)
    requires r == Appended(s, n, p, e)
    ensures Consistent(r) && e.orderId !in s.orders
  {
    var id := e.orderId;
    var levels := SideOf(s, n);
    var other := SideOf(s, Opposite(n));
    FreshNotRegistered(s, id);
    AppendSide(levels, p, e, s.next);
    AppendRegistered(levels, n, s.orders, p, e, s.next);
    RegisterKeepsSide(other, Opposite(n), s.orders, id, KeyBook(p, n, e.account));
    RegisterIndex(s.orders, s.accountInfo, id, KeyBook(p, n, e.account));
    assert SideOf(r, n) == levels[p := LevelAt(levels, p) + [e]] && SideOf(r, Opposite(n)) == other;
    assert LiveRegistered(r.bids, Bid, r.orders) && LiveRegistered(r.asks, Ask, r.orders);
    assert SideWellFormed(r.bids, r.next) && SideWellFormed(r.asks, r.next);
    RestRegisteredLive(s, n, p, e, r);
  }

  lemma RestRegisteredLive(s: EngineState, n: OrderNature, p: Price, e: OrderEntry, r: EngineState)
    requires RegisteredLive(s) && e.orderId !in s.orders
    requires r == Appended(s, n, p, e)
    requires e.amount > 0
    ensures RegisteredLive(r)
  {
    var q := LevelAt(SideOf(s, n), p);
    LiveAppend(q, e);
    forall i | i in r.orders ensures Rests(r, i) {
      if i != e.orderId {
        assert Rests(s, i);
        AppendedRests(s, n, p, e, r, i);
      }
    }
  }

  lemma AppendedRests(s: EngineState, n: OrderNature, p: Price, e: OrderEntry, r: EngineState, i: OrderId)
    requires i in s.orders && Rests(s, i) && i != e.orderId
    requires r == Appended(s, n, p, e)
    requires var q := LevelAt(SideOf(s, n), p); Live(q + [e]) == Live(q) + {(e.orderId, e.account)}
    ensures i in r.orders && Rests(r, i)
  {
    var kb := s.orders[i];
    if kb.nature == n && kb.price == p {
      assert (i, kb.account) in Live(LevelAt(SideOf(s, n), p));
    }
  }

  lemma RestingAmountPositive(s: EngineState, id: OrderId)
    requires Consistent(s) && id in s.orders
    ensures var kb := s.orders[id]; AmountIn(SideOf(s, kb.nature)[kb.price], id) > 0
  {
    var kb := s.orders[id];
    var q := SideOf(s, kb.nature)[kb.price];
    var k := LiveIndex(q, (id, kb.account));
    AmountInAt(q, k);
  }

  /** Facts about the entry of a registered order that `Settled` relies on. */
  lemma EntryOfRegistered(s: EngineState, id: OrderId) returns (k: nat)
    requires Consistent(s) && id in s.orders
    ensures var kb := s.orders[id]; var q := SideOf(s, kb.nature)[kb.price];
      && k < |q| && q[k].orderId == id && q[k].account == kb.account && q[k].amount > 0
      && AmountOf(s, id) == q[k].amount
      && WellFormed(q, s.next)
  {
    var kb := s.orders[id];
    var q := SideOf(s, kb.nature)[kb.price];
    k := LiveIndex(q, (id, kb.account));
    AmountInAt(q, k);
  }

  /** Settling a live entry keeps a side well formed. */
  lemma SettleSide(levels: Levels, p: Price, k: nat, a: Amount, next: nat)
    requires SideWellFormed(levels, next) && p in levels
    requires k < |levels[p]| && levels[p][k].amount > 0
    ensures SideWellFormed(Resettle(levels, p, Settle(levels[p], levels[p][k].orderId, a)), next)
  {
    SettleWellFormed(levels[p], k, a, next);
  }

  /**
   * Settling a live entry keeps the live entries of its side registered, in
   * the registry that has dropped the order exactly when `a` is zero.
   */
  lemma SettleRegistered(levels: Levels, n: OrderNature, orders: map<OrderId, KeyBook>, p: Price, k: nat, a: Amount, next: nat)
    requires SideWellFormed(levels, next) && LiveRegistered(levels, n, orders) && p in levels
    requires k < |levels[p]| && levels[p][k].amount > 0
    ensures var q := levels[p];
      var orders' := if a == 0 then orders - {q[k].orderId} else orders;
      LiveRegistered(Resettle(levels, p, Settle(q, q[k].orderId, a)), n, orders')
  {
    var q := levels[p];
    var id := q[k].orderId;
    var levels' := Resettle(levels, p, Settle(q, id, a));
    var orders' := if a == 0 then orders - {id} else orders;
    SettleLevelRegistered(q, p, n, orders, k, a, next);
    IndexLive(q, k);
    assert orders[id].price == p;
    forall p2 | p2 in levels' && p2 != p ensures LevelRegistered(levels'[p2], p2, n, orders') {
      assert LevelRegistered(levels[p2], p2, n, orders);
    }
  }

  lemma SettleLevelRegistered(q: seq<OrderEntry>, p: Price, n: OrderNature, orders: map<OrderId, KeyBook>, k: nat, a: Amount, next: nat)
    requires WellFormed(q, next) && LevelRegistered(q, p, n, orders)
    requires k < |q| && q[k].amount > 0
    ensures var orders' := if a == 0 then orders - {q[k].orderId} else orders;
      LevelRegistered(Settle(q, q[k].orderId, a), p, n, orders')
  {
    SettleWellFormed(q, k, a, next);
    IndexLive(q, k);
    KeptRegistered(q, Settle(q, q[k].orderId, a), p, n, orders, (q[k].orderId, q[k].account), a);
  }

  /** A level whose live orders are those of a registered level, less or keeping `x0`, stays registered. */
  lemma KeptRegistered(q: seq<OrderEntry>, q': seq<OrderEntry>, p: Price, n: OrderNature, orders: map<OrderId, KeyBook>,
                       x0: (OrderId, Account), a: Amount)
    requires LevelRegistered(q, p, n, orders) && x0 in Live(q)
    requires Live(q') == (Live(q) - {x0}) + (if a > 0 then {x0} else {})
    ensures LevelRegistered(q', p, n, if a == 0 then orders - {x0.0} else orders)
  {
    var orders' := if a == 0 then orders - {x0.0} else orders;
    var live := Live(q);
    assert orders[x0.0] == KeyBook(p, n, x0.1);
    forall x | x in Live(q') ensures x.0 in orders' && orders'[x.0] == KeyBook(p, n, x.1) {
      assert x in live;
      assert orders[x.0] == KeyBook(p, n, x.1);
      assert x.0 == x0.0 ==> x == x0;
    }
  }

  /** Unregistering an order of the other side keeps the live entries of a side registered. */
  lemma UnregisterKeepsSide(levels: Levels, n: OrderNature, orders: map<OrderId, KeyBook>, id: OrderId)
    requires LiveRegistered(levels, n, orders) && id in orders && orders[id].nature != n
    ensures LiveRegistered(levels, n, orders - {id})
  {
  }

  /** Removing an order from the registry and from its owner's entry keeps the account index consistent. */
  lemma UnregisterIndex(orders: map<OrderId, KeyBook>, info: map<AccountOwner, AccountInfo>, id: OrderId)
    requires IndexConsistent(orders, info) && id in orders
    ensures var o := orders[id].account.owner;
      var cur := if o in info then info[o].orders else {};
      && IndexConsistent(orders - {id}, info[o := AccountInfo(cur - {id})])
      && forall o2 :: o2 != o && o2 in info ==> id !in info[o2].orders
  {
  }

  lemma SettledRegisteredLive(s: EngineState, id: OrderId, a: Amount, k: nat, r: EngineState)
    requires Consistent(s) && id in s.orders
    requires var kb := s.orders[id]; var q := SideOf(s, kb.nature)[kb.price];
      k < |q| && q[k].orderId == id && q[k].account == kb.account && q[k].amount > 0
    requires var kb := s.orders[id];
      var levels := SideOf(s, kb.nature);
      && SideOf(r, kb.nature) == Resettle(levels, kb.price, Settle(levels[kb.price], id, a))
      && SideOf(r, Opposite(kb.nature)) == SideOf(s, Opposite(kb.nature))
      && r.orders == if a == 0 then s.orders - {id} else s.orders
    ensures RegisteredLive(r)
  {
    var kb := s.orders[id];
    var n, p := kb.nature, kb.price;
    var q := SideOf(s, n)[p];
    var q' := Settle(q, id, a);
    SettleWellFormed(q, k, a, s.next);
    var kept := Live(q');
    assert kept == (Live(q) - {(id, kb.account)}) + (if a > 0 then {(id, kb.account)} else {});
    assert Rests(s, id);
    forall i | i in r.orders ensures Rests(r, i) {
      assert Rests(s, i);
      SettledRests(s, id, a, r, q', i);
    }
  }

  lemma SettledRests(s: EngineState, id: OrderId, a: Amount, r: EngineState, q': seq<OrderEntry>, i: OrderId)
    requires id in s.orders && Rests(s, id) && i in r.orders && i in s.orders && Rests(s, i)
    requires var kb := s.orders[id];
      var levels := SideOf(s, kb.nature);
      && q' == Settle(levels[kb.price], id, a)
      && Live(q') == (Live(levels[kb.price]) - {(id, kb.account)}) + (if a > 0 then {(id, kb.account)} else {})
      && SideOf(r, kb.nature) == Resettle(levels, kb.price, q')
      && SideOf(r, Opposite(kb.nature)) == SideOf(s, Opposite(kb.nature))
      && r.orders == if a == 0 then s.orders - {id} else s.orders
    ensures Rests(r, i)
  {
    var kb := s.orders[id];
    var kbi := s.orders[i];
    assert Rests(s, i);
    assert r.orders[i] == kbi;
    if kbi.nature == kb.nature && kbi.price == kb.price {
      assert (i, kbi.account) in Live(q');
    } else if kbi.nature == kb.nature {
      assert SideOf(r, kb.nature)[kbi.price] == SideOf(s, kb.nature)[kbi.price];
    } else {
      assert kbi.nature == Opposite(kb.nature);
    }
  }

  /** `Rest` as the raw append, as an in-place update of the root state performs it. */
  lemma RestFields(s: EngineState, n: OrderNature, p: Price, amount: Amount, account: Account, id: OrderId)
    requires Consistent(s) && amount > 0 && IsFresh(s, id)
    ensures Rest(s, n, p, amount, account, id) == Appended(s, n, p, OrderEntry(amount, account, id))
  {
  }

  /** `Settled` field by field, as an in-place update of the root state performs it. */
  lemma SettledFields(s: EngineState, id: OrderId, a: Amount)
    requires Consistent(s) && id in s.orders && a < AmountOf(s, id)
    ensures var kb := s.orders[id];
      && kb.price in SideOf(s, kb.nature)
      && Settled(s, id, a) == EngineState(
           s.next,
           if kb.nature == Bid then Resettle(s.bids, kb.price, Settle(s.bids[kb.price], id, a)) else s.bids,
           if kb.nature == Ask then Resettle(s.asks, kb.price, Settle(s.asks[kb.price], id, a)) else s.asks,
           if a == 0 then s.orders - {id} else s.orders,
           if a == 0 then s.accountInfo[kb.account.owner := AccountInfo(OrdersOf(s, kb.account.owner) - {id})]
           else s.accountInfo)
  {
    assert Rests(s, id);
  }

  lemma ApplyAmountShape(s: EngineState, id: OrderId, a: Amount)
    requires id in s.orders && s.orders[id].price in SideOf(s, s.orders[id].nature)
    ensures var kb := s.orders[id]; var r := ApplyAmount(s, id, a);
      && SideOf(r, kb.nature) == Resettle(SideOf(s, kb.nature), kb.price, Settle(SideOf(s, kb.nature)[kb.price], id, a))
      && SideOf(r, Opposite(kb.nature)) == SideOf(s, Opposite(kb.nature))
      && r.orders == (if a == 0 then s.orders - {id} else s.orders)
      && (a > 0 ==> r.accountInfo == s.accountInfo)
      && r.next == s.next
  {
    var kb := s.orders[id];
    var levels := SideOf(s, kb.nature);
    WithSideOf(s, kb.nature, Resettle(levels, kb.price, Settle(levels[kb.price], id, a)));
  }

  lemma WithSideOf(s: EngineState, n: OrderNature, levels: Levels)
    ensures var r := WithSide(s, n, levels);
      && SideOf(r, n) == levels && SideOf(r, Opposite(n)) == SideOf(s, Opposite(n))
      && r.orders == s.orders && r.accountInfo == s.accountInfo && r.next == s.next
  {
  }

  lemma SettledConsistent(s: EngineState, id: OrderId, a: Amount)
    requires Consistent(s) && id in s.orders && a < AmountOf(s, id)
    ensures s.orders[id].price in SideOf(s, s.orders[id].nature)
    ensures Consistent(ApplyAmount(s, id, a))
    ensures a == 0 ==> forall o :: OrdersOf(ApplyAmount(s, id, a), o) == OrdersOf(s, o) - {id}
    ensures a > 0 ==> id in ApplyAmount(s, id, a).orders && AmountOf(ApplyAmount(s, id, a), id) == a
  {
    assert Rests(s, id);
    var r := ApplyAmount(s, id, a);
    var kb := s.orders[id];
    var n, p := kb.nature, kb.price;
    var levels := SideOf(s, n);
    var other := SideOf(s, Opposite(n));
    var k := EntryOfRegistered(s, id);
    ApplyAmountShape(s, id, a);
    SettleSide(levels, p, k, a, s.next);
    SettleRegistered(levels, n, s.orders, p, k, a, s.next);
    if a == 0 {
      UnregisterKeepsSide(other, Opposite(n), s.orders, id);
      UnregisterIndex(s.orders, s.accountInfo, id);
    }
    assert LiveRegistered(r.bids, Bid, r.orders) && LiveRegistered(r.asks, Ask, r.orders);
    assert SideWellFormed(r.bids, r.next) && SideWellFormed(r.asks, r.next);
    SettledRegisteredLive(s, id, a, k, r);
    assert Consistent(r);
    if a > 0 {
      SettledAmount(s, id, a, k, r);
    }
  }

  lemma SettledAmount(s: EngineState, id: OrderId, a: Amount, k: nat, r: EngineState)
    requires Consistent(s) && id in s.orders && s.orders[id].price in SideOf(s, s.orders[id].nature)
    requires var kb := s.orders[id]; var q := SideOf(s, kb.nature)[kb.price];
      && k < |q| && q[k].orderId == id && q[k].amount > 0
      && WellFormed(q, s.next)
      && SideOf(r, kb.nature) == Resettle(SideOf(s, kb.nature), kb.price, Settle(q, id, a))
    requires Consistent(r) && r.orders == s.orders && a > 0
    ensures AmountOf(r, id) == a
  {
    var kb := s.orders[id];
    var q := SideOf(s, kb.nature)[kb.price];
    var q' := Settle(q, id, a);
    ReduceKeepsPosition(q, k, a, s.next);
    UpdateKeepsOrder(q, k, a, s.next);
    assert SideOf(r, kb.nature)[kb.price] == q';
    AmountInAt(q', k);
  }
}
