/**
 * The root state object of the matching engine. Its fields are the five
 * pieces of persistent state; its methods update them in place and are
 * proved to perform exactly the transitions `Book` defines, so everything
 * proved about those transitions holds of the object.
 */
module Engine {
  import opened Wrappers
  import opened Types
  import opened Level
  import opened Book

  class MatchingEngine {
    /** The id the next order will receive. */
    var nextOrderNumber: OrderId
    /** Bid levels by price. */
    var bids: Levels
    /** Ask levels by price. */
    var asks: Levels
    /** Registry of resting orders: where each one rests and who owns it. */
    var orders: map<OrderId, KeyBook>
    /** Account index: the orders each owner has resting. */
    var accountInfo: map<AccountOwner, AccountInfo>

    /** The object's fields as a state value. */
    function State(): EngineState
      reads this
    {
      EngineState(nextOrderNumber, bids, asks, orders, accountInfo)
    }

    ghost predicate Valid()
      reads this
    {
      Consistent(State())
    }

    /** A fresh engine: no orders, ids start at 0. */
    constructor ()
      ensures Valid() && State() == Initial()
    {
      nextOrderNumber := 0;
      bids := map[];
      asks := map[];
      orders := map[];
      accountInfo := map[];
    }

    /** Hands out the current id and advances the counter; fails at the end of the id range. */
    method TakeNextId() returns (r: Result<OrderId, MatchingEngineError>)
      requires Valid()
      modifies this
      ensures Valid()
      ensures (r, State()) == NextId(old(State()))
    {
      if nextOrderNumber == MAX_ORDER_ID {
        r := Failure(ArithmeticError);
      } else {
        r := Success(nextOrderNumber);
        nextOrderNumber := nextOrderNumber + 1;
      }
    }

    /**
     * Rests a new order: appends its entry at the back of the level at
     * `price` (creating the level if needed), registers it, and lists it
     * under its owner.
     */
    method InsertOrder(nature: OrderNature, price: Price, amount: Amount, account: Account, id: OrderId)
      requires Valid() && amount > 0 && IsFresh(State(), id)
      modifies this
      ensures Valid()
      ensures State() == Rest(old(State()), nature, price, amount, account, id)
    {
      RestFields(State(), nature, price, amount, account, id);
      AppendFields(nature, price, OrderEntry(amount, account, id));
    }

    /**
     * The field updates behind `InsertOrder`, an internal step of it: on its
     * own it does not keep `Valid()`. `InsertOrder` shows, by `RestFields`,
     * that under its entry conditions these updates produce `Book.Rest`'s
     * state, which is consistent.
     */
    method AppendFields(nature: OrderNature, price: Price, e: OrderEntry)
      requires e.amount > 0 && IsFresh(State(), e.orderId)
      modifies this
      ensures State() == Appended(old(State()), nature, price, e)
    {
      match nature {
        case Bid => bids := bids[price := LevelAt(bids, price) + [e]];
        case Ask => asks := asks[price := LevelAt(asks, price) + [e]];
      }
      orders := orders[e.orderId := KeyBook(price, nature, e.account)];
      var owner := e.account.owner;
      accountInfo := accountInfo[owner := AccountInfo(OrdersOf(State(), owner) + {e.orderId})];
    }

    /** Reads the resting amount of a registered order by searching its level. */
    method RestingAmount(id: OrderId) returns (amount: Amount)
      requires Valid() && id in orders
      ensures amount == AmountOf(State(), id) && amount > 0
    {
      var kb := orders[id];
      var q := SideOf(State(), kb.nature)[kb.price];
      var k := EntryOfRegistered(State(), id);
      var found := FindEntry(q, id);
      assert found.Some?;
      var j := found.value;
      AmountInAt(q, j);
      amount := q[j].amount;
    }

    /**
     * Sets the amount of registered order `id` to `a` and settles its level;
     * at zero, also removes the order from the registry and its owner's list.
     */
    method SetOrderAmount(id: OrderId, a: Amount)
      requires Valid() && id in orders && a < AmountOf(State(), id)
      modifies this
      ensures Valid()
      ensures State() == Settled(old(State()), id, a)
    {
      SettledFields(State(), id, a);
      UpdateFields(id, a);
    }

    /**
     * The field updates behind `SetOrderAmount`, an internal step of it: the
     * settled level replaces the old one (or the price is removed), and at
     * amount zero the order leaves the registry and its owner's list. On its
     * own it does not keep `Valid()`; `SetOrderAmount` shows, by
     * `SettledFields`, that below the resting amount these updates produce
     * `Book.Settled`'s state, which is consistent.
     */
    method UpdateFields(id: OrderId, a: Amount)
      requires id in orders && orders[id].price in SideOf(State(), orders[id].nature)
      modifies this
      ensures State() == ApplyAmount(old(State()), id, a)
    {
      var kb := orders[id];
      match kb.nature {
        case Bid => bids := Resettle(bids, kb.price, Settle(bids[kb.price], id, a));
        case Ask => asks := Resettle(asks, kb.price, Settle(asks[kb.price], id, a));
      }
      if a == 0 {
        var owner := kb.account.owner;
        accountInfo := accountInfo[owner := AccountInfo(OrdersOf(State(), owner) - {id})];
        orders := orders - {id};
      }
    }

    /** Cancels order `id` on behalf of `owner`, or reports why it cannot. */
    method CancelOrder(owner: AccountOwner, id: OrderId) returns (r: Outcome<MatchingEngineError>)
      requires Valid()
      modifies this
      ensures Valid()
      ensures (r, State()) == Cancel(old(State()), owner, id)
    {
      r := Check(State(), id, owner);
      if r.Pass? {
        SetOrderAmount(id, 0);
      }
    }

    /**
     * Reduces order `id` of `owner` to `newAmount`, refusing an amount that is
     * not below the resting one; a zero amount cancels.
     */
    method ModifyOrder(owner: AccountOwner, id: OrderId, newAmount: Amount) returns (r: Outcome<MatchingEngineError>)
      requires Valid()
      modifies this
      ensures Valid()
      ensures (r, State()) == Modify(old(State()), owner, id, newAmount)
    {
      r := Check(State(), id, owner);
      if r.Pass? {
        var current := RestingAmount(id);
        if newAmount >= current {
          r := Fail(TooLargeModifyOrder);
        } else {
          SetOrderAmount(id, newAmount);
        }
      }
    }
  }

  /**
   * Rest an ask of 5 at price 10 in a fresh engine; a modification to 6 is
   * refused as too large, one to 4 goes through and leaves 4 resting.
   */
  method ModifyScenario(account: Account) returns (tooLarge: Outcome<MatchingEngineError>, reduced: Outcome<MatchingEngineError>, left: Amount)
    ensures tooLarge == Fail(TooLargeModifyOrder)
    ensures reduced == Pass
    ensures left == 4
  {
    var m := new MatchingEngine();
    var r := m.TakeNextId();
    assert r == Success(0);
    m.InsertOrder(Ask, 10, 5, account, 0);
    assert m.asks[10] == [OrderEntry(5, account, 0)];
    assert AmountOf(m.State(), 0) == 5;
    tooLarge := m.ModifyOrder(account.owner, 0, 6);
    reduced := m.ModifyOrder(account.owner, 0, 4);
    left := m.RestingAmount(0);
  }

  /**
   * Rest a bid of 2 at price 8 and cancel it: the owner no longer lists it,
   * the registry forgets it and the price level is gone; a second
   * cancellation finds no such order.
   */
  method CancelScenario(account: Account) returns (cancelled: Outcome<MatchingEngineError>, again: Outcome<MatchingEngineError>,
                                                   levelGone: bool, registered: bool, listed: set<OrderId>)
    ensures cancelled == Pass
    ensures again == Fail(OrderNotPresent)
    ensures levelGone
    ensures !registered
    ensures listed == {}
  {
    var m := new MatchingEngine();
    var r := m.TakeNextId();
    m.InsertOrder(Bid, 8, 2, account, 0);
    assert m.bids[8] == [OrderEntry(2, account, 0)];
    cancelled := m.CancelOrder(account.owner, 0);
    levelGone := 8 !in m.bids;
    registered := 0 in m.orders;
    listed := OrdersOf(m.State(), account.owner);
    again := m.CancelOrder(account.owner, 0);
  }
}
