/**
 * The value types of the matching engine's persistent state: order entries,
 * registry entries, account index entries and the order-related errors.
 */
module Types {

  /** `Amount` is a 128-bit unsigned quantity of token1 (never negative). */
  const MAX_AMOUNT: nat := 0xFFFF_FFFF_FFFF_FFFF_FFFF_FFFF_FFFF_FFFF
  type Amount = a: nat | a <= MAX_AMOUNT

  /** `OrderId` is a 64-bit unsigned integer issued by the order counter. */
  const MAX_ORDER_ID: nat := 0xFFFF_FFFF_FFFF_FFFF
  type OrderId = i: nat | i <= MAX_ORDER_ID

  /** A price; only its total order matters to the state. */
  type Price = nat

  type ChainId = nat
  type AccountOwner = nat

  /** A fungible-token account: the chain it lives on and its owner. */
  datatype Account = Account(chainId: ChainId, owner: AccountOwner)

  /** The side of an order. */
  datatype OrderNature = Bid | Ask

  /** One entry of a price level's queue. */
  datatype OrderEntry = OrderEntry(amount: Amount, account: Account, orderId: OrderId)

  /** What the registry records about an order: where it rests and who owns it. */
  datatype KeyBook = KeyBook(price: Price, nature: OrderNature, account: Account)

  /** The set of order ids an owner holds. */
  datatype AccountInfo = AccountInfo(orders: set<OrderId>)

  /** The user-facing errors of the state's order operations. */
  datatype MatchingEngineError =
    | TooLargeModifyOrder
    | OrderNotPresent
    | WrongOwnerOfOrder
    | ArithmeticError
}
