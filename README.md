# Matching engine state — a verified Dafny model

This project models the persistent state of the Linera matching-engine
example application (`examples/matching-engine/src/state.rs`). That state is
one root object with five fields:

- `next_order_number`, the counter that issues order ids from 0 upwards;
- `bids` and `asks`, one price level per price, each level a FIFO queue of
  order entries (amount, account, order id), oldest first;
- `orders`, the registry from order id to `KeyBook` (price, nature, account);
- `account_info`, the index from owner to the set of order ids that owner holds.

The source file declares these structures and states their invariants in doc
comments. It has no functions. The model turns those comments into
operations on the state and proves that each operation keeps the invariants.

Modules, one file each:

- `Wrappers` (`wrappers.dfy`): the `Option`, `Result` and `Outcome` types
  that carry absent values and error results.
- `Types` (`types.dfy`): the value types `OrderEntry`, `KeyBook`,
  `AccountInfo` and `Account`. It also holds the bounded `Amount` (128-bit)
  and `OrderId` (64-bit), and the order-related `MatchingEngineError`
  variants.
- `Level` (`level.dfy`): one price level as a sequence of entries.
  - A cancelled entry is set to amount zero. Such a zero entry is a "tombstone".
  - Leading tombstones are dropped, so a stored level always starts with a
    live entry.
  - `FindEntry` is the loop that locates an order inside a level.
- `PriceOrder` (`price_order.dfy`): the iteration order of a side.
  - Bids are visited from the highest price down, asks from the lowest up.
  - This is modelled as the unique "best first" arrangement of a side's
    prices, not as a key encoding.
- `Book` (`book.dfy`): the root state as an `EngineState` value.
  - The invariant `Consistent` combines well-formed levels, "every live entry
    is registered", "every registered order rests live where its registry
    entry says", and "registry and account index agree".
  - It defines the transitions on that value, and the lemmas about them.
- `Engine` (`engine.dfy`): the class `MatchingEngine`, with one mutable field
  per state field.
  - The operations `TakeNextId`, `InsertOrder`, `SetOrderAmount`,
    `CancelOrder` and `ModifyOrder` update the fields in place. Each is
    proved to perform exactly the corresponding `Book` transition and to
    keep `Valid()`.
  - `RestingAmount` reads an order's amount from its level and changes no
    field.
  - `AppendFields` and `UpdateFields` are internal field-update steps of
    `InsertOrder` and `SetOrderAmount`. Each one equals `Book.Appended` /
    `Book.ApplyAmount` of the old state. They keep the invariant only
    through `RestFields` / `SettledFields`, which their callers invoke.
  - It also holds two scenario methods.

Two doc comments in `state.rs` do not fit the rest of the file:

- The asks comment (state.rs:116-117) says asks are keyed "by the bitwise
  complement of the price". The same comment then says asks go smallest price
  first, and a complement key would put them largest first. The model follows
  the stated smallest-first order.
- The `orders` comment (state.rs:121) says the registry holds "nature, owner,
  amount". `KeyBook` (state.rs:77-84) has no amount field. The model's
  registry holds price, nature and account only, and an order's amount lives
  in its level entry.

The file says only that a cancelled entry is set to zero and stays as a
zero-size entry unless it is the oldest (state.rs:96-98). It says nothing about
modification, about the tombstones left behind a removed front entry, or about
emptied levels. The model makes three decisions there, consistent with the
error names and the level comments of the file:

- modification only reduces an order, and an amount not strictly below the
  resting one is refused with `TooLargeModifyOrder` (the name of that error
  is all the file gives);
- a modification to zero is a cancellation;
- a level left with no live entry is removed from its side; together with the
  rule of state.rs:96-98 that a cancelled oldest order does not remain, a
  stored level then always starts with a live entry.

## Model

| member | source | states |
|---|---|---|
| Level.AppendWellFormed | examples/matching-engine/src/state.rs:94-95 | appending a fresh live entry keeps the level well formed (oldest first, strictly increasing ids); the old entries are a prefix of the new level in the same order, the new entry is last, and the live set gains exactly that order |
| Level.LiveAppend | examples/matching-engine/src/state.rs:94-95 | appending a live entry adds exactly its (order id, account) to the level's live orders |
| Level.Oldest | examples/matching-engine/src/state.rs:95 | the front of a non-empty level is an entry of the level, is live, and has an id no larger than any entry's; since ids increase strictly along the level, that entry is the oldest one; None exactly for the empty level |
| Level.FindEntry | examples/matching-engine/src/state.rs:70-71 | the loop returns the first index whose entry has the given order id, or None exactly when no entry has it |
| Level.DropLeadingZeros | examples/matching-engine/src/state.rs:96-98 | the result is a suffix of the level, everything dropped has amount zero, and the result is empty or starts with a live entry |
| Level.LiveDrop | examples/matching-engine/src/state.rs:96-98 | dropping leading tombstones loses no live order |
| Level.CancelNotOldest | examples/matching-engine/src/state.rs:96-98 | cancelling an entry that is not the oldest keeps the level's length, zeroes that entry in its slot with its id and account unchanged, and leaves every other entry as it was |
| Level.CancelOldest | examples/matching-engine/src/state.rs:96-98 | cancelling the oldest entry removes it from the front (together with any tombstones behind it) instead of leaving a tombstone; no entry of the result carries its id |
| Level.ReduceKeepsPosition | examples/matching-engine/src/state.rs:94-98 | reducing a live entry to a positive amount changes exactly that entry's amount and keeps its position |
| Level.SettleWellFormed | examples/matching-engine/src/state.rs:94-98 | setting an entry's amount and dropping leading tombstones leaves an empty or well-formed level whose live set loses the order at zero and keeps it otherwise |
| Level.AmountInAt | examples/matching-engine/src/state.rs:66-71 | in an arrival-ordered level, the amount looked up by an entry's order id is that entry's amount |
| Level.IdsUnique | examples/matching-engine/src/state.rs:94-95 | within a level an order id occurs in at most one slot |
| PriceOrder.Best | examples/matching-engine/src/state.rs:112-119 | the best price of a non-empty set of levels is in the set and strictly better than every other: highest for bids, lowest for asks |
| PriceOrder.BestFirst | examples/matching-engine/src/state.rs:112-119 | the iteration order of a side lists each price exactly once, each strictly better than every later one, starting at the best price |
| PriceOrder.BestFirstUnique | examples/matching-engine/src/state.rs:112-119 | any arrangement of a side's prices in which each is better than all later ones is the iteration order |
| PriceOrder.BidsHighestFirst | examples/matching-engine/src/state.rs:112-115 | the bid side is visited in strictly decreasing price, starting at the highest bid |
| PriceOrder.AsksLowestFirst | examples/matching-engine/src/state.rs:116-119 | the ask side is visited in strictly increasing price, starting at the lowest ask |
| Book.Initial | examples/matching-engine/src/state.rs:105-111 | the empty state, with the counter at 0, is consistent |
| Book.NextId | examples/matching-engine/src/state.rs:109-111 | issuing an id returns the counter and advances it by one. The returned id is in no level and not in the registry. The state stays consistent. At the 64-bit maximum it fails with `ArithmeticError` and changes nothing |
| Book.FirstIdIsZero | examples/matching-engine/src/state.rs:109-110 | the first id issued in a fresh state is 0 |
| Book.IdsIncrease | examples/matching-engine/src/state.rs:109-111 | two successive issues return consecutive, strictly increasing ids; the second is newer than every order in the book and unused |
| Book.Rest | examples/matching-engine/src/state.rs:120-125 | resting a fresh order appends its entry at the back of the level at its price on its own side. The opposite side is unchanged. The order is registered with its price, nature and account, and is added to its owner's set and to no other. The counter is unchanged and the state stays consistent |
| Book.AmountOf | examples/matching-engine/src/state.rs:66-67 | a registered order's resting amount is positive |
| Book.Settled | examples/matching-engine/src/state.rs:96-98 | setting a registered order below its resting amount settles its level (zero in place, drop leading tombstones, remove the level if empty) and leaves the opposite side alone. At zero the order leaves the registry and its owner's set; above zero the registry and index are unchanged and the new amount is the order's amount. The state stays consistent |
| Book.Check | examples/matching-engine/src/state.rs:38-44 | `OrderNotPresent` exactly when the id is not registered; `WrongOwnerOfOrder` exactly when it is registered to another owner; success exactly when the id is in the caller's account set |
| Book.Cancel | examples/matching-engine/src/state.rs:38-44 | cancellation reports the check's outcome. On an error nothing changes. On success the order is zeroed in its level and removed from the registry and from its owner's set. The state stays consistent |
| Book.Modify | examples/matching-engine/src/state.rs:34-44 | after the checks pass, `TooLargeModifyOrder` exactly when the new amount is not strictly below the resting amount; on any error nothing changes; on success the order's amount is set in place; the state stays consistent |
| Book.Front | examples/matching-engine/src/state.rs:112-119 | the first order a counterparty meets on a side is the oldest entry of the best level: it is registered at the best price with its full amount, and every other order registered on that side has a worse price, or the same price and a later id |
| Book.CancelSoleOrderRemovesLevel | examples/matching-engine/src/state.rs:96-98 | cancelling the only live order of a level removes that price from its side, also when tombstones of earlier cancellations sit behind it |
| Book.CancelLeavesNoLiveEntry | examples/matching-engine/src/state.rs:96-98 | after a successful cancellation no level of either side holds a live entry of that order |
| Book.ModifyToZeroIsCancel | examples/matching-engine/src/state.rs:34-36 | modifying an order to amount zero is the same transition as cancelling it |
| Book.OwnershipEnforced | examples/matching-engine/src/state.rs:42-44 | cancelling or modifying an order registered to another owner fails with `WrongOwnerOfOrder` and leaves the state unchanged |
| Book.AbsentOrderRejected | examples/matching-engine/src/state.rs:38-40 | cancelling or modifying an unregistered id fails with `OrderNotPresent` and leaves the state unchanged |
| Engine.MatchingEngine.constructor | examples/matching-engine/src/state.rs:105-111 | a new engine holds the empty consistent state with the counter at 0 |
| Engine.MatchingEngine.TakeNextId | examples/matching-engine/src/state.rs:109-111 | advances the counter in place exactly as `Book.NextId` and keeps the invariant |
| Engine.MatchingEngine.InsertOrder | examples/matching-engine/src/state.rs:120-125 | appends to the level and inserts into the registry and the account index in place, exactly as `Book.Rest`, keeping the invariant |
| Engine.MatchingEngine.RestingAmount | examples/matching-engine/src/state.rs:66-71 | searching the order's level with `FindEntry` returns the order's resting amount, which is positive |
| Engine.MatchingEngine.SetOrderAmount | examples/matching-engine/src/state.rs:96-98 | updates the level and, at zero, the registry and index in place, exactly as `Book.Settled`, keeping the invariant |
| Engine.MatchingEngine.CancelOrder | examples/matching-engine/src/state.rs:38-44 | performs `Book.Cancel` in place and keeps the invariant |
| Engine.MatchingEngine.ModifyOrder | examples/matching-engine/src/state.rs:34-44 | performs `Book.Modify` in place, reading the resting amount from the level, and keeps the invariant |
| Engine.ModifyScenario | examples/matching-engine/src/state.rs:34-36 | in a fresh engine, an ask of 5 at price 10 cannot be modified to 6 (`TooLargeModifyOrder`); it can be modified to 4, after which 4 rests |
| Engine.CancelScenario | examples/matching-engine/src/state.rs:38-40 | in a fresh engine, a bid of 2 at price 8 is cancelled successfully; afterwards its price level is gone, the registry no longer holds it, its owner's set of ids is empty, and cancelling it again fails with `OrderNotPresent` |

## Left out

- The crossing loop, order placement with matching, token transfers and trade records: they live in the contract, which is not part of this model. Placement is modelled only as resting a fresh order (`Book.Rest`).
- The cancel and modify code of the contract: `Book.Cancel` and `Book.Modify` model only the checks whose errors the file names and the in-place level update its level comments describe.
- The bitwise-complement key encoding of `PriceBid`/`PriceAsk` (defined in the `matching_engine` crate, not part of this model): only the resulting iteration order is modelled.
- Storage and view plumbing (`RootView`, `View`, `QueueView`, `MapView`, `CustomCollectionView`, `ViewError`): fields are plain Dafny maps and sequences, and storage failures are not modelled.
- Serialisation and presentation (serde, BCS, GraphQL derives, `InvalidQuery`, `BcsError`).
- Authentication, chain-of-origin and permission errors (`IncorrectAuthentication`, `MatchingEngineChainOnly`, `SessionsNotSupported`, `CloseChainError`): they are enforced by the host.
- `Amount` internals and its arithmetic errors: amounts are naturals up to the 128-bit maximum, and the model never adds amounts.
- `OrderId` width: the type is defined outside this model; it is taken as a 64-bit unsigned integer, and running out of ids fails with `ArithmeticError`.
- `Price` is an unbounded natural; only its order matters to the state.
- Book.Settled: when an owner's last order is removed, the owner's account-index entry stays with an empty set; the source does not say whether the entry is deleted, and every property is stated through the owner's set of ids, which is empty either way.
- Book.Modify: the source file only names `TooLargeModifyOrder`; the rule that an amount not strictly below the resting one is refused, and that zero cancels, is the model's own reading of that error name, since the file holds no code for it.
