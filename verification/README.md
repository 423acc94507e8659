# Order engine: a Dafny model

The program is a Go service that sells products: clients create, confirm and cancel orders through
GraphQL, and PostgreSQL keeps products, orders and order items. This project models its
transactional core and proves what the program promises about it: no overselling, all-or-nothing
orders, one transition per order, stock given back at most once, and no deadlock, for any number of
calls interleaved in any way.

`dafny verify dfyconfig.toml` checks everything.

## How it is built

* **Entities and statements.** `Uuid` has the ids, their text (section 4 of RFC 9562) and both orders
  the program uses; `Domain` the order and its state machine; `Merge` the merging of order lines;
  `Repository` the tables and what each repository statement computes on them, error cases included.
* **Serial specification.** `Orders.Apply` is one Create, Cancel or Confirm that runs alone: the
  database it leaves and the answer it gives. `Effects`, `Outcome`, `RoundTrip` and `Answers` prove what
  it means without reference to its body: exactly when each call succeeds, with which error it fails
  otherwise, what it answers and what the tables hold afterwards, column by column.
* **Code.** `Store.Tables` and `Service.OrderUseCase` are the repositories, the transaction manager
  and the use cases statement by statement, updating tables in place. Each method is proved equal to
  its specification function, so everything proved about `Apply` holds of the code.
  `Steps` proves that the calls of each body are the steps of the machine below: same answers, same
  contents, same rows locked.
* **Concurrency.** `Machine` cuts a transaction into its repository calls, each working on the rows
  the transaction has locked or inserted. `World` interleaves any number of them with price changes
  by others and with crashes (a panic, or a commit that fails), under row locks held to the end.
  `World.RunsAreSerial` proves that every run is a serial history of `Apply`; `Conservation`,
  `History`, `SellOut`, `Erasure`, `Deadlock` and `Cycle` build on it.
* **Reading.** `Batch` compares the batched item query with loading orders one by one, `Paging` the
  page arithmetic with what LIMIT and OFFSET select, `Filter` the generated WHERE clause with what a
  filter asks for.

## Choices

* Ids in requests are text and are read as the 36-character form of RFC 9562 in either letter case.
  `Uuid.Canonical` is the lower-case text the database prints. Nothing is assumed about the spelling a
  client uses; where a property needs canonical spelling, it is proved if and only if.
* Go's `int` is 64 bits with wrap-around, the quantity and stock columns are 32 bits with an error on
  overflow. A quantity outside the column range is refused before the statement runs and gives an
  internal error. Prices and totals are real numbers, times are integers of which only order and
  equality matter.
* A generated id and the current time are parameters of a call; generated ids are unused and
  pairwise distinct. The catalogue is fixed and no row is deleted; only prices change from outside.
* A row of `order_items` is kept inside its order, under its product, which is its primary key.
* A locking read or an update waits while another transaction holds the row, then sees its latest
  committed value; locks are held until commit or rollback, and what a transaction has written is
  visible to it alone until then (`internal/domain/ports.go`, lines 35-37 and 53-56). A transaction
  whose body fails takes its place in the serial history at the failing call, one that succeeds at
  its commit.
* A database is `Conservation.Healthy` if the constraints of the schema hold, every order has items,
  `cancelled_at` is set exactly for cancelled orders, and the units of each product, in stock and in
  live orders together, fit the stock column. It is an invariant of every run.

## Where the code does less than it says

* **Cancelling under another spelling loses stock.** `GetByID` finds the order under any spelling of
  its id but looks its items up under the caller's text, while they are filed under the text the
  database prints. A Cancel with an upper-case id succeeds, marks the order cancelled and gives
  nothing back (`Spelling.MisspeltCancelLosesStock`). Stock is conserved over a run if and only if
  every committed Cancel was canonical (`Conservation.ConservedIffCanonical`).
* **Another spelling can deadlock.** Lines are sorted by text and claimed to be locked in one global
  order. That is the order of the ids for canonical text (`Uuid.TextOrderIsValueOrder`), but not
  otherwise (`Spelling.UpperCaseCanDeadlock`). `Cycle.DeadlockIffHoldAndWait` gives the exact condition
  for any set of orders on the stock before they run, and `Spelling.DeadlockProneIff` the one on the
  product texts of a single order among canonical clients.
* **Another spelling can fail or change an order.** A product listed under two spellings is not
  merged; the second item row violates the primary key and Create fails with an internal error
  (`Spelling.DoubledSpellingIsInternal`; `Outcome.CreateSucceedsIff` for the exact condition). An order
  loads back equal to what Create answered if and only if the request named its products canonically
  (`RoundTrip.CreateThenGet`; `Spelling.UpperCaseReloadsDifferently` for one that does not).
* **Short stock is not always reported as such.** `internal/domain/ports.go`, lines 42-43, promises an
  insufficient-stock error whenever less is there than was asked for. A quantity beyond 32 bits is an
  internal error instead, and two GraphQL lines can add up to one
  (`Outcome.DoubledMaximumIsInternal`). A request that runs short gets the promised answer if and only
  if the merged quantity fits the column (`Outcome.ShortStockAnswer`, `Outcome.InsufficientStockIff`).
  Sums that wrap around 64 bits are outside what a GraphQL `Int` can express
  (`Merge.NoOverflowWithinGraphQLInt`).
* The comment above `mergeLines` says that it keeps the order of first appearance; the code sorts.

## Model

| member | source | states |
|---|---|---|
| Uuid.ParseFormat | internal/repository/postgres/order_repo.go:141-146 | an id the database prints is read back as the same id and is canonical, so distinct ids have distinct text |
| Uuid.FormatShape | internal/repository/postgres/order_repo.go:141-146 | a printed id has 36 characters, hyphens at 8, 13, 18 and 23 and lower-case hexadecimal digits elsewhere |
| Uuid.ParseSpelling | internal/repository/postgres/order_repo.go:50-54 | a text names an id if and only if it is the printed text of the id up to the case of its letters; everything else is malformed |
| Uuid.LexTotal | internal/usecase/order_usecase.go:194 | Go's string comparison is a strict total order, so the sort has one result |
| Uuid.LexTransitive | internal/usecase/order_usecase.go:194 | that comparison is transitive |
| Uuid.LexDifference | internal/usecase/order_usecase.go:194 | the first character that differs decides the comparison |
| Uuid.LexPrefix | internal/usecase/order_usecase.go:194 | a text comes before its extensions |
| Uuid.TextOrderIsValueOrder | internal/usecase/order_usecase.go:191-194 | for any two ids, comparing canonical text as `mergeLines` does agrees with comparing the 128-bit values as `ORDER BY product_id` does |
| Uuid.ParseUpper | internal/repository/postgres/order_repo.go:50-52 | the upper-case text of an id names the same row |
| Uuid.UpperCaseInverts | internal/usecase/order_usecase.go:194 | for all ids that lead with a letter, upper-casing one sorts it before the other whatever their values |
| Merge.MergeLines | internal/usecase/order_usecase.go:178-196 | the map-and-list loop, the listing loop and the sort compute the merge function on every input, 64-bit wrap-around included |
| Merge.MergeOfIsMerge | internal/usecase/order_usecase.go:178-196 | the merge is strictly ascending, mentions exactly the requested texts, and carries each text's 64-bit sum |
| Merge.MergeDependsOnSums | internal/usecase/order_usecase.go:185-190 | that description has one solution, and it only depends on the texts and their sums |
| Merge.MergeIgnoresOrder | internal/usecase/order_usecase.go:191-194 | any permutation of the lines merges to the same list |
| Merge.MergeIdempotent | internal/usecase/order_usecase.go:176-178 | merging a merged list changes nothing |
| Merge.NoOverflowWithinGraphQLInt | internal/usecase/order_usecase.go:181-186 | with quantities up to 2^31 - 1 and at most 2^32 lines every partial sum stays below 2^63 and every merged quantity is the true, positive sum |
| Domain.NewOrder | internal/domain/order.go:34-58 | empty order without items; the first bad item decides the error, its quantity before its price; otherwise the given id, user, items and creation time, pending, not cancelled, with the total of the items |
| Domain.FirstItemError | internal/domain/order.go:39-47 | no complaint exactly when every quantity and every unit price is positive |
| Domain.OrderEntity.Confirm | internal/domain/order.go:61-67 | a pending order becomes confirmed, any other is an error and keeps its status; the cancellation time and everything else stay in both cases |
| Domain.OrderEntity.Cancel | internal/domain/order.go:71-78 | a pending order becomes cancelled at the given time, any other is an error and keeps status and time; everything else stays in both cases |
| Repository.SortedKeys | internal/repository/postgres/order_repo.go:133 | ordering by id lists each id once, ascending |
| Repository.GetProductOutcome | internal/repository/postgres/product_repo.go:89-100 | the row a well-formed id names, product-not-found otherwise |
| Repository.DecrementOutcome | internal/repository/postgres/product_repo.go:127-148 | in this order: beyond 32 bits internal, missing product, short stock; otherwise that one product's stock goes down and nothing else changes |
| Repository.IncrementOutcome | internal/repository/postgres/product_repo.go:151-158 | a malformed id or a stock out of range is an error, a missing product is not; otherwise that one product's stock goes up and nothing else changes |
| Repository.GetOrderOutcome | internal/repository/postgres/order_repo.go:49-66 | found under every spelling of its id and loaded column by column, with its items exactly under the printed id; order-not-found otherwise |
| Repository.ItemListOutcome | internal/repository/postgres/order_repo.go:132-147 | each stored item once, by ascending product, under the printed product id with its own quantity and price |
| Repository.UpdateStatusOutcome | internal/repository/postgres/order_repo.go:111-124 | status and cancellation time of the named order and no other column; order-not-found otherwise |
| Store.Tables.Begin | internal/repository/postgres/tx.go:44-47 | the contents at the start are kept for rollback |
| Store.Tables.Rollback | internal/repository/postgres/tx.go:55-58 | the tables are what they were at the start and no row stays locked |
| Store.Tables.Commit | internal/repository/postgres/tx.go:59-62 | the written rows stay and no row stays locked |
| Store.Tables.Lock | internal/repository/postgres/tx.go:83-94 | a row is locked inside a transaction and only there |
| Store.Tables.GetProduct | internal/repository/postgres/product_repo.go:89-100 | the row, or product-not-found for a missing or malformed id; the found row is locked inside a transaction |
| Store.Tables.DecrementStock | internal/repository/postgres/product_repo.go:127-148 | the conditional update and its second query: exact new tables, or not found, insufficient stock or an internal error with nothing changed |
| Store.Tables.Exists | internal/repository/postgres/product_repo.go:160-171 | true exactly for an id that parses and has a row |
| Store.Tables.IncrementStock | internal/repository/postgres/product_repo.go:151-158 | exact new tables; a missing product changes nothing and is not an error |
| Store.Tables.InsertOrder | internal/repository/postgres/order_repo.go:28-45 | exact tables and locks in every case: the new order with all its items, or an error with the rows written before the first violated constraint |
| Store.ItemsWrittenUpToError | internal/repository/postgres/order_repo.go:36-43 | those rows are the longest prefix of the items that meets every constraint, all of them exactly on success |
| Store.Tables.GetOrder | internal/repository/postgres/order_repo.go:49-66 | the order with its items by ascending product, without items under a spelling that is not canonical, or order-not-found; the found row is locked inside a transaction |
| Store.Tables.UpdateStatus | internal/repository/postgres/order_repo.go:111-124 | only status and cancellation time of the one row change; order-not-found otherwise |
| Store.Tables.ItemsByOrderIDs | internal/repository/postgres/order_repo.go:127-152 | each wanted order finds its own item list under its printed id, and only printed ids are in the map |
| Store.Tables.ListByUser | internal/repository/postgres/order_repo.go:69-108 | under any page and page size, the window of the user's orders, newest first, each with its own columns and items, or the error of a negative limit or offset, and the number of all of them |
| Store.UserOrdersAreLoaded | internal/repository/postgres/order_repo.go:99-107 | the orders a listing is a window of are, one by one, what loading under the printed id returns |
| Store.UserOrdersListed | internal/repository/postgres/order_repo.go:77-107 | a user's listing holds exactly the user's stored orders, each column by column with its items, newest first and by id within one time |
| Store.UserPagesPartition | internal/usecase/order_usecase.go:91-98 | under any requested page size, the pages 1 to TotalPages at the program's offsets are the user's orders, each once and in order, and there is a next page exactly while orders remain |
| Service.OrderUseCase.Create | internal/usecase/order_usecase.go:44-88 | tables and answer are those of the serial specification, on every input; no transaction stays open |
| Service.OrderUseCase.CreateBody | internal/usecase/order_usecase.go:59-82 | the reservation loop, the order and its insertion compute the body of the specification and lock exactly the rows it locks |
| Service.OrderUseCase.ReserveLines | internal/usecase/order_usecase.go:59-73 | the loop prices and takes the merged lines as the specification does, and locks exactly their products |
| Service.OrderUseCase.PlaceOrder | internal/usecase/order_usecase.go:74-82 | building and inserting the order gives the tables and answer of the specification and locks exactly the new order |
| Service.OrderUseCase.Cancel | internal/usecase/order_usecase.go:113-141 | tables and answer are those of the serial specification, on every input |
| Service.OrderUseCase.CancelBody | internal/usecase/order_usecase.go:115-136 | load, owner check, transition, restocking loop and status update compute the body of the specification and lock exactly the rows it locks |
| Service.OrderUseCase.Confirm | internal/usecase/order_usecase.go:144-167 | tables and answer are those of the serial specification, on every input |
| Service.OrderUseCase.ConfirmBody | internal/usecase/order_usecase.go:146-162 | load, owner check, transition and status update compute the body of the specification and lock exactly the rows it locks |
| Service.OrderUseCase.Get | internal/usecase/order_usecase.go:101-110 | the stored order column by column for its owner, not-owned for anybody else, order-not-found for an id that names none; nothing is locked or written |
| Service.OrderUseCase.MyOrders | internal/usecase/order_usecase.go:91-98 | the normalized page of the caller's own orders, newest first, each with its own columns and items, with the full count |
| Outcome.CreateSucceedsIff | internal/usecase/order_usecase.go:44-88 | Create succeeds if and only if there are lines, all quantities are positive, every product exists with stock for the sum asked of it, no product is spelt in two ways, the user exists and the id is unused |
| Outcome.CreateOutcome | internal/usecase/order_usecase.go:44-88 | the answer on every other input: bad quantity, empty order, the refusal of the first refused line in merged order, an overflown sum, or a row the tables cannot take; the price check never rejects |
| Answers.CreateErrors | internal/usecase/order_usecase.go:44-88 | empty order if and only if there are no lines, product-not-found if and only if all quantities are positive and the first line that cannot be taken names no product, and never an error of another operation or a price |
| Outcome.InsufficientStockIff | internal/domain/ports.go:42-44 | on every request, the answer is insufficient stock if and only if a merged line is the first to run short and its quantity fits 32 bits |
| Outcome.ShortStockAnswer | internal/domain/ports.go:42-44 | a request that runs short is answered with insufficient stock if and only if the merged quantity fits 32 bits, and with an internal error if and only if it does not |
| Outcome.DoubledMaximumIsInternal | internal/domain/ports.go:42-44 | asking twice for the greatest GraphQL quantity of any product, which is more than any stock, is answered with an internal error |
| Outcome.ReserveOutcome | internal/usecase/order_usecase.go:60-73 | taking lines one by one fails exactly with the first refusal, each line being judged on the stock the earlier lines leave |
| Outcome.TransitionOutcome | internal/usecase/order_usecase.go:113-167 | Cancel and Confirm answer by existence, then owner, then state, and otherwise succeed with the stored order, column by column, in its new state: given-back stock always fits its column |
| Outcome.RestockSucceeds | internal/repository/postgres/product_repo.go:151-158 | giving back items succeeds whenever the sums fit the column |
| Effects.CreateEffect | internal/usecase/order_usecase.go:58-83 | after a Create each product has its stock less the units bought, the new order stores exactly the bill, one row per product, at the products' prices, owned by the caller, created at the given time and pending, and nothing else has changed |
| Answers.CreateAnswer | internal/usecase/order_usecase.go:74-87 | answer and stored row carry the generated id, the caller, the given time, pending, no cancellation time and, as total, the sum of quantity times price over the stored rows |
| Answers.CreateAnswerItems | internal/usecase/order_usecase.go:52-73 | one item for each requested text and no other, ascending, with the sum asked for and the price the product has |
| Answers.CreateTables | internal/usecase/order_usecase.go:65-81 | each product has its stock less the quantity stored for it and is otherwise as before, and so are users and other orders |
| Answers.TransitionAnswer | internal/usecase/order_usecase.go:115-166 | the answer of a Cancel or Confirm has every column of the stored order but the new status, and for a Cancel the given time; its items exactly under the printed id |
| Answers.CancelTables | internal/usecase/order_usecase.go:126-131 | the order is cancelled at the given time and, under the printed id, each product gets back exactly the stored quantity; nothing else changes |
| Answers.ConfirmTables | internal/usecase/order_usecase.go:157-159 | the order is confirmed without a cancellation time and nothing else changes |
| Answers.TransitionThenGet | internal/usecase/order_usecase.go:101-167 | from any healthy database, loading the order under the same text afterwards gives exactly what Cancel or Confirm answered |
| Effects.CancelEffect | internal/usecase/order_usecase.go:115-136 | after a Cancel a pending order of the caller is cancelled and its stored units are back, or none of them under another spelling, and nothing else has changed |
| Effects.ConfirmEffect | internal/usecase/order_usecase.go:146-162 | after a Confirm a pending order of the caller is confirmed without cancellation time and nothing else has changed |
| Effects.ReserveEffect | internal/usecase/order_usecase.go:60-73 | the loop adds up to one subtraction of all units per product, at the prices before the loop |
| Effects.RestockEffect | internal/usecase/order_usecase.go:126-130 | the loop adds up to one addition of all units per product |
| Effects.InsertItemsSucceeds | migrations/00001_init.sql:29-35 | inserting items succeeds if and only if products exist, quantities and prices are in range and no product occurs twice or is already there |
| Effects.StoredUnits | migrations/00001_init.sql:29-35 | with the primary key in place the stored quantity of a product is the number of units bought |
| Effects.TransactionShape | internal/usecase/order_usecase.go:44-167 | every successful transaction moves stock of some products and writes one order row, new or pending before |
| RoundTrip.CreateThenGet | internal/repository/postgres/order_repo.go:28-66 | a created order is found with the same owner, total, status and times, and comes back equal, item for item in order, if and only if the request named every product canonically |
| RoundTrip.CreateThenCancel | internal/usecase/order_usecase.go:113-141 | from any healthy database, the owner of a created order can cancel it under the id answered, and every product is restored |
| RoundTrip.StoredTotal | internal/domain/order.go:38-57 | the total is the sum of quantity times price over the stored rows, in whatever order and spelling the products were listed |
| RoundTrip.OrderTotalOne | internal/domain/order.go:48 | the total of one item is quantity times price |
| RoundTrip.OrderTotalConcat | internal/domain/order.go:38-48 | the total of two lists together is the sum of their totals |
| RoundTrip.AscendingIsSorted | internal/repository/postgres/order_repo.go:133 | an ascending list of exactly the ids of a set is the list ORDER BY returns |
| Machine.StepOwnsRow | internal/repository/postgres/tx.go:88-94 | a call that goes on owns the row it needed, and no row is given up before the end |
| Machine.IterateFrame | internal/domain/ports.go:53-56 | a running transaction would stand where it stands had it run on any database that agrees on the rows it owns |
| Machine.IterateKeepsMeaning | internal/usecase/order_usecase.go:58-83 | after any number of calls, what is left to do is still exactly the whole body: the machine computes the serial specification |
| Steps.BodyEndsAsMachine | internal/usecase/order_usecase.go:58-162 | every body ends as the machine does: on success with the same contents and with exactly the rows locked that the machine owns before its commit, on failure with the same error |
| Steps.BodyReady | internal/repository/postgres/tx.go:55-62 | with the contents and locks the bodies above ensure, an open transaction stands exactly where the machine does before its commit; shown at each of the three commits |
| Steps.DecrementMirrors | internal/repository/postgres/product_repo.go:127-148 | a stock decrement in an open transaction answers, writes and locks as the machine's step does on the rows it owns |
| World.ExecKeepsInv | internal/repository/postgres/tx.go:43-63 | every action of anybody keeps the lock table exact and every running transaction explainable on the current committed database |
| World.DecisionIsSerial | internal/repository/postgres/tx.go:55-62 | a commit or failure is what the specification gives on the database committed at that moment |
| World.RunsAreSerial | internal/usecase/order_usecase.go:44-167 | serializability: after every run the committed database is that of a serial history holding each decided transaction once, and every caller's answer is the one it gets there |
| Conservation.TransactionSupply | internal/usecase/order_usecase.go:126-131 | each transaction keeps, for each product, stock plus the units in live orders, except for what a misspelt Cancel drops |
| Conservation.TransactionKeepsHealth | migrations/00001_init.sql:11-35 | no transaction takes the tables out of the constraints, leaves an order without items, or sets a cancellation time on any but a cancelled order |
| Conservation.NeverOversold | internal/repository/postgres/product_repo.go:125-148 | in every committed state of every run stock is at least zero and, with the units in live orders, at most what the run began with, and all constraints hold |
| Conservation.ConservedIffCanonical | internal/usecase/order_usecase.go:113-141 | over a run, stock plus live units is the same for every product if and only if every committed Cancel named its order canonically |
| Spelling.MisspeltCancelLosesStock | internal/repository/postgres/order_repo.go:60-64 | a Cancel under any other spelling succeeds with no items and every product of the order loses its units |
| Spelling.TwoSpellingsAreInternal | migrations/00001_init.sql:29-35 | one product under any two spellings, however much of it there is, is answered with an internal error |
| Spelling.DoubledSpellingIsInternal | migrations/00001_init.sql:29-35 | such a request for every id that leads with a letter: once canonically, once in upper case |
| Spelling.UpperCaseReloadsDifferently | internal/usecase/order_usecase.go:68-72 | for every id that leads with a letter, an order of it in upper case is accepted and does not load back equal |
| History.CommittedOrdersFollow | internal/repository/postgres/order_repo.go:110-124 | however a run goes on, a committed order keeps owner, items, prices, total and creation time, and confirmed or cancelled is final |
| History.CommitsBetweenQueries | internal/repository/postgres/order_repo.go:50-64 | an order read in two statements, with any commits between them, is the order as of the first |
| History.CommitsBetweenPageQueries | internal/repository/postgres/order_repo.go:77-107 | so is every order of a page whose items are loaded later |
| History.OneTransitionPerOrder | internal/usecase/order_usecase.go:113-167 | of any racing confirmations and cancellations of one order, however spelt, at most one commits |
| History.PricesAreSnapshots | internal/domain/order.go:14-20 | in every later state a committed order still has the prices its products had at its commit, and its total is the sum over its stored items |
| SellOut.BuyerOutcome | internal/repository/postgres/product_repo.go:127-148 | a single-line buyer succeeds exactly when the stock suffices, and then takes exactly its units |
| SellOut.ExactSellOut | internal/repository/postgres/postgres_test.go:262-294 | n answered buyers of q units each, in any interleaving: exactly min(n, stock / q) win and stock less q times that is left |
| Erasure.NoTrace | internal/repository/postgres/tx.go:43-63 | cutting every step of a transaction that has not committed out of a run leaves a run, ending in the same world without it |
| Erasure.FailuresAreInvisible | internal/repository/postgres/tx.go:39-58 | whenever a body fails or panics, the committed database and all other answers are those of a run it was never in |
| Deadlock.CanonicalLocksInOrder | internal/usecase/order_usecase.go:191-194 | canonical product ids are locked in ascending order of the rows |
| Deadlock.StepOrdered | internal/usecase/order_usecase.go:60-67 | every call keeps the products still to be locked above those held, for Create and for Cancel |
| Deadlock.NoDeadlock | internal/usecase/order_usecase.go:191-194 | in every reachable state with an unfinished transaction, somebody can make the next call, commit or roll back |
| Deadlock.EveryRunEnds | internal/usecase/order_usecase.go:44-167 | under any scheduler the calls, commits, rollbacks and crashes of a run are bounded by a number fixed at its start |
| Deadlock.StuckMeansFinished | internal/repository/postgres/tx.go:43-63 | a run that cannot go on has finished every transaction and holds no lock |
| Cycle.DeadlockIffHoldAndWait | internal/usecase/order_usecase.go:191-194 | any set of orders can deadlock if and only if, on the stock before they run, some of them can each take a first part of their lines, no product twice, and then wait for a product another one took |
| Cycle.HoldAndWaitDeadlocks | internal/usecase/order_usecase.go:60-67 | orders that can do so can deadlock in whatever company of orders, cancellations and confirmations |
| Spelling.DeadlockProneIff | internal/usecase/order_usecase.go:191-194 | over any catalogue with a unit for each line, an order of given product texts can deadlock among canonical clients if and only if, in text order, some product not yet locked follows a greater one |
| Spelling.UpperCaseCanDeadlock | internal/usecase/order_usecase.go:191-194 | for any two products in stock whose ids lead with a letter, a client writing the greater one in upper case can deadlock with one who does not, in whatever company |
| Batch.GroupRows | internal/repository/postgres/order_repo.go:140-147 | the grouping loop files exactly each order's rows under its printed id, in row order |
| Batch.BatchedIsSingle | internal/repository/postgres/order_repo.go:99-107 | whatever order the query breaks ties in, each order of a batch gets exactly the list it gets alone |
| Batch.SelectItemsIsQuery | internal/repository/postgres/order_repo.go:132-134 | the modelled query answer holds every item row of the wanted orders once, by product |
| Batch.ListingIsListing | internal/repository/postgres/order_repo.go:78 | the listing holds exactly the user's orders, later creation times first and ascending ids within one time |
| Paging.NormalizePagination | internal/usecase/pagination.go:34-45 | a page before the first becomes 1, a size below 1 becomes 20 and one above 100 becomes 100; valid values are unchanged |
| Paging.TotalPagesExactIff | internal/usecase/pagination.go:19-24 | the page count is the rounded-up quotient if and only if its 64-bit sum does not overflow |
| Paging.PagesPartition | internal/usecase/pagination.go:19-30 | pages 1 to TotalPages at the program's 64-bit offsets, one after the other, are the whole result, each row once and in order, and there is a next page if and only if rows remain |
| Paging.PageContents | internal/repository/postgres/order_repo.go:77-79 | row i of page k is row (k - 1) * size + i of the result, and every page but the last is full |
| Paging.PageOffset | internal/repository/postgres/order_repo.go:77-79 | the 64-bit offset of every existing page is the true one and lies within the result |
| Paging.OffsetExactIff | internal/repository/postgres/order_repo.go:77-79 | the 64-bit offset is the true one if and only if the true one is below 2^63 |
| Paging.OffsetFits | internal/repository/postgres/product_repo.go:42 | up to page 2^56 it always is |
| Filter.BuildProductFilter | internal/repository/postgres/product_repo.go:65-85 | for every filter the generated conditions, read against the generated arguments, select exactly the products meeting every criterion set, whatever ILIKE means |
| Filter.HoldsAllSnoc | internal/repository/postgres/product_repo.go:68-71 | adding a numbered condition with its argument adds exactly that condition |
| Filter.List | internal/repository/postgres/product_repo.go:31-62 | under any filter, page and page size, the total and the window of the matching products in listing order, or the error of a negative limit or offset |
| Filter.CatalogueIsCatalogue | internal/repository/postgres/product_repo.go:43-44 | under any collation, the listing holds exactly the products whose name is like the text between wildcards and whose price is within the bounds, as far as set, each once, by name and then id |
| Filter.NameFilterContains | internal/repository/postgres/product_repo.go:72-74 | with a pattern match that means what SQL says of wildcards, a name filter lists exactly the products whose name contains the text |
| Filter.CataloguePagesPartition | internal/usecase/pagination.go:19-45 | the pages of the catalogue are the catalogue, each product once and in order |

## Left out

- Cycle.DeadlockIffHoldAndWait: is about sets of orders none of whose sums wraps around 64 bits, which no GraphQL request does. With cancellations and confirmations among them, that orders which can hold and wait can deadlock is still proved (`Cycle.HoldAndWaitDeadlocks`), and so is that requests which lock in order cannot (`Deadlock.NoDeadlock`); the exact condition is not, because a cancellation can first give back the stock others need.
- Spelling.DeadlockProneIff: asks for a unit in stock for each line that names a product, since with less an order ends before it can wait.
- Deadlock.NoDeadlock: asks that the orders of the run lock in order, which canonical spelling implies; without it the promise is false, see `Cycle.DeadlockIffHoldAndWait`.
- Store.Tables.ListByUser: the count, the page and the items are read from one snapshot; the program reads them in separate statements outside a transaction. `History.CommitsBetweenPageQueries` says what commits between the last two can do; the count may differ from the page.
- Service.OrderUseCase.Create: the closure handed to `WithinTx` is a method called between begin and commit or rollback; the context that carries the transaction is the flag `InTx`. A panic inside the closure and a commit that fails are actions of the concurrent layer only.
- Merge.MergeLines: `sort.Slice` is a function with the sort's contract, not an algorithm in place; the map's iteration order is never used.
- Filter.List: the order of names is the collation of the database, an arbitrary strict total order here, and ILIKE is an arbitrary relation.
- Ids without hyphens, in braces or with other groupings, which the database also accepts; user ids are values, since they come from tokens the server issued.
- Floating-point rounding of prices and totals, the resolution of stored times, and how ids are generated.
- Key-share locks that foreign keys take when an order is inserted. On its products they would conflict with the locking read of another transaction, but the inserting transaction already holds those rows; on its user they only meet other key-share locks, because no user row is locked or changed.
- Locks the planner takes in another order, statement timeouts, network failures and the deadlock detector of the database: a deadlock is a state in which nobody can move.
- `FindByIDs`, the data loaders, the product use case with its filter validation, authentication, rate limiting, the GraphQL layer, configuration, migrations and seeding: no state of their own, or library code.
