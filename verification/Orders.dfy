/** The three order transactions as functions of the committed database: what one call does when
    it runs alone. */
module Orders {
  import opened Basics
  import opened Uuid
  import opened Domain
  import opened Merge
  import opened Repository

  /** A call, with the id and the time its generators hand out. */
  datatype Request =
    | Create(user: UserId, lines: seq<Line>, newId: Uuid, now: Time)
    | Cancel(user: UserId, orderId: string, now: Time)
    | Confirm(user: UserId, orderId: string)

  type Answer = Result<Order, Error>

  /** What a transaction body hands to the transaction manager. */
  type Attempt = Result<(Database, Order), Error>

  // ----- create

  /** Locks, prices and takes the remaining lines in order. */
  function Reserve(db: Database, todo: seq<Line>, items: seq<OrderItem>)
    : Result<(Database, seq<OrderItem>), Error>
    decreases |todo|, 1
  {
    if todo == [] then Success((db, items))
    else match GetProduct(db, todo[0].productId)
         case Failure(e) => Failure(e)
         case Success(product) => Take(db, product.price, todo, items)
  }

  function Take(db: Database, price: real, todo: seq<Line>, items: seq<OrderItem>)
    : Result<(Database, seq<OrderItem>), Error>
    requires todo != []
    decreases |todo|, 0
  {
    match DecrementStock(db, todo[0].productId, todo[0].quantity)
    case Failure(e) => Failure(e)
    case Success(db') => Reserve(db', todo[1..], items + [Bought(todo[0], price)])
  }

  function Bought(line: Line, price: real): OrderItem {
    OrderItem(line.productId, line.quantity, price)
  }

  function Place(db: Database, req: Request, items: seq<OrderItem>): Attempt
    requires req.Create?
  {
    match BuildOrder(Format(req.newId), req.user, items, req.now)
    case Failure(e) => Failure(e)
    case Success(o) =>
      match InsertOrder(db, o)
      case Failure(e) => Failure(e)
      case Success(db') => Success((db', o))
  }

  function ReserveAndPlace(db: Database, req: Request, todo: seq<Line>, items: seq<OrderItem>): Attempt
    requires req.Create?
  {
    match Reserve(db, todo, items)
    case Failure(e) => Failure(e)
    case Success((db', all)) => Place(db', req, all)
  }

  predicate HasBadQuantity(lines: seq<Line>) {
    exists i :: 0 <= i < |lines| && lines[i].quantity <= 0
  }

  // ----- cancel and confirm

  /** Gives the remaining items back to stock. */
  function Restock(db: Database, todo: seq<OrderItem>): Result<Database, Error>
    decreases |todo|
  {
    if todo == [] then Success(db)
    else match IncrementStock(db, todo[0].productId, todo[0].quantity)
         case Failure(e) => Failure(e)
         case Success(db') => Restock(db', todo[1..])
  }

  /** Confirm always writes a null cancellation time. */
  function CancelTimeToStore(req: Request, o: Order): Option<Time> {
    if req.Cancel? then o.cancelledAt else None
  }

  function StoreStatus(db: Database, req: Request, o: Order): Attempt {
    match UpdateStatus(db, o.id, o.status, CancelTimeToStore(req, o))
    case Failure(e) => Failure(e)
    case Success(db') => Success((db', o))
  }

  function Settle(db: Database, req: Request, o: Order, todo: seq<OrderItem>): Attempt {
    match Restock(db, todo)
    case Failure(e) => Failure(e)
    case Success(db') => StoreStatus(db', req, o)
  }

  /** Ownership first, then the state machine. */
  function Transition(req: Request, found: Order): Result<Order, Error>
    requires !req.Create?
  {
    if found.user != req.user then Failure(OrderNotOwned)
    else if req.Cancel? then Cancellation(found, req.now)
    else Confirmation(found)
  }

  /** The items Cancel puts back. */
  function ToReturn(req: Request, o: Order): seq<OrderItem> {
    if req.Cancel? then o.items else []
  }

  // ----- the transactions

  function Body(db: Database, req: Request): Attempt {
    match req
    case Create(user, lines, _, _) =>
      if HasBadQuantity(lines) then Failure(InvalidQuantity)
      else if MergeOf(lines) == [] then Failure(EmptyOrder)
      else ReserveAndPlace(db, req, MergeOf(lines), [])
    case _ =>
      match GetOrder(db, req.orderId)
      case Failure(e) => Failure(e)
      case Success(found) =>
        match Transition(req, found)
        case Failure(e) => Failure(e)
        case Success(o) => Settle(db, req, o, ToReturn(req, o))
  }

  /** Commit if the body succeeds, otherwise leave the database alone. */
  function Apply(db: Database, req: Request): (Database, Answer) {
    match Body(db, req)
    case Success((db', o)) => (db', Success(o))
    case Failure(e) => (db, Failure(e))
  }
}
