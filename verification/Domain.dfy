/** Entities, errors and the order state machine. */
module Domain {
  import opened Basics

  /** The program compares times with each other and stores them, nothing more. */
  type Time = int

  /** The owner of an order, the subject of an access token the server issued. */
  type UserId = nat

  const INT64_LIMIT: int := 0x8000_0000_0000_0000
  const INT32_MAX: int := 0x7fff_ffff

  /** Go's int. */
  type Int64 = i: int | -INT64_LIMIT <= i < INT64_LIMIT

  /** The value a 64-bit addition, subtraction or multiplication leaves. */
  function Wrap64(i: int): (w: Int64)
    ensures -INT64_LIMIT <= i < INT64_LIMIT ==> w == i
  {
    (i + INT64_LIMIT) % (2 * INT64_LIMIT) - INT64_LIMIT
  }

  /** The range of an INTEGER column or statement argument. */
  predicate IsInt32(i: int) {
    -INT32_MAX - 1 <= i <= INT32_MAX
  }

  /** Internal stands for every database error the code wraps and passes on. */
  datatype Error =
    | InvalidQuantity
    | InvalidPrice
    | EmptyOrder
    | ProductNotFound
    | InsufficientStock
    | OrderNotFound
    | OrderNotOwned
    | OrderNotPending
    | Internal

  datatype Status = Pending | Confirmed | Cancelled

  datatype OrderItem = OrderItem(productId: string, quantity: int, unitPrice: real)

  datatype Order = Order(
    id: string,
    user: UserId,
    items: seq<OrderItem>,
    total: real,
    status: Status,
    createdAt: Time,
    cancelledAt: Option<Time>)

  // ----- construction

  function OrderTotal(items: seq<OrderItem>): real {
    if items == [] then 0.0
    else OrderTotal(items[..|items| - 1])
         + items[|items| - 1].quantity as real * items[|items| - 1].unitPrice
  }

  function ItemError(item: OrderItem): Option<Error> {
    if item.quantity <= 0 then Some(InvalidQuantity)
    else if item.unitPrice <= 0.0 then Some(InvalidPrice)
    else None
  }

  /** The complaint about the first bad item, if any. */
  function FirstItemError(items: seq<OrderItem>): (e: Option<Error>)
    ensures e.None? <==> forall item :: item in items ==> item.quantity > 0 && item.unitPrice > 0.0
  {
    if items == [] then None
    else match FirstItemError(items[..|items| - 1])
         case Some(e) => Some(e)
         case None => ItemError(items[|items| - 1])
  }

  function PendingOrder(id: string, user: UserId, items: seq<OrderItem>, createdAt: Time): Order {
    Order(id, user, items, OrderTotal(items), Pending, createdAt, None)
  }

  function BuildOrder(id: string, user: UserId, items: seq<OrderItem>, createdAt: Time)
    : Result<Order, Error>
  {
    if items == [] then Failure(EmptyOrder)
    else match FirstItemError(items)
         case Some(e) => Failure(e)
         case None => Success(PendingOrder(id, user, items, createdAt))
  }

  lemma {:induction false} ErrorStopsAtPrefix(items: seq<OrderItem>, n: nat)
    requires n <= |items|
    ensures FirstItemError(items[..n]).Some? ==> FirstItemError(items) == FirstItemError(items[..n])
    decreases |items|
  {
    if n == |items| {
      assert items[..n] == items;
    } else {
      assert items[..|items| - 1][..n] == items[..n];
      ErrorStopsAtPrefix(items[..|items| - 1], n);
    }
  }

  ghost predicate GoodItem(item: OrderItem) {
    item.quantity > 0 && item.unitPrice > 0.0
  }

  ghost predicate FirstBad(items: seq<OrderItem>, i: nat) {
    i < |items| && !GoodItem(items[i]) && forall j :: 0 <= j < i ==> GoodItem(items[j])
  }

  /** No items, or a pending order created at the given time and not cancelled. */
  lemma GoodOrderOutcome(id: string, user: UserId, items: seq<OrderItem>, createdAt: Time)
    ensures items == [] ==> BuildOrder(id, user, items, createdAt) == Failure(EmptyOrder)
    ensures items != [] && (forall j :: 0 <= j < |items| ==> GoodItem(items[j])) ==>
              BuildOrder(id, user, items, createdAt)
              == Success(Order(id, user, items, OrderTotal(items), Pending, createdAt, None))
  {
    assert forall j :: 0 <= j < |items| ==> items[j] in items;
  }

  /** The complaint is about the first bad item, and about its quantity first. */
  lemma BadOrderOutcome(id: string, user: UserId, items: seq<OrderItem>, createdAt: Time, i: nat)
    requires FirstBad(items, i)
    ensures BuildOrder(id, user, items, createdAt)
         == Failure(if items[i].quantity <= 0 then InvalidQuantity else InvalidPrice)
  {
    assert items[..i + 1][..i] == items[..i] && items[..i + 1][i] == items[i];
    assert FirstItemError(items[..i]).None?;
    ErrorStopsAtPrefix(items, i + 1);
  }

  /** One pass that checks every item and adds up the total. */
  method NewOrder(id: string, user: UserId, items: seq<OrderItem>, createdAt: Time)
    returns (r: Result<Order, Error>)
    ensures r == BuildOrder(id, user, items, createdAt)
    ensures items == [] ==> r == Failure(EmptyOrder)
    ensures r.Success? ==> r.value == Order(id, user, items, OrderTotal(items), Pending, createdAt, None)
    ensures forall i: nat :: FirstBad(items, i) ==> r == Failure(if items[i].quantity <= 0 then InvalidQuantity else InvalidPrice)
  {
    forall i: nat | FirstBad(items, i)
      ensures BuildOrder(id, user, items, createdAt) == Failure(if items[i].quantity <= 0 then InvalidQuantity else InvalidPrice)
    {
      BadOrderOutcome(id, user, items, createdAt, i);
    }
    if |items| == 0 {
      return Failure(EmptyOrder);
    }
    var total := 0.0;
    for i := 0 to |items|
      invariant FirstItemError(items[..i]).None?
      invariant total == OrderTotal(items[..i])
    {
      var item := items[i];
      assert items[..i + 1][..i] == items[..i];
      ErrorStopsAtPrefix(items, i + 1);
      if item.quantity <= 0 {
        return Failure(InvalidQuantity);
      }
      if item.unitPrice <= 0.0 {
        return Failure(InvalidPrice);
      }
      total := total + item.quantity as real * item.unitPrice;
    }
    assert items[..|items|] == items;
    r := Success(Order(id, user, items, total, Pending, createdAt, None));
  }

  // ----- transitions

  function Confirmation(o: Order): Result<Order, Error> {
    if o.status == Pending then Success(o.(status := Confirmed)) else Failure(OrderNotPending)
  }

  function Cancellation(o: Order, now: Time): Result<Order, Error> {
    if o.status == Pending then Success(o.(status := Cancelled, cancelledAt := Some(now)))
    else Failure(OrderNotPending)
  }

  /** An order being worked on by one caller; its two transitions update it in place. */
  class OrderEntity {
    const id: string
    const user: UserId
    const items: seq<OrderItem>
    const total: real
    const createdAt: Time
    var status: Status
    var cancelledAt: Option<Time>

    constructor (o: Order)
      ensures Value() == o
    {
      id, user, items, total, createdAt := o.id, o.user, o.items, o.total, o.createdAt;
      status, cancelledAt := o.status, o.cancelledAt;
    }

    function Value(): Order
      reads this
    {
      Order(id, user, items, total, status, createdAt, cancelledAt)
    }

    method Confirm() returns (e: Option<Error>)
      modifies this
      ensures match Confirmation(old(Value()))
              case Success(o) => e == None && Value() == o
              case Failure(x) => e == Some(x) && Value() == old(Value())
      ensures if old(status) == Pending then e == None && status == Confirmed
              else e == Some(OrderNotPending) && status == old(status)
      ensures cancelledAt == old(cancelledAt)
    {
      if status != Pending {
        return Some(OrderNotPending);
      }
      status := Confirmed;
      e := None;
    }

    method Cancel(now: Time) returns (e: Option<Error>)
      modifies this
      ensures match Cancellation(old(Value()), now)
              case Success(o) => e == None && Value() == o
              case Failure(x) => e == Some(x) && Value() == old(Value())
      ensures if old(status) == Pending then e == None && status == Cancelled && cancelledAt == Some(now)
              else e == Some(OrderNotPending) && status == old(status) && cancelledAt == old(cancelledAt)
    {
      if status != Pending {
        return Some(OrderNotPending);
      }
      status := Cancelled;
      cancelledAt := Some(now);
      e := None;
    }
  }
}
