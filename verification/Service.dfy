/** The order use cases, statement by statement, on the tables. */
module Service {
  import opened Basics
  import opened Uuid
  import opened Domain
  import opened Merge
  import opened Repository
  import opened Orders
  import opened Machine
  import opened Steps
  import opened Store
  import opened Batch
  import opened Paging

  class OrderUseCase {
    const tables: Tables

    constructor (tables: Tables)
      ensures this.tables == tables
    {
      this.tables := tables;
    }

    /** Validates and merges the lines, then reserves, prices and inserts in one transaction. */
    method Create(user: UserId, lines: seq<Line>, newId: Uuid, now: Time) returns (answer: Answer)
      requires tables.Idle()
      modifies tables
      ensures (tables.Contents(), answer) == Apply(old(tables.Contents()), Request.Create(user, lines, newId, now))
      ensures tables.Idle()
    {
      for i := 0 to |lines|
        invariant forall j :: 0 <= j < i ==> lines[j].quantity > 0
      {
        if lines[i].quantity <= 0 {
          return Failure(InvalidQuantity);
        }
      }
      var merged := MergeLines(lines);
      if |merged| == 0 {
        return Failure(EmptyOrder);
      }
      ghost var req, db := Request.Create(user, lines, newId, now), tables.Contents();
      tables.Begin();
      answer := CreateBody(user, merged, newId, now, lines);
      if answer.Failure? {
        tables.Rollback();
      } else {
        BodyReady(db, req, answer.value, tables.Contents(), tables.locked);
        assert ReadyToCommit(req, db, answer.value, tables.Contents(), tables.locked);
        tables.Commit();
      }
    }

    method CreateBody(user: UserId, merged: seq<Line>, newId: Uuid, now: Time, ghost lines: seq<Line>)
      returns (answer: Answer)
      requires !HasBadQuantity(lines) && merged == MergeOf(lines) && merged != []
      requires tables.InTx() && tables.locked == {}
      modifies tables`products, tables`orders, tables`locked
      ensures match Body(old(tables.Contents()), Request.Create(user, lines, newId, now))
              case Success((db, o)) => tables.Contents() == db && answer == Success(o)
              case Failure(e) => answer == Failure(e)
      ensures answer.Success? ==> tables.locked == LockedBy(Request.Create(user, lines, newId, now), old(tables.Contents()))
    {
      ghost var req, db := Request.Create(user, lines, newId, now), tables.Contents();
      var items := ReserveLines(merged);
      if items.Failure? {
        return Failure(items.error);
      }
      answer := PlaceOrder(user, items.value, newId, now, req);
      if answer.Success? {
        CreateLocks(db, req);
      }
    }

    /** Builds the order and inserts it. */
    method PlaceOrder(user: UserId, items: seq<OrderItem>, newId: Uuid, now: Time, ghost req: Request)
      returns (answer: Answer)
      requires tables.InTx() && req.Create? && req.user == user && req.newId == newId && req.now == now
      modifies tables`orders, tables`locked
      ensures match Place(old(tables.Contents()), req, items)
              case Success((db, o)) => tables.Contents() == db && answer == Success(o)
              case Failure(e) => answer == Failure(e)
      ensures answer.Success? ==> tables.locked == old(tables.locked) + {OrderKey(newId)}
    {
      ParseFormat(newId);
      var created := NewOrder(Format(newId), user, items, now);
      if created.Failure? {
        return created;
      }
      var e := tables.InsertOrder(created.value);
      if e.Some? {
        return Failure(e.value);
      }
      answer := created;
    }

    /** Locks, prices and takes the lines one after the other. */
    method ReserveLines(merged: seq<Line>) returns (r: Result<seq<OrderItem>, Error>)
      requires tables.InTx()
      modifies tables`products, tables`locked
      ensures match Reserve(old(tables.Contents()), merged, [])
              case Success((db, items)) => tables.Contents() == db && r == Success(items)
              case Failure(e) => r == Failure(e)
      ensures r.Success? ==> tables.locked == old(tables.locked) + LineRows(merged)
    {
      var items: seq<OrderItem> := [];
      for i := 0 to |merged|
        invariant Reserve(tables.Contents(), merged[i..], items) == Reserve(old(tables.Contents()), merged, [])
        invariant tables.locked + LineRows(merged[i..]) == old(tables.locked) + LineRows(merged)
      {
        assert merged[i..][0] == merged[i] && merged[i..][1..] == merged[i + 1..];
        var line := merged[i];
        var product := tables.GetProduct(line.productId);
        if product.Failure? {
          return Failure(product.error);
        }
        var e := tables.DecrementStock(line.productId, line.quantity);
        if e.Some? {
          return Failure(e.value);
        }
        items := items + [OrderItem(line.productId, line.quantity, product.value.price)];
      }
      r := Success(items);
    }

    method AssertOwner(order: Order, user: UserId) returns (e: Option<Error>)
      ensures e == if order.user != user then Some(OrderNotOwned) else None
    {
      e := if order.user != user then Some(OrderNotOwned) else None;
    }

    /** The order, for its owner only; outside a transaction nothing is locked. */
    method Get(user: UserId, orderId: string) returns (answer: Answer)
      requires tables.Idle()
      modifies tables`locked
      ensures tables.Idle()
      ensures match GetOrder(tables.Contents(), orderId)
              case Failure(e) => answer == Failure(e)
              case Success(o) => answer == if o.user != user then Failure(OrderNotOwned) else Success(o)
      ensures Parse(orderId).Some? && Parse(orderId).value in tables.orders ==>
                var k := Parse(orderId).value;
                var row := tables.orders[k];
                answer == if row.user != user then Failure(OrderNotOwned)
                else Success(Order(Format(k), user, if orderId == Format(k) then ItemList(row.items) else [],
                                   row.total, row.status, row.createdAt, row.cancelledAt))
      ensures Parse(orderId).None? || Parse(orderId).value !in tables.orders ==> answer == Failure(OrderNotFound)
    {
      GetOrderOutcome(tables.Contents(), orderId);
      answer := tables.GetOrder(orderId);
      if answer.Success? {
        var e := AssertOwner(answer.value, user);
        if e.Some? {
          answer := Failure(e.value);
        }
      }
    }

    method Cancel(user: UserId, orderId: string, now: Time) returns (answer: Answer)
      requires tables.Idle()
      modifies tables
      ensures (tables.Contents(), answer) == Apply(old(tables.Contents()), Request.Cancel(user, orderId, now))
      ensures tables.Idle()
    {
      ghost var req, db := Request.Cancel(user, orderId, now), tables.Contents();
      tables.Begin();
      answer := CancelBody(user, orderId, now);
      if answer.Failure? {
        tables.Rollback();
      } else {
        BodyReady(db, req, answer.value, tables.Contents(), tables.locked);
        assert ReadyToCommit(req, db, answer.value, tables.Contents(), tables.locked);
        tables.Commit();
      }
    }

    method RestockItems(items: seq<OrderItem>) returns (e: Option<Error>)
      requires tables.InTx()
      modifies tables`products, tables`locked
      ensures match Restock(old(tables.Contents()), items)
              case Success(db) => e == None && tables.Contents() == db
              case Failure(x) => e == Some(x)
      ensures e == None ==> tables.locked == old(tables.locked) + ItemRows(old(tables.Contents()), items)
    {
      for i := 0 to |items|
        invariant tables.products.Keys == old(tables.products).Keys
        invariant tables.locked + ItemRows(old(tables.Contents()), items[i..])
               == old(tables.locked) + ItemRows(old(tables.Contents()), items)
        invariant Restock(tables.Contents(), items[i..]) == Restock(old(tables.Contents()), items)
      {
        assert items[i..][0] == items[i] && items[i..][1..] == items[i + 1..];
        e := tables.IncrementStock(items[i].productId, items[i].quantity);
        if e.Some? {
          return;
        }
      }
      e := None;
    }

    method CancelBody(user: UserId, orderId: string, now: Time) returns (answer: Answer)
      requires tables.InTx() && tables.locked == {}
      modifies tables`products, tables`orders, tables`locked
      ensures match Body(old(tables.Contents()), Request.Cancel(user, orderId, now))
              case Success((db, o)) => tables.Contents() == db && answer == Success(o)
              case Failure(e) => answer == Failure(e)
      ensures answer.Success? ==> tables.locked == LockedBy(Request.Cancel(user, orderId, now), old(tables.Contents()))
    {
      ghost var req, db := Request.Cancel(user, orderId, now), tables.Contents();
      var loaded := tables.GetOrder(orderId);
      if loaded.Failure? {
        return loaded;
      }
      var e := AssertOwner(loaded.value, user);
      if e.Some? {
        return Failure(e.value);
      }
      var found := new OrderEntity(loaded.value);
      e := found.Cancel(now);
      if e.Some? {
        return Failure(e.value);
      }
      e := RestockItems(found.items);
      if e.Some? {
        return Failure(e.value);
      }
      e := tables.UpdateStatus(found.id, found.status, found.cancelledAt);
      if e.Some? {
        return Failure(e.value);
      }
      TransitionLocks(db, req, found.Value());
      answer := Success(found.Value());
    }

    method Confirm(user: UserId, orderId: string) returns (answer: Answer)
      requires tables.Idle()
      modifies tables
      ensures (tables.Contents(), answer) == Apply(old(tables.Contents()), Request.Confirm(user, orderId))
      ensures tables.Idle()
    {
      ghost var req, db := Request.Confirm(user, orderId), tables.Contents();
      tables.Begin();
      answer := ConfirmBody(user, orderId);
      if answer.Failure? {
        tables.Rollback();
      } else {
        BodyReady(db, req, answer.value, tables.Contents(), tables.locked);
        assert ReadyToCommit(req, db, answer.value, tables.Contents(), tables.locked);
        tables.Commit();
      }
    }

    method ConfirmBody(user: UserId, orderId: string) returns (answer: Answer)
      requires tables.InTx() && tables.locked == {}
      modifies tables`products, tables`orders, tables`locked
      ensures match Body(old(tables.Contents()), Request.Confirm(user, orderId))
              case Success((db, o)) => tables.Contents() == db && answer == Success(o)
              case Failure(e) => answer == Failure(e)
      ensures answer.Success? ==> tables.locked == LockedBy(Request.Confirm(user, orderId), old(tables.Contents()))
    {
      ghost var req, db := Request.Confirm(user, orderId), tables.Contents();
      var loaded := tables.GetOrder(orderId);
      if loaded.Failure? {
        return loaded;
      }
      var e := AssertOwner(loaded.value, user);
      if e.Some? {
        return Failure(e.value);
      }
      var found := new OrderEntity(loaded.value);
      e := found.Confirm();
      if e.Some? {
        return Failure(e.value);
      }
      e := tables.UpdateStatus(found.id, found.status, None);
      if e.Some? {
        return Failure(e.value);
      }
      TransitionLocks(db, req, found.Value());
      answer := Success(found.Value());
    }

    /** A page of the caller's own orders under normalized paging. */
    method MyOrders(user: UserId, page: Int64, pageSize: Int64) returns (r: Result<Page<Order>, Error>)
      requires |UserOrders(tables.Contents(), user)| < INT64_LIMIT
      ensures var (p, size) := NormalizePagination(page, pageSize);
              var all := UserOrders(tables.Contents(), user);
              match Window(all, size, Offset(p, size))
              case Failure(e) => r == Failure(e)
              case Success(items) => r == Success(Page(items, |all|, p, size))
      ensures r.Success? ==>
                NewestFirst(r.value.items)
                && forall i :: 0 <= i < |r.value.items| ==> IsRowOf(tables.Contents(), user, r.value.items[i])
    {
      var (p, size) := NormalizePagination(page, pageSize);
      var items, total := tables.ListByUser(user, p, size);
      r := match items case Failure(e) => Failure(e) case Success(orders) => Success(Page(orders, total, p, size));
    }
  }
}
