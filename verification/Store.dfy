/** The repositories and the transaction manager as code that updates tables in place. */
module Store {
  import opened Basics
  import opened Uuid
  import opened Domain
  import opened Repository
  import opened Machine
  import opened Batch
  import opened Paging

  /** The columns of an order row, without items. */
  function Header(k: Uuid, row: OrderRow): Order {
    Order(Format(k), row.user, [], row.total, row.status, row.createdAt, row.cancelledAt)
  }

  /** A rejected insertion has written the rows before the first item that violates a constraint, and
      a completed one all of them. */
  lemma {:induction false} ItemsWrittenUpToError(db: Database, k: Uuid, items: seq<OrderItem>) returns (n: nat)
    requires k in db.orders
    ensures n <= |items| && InsertItems(db, k, items[..n]) == Success(ItemsWritten(db, k, items))
    ensures if n == |items| then InsertItems(db, k, items).Success? else InsertItems(db, k, items[..n + 1]).Failure?
    decreases |items|
  {
    if items == [] || !ItemFits(db, k, items[0]) {
      n := 0;
    } else {
      n := ItemsWrittenUpToError(InsertItem(db, k, items[0]), k, items[1..]);
      assert items[..n + 1][1..] == items[1..][..n];
      assert n < |items| - 1 ==> items[..n + 2][1..] == items[1..][..n + 1];
      n := n + 1;
      assert items[..|items|] == items;
    }
  }

  // ----- the orders of a user

  /** The orders with the given ids, each loaded under the id the database prints. */
  function PrintedOrders(db: Database, ids: seq<Uuid>): (loaded: seq<Order>)
    requires forall i :: 0 <= i < |ids| ==> ids[i] in db.orders
    ensures |loaded| == |ids|
    ensures forall i :: 0 <= i < |ids| ==> loaded[i] == Loaded(ids[i], db.orders[ids[i]], Format(ids[i]))
  {
    seq(|ids|, i requires 0 <= i < |ids| => Loaded(ids[i], db.orders[ids[i]], Format(ids[i])))
  }

  function UserOrders(db: Database, user: UserId): seq<Order> {
    PrintedOrders(db, Listing(db, user))
  }

  /** Every order of the user as loading it alone gives it, in listing order. */
  lemma UserOrdersAreLoaded(db: Database, user: UserId, i: nat)
    requires i < |Listing(db, user)|
    ensures |UserOrders(db, user)| == |Listing(db, user)|
    ensures Repository.GetOrder(db, Format(Listing(db, user)[i])) == Success(UserOrders(db, user)[i])
  {
    assert Listing(db, user)[i] in Listing(db, user);
    ParseFormat(Listing(db, user)[i]);
  }

  /** The orders of a user: exactly the stored ones, each column by column with its items, newest first and
      by ascending id within one time. */
  lemma UserOrdersListed(db: Database, user: UserId)
    ensures var all := UserOrders(db, user);
            && (forall k :: k in db.orders && db.orders[k].user == user
                            ==> exists i :: 0 <= i < |all| && all[i].id == Format(k))
            && (forall i :: 0 <= i < |all| ==> IsRowOf(db, user, all[i]))
            && NewestFirst(all)
  {
    var ids, all := Listing(db, user), UserOrders(db, user);
    ListingIsListing(db, user);
    forall k | k in db.orders && db.orders[k].user == user ensures exists i :: 0 <= i < |all| && all[i].id == Format(k) {
      var i := UserOrderOf(db, user, k);
    }
    forall i | 0 <= i < |all| ensures IsRowOf(db, user, all[i]) { UserOrderIsRow(db, user, i); }
    forall i, j | 0 <= i < j < |all| ensures Newer(all[i], all[j]) { TextOrderIsValueOrder(ids[i], ids[j]); }
  }

  lemma UserOrderOf(db: Database, user: UserId, k: Uuid) returns (i: nat)
    requires k in db.orders && db.orders[k].user == user
    ensures i < |UserOrders(db, user)| && UserOrders(db, user)[i].id == Format(k)
  {
    var ids := Listing(db, user);
    ListingIsListing(db, user);
    assert k in ids;
    i :| 0 <= i < |ids| && ids[i] == k;
  }

  lemma UserOrderIsRow(db: Database, user: UserId, i: nat)
    requires i < |UserOrders(db, user)|
    ensures IsRowOf(db, user, UserOrders(db, user)[i])
  {
    var ids := Listing(db, user);
    ListingIsListing(db, user);
    assert ids[i] in ids;
    ParseFormat(ids[i]);
  }

  /** The order as its row and its item rows say. */
  ghost predicate IsRowOf(db: Database, user: UserId, o: Order) {
    && Parse(o.id).Some? && Parse(o.id).value in db.orders
    && var row := db.orders[Parse(o.id).value];
    row.user == user
    && o == Order(Format(Parse(o.id).value), row.user, ItemList(row.items), row.total, row.status, row.createdAt, row.cancelledAt)
  }

  ghost predicate Newer(a: Order, b: Order) {
    a.createdAt > b.createdAt || (a.createdAt == b.createdAt && LexLess(a.id, b.id))
  }

  ghost predicate NewestFirst(orders: seq<Order>) {
    forall i, j :: 0 <= i < j < |orders| ==> Newer(orders[i], orders[j])
  }

  lemma WindowIsPart<T>(rows: seq<T>, limit: int, offset: int) returns (start: nat)
    requires Window(rows, limit, offset).Success?
    ensures var page := Window(rows, limit, offset).value;
            start + |page| <= |rows| && forall i :: 0 <= i < |page| ==> page[i] == rows[start + i]
  {
    start := if offset < |rows| then offset else 0;
  }

  /** A part of a listing in order is in order. */
  lemma PartListed(db: Database, user: UserId, all: seq<Order>, page: seq<Order>, start: nat)
    requires NewestFirst(all) && forall i :: 0 <= i < |all| ==> IsRowOf(db, user, all[i])
    requires start + |page| <= |all| && forall i :: 0 <= i < |page| ==> page[i] == all[start + i]
    ensures NewestFirst(page) && forall i :: 0 <= i < |page| ==> IsRowOf(db, user, page[i])
  {
    forall i, j | 0 <= i < j < |page| ensures Newer(page[i], page[j]) { assert Newer(all[start + i], all[start + j]); }
    forall i | 0 <= i < |page| ensures IsRowOf(db, user, page[i]) { assert IsRowOf(db, user, all[start + i]); }
  }

  /** Any page of them is in the same order, and its orders are the user's. */
  lemma PageListed(db: Database, user: UserId, limit: int, offset: int)
    ensures match Window(UserOrders(db, user), limit, offset)
            case Failure(_) => true
            case Success(page) => NewestFirst(page) && forall i :: 0 <= i < |page| ==> IsRowOf(db, user, page[i])
  {
    UserOrdersListed(db, user);
    var page := Window(UserOrders(db, user), limit, offset);
    if page.Success? {
      var start := WindowIsPart(UserOrders(db, user), limit, offset);
      PartListed(db, user, UserOrders(db, user), page.value, start);
    }
  }

  /** Loading a page of ids is taking the page of the loaded orders. */
  lemma WindowOfPrinted(db: Database, ids: seq<Uuid>, limit: int, offset: int)
    requires forall i :: 0 <= i < |ids| ==> ids[i] in db.orders
    ensures match Window(ids, limit, offset)
            case Failure(e) => Window(PrintedOrders(db, ids), limit, offset) == Failure(e)
            case Success(page) =>
              && (forall i :: 0 <= i < |page| ==> page[i] in db.orders)
              && Window(PrintedOrders(db, ids), limit, offset) == Success(PrintedOrders(db, page))
  {
    var all := Window(PrintedOrders(db, ids), limit, offset);
    if all.Success? {
      var page := Window(ids, limit, offset).value;
      assert all.value == PrintedOrders(db, page);
    }
  }

  /** The pages a user reads, under any requested size, are the user's orders, each once and in order. */
  lemma UserPagesPartition(db: Database, user: UserId, page: Int64, pageSize: Int64)
    requires |UserOrders(db, user)| + NormalizePagination(page, pageSize).1 - 1 < INT64_LIMIT
    ensures var (p, size) := NormalizePagination(page, pageSize);
            var read := Page<Order>.Page([], |UserOrders(db, user)|, p, size);
            && read.TotalPages() >= 0
            && FirstPages(UserOrders(db, user), size, read.TotalPages()) == UserOrders(db, user)
            && (read.HasNextPage() <==> p * size < |UserOrders(db, user)|)
  {
    var (p, size) := NormalizePagination(page, pageSize);
    PagesPartition(UserOrders(db, user), Page<Order>.Page([], |UserOrders(db, user)|, p, size));
  }

  class Tables {
    const users: set<UserId>
    var products: map<Uuid, Product>
    var orders: map<Uuid, OrderRow>

    /** The contents at the start of the open transaction, and the rows it has locked. */
    var saved: Option<Database>
    var locked: set<Row>

    constructor (db: Database)
      ensures Contents() == db && Idle()
    {
      users, products, orders := db.users, db.products, db.orders;
      saved, locked := None, {};
    }

    function Contents(): Database
      reads this
    {
      Database(users, products, orders)
    }

    predicate InTx()
      reads this
    {
      saved.Some? && saved.value.users == users
    }

    /** Between transactions nothing is saved or locked. */
    predicate Idle()
      reads this
    {
      saved == None && locked == {}
    }

    // ----- transaction manager

    method Begin()
      requires Idle()
      modifies this`saved
      ensures InTx() && saved == Some(Contents())
    {
      saved := Some(Contents());
    }

    method Commit()
      requires InTx()
      modifies this`saved, this`locked
      ensures Idle()
    {
      saved, locked := None, {};
    }

    method Rollback()
      requires InTx()
      modifies this
      ensures Contents() == old(saved.value) && Idle()
    {
      products, orders := saved.value.products, saved.value.orders;
      saved, locked := None, {};
    }

    /** Inside a transaction, statements that read for update or write lock their row. */
    method Lock(row: Row)
      modifies this`locked
      ensures locked == if InTx() then old(locked) + {row} else old(locked)
    {
      if InTx() {
        locked := locked + {row};
      }
    }

    // ----- products

    method GetProduct(id: string) returns (r: Result<Product, Error>)
      modifies this`locked
      ensures r == Repository.GetProduct(Contents(), id)
      ensures locked == if InTx() && r.Success? then old(locked) + {ProductKey(Parse(id).value)} else old(locked)
    {
      match Parse(id) {
        case None => r := Failure(ProductNotFound);
        case Some(p) =>
          if p in products {
            Lock(ProductKey(p));
            r := Success(products[p]);
          } else {
            r := Failure(ProductNotFound);
          }
      }
    }

    method Exists(id: string) returns (found: bool)
      ensures found <==> FindProduct(Contents(), id).Some?
    {
      match Parse(id) {
        case None => found := false;
        case Some(p) => found := p in products;
      }
    }

    /** The conditional update; when no row was affected, a second query tells why. */
    method DecrementStock(id: string, quantity: int) returns (e: Option<Error>)
      modifies this`products, this`locked
      ensures match Repository.DecrementStock(old(Contents()), id, quantity)
              case Success(db) => e == None && Contents() == db
              case Failure(x) => e == Some(x) && Contents() == old(Contents())
      ensures locked == if e == None && InTx() then old(locked) + {ProductKey(Parse(id).value)} else old(locked)
    {
      if !IsInt32(quantity) {
        return Some(Internal);
      }
      var affected := 0;
      match Parse(id) {
        case None => return Some(ProductNotFound);
        case Some(p) =>
          if p in products && products[p].stock >= quantity {
            if !IsInt32(products[p].stock - quantity) {
              return Some(Internal);
            }
            Lock(ProductKey(p));
            products := products[p := products[p].(stock := products[p].stock - quantity)];
            affected := 1;
          }
      }
      if affected == 0 {
        var found := Exists(id);
        return Some(if found then InsufficientStock else ProductNotFound);
      }
      e := None;
    }

    method IncrementStock(id: string, quantity: int) returns (e: Option<Error>)
      modifies this`products, this`locked
      ensures match Repository.IncrementStock(old(Contents()), id, quantity)
              case Success(db) => e == None && Contents() == db
              case Failure(x) => e == Some(x) && Contents() == old(Contents())
      ensures locked == if e == None && InTx() && FindProduct(Contents(), id).Some?
                        then old(locked) + {ProductKey(Parse(id).value)} else old(locked)
    {
      if !IsInt32(quantity) || Parse(id).None? {
        return Some(Internal);
      }
      var p := Parse(id).value;
      if p in products {
        var stock := products[p].stock + quantity;
        if !(0 <= stock <= INT32_MAX) {
          return Some(Internal);
        }
        Lock(ProductKey(p));
        products := products[p := products[p].(stock := stock)];
      }
      e := None;
    }

    // ----- orders

    /** Inserts the order row, then its items one by one; an error leaves the rows inserted so far to
        the transaction's rollback. */
    method InsertOrder(o: Order) returns (e: Option<Error>)
      modifies this`orders, this`locked
      ensures match Repository.InsertOrder(old(Contents()), o)
              case Success(db) => e == None && Contents() == db
              case Failure(x) => e == Some(x)
      ensures Contents() == OrderWritten(old(Contents()), o)
      ensures locked == if InTx() && HeaderFits(old(Contents()), o)
                        then old(locked) + {OrderKey(Parse(o.id).value)} else old(locked)
    {
      if Parse(o.id).None? || Parse(o.id).value in orders || o.user !in users {
        return Some(Internal);
      }
      var k := Parse(o.id).value;
      ghost var before := Contents();
      Lock(OrderKey(k));
      orders := orders[k := HeaderOf(o)];
      for i := 0 to |o.items|
        invariant k in orders && locked == if InTx() then old(locked) + {OrderKey(k)} else old(locked)
        invariant InsertItems(Contents(), k, o.items[i..]) == Repository.InsertOrder(before, o)
        invariant ItemsWritten(Contents(), k, o.items[i..]) == OrderWritten(before, o)
      {
        assert o.items[i..][0] == o.items[i] && o.items[i..][1..] == o.items[i + 1..];
        var item := o.items[i];
        if FindProduct(Contents(), item.productId).None? {
          return Some(Internal);
        }
        var p := FindProduct(Contents(), item.productId).value;
        if p in orders[k].items || !(0 < item.quantity <= INT32_MAX) || item.unitPrice < 0.0 {
          return Some(Internal);
        }
        orders := orders[k := orders[k].(items := orders[k].items[p := Item(item.quantity, item.unitPrice)])];
      }
      e := None;
    }

    /** One query for the items of all the orders, grouped under the ids the database prints. */
    method ItemsByOrderIDs(wanted: set<Uuid>) returns (out: map<string, seq<OrderItem>>)
      ensures forall k :: k in wanted && k in orders ==> Filed(out, k) == ItemList(orders[k].items)
      ensures forall id :: id in out ==> Canonical(id)
    {
      if wanted == {} {
        return map[];
      }
      var rows := SelectItems(Contents(), wanted);
      SelectItemsIsQuery(Contents(), wanted);
      out := GroupRows(rows);
      forall k | k in wanted && k in orders ensures Filed(out, k) == ItemList(orders[k].items) {
        BatchedIsSingle(Contents(), wanted, rows, k);
      }
    }

    method GetOrder(id: string) returns (r: Result<Order, Error>)
      modifies this`locked
      ensures r == Repository.GetOrder(Contents(), id)
      ensures locked == if InTx() && r.Success? then old(locked) + {OrderKey(Parse(id).value)} else old(locked)
    {
      match Parse(id) {
        case None => r := Failure(OrderNotFound);
        case Some(k) =>
          if k !in orders {
            return Failure(OrderNotFound);
          }
          Lock(OrderKey(k));
          var row := orders[k];
          var items := ItemsByOrderIDs({k});
          ParseFormat(k);
          var found := if id in items then items[id] else [];
          assert found == if id == Format(k) then Filed(items, k) else [];
          r := Success(Header(k, row).(items := found));
      }
    }

    method UpdateStatus(id: string, status: Status, cancelledAt: Option<Time>) returns (e: Option<Error>)
      modifies this`orders, this`locked
      ensures match Repository.UpdateStatus(old(Contents()), id, status, cancelledAt)
              case Success(db) => e == None && Contents() == db
              case Failure(x) => e == Some(x) && Contents() == old(Contents())
      ensures locked == if e == None && InTx() then old(locked) + {OrderKey(Parse(id).value)} else old(locked)
    {
      match Parse(id) {
        case None => e := Some(OrderNotFound);
        case Some(k) =>
          if k !in orders {
            return Some(OrderNotFound);
          }
          Lock(OrderKey(k));
          orders := orders[k := orders[k].(status := status, cancelledAt := cancelledAt)];
          e := None;
      }
    }

    /** The order rows of a page, before their items are loaded. */
    method LoadHeaders(ids: seq<Uuid>) returns (loaded: seq<Order>)
      requires forall i :: 0 <= i < |ids| ==> ids[i] in orders
      ensures |loaded| == |ids|
      ensures forall i :: 0 <= i < |ids| ==> loaded[i] == Header(ids[i], orders[ids[i]])
    {
      loaded := [];
      for i := 0 to |ids|
        invariant |loaded| == i
        invariant forall j :: 0 <= j < i ==> loaded[j] == Header(ids[j], orders[ids[j]])
      {
        loaded := loaded + [Header(ids[i], orders[ids[i]])];
      }
    }

    /** Gives each order of a page its items. */
    method AttachItems(ids: seq<Uuid>, headers: seq<Order>, items: map<string, seq<OrderItem>>)
      returns (loaded: seq<Order>)
      requires |headers| == |ids| && forall i :: 0 <= i < |ids| ==> ids[i] in orders
      requires forall i :: 0 <= i < |ids| ==> headers[i] == Header(ids[i], orders[ids[i]])
      requires forall i :: 0 <= i < |ids| ==> Filed(items, ids[i]) == ItemList(orders[ids[i]].items)
      ensures |loaded| == |ids|
      ensures forall i :: 0 <= i < |ids| ==> loaded[i] == Loaded(ids[i], orders[ids[i]], Format(ids[i]))
    {
      loaded := headers;
      for i := 0 to |loaded|
        invariant |loaded| == |ids|
        invariant forall j :: 0 <= j < i ==> loaded[j] == Loaded(ids[j], orders[ids[j]], Format(ids[j]))
        invariant forall j :: i <= j < |ids| ==> loaded[j] == headers[j]
      {
        assert Filed(items, ids[i]) == ItemList(orders[ids[i]].items);
        var id := loaded[i].id;
        loaded := loaded[i := loaded[i].(items := if id in items then items[id] else [])];
      }
    }

    /** The rows of a page, then the items of all of them with one query. */
    method LoadPage(ids: seq<Uuid>) returns (loaded: seq<Order>)
      requires forall i :: 0 <= i < |ids| ==> ids[i] in orders
      ensures loaded == PrintedOrders(Contents(), ids)
    {
      var headers := LoadHeaders(ids);
      var items := ItemsByOrderIDs(set k | k in ids);
      loaded := AttachItems(ids, headers, items);
    }

    /** A page of a user's orders, newest first, each loaded as it would be alone, and the number of
        all of them. */
    method ListByUser(user: UserId, page: Int64, pageSize: Int64) returns (r: Result<seq<Order>, Error>, total: nat)
      ensures r == Window(UserOrders(Contents(), user), pageSize, Offset(page, pageSize))
      ensures total == |UserOrders(Contents(), user)|
      ensures r.Success? ==> NewestFirst(r.value) && forall i :: 0 <= i < |r.value| ==> IsRowOf(Contents(), user, r.value[i])
    {
      PageListed(Contents(), user, pageSize, Offset(page, pageSize));
      var listing := Listing(Contents(), user);
      total := |listing|;
      WindowOfPrinted(Contents(), listing, pageSize, Offset(page, pageSize));
      match Window(listing, pageSize, Offset(page, pageSize)) {
        case Failure(e) => r := Failure(e);
        case Success(ids) =>
          var loaded := LoadPage(ids);
          r := Success(loaded);
      }
    }
  }
}
