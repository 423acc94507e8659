/** What a successful transaction leaves in the tables. */
module Effects {
  import opened Basics
  import opened Uuid
  import opened Domain
  import opened Merge
  import opened Repository
  import opened Orders

  predicate Names(item: OrderItem, p: Uuid) {
    Parse(item.productId) == Some(p)
  }

  /** The units of product p among some items, whatever the spelling of the product id. */
  function Units(items: seq<OrderItem>, p: Uuid): int {
    if items == [] then 0
    else (if Names(items[0], p) then items[0].quantity else 0) + Units(items[1..], p)
  }

  lemma {:induction false} UnitsConcat(a: seq<OrderItem>, b: seq<OrderItem>, p: Uuid)
    ensures Units(a + b, p) == Units(a, p) + Units(b, p)
  {
    if a == [] {
      assert a + b == b;
    } else {
      assert (a + b)[1..] == a[1..] + b;
      UnitsConcat(a[1..], b, p);
    }
  }

  /** The stock column after taking the given items out of it. */
  ghost function AfterSale(products: map<Uuid, Product>, items: seq<OrderItem>): map<Uuid, Product> {
    map p | p in products :: products[p].(stock := products[p].stock - Units(items, p))
  }

  /** The stock column after putting the given items back. */
  ghost function AfterReturn(products: map<Uuid, Product>, items: seq<OrderItem>): map<Uuid, Product> {
    map p | p in products :: products[p].(stock := products[p].stock + Units(items, p))
  }

  /** Item i is line i at the catalogue price. */
  ghost predicate Priced(db: Database, lines: seq<Line>, items: seq<OrderItem>) {
    && |items| == |lines|
    && forall i :: 0 <= i < |lines| ==>
                     && FindProduct(db, lines[i].productId).Some?
                     && items[i] == Bought(lines[i], db.products[FindProduct(db, lines[i].productId).value].price)
  }

  /** Taking the first line and then the rest is taking both. */
  lemma SaleCons(db: Database, line: Line, mid: Database, bought: seq<OrderItem>)
    requires bought != [] && bought[0].productId == line.productId && bought[0].quantity == line.quantity
    requires DecrementStock(db, line.productId, line.quantity) == Success(mid)
    ensures mid.(products := AfterSale(mid.products, bought[1..])) == db.(products := AfterSale(db.products, bought))
  {
    assert AfterSale(mid.products, bought[1..]) == AfterSale(db.products, bought);
  }

  lemma PricedCons(db: Database, mid: Database, todo: seq<Line>, bought: seq<OrderItem>)
    requires todo != [] && bought != [] && FindProduct(db, todo[0].productId).Some?
    requires bought[0] == Bought(todo[0], db.products[FindProduct(db, todo[0].productId).value].price)
    requires mid.products.Keys == db.products.Keys
    requires forall p :: p in db.products ==> mid.products[p].price == db.products[p].price
    requires Priced(mid, todo[1..], bought[1..])
    ensures Priced(db, todo, bought)
  {
    forall i | 0 <= i < |todo|
      ensures FindProduct(db, todo[i].productId).Some?
      ensures bought[i] == Bought(todo[i], db.products[FindProduct(db, todo[i].productId).value].price)
    {
      if i > 0 {
        assert todo[1..][i - 1] == todo[i] && bought[1..][i - 1] == bought[i];
      }
    }
  }

  lemma SplitAfterOne<T>(all: seq<T>, items: seq<T>, item: T)
    requires |items| + 1 <= |all| && all[..|items| + 1] == items + [item]
    ensures all[..|items|] == items
    ensures all[|items|..] != [] && all[|items|..][0] == item && all[|items|..][1..] == all[|items| + 1..]
  {
    assert all[..|items|] == all[..|items| + 1][..|items|];
    assert all[..|items| + 1][|items|] == item;
  }

  lemma {:induction false} ReserveEffect(db: Database, todo: seq<Line>, items: seq<OrderItem>)
    requires Reserve(db, todo, items).Success?
    ensures var (db', all) := Reserve(db, todo, items).value;
            && |items| <= |all| && all[..|items|] == items
            && Priced(db, todo, all[|items|..])
            && db' == db.(products := AfterSale(db.products, all[|items|..]))
    decreases |todo|
  {
    var (db', all) := Reserve(db, todo, items).value;
    if todo == [] {
      assert all[|items|..] == [];
      assert AfterSale(db.products, []) == db.products;
    } else {
      var p := FindProduct(db, todo[0].productId).value;
      var item := Bought(todo[0], db.products[p].price);
      var mid := DecrementStock(db, todo[0].productId, todo[0].quantity).value;
      ReserveEffect(mid, todo[1..], items + [item]);
      SplitAfterOne(all, items, item);
      SaleCons(db, todo[0], mid, all[|items|..]);
      PricedCons(db, mid, todo, all[|items|..]);
    }
  }

  // ----- inserted items

  /** The stored items are exactly the listed ones, one row per product. */
  ghost predicate Stores(stored: map<Uuid, Item>, items: seq<OrderItem>) {
    && (forall i :: 0 <= i < |items| ==> StoredAt(stored, items[i]))
    && (forall p {:trigger Named(items, p)} :: p in stored ==> Named(items, p))
    && Distinct(items)
  }

  ghost predicate Named(items: seq<OrderItem>, p: Uuid) {
    exists i :: 0 <= i < |items| && Names(items[i], p)
  }

  ghost predicate StoredAt(stored: map<Uuid, Item>, item: OrderItem) {
    && Parse(item.productId).Some?
    && Parse(item.productId).value in stored
    && stored[Parse(item.productId).value] == Item(item.quantity, item.unitPrice)
  }

  /** No product occurs twice, under any spelling. */
  ghost predicate Distinct(items: seq<OrderItem>) {
    forall i, j :: 0 <= i < j < |items| ==> Parse(items[i].productId) != Parse(items[j].productId)
  }

  ghost predicate ItemOk(db: Database, item: OrderItem) {
    FindProduct(db, item.productId).Some? && 0 < item.quantity <= INT32_MAX && item.unitPrice >= 0.0
  }

  ghost predicate Absent(stored: map<Uuid, Item>, items: seq<OrderItem>) {
    forall i :: 0 <= i < |items| ==> forall p :: Names(items[i], p) ==> p !in stored
  }

  /** Inserting items succeeds exactly when every constraint of the table is met. */
  lemma {:induction false} InsertItemsSucceeds(db: Database, k: Uuid, items: seq<OrderItem>)
    requires k in db.orders
    ensures InsertItems(db, k, items).Success?
       <==> (forall i :: 0 <= i < |items| ==> ItemOk(db, items[i])) && Distinct(items)
            && Absent(db.orders[k].items, items)
    decreases |items|
  {
    if items != [] {
      var item := items[0];
      var found := FindProduct(db, item.productId);
      if found.Some? && found.value !in db.orders[k].items && ItemOk(db, item) {
        var p := found.value;
        var next := WithItem(db, k, p, Item(item.quantity, item.unitPrice));
        InsertItemsSucceeds(next, k, items[1..]);
        HeadAndTail(db, db.orders[k].items, items, p);
        assert forall i :: 0 <= i < |items| ==> (ItemOk(db, items[i]) <==> ItemOk(next, items[i]));
        assert forall i :: 1 <= i < |items| ==> items[i] == items[1..][i - 1];
        assert forall i :: 0 <= i < |items[1..]| ==> items[1..][i] == items[i + 1];
      } else if found.Some? && found.value in db.orders[k].items {
        assert Names(items[0], found.value);
      }
    }
  }

  lemma HeadAndTail(db: Database, stored: map<Uuid, Item>, items: seq<OrderItem>, p: Uuid)
    requires items != [] && Names(items[0], p) && p !in stored
    ensures Distinct(items) && Absent(stored, items)
       <==> Distinct(items[1..])
            && Absent(stored[p := Item(items[0].quantity, items[0].unitPrice)], items[1..])
  {
    var rest := items[1..];
    var next := stored[p := Item(items[0].quantity, items[0].unitPrice)];
    if Distinct(items) && Absent(stored, items) {
      forall i, q | 0 <= i < |rest| && Names(rest[i], q) ensures q !in next {
        assert rest[i] == items[i + 1];
        assert Parse(items[0].productId) != Parse(items[i + 1].productId);
      }
    }
    if Distinct(rest) && Absent(next, rest) {
      forall i, j | 0 <= i < j < |items| ensures Parse(items[i].productId) != Parse(items[j].productId) {
        assert items[j] == rest[j - 1];
        if i == 0 {
          assert Names(rest[j - 1], p) ==> p !in next;
        } else {
          assert items[i] == rest[i - 1];
        }
      }
      forall i, q | 0 <= i < |items| && Names(items[i], q) ensures q !in stored {
        if i > 0 { assert items[i] == rest[i - 1]; }
      }
    }
  }

  /** An item table extended by some listed items. */
  ghost predicate Extended(before: map<Uuid, Item>, items: seq<OrderItem>, after: map<Uuid, Item>) {
    && before.Keys <= after.Keys
    && (forall p :: p in before ==> after[p] == before[p])
    && (forall p {:trigger Named(items, p)} :: p in after && p !in before ==> Named(items, p))
    && (forall i :: 0 <= i < |items| ==> StoredAt(after, items[i]))
  }

  lemma ExtendedCons(before: map<Uuid, Item>, items: seq<OrderItem>, after: map<Uuid, Item>, p: Uuid)
    requires items != [] && Names(items[0], p) && p !in before
    requires Extended(before[p := Item(items[0].quantity, items[0].unitPrice)], items[1..], after)
    ensures Extended(before, items, after)
  {
    var mid := before[p := Item(items[0].quantity, items[0].unitPrice)];
    forall q | q in after && q !in before ensures Named(items, q) {
      if q == p {
        assert Names(items[0], q);
      } else {
        assert Named(items[1..], q);
        var i :| 0 <= i < |items[1..]| && Names(items[1..][i], q);
        assert Names(items[i + 1], q);
      }
    }
    forall i | 0 <= i < |items| ensures StoredAt(after, items[i]) {
      if i > 0 { assert items[i] == items[1..][i - 1]; }
    }
    forall q | q in before ensures after[q] == before[q] { assert q in mid; }
  }

  lemma {:induction false} InsertItemsEffect(db: Database, k: Uuid, items: seq<OrderItem>)
    requires k in db.orders && InsertItems(db, k, items).Success?
    ensures var db' := InsertItems(db, k, items).value;
            && k in db'.orders
            && db' == db.(orders := db.orders[k := db.orders[k].(items := db'.orders[k].items)])
            && Extended(db.orders[k].items, items, db'.orders[k].items)
    decreases |items|
  {
    if items != [] {
      var item := items[0];
      var p := FindProduct(db, item.productId).value;
      var next := WithItem(db, k, p, Item(item.quantity, item.unitPrice));
      InsertItemsEffect(next, k, items[1..]);
      ExtendedCons(db.orders[k].items, items, InsertItems(db, k, items).value.orders[k].items, p);
    }
  }

  /** With one row per product, the stored quantity of a product is the units bought of it. */
  lemma {:induction false} UnitsStored(items: seq<OrderItem>, p: Uuid, i: nat)
    requires Distinct(items) && i < |items| && Names(items[i], p)
    ensures Units(items, p) == items[i].quantity
  {
    var rest := items[1..];
    assert Distinct(rest);
    if i == 0 {
      forall j | 0 <= j < |rest| ensures !Names(rest[j], p) { assert rest[j] == items[j + 1]; }
      UnitsAbsent(rest, p);
    } else {
      assert rest[i - 1] == items[i];
      UnitsStored(rest, p, i - 1);
    }
  }

  lemma {:induction false} UnitsAbsent(items: seq<OrderItem>, p: Uuid)
    requires forall i :: 0 <= i < |items| ==> !Names(items[i], p)
    ensures Units(items, p) == 0
  {
    if items != [] {
      UnitsAbsent(items[1..], p);
    }
  }

  function StoredQuantity(stored: map<Uuid, Item>, p: Uuid): int {
    if p in stored then stored[p].quantity else 0
  }

  lemma StoredUnits(stored: map<Uuid, Item>, items: seq<OrderItem>, p: Uuid)
    requires Stores(stored, items)
    ensures Units(items, p) == StoredQuantity(stored, p)
  {
    if p in stored {
      assert Named(items, p);
      var i :| 0 <= i < |items| && Names(items[i], p);
      UnitsStored(items, p, i);
      assert StoredAt(stored, items[i]);
    } else {
      forall i | 0 <= i < |items| ensures !Names(items[i], p) { assert StoredAt(stored, items[i]); }
      UnitsAbsent(items, p);
    }
  }

  lemma ItemListAt(stored: map<Uuid, Item>, i: nat)
    requires i < |ItemList(stored)|
    ensures SortedKeys(stored.Keys)[i] in stored
    ensures ItemList(stored)[i] == ItemOf(stored, SortedKeys(stored.Keys)[i])
    ensures Names(ItemList(stored)[i], SortedKeys(stored.Keys)[i])
    ensures StoredAt(stored, ItemList(stored)[i])
  {
    var keys := SortedKeys(stored.Keys);
    assert keys[i] in keys;
    ParseFormat(keys[i]);
  }

  /** A stored item list is what the item query returns, under canonical product ids. */
  lemma ItemListStores(stored: map<Uuid, Item>)
    ensures Stores(stored, ItemList(stored))
  {
    var keys := SortedKeys(stored.Keys);
    var list := ItemList(stored);
    forall i | 0 <= i < |list| ensures StoredAt(stored, list[i]) { ItemListAt(stored, i); }
    forall i, j | 0 <= i < j < |list| ensures Parse(list[i].productId) != Parse(list[j].productId) {
      ItemListAt(stored, i);
      ItemListAt(stored, j);
    }
    forall p | p in stored ensures Named(list, p) {
      assert p in keys;
      var i :| 0 <= i < |keys| && keys[i] == p;
      ItemListAt(stored, i);
    }
  }

  // ----- create

  /** The order a successful Create answers with. */
  ghost predicate Bill(db: Database, req: Request, o: Order)
    requires req.Create?
  {
    && Priced(db, MergeOf(req.lines), o.items)
    && o == Order(Format(req.newId), req.user, o.items, OrderTotal(o.items), Pending, req.now, None)
    && o.items != []
    && (forall i :: 0 <= i < |o.items| ==> ItemOk(db, o.items[i]) && o.items[i].unitPrice > 0.0)
  }

  /** The database after a successful Create. */
  ghost predicate Created(db: Database, req: Request, o: Order, db': Database)
    requires req.Create?
  {
    var k := req.newId;
    && k !in db.orders && req.user in db.users
    && Bill(db, req, o)
    && k in db'.orders
    && Stores(db'.orders[k].items, o.items)
    && db' == Database(db.users, AfterSale(db.products, o.items),
                       db.orders[k := OrderRow(req.user, o.total, Pending, req.now, None, db'.orders[k].items)])
  }

  lemma InsertOrderEffect(db: Database, o: Order, k: Uuid)
    requires Parse(o.id) == Some(k) && InsertOrder(db, o).Success?
    ensures var db' := InsertOrder(db, o).value;
            && k !in db.orders && o.user in db.users
            && (forall i :: 0 <= i < |o.items| ==> ItemOk(db, o.items[i]))
            && k in db'.orders && Stores(db'.orders[k].items, o.items)
            && db' == db.(orders := db.orders[k := OrderRow(o.user, o.total, o.status, o.createdAt, o.cancelledAt, db'.orders[k].items)])
  {
    var header := db.(orders := db.orders[k := HeaderOf(o)]);
    InsertItemsSucceeds(header, k, o.items);
    InsertItemsEffect(header, k, o.items);
    forall i | 0 <= i < |o.items| ensures ItemOk(db, o.items[i]) { assert ItemOk(header, o.items[i]); }
  }

  lemma PlacedOrder(db: Database, req: Request, items: seq<OrderItem>)
    requires req.Create? && Place(db, req, items).Success?
    ensures var (db', o) := Place(db, req, items).value;
            && o == Order(Format(req.newId), req.user, items, OrderTotal(items), Pending, req.now, None)
            && items != [] && (forall i :: 0 <= i < |items| ==> items[i].unitPrice > 0.0)
            && InsertOrder(db, o) == Success(db')
  {
    forall i | 0 <= i < |items| ensures items[i].unitPrice > 0.0 { assert items[i] in items; }
  }

  lemma PlaceEffect(db: Database, req: Request, items: seq<OrderItem>)
    requires req.Create? && Place(db, req, items).Success?
    ensures var (db', o) := Place(db, req, items).value;
            var k := req.newId;
            && k !in db.orders && req.user in db.users && items != []
            && o == Order(Format(k), req.user, items, OrderTotal(items), Pending, req.now, None)
            && (forall i :: 0 <= i < |items| ==> ItemOk(db, items[i]) && items[i].unitPrice > 0.0)
            && k in db'.orders
            && Stores(db'.orders[k].items, items)
            && db' == db.(orders := db.orders[k := OrderRow(o.user, o.total, o.status, o.createdAt, o.cancelledAt, db'.orders[k].items)])
  {
    PlacedOrder(db, req, items);
    ParseFormat(req.newId);
    InsertOrderEffect(db, Place(db, req, items).value.1, req.newId);
  }

  lemma CreateEffect(db: Database, req: Request)
    requires req.Create? && Apply(db, req).1.Success?
    ensures Created(db, req, Apply(db, req).1.value, Apply(db, req).0)
  {
    var lines := MergeOf(req.lines);
    var (sold, items) := Reserve(db, lines, []).value;
    ReserveEffect(db, lines, []);
    assert items[0..] == items;
    PlaceEffect(sold, req, items);
    forall i | 0 <= i < |items| ensures ItemOk(db, items[i]) {
      assert ItemOk(sold, items[i]);
    }
  }

  // ----- cancel and confirm

  lemma ReturnCons(db: Database, item: OrderItem, mid: Database, rest: seq<OrderItem>)
    requires IncrementStock(db, item.productId, item.quantity) == Success(mid)
    ensures mid.(products := AfterReturn(mid.products, rest)) == db.(products := AfterReturn(db.products, [item] + rest))
  {
    assert ([item] + rest)[1..] == rest;
    assert AfterReturn(mid.products, rest) == AfterReturn(db.products, [item] + rest);
  }

  lemma {:induction false} RestockEffect(db: Database, todo: seq<OrderItem>)
    requires Restock(db, todo).Success?
    ensures Restock(db, todo).value == db.(products := AfterReturn(db.products, todo))
    decreases |todo|
  {
    if todo == [] {
      assert AfterReturn(db.products, []) == db.products;
    } else {
      var mid := IncrementStock(db, todo[0].productId, todo[0].quantity).value;
      RestockEffect(mid, todo[1..]);
      ReturnCons(db, todo[0], mid, todo[1..]);
      assert [todo[0]] + todo[1..] == todo;
    }
  }

  /** The order a transition request is about, and why it went through. */
  ghost predicate Found(db: Database, req: Request, k: Uuid)
    requires !req.Create?
  {
    && FindOrder(db, req.orderId) == Some(k)
    && db.orders[k].user == req.user && db.orders[k].status == Pending
  }

  /** The database after a successful Cancel: the stock is only given back under the canonical
      spelling of the order id, because otherwise no items are loaded. */
  ghost predicate CancelledIn(db: Database, req: Request, k: Uuid, db': Database)
    requires req.Cancel?
  {
    && Found(db, req, k)
    && db' == Database(db.users,
                       AfterReturn(db.products, if Canonical(req.orderId) then ItemList(db.orders[k].items) else []),
                       db.orders[k := db.orders[k].(status := Cancelled, cancelledAt := Some(req.now))])
  }

  ghost predicate ConfirmedIn(db: Database, req: Request, k: Uuid, db': Database)
    requires req.Confirm?
  {
    && Found(db, req, k)
    && db' == db.(orders := db.orders[k := db.orders[k].(status := Confirmed, cancelledAt := None)])
  }

  lemma CancelEffect(db: Database, req: Request) returns (k: Uuid)
    requires req.Cancel? && Apply(db, req).1.Success?
    ensures CancelledIn(db, req, k, Apply(db, req).0)
  {
    k := FindOrder(db, req.orderId).value;
    ParseFormat(k);
    var o := Transition(req, Loaded(k, db.orders[k], req.orderId)).value;
    assert o.items == if Canonical(req.orderId) then ItemList(db.orders[k].items) else [];
    RestockEffect(db, o.items);
  }

  lemma ConfirmEffect(db: Database, req: Request) returns (k: Uuid)
    requires req.Confirm? && Apply(db, req).1.Success?
    ensures ConfirmedIn(db, req, k, Apply(db, req).0)
  {
    k := FindOrder(db, req.orderId).value;
    ParseFormat(k);
  }

  /** A failed transaction leaves the database as it was. */
  lemma FailureEffect(db: Database, req: Request)
    requires Apply(db, req).1.Failure?
    ensures Apply(db, req).0 == db
  {}

  lemma SaleOrReturnKeepsCatalogue(products: map<Uuid, Product>, items: seq<OrderItem>, products': map<Uuid, Product>)
    requires products' == AfterSale(products, items) || products' == AfterReturn(products, items)
    ensures SameCatalogue(products, products')
  {}

  /** The same products, with at most other stocks. */
  ghost predicate SameCatalogue(products: map<Uuid, Product>, products': map<Uuid, Product>) {
    && products'.Keys == products.Keys
    && forall p {:trigger products'[p]} :: p in products ==> products'[p] == products[p].(stock := products'[p].stock)
  }

  /** What the successful transactions have in common: they move the stock of some items and write
      one order row. */
  lemma TransactionShape(db: Database, req: Request) returns (items: seq<OrderItem>, k: Uuid)
    requires Apply(db, req).1.Success?
    ensures var db' := Apply(db, req).0;
            && db'.users == db.users && SameCatalogue(db.products, db'.products)
            && k in db'.orders && db'.orders == db.orders[k := db'.orders[k]]
            && (if req.Create? then
                  k == req.newId && k !in db.orders && db'.products == AfterSale(db.products, items)
                else
                  && k in db.orders && Found(db, req, k)
                  && db'.products == AfterReturn(db.products, items)
                  && (var row := db'.orders[k];
                      && row == db.orders[k].(status := row.status, cancelledAt := row.cancelledAt)
                      && row.status != Pending
                      && (row.cancelledAt.Some? <==> row.status == Cancelled)))
  {
    var (db', answer) := Apply(db, req);
    if req.Create? {
      CreateEffect(db, req);
      items, k := answer.value.items, req.newId;
    } else if req.Cancel? {
      k := CancelEffect(db, req);
      items := if Canonical(req.orderId) then ItemList(db.orders[k].items) else [];
    } else {
      k := ConfirmEffect(db, req);
      items := [];
      assert AfterReturn(db.products, []) == db.products;
    }
    SaleOrReturnKeepsCatalogue(db.products, items, db'.products);
  }
}
