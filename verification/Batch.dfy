/** Loading the items of many orders with one query. */
module Batch {
  import opened Basics
  import opened Uuid
  import opened Domain
  import opened Repository
  import opened Effects
  import opened RoundTrip

  /** A row of the item query. */
  datatype ItemRow = ItemRow(order: Uuid, product: Uuid, item: Item)

  /** A row of order_items that belongs to one of the wanted orders. */
  ghost predicate Wanted(db: Database, wanted: set<Uuid>, row: ItemRow) {
    && row.order in wanted && row.order in db.orders
    && row.product in db.orders[row.order].items
    && row.item == db.orders[row.order].items[row.product]
  }

  /** Any answer the query may give: the wanted rows, each once, by product; rows of different orders
      for the same product come in any order. */
  ghost predicate IsItemQuery(db: Database, wanted: set<Uuid>, rows: seq<ItemRow>) {
    && (forall row :: row in rows <==> Wanted(db, wanted, row))
    && (forall i, j :: 0 <= i < j < |rows| ==> rows[i].product <= rows[j].product && rows[i] != rows[j])
  }

  function RowItem(row: ItemRow): OrderItem {
    OrderItem(Format(row.product), row.item.quantity, row.item.unitPrice)
  }

  /** The items of one order among the rows, in row order. */
  function ItemsAmong(rows: seq<ItemRow>, k: Uuid): seq<OrderItem> {
    if rows == [] then []
    else ItemsAmong(rows[..|rows| - 1], k)
         + if rows[|rows| - 1].order == k then [RowItem(rows[|rows| - 1])] else []
  }

  /** The products of one order among the rows. */
  function ProductsAmong(rows: seq<ItemRow>, k: Uuid): seq<Uuid> {
    if rows == [] then []
    else ProductsAmong(rows[..|rows| - 1], k)
         + if rows[|rows| - 1].order == k then [rows[|rows| - 1].product] else []
  }

  // ----- the grouping loop

  /** What the map holds for an order under its printed id. */
  function Filed(out: map<string, seq<OrderItem>>, k: Uuid): seq<OrderItem> {
    if Format(k) in out then out[Format(k)] else []
  }

  /** Every order with rows is filed under its printed id, with its rows in order, and nothing else is. */
  ghost predicate Grouped(rows: seq<ItemRow>, out: map<string, seq<OrderItem>>) {
    && (forall k: Uuid :: Filed(out, k) == ItemsAmong(rows, k))
    && (forall id :: id in out ==> Canonical(id) && out[id] != [])
  }

  lemma FormatInjective(k: Uuid, o: Uuid)
    requires Format(k) == Format(o)
    ensures k == o
  {
    ParseFormat(k);
    ParseFormat(o);
  }

  lemma GroupStepAt(rows: seq<ItemRow>, row: ItemRow, out: map<string, seq<OrderItem>>, k: Uuid)
    requires Filed(out, k) == ItemsAmong(rows, k)
    ensures Filed(out[Format(row.order) := Filed(out, row.order) + [RowItem(row)]], k) == ItemsAmong(rows + [row], k)
  {
    assert (rows + [row])[..|rows|] == rows;
    if Format(k) == Format(row.order) {
      FormatInjective(k, row.order);
    }
  }

  lemma GroupStep(rows: seq<ItemRow>, row: ItemRow, out: map<string, seq<OrderItem>>)
    requires Grouped(rows, out)
    ensures Grouped(rows + [row], out[Format(row.order) := Filed(out, row.order) + [RowItem(row)]])
  {
    ParseFormat(row.order);
    forall k: Uuid
      ensures Filed(out[Format(row.order) := Filed(out, row.order) + [RowItem(row)]], k) == ItemsAmong(rows + [row], k)
    {
      GroupStepAt(rows, row, out, k);
    }
  }

  method GroupRows(rows: seq<ItemRow>) returns (out: map<string, seq<OrderItem>>)
    ensures Grouped(rows, out)
  {
    out := map[];
    for i := 0 to |rows|
      invariant Grouped(rows[..i], out)
    {
      PrefixGrows(rows, i);
      GroupStep(rows[..i], rows[i], out);
      var id := Format(rows[i].order);
      var before := if id in out then out[id] else [];
      out := out[id := before + [RowItem(rows[i])]];
    }
    assert rows[..|rows|] == rows;
  }

  // ----- batched load equals one-by-one load

  ghost predicate ListedFrom(db: Database, k: Uuid, keys: seq<Uuid>, items: seq<OrderItem>) {
    && |keys| == |items|
    && (keys != [] ==> k in db.orders)
    && (forall i :: 0 <= i < |keys| ==>
                      keys[i] in db.orders[k].items && items[i] == ItemOf(db.orders[k].items, keys[i]))
  }

  lemma {:induction false} AmongFacts(db: Database, wanted: set<Uuid>, rows: seq<ItemRow>, k: Uuid)
    requires forall i :: 0 <= i < |rows| ==> Wanted(db, wanted, rows[i])
    ensures ListedFrom(db, k, ProductsAmong(rows, k), ItemsAmong(rows, k))
  {
    if rows != [] {
      var n := |rows| - 1;
      forall i | 0 <= i < n ensures Wanted(db, wanted, rows[..n][i]) { assert Wanted(db, wanted, rows[i]); }
      AmongFacts(db, wanted, rows[..n], k);
      assert Wanted(db, wanted, rows[n]);
    }
  }

  lemma {:induction false} AmongMembers(rows: seq<ItemRow>, k: Uuid, p: Uuid)
    ensures p in ProductsAmong(rows, k) <==> exists i :: 0 <= i < |rows| && rows[i].order == k && rows[i].product == p
  {
    if rows != [] {
      var n := |rows| - 1;
      AmongMembers(rows[..n], k, p);
      if p in ProductsAmong(rows[..n], k) {
        var i :| 0 <= i < n && rows[..n][i].order == k && rows[..n][i].product == p;
        assert rows[i].order == k && rows[i].product == p;
      }
      if i :| 0 <= i < |rows| && rows[i].order == k && rows[i].product == p {
        if i < n { assert rows[..n][i].order == k && rows[..n][i].product == p; }
      }
    }
  }

  /** Rows sorted by product, each once, list one order's products strictly ascending. */
  lemma {:induction false} AmongAscend(db: Database, wanted: set<Uuid>, rows: seq<ItemRow>, k: Uuid)
    requires forall i :: 0 <= i < |rows| ==> Wanted(db, wanted, rows[i])
    requires forall i, j :: 0 <= i < j < |rows| ==> rows[i].product <= rows[j].product && rows[i] != rows[j]
    ensures Ascends(ProductsAmong(rows, k))
  {
    if rows != [] {
      var n := |rows| - 1;
      forall i | 0 <= i < n ensures Wanted(db, wanted, rows[..n][i]) { assert Wanted(db, wanted, rows[i]); }
      AmongAscend(db, wanted, rows[..n], k);
      var keys := ProductsAmong(rows[..n], k);
      forall i | 0 <= i < |keys| && rows[n].order == k ensures keys[i] < rows[n].product {
        AmongMembers(rows[..n], k, keys[i]);
        var j :| 0 <= j < n && rows[..n][j].order == k && rows[..n][j].product == keys[i];
        assert Wanted(db, wanted, rows[j]) && Wanted(db, wanted, rows[n]);
        assert rows[j].product <= rows[n].product && rows[j] != rows[n];
      }
    }
  }

  lemma AmongComplete(db: Database, wanted: set<Uuid>, rows: seq<ItemRow>, k: Uuid, p: Uuid)
    requires IsItemQuery(db, wanted, rows) && k in wanted && k in db.orders && p in db.orders[k].items
    ensures p in ProductsAmong(rows, k)
  {
    var row := ItemRow(k, p, db.orders[k].items[p]);
    assert Wanted(db, wanted, row);
    var i :| 0 <= i < |rows| && rows[i] == row;
    AmongMembers(rows, k, p);
  }

  lemma SameListing(db: Database, k: Uuid, keys: seq<Uuid>, items: seq<OrderItem>)
    requires k in db.orders && ListedFrom(db, k, keys, items)
    requires keys == SortedKeys(db.orders[k].items.Keys)
    ensures items == ItemList(db.orders[k].items)
  {
    forall i | 0 <= i < |keys| ensures items[i] == ItemList(db.orders[k].items)[i] {
      ItemListAt(db.orders[k].items, i);
    }
  }

  lemma AmongAreAll(db: Database, wanted: set<Uuid>, rows: seq<ItemRow>, k: Uuid)
    requires IsItemQuery(db, wanted, rows) && k in wanted && k in db.orders
    requires ListedFrom(db, k, ProductsAmong(rows, k), ItemsAmong(rows, k))
    ensures Lists(ProductsAmong(rows, k), db.orders[k].items.Keys)
  {
    forall p: Uuid ensures p in ProductsAmong(rows, k) <==> p in db.orders[k].items.Keys {
      if p in db.orders[k].items { AmongComplete(db, wanted, rows, k, p); }
    }
  }

  lemma QueryRowsWanted(db: Database, wanted: set<Uuid>, rows: seq<ItemRow>)
    requires IsItemQuery(db, wanted, rows)
    ensures forall i :: 0 <= i < |rows| ==> Wanted(db, wanted, rows[i])
  {
    forall i | 0 <= i < |rows| ensures Wanted(db, wanted, rows[i]) { assert rows[i] in rows; }
  }

  lemma AmongIsSorted(db: Database, wanted: set<Uuid>, rows: seq<ItemRow>, k: Uuid)
    requires IsItemQuery(db, wanted, rows) && k in wanted && k in db.orders
    requires forall i :: 0 <= i < |rows| ==> Wanted(db, wanted, rows[i])
    requires ListedFrom(db, k, ProductsAmong(rows, k), ItemsAmong(rows, k))
    ensures ProductsAmong(rows, k) == SortedKeys(db.orders[k].items.Keys)
  {
    AmongAscend(db, wanted, rows, k);
    AmongAreAll(db, wanted, rows, k);
    AscendingIsSorted(ProductsAmong(rows, k), db.orders[k].items.Keys);
  }

  /** Whatever order the query breaks ties in, each wanted order gets exactly the list it gets when
      loaded alone: nothing lost, duplicated or moved to another order. */
  lemma BatchedIsSingle(db: Database, wanted: set<Uuid>, rows: seq<ItemRow>, k: Uuid)
    requires IsItemQuery(db, wanted, rows) && k in wanted
    ensures ItemsAmong(rows, k) == if k in db.orders then ItemList(db.orders[k].items) else []
  {
    QueryRowsWanted(db, wanted, rows);
    AmongFacts(db, wanted, rows, k);
    if k in db.orders {
      AmongIsSorted(db, wanted, rows, k);
      SameListing(db, k, ProductsAmong(rows, k), ItemsAmong(rows, k));
    }
  }

  // ----- one possible answer of the query

  /** The rows of one product, by order id. */
  function ProductRows(db: Database, orders: seq<Uuid>, p: Uuid): seq<ItemRow> {
    if orders == [] then []
    else (if orders[0] in db.orders && p in db.orders[orders[0]].items
          then [ItemRow(orders[0], p, db.orders[orders[0]].items[p])] else [])
         + ProductRows(db, orders[1..], p)
  }

  function AllRows(db: Database, orders: seq<Uuid>, products: seq<Uuid>): seq<ItemRow> {
    if products == [] then []
    else ProductRows(db, orders, products[0]) + AllRows(db, orders, products[1..])
  }

  /** Every product some wanted order has. */
  function ProductsOf(db: Database, wanted: set<Uuid>): set<Uuid> {
    set o, p | o in wanted && o in db.orders && p in db.orders[o].items :: p
  }

  function SelectItems(db: Database, wanted: set<Uuid>): seq<ItemRow> {
    AllRows(db, SortedKeys(wanted), SortedKeys(ProductsOf(db, wanted)))
  }

  lemma {:induction false} ProductRowsMembers(db: Database, orders: seq<Uuid>, p: Uuid, row: ItemRow)
    ensures row in ProductRows(db, orders, p)
       <==> row.order in orders && row.product == p && Wanted(db, {row.order}, row)
  {
    if orders != [] {
      ProductRowsMembers(db, orders[1..], p, row);
      assert orders == [orders[0]] + orders[1..];
    }
  }

  lemma {:induction false} ProductRowsAscend(db: Database, orders: seq<Uuid>, p: Uuid)
    requires forall i, j :: 0 <= i < j < |orders| ==> orders[i] < orders[j]
    ensures var rows := ProductRows(db, orders, p);
            && (forall i :: 0 <= i < |rows| ==> rows[i].product == p)
            && (forall i, j :: 0 <= i < j < |rows| ==> rows[i].order < rows[j].order)
  {
    if orders != [] {
      var rest := ProductRows(db, orders[1..], p);
      ProductRowsAscend(db, orders[1..], p);
      forall i | 0 <= i < |rest| ensures orders[0] < rest[i].order {
        ProductRowsMembers(db, orders[1..], p, rest[i]);
        var j :| 0 <= j < |orders[1..]| && orders[1..][j] == rest[i].order;
        assert orders[j + 1] == rest[i].order;
      }
    }
  }

  lemma ProductRowsFacts(db: Database, orders: seq<Uuid>, p: Uuid, row: ItemRow)
    requires forall i, j :: 0 <= i < j < |orders| ==> orders[i] < orders[j]
    ensures var rows := ProductRows(db, orders, p);
            && (row in rows <==> row.order in orders && row.product == p && Wanted(db, {row.order}, row))
            && (forall i, j :: 0 <= i < j < |rows| ==> rows[i].order < rows[j].order)
            && (forall i :: 0 <= i < |rows| ==> rows[i].product == p)
  {
    ProductRowsMembers(db, orders, p, row);
    ProductRowsAscend(db, orders, p);
  }

  lemma {:induction false} AllRowsFacts(db: Database, orders: seq<Uuid>, products: seq<Uuid>, row: ItemRow)
    requires forall i, j :: 0 <= i < j < |orders| ==> orders[i] < orders[j]
    requires forall i, j :: 0 <= i < j < |products| ==> products[i] < products[j]
    ensures var rows := AllRows(db, orders, products);
            && (row in rows <==> row.order in orders && row.product in products && Wanted(db, {row.order}, row))
            && (forall i, j :: 0 <= i < j < |rows| ==> rows[i].product <= rows[j].product && rows[i] != rows[j])
            && (forall i :: 0 <= i < |rows| ==> rows[i].product in products)
  {
    if products != [] {
      var first, rest := ProductRows(db, orders, products[0]), AllRows(db, orders, products[1..]);
      ProductRowsFacts(db, orders, products[0], row);
      AllRowsFacts(db, orders, products[1..], row);
      assert products == [products[0]] + products[1..];
      forall i | 0 <= i < |rest| ensures products[0] < rest[i].product {
        var j :| 0 <= j < |products[1..]| && products[1..][j] == rest[i].product;
        assert products[j + 1] == rest[i].product;
      }
    }
  }

  lemma SelectItemsIsQuery(db: Database, wanted: set<Uuid>)
    ensures IsItemQuery(db, wanted, SelectItems(db, wanted))
  {
    var orders, products := SortedKeys(wanted), SortedKeys(ProductsOf(db, wanted));
    var rows := SelectItems(db, wanted);
    forall row ensures row in rows <==> Wanted(db, wanted, row) {
      AllRowsFacts(db, orders, products, row);
      if Wanted(db, wanted, row) { assert row.product in ProductsOf(db, wanted); }
    }
    AllRowsFacts(db, orders, products, ItemRow(0, 0, Item(0, 0.0)));
  }

  // ----- the listing of one user

  /** ORDER BY created_at DESC, id. */
  predicate Before(db: Database, a: Uuid, b: Uuid)
    requires a in db.orders && b in db.orders
  {
    db.orders[a].createdAt > db.orders[b].createdAt || (db.orders[a].createdAt == db.orders[b].createdAt && a < b)
  }

  /** The orders of a user in listing order. */
  ghost predicate IsListing(db: Database, user: UserId, ids: seq<Uuid>) {
    && (forall k :: k in ids <==> k in db.orders && db.orders[k].user == user)
    && (forall i, j :: 0 <= i < j < |ids| ==>
                         && ids[i] in db.orders && ids[j] in db.orders
                         && db.orders[ids[i]].createdAt >= db.orders[ids[j]].createdAt
                         && (db.orders[ids[i]].createdAt == db.orders[ids[j]].createdAt ==> ids[i] < ids[j]))
  }

  function ListIn(db: Database, k: Uuid, ids: seq<Uuid>): seq<Uuid>
    requires k in db.orders && forall x :: x in ids ==> x in db.orders
  {
    if ids == [] || Before(db, k, ids[0]) then [k] + ids else [ids[0]] + ListIn(db, k, ids[1..])
  }

  lemma {:induction false} ListInFacts(db: Database, k: Uuid, ids: seq<Uuid>)
    requires k in db.orders && (forall x :: x in ids ==> x in db.orders) && k !in ids
    requires forall i, j :: 0 <= i < j < |ids| ==> Before(db, ids[i], ids[j])
    ensures var r := ListIn(db, k, ids);
            && (forall x :: x in r <==> x == k || x in ids)
            && (forall i, j :: 0 <= i < j < |r| ==> r[i] in db.orders && r[j] in db.orders && Before(db, r[i], r[j]))
  {
    if ids != [] && !Before(db, k, ids[0]) {
      assert ids == [ids[0]] + ids[1..];
      ListInFacts(db, k, ids[1..]);
      var rest := ListIn(db, k, ids[1..]);
      forall j | 0 <= j < |rest| ensures rest[j] in db.orders && Before(db, ids[0], rest[j]) {
        assert rest[j] in rest;
        if rest[j] != k {
          var i :| 0 <= i < |ids[1..]| && ids[1..][i] == rest[j];
          assert ids[i + 1] == rest[j];
        }
      }
    } else if ids != [] {
      forall j | 0 <= j < |ids| ensures Before(db, k, ids[j]) {}
    }
  }

  function ListAll(db: Database, keys: seq<Uuid>): (ids: seq<Uuid>)
    requires forall x :: x in keys ==> x in db.orders
    ensures forall x :: x in ids ==> x in db.orders
    ensures |ids| == |keys|
  {
    if keys == [] then [] else ListInMembers(db, keys[0], ListAll(db, keys[1..])); ListIn(db, keys[0], ListAll(db, keys[1..]))
  }

  lemma {:induction false} ListInMembers(db: Database, k: Uuid, ids: seq<Uuid>)
    requires k in db.orders && forall x :: x in ids ==> x in db.orders
    ensures var r := ListIn(db, k, ids); |r| == |ids| + 1 && forall x :: x in r <==> x == k || x in ids
  {
    if ids != [] && !Before(db, k, ids[0]) {
      assert ids == [ids[0]] + ids[1..];
      ListInMembers(db, k, ids[1..]);
    }
  }

  lemma {:induction false} ListAllFacts(db: Database, keys: seq<Uuid>)
    requires forall x :: x in keys ==> x in db.orders
    requires forall i, j :: 0 <= i < j < |keys| ==> keys[i] < keys[j]
    ensures var r := ListAll(db, keys);
            && (forall x :: x in r <==> x in keys)
            && (forall i, j :: 0 <= i < j < |r| ==> Before(db, r[i], r[j]))
  {
    if keys != [] {
      assert keys == [keys[0]] + keys[1..];
      ListAllFacts(db, keys[1..]);
      forall j | 0 <= j < |keys[1..]| ensures keys[1..][j] != keys[0] {}
      ListInFacts(db, keys[0], ListAll(db, keys[1..]));
    }
  }

  function Listing(db: Database, user: UserId): (ids: seq<Uuid>)
    ensures forall k :: k in ids ==> k in db.orders
  {
    ListAll(db, SortedKeys(set k | k in db.orders && db.orders[k].user == user))
  }

  lemma ListingIsListing(db: Database, user: UserId)
    ensures IsListing(db, user, Listing(db, user))
  {
    var keys := SortedKeys(set k | k in db.orders && db.orders[k].user == user);
    ListAllFacts(db, keys);
    forall i, j | 0 <= i < j < |Listing(db, user)|
      ensures Listing(db, user)[i] in db.orders && Listing(db, user)[j] in db.orders
              && Before(db, Listing(db, user)[i], Listing(db, user)[j])
    {
      assert Listing(db, user)[i] in Listing(db, user) && Listing(db, user)[j] in Listing(db, user);
    }
  }
}
