/** The tables and what each repository statement computes on them. */
module Repository {
  import opened Basics
  import opened Uuid
  import opened Domain

  datatype Product = Product(name: string, price: real, stock: int, createdAt: Time)

  datatype Item = Item(quantity: int, unitPrice: real)

  /** A row of orders with its rows of order_items, whose primary key is (order, product). */
  datatype OrderRow = OrderRow(
    user: UserId,
    total: real,
    status: Status,
    createdAt: Time,
    cancelledAt: Option<Time>,
    items: map<Uuid, Item>)

  datatype Database = Database(
    users: set<UserId>,
    products: map<Uuid, Product>,
    orders: map<Uuid, OrderRow>)

  /** The column constraints and foreign keys of the schema. */
  ghost predicate ProductOk(p: Product) {
    p.price > 0.0 && 0 <= p.stock <= INT32_MAX
  }

  ghost predicate OrderRowOk(db: Database, o: OrderRow) {
    && o.user in db.users
    && o.items.Keys <= db.products.Keys
    && (forall p :: p in o.items ==> 0 < o.items[p].quantity <= INT32_MAX && o.items[p].unitPrice >= 0.0)
  }

  ghost predicate ConstraintsHold(db: Database) {
    && (forall p {:trigger ProductOk(db.products[p])} :: p in db.products ==> ProductOk(db.products[p]))
    && (forall o {:trigger OrderRowOk(db, db.orders[o])} :: o in db.orders ==> OrderRowOk(db, db.orders[o]))
  }

  // ----- ORDER BY on a uuid column

  lemma {:induction false} LeastExists(s: set<Uuid>) returns (m: Uuid)
    requires s != {}
    ensures m in s && forall y :: y in s ==> m <= y
    decreases s
  {
    var x :| x in s;
    var rest := s - {x};
    if rest == {} {
      forall y | y in s ensures x <= y { assert y == x || y in rest; }
      m := x;
    } else {
      m := LeastExists(rest);
      if x < m { m := x; }
      forall y | y in s ensures m <= y { assert y == x || y in rest; }
    }
  }

  function Least(s: set<Uuid>): (m: Uuid)
    requires s != {}
    ensures m in s && forall y :: y in s ==> m <= y
  {
    assert exists x :: x in s && forall y :: y in s ==> x <= y by { var m := LeastExists(s); }
    var x :| x in s && forall y :: y in s ==> x <= y;
    x
  }

  function SortedKeys(s: set<Uuid>): (keys: seq<Uuid>)
    ensures |keys| == |s|
    ensures forall x :: x in keys <==> x in s
    ensures forall i, j :: 0 <= i < j < |keys| ==> keys[i] < keys[j]
  {
    if s == {} then []
    else
      var m := Least(s);
      var rest := SortedKeys(s - {m});
      assert forall x :: x in [m] + rest <==> x == m || x in rest;
      assert forall i :: 0 <= i < |rest| ==> rest[i] in rest;
      [m] + rest
  }

  function ItemOf(items: map<Uuid, Item>, p: Uuid): OrderItem
    requires p in items
  {
    OrderItem(Format(p), items[p].quantity, items[p].unitPrice)
  }

  /** The items of one order by ascending product id, as the item query returns them. */
  function ItemList(items: map<Uuid, Item>): (list: seq<OrderItem>)
    ensures |list| == |items.Keys|
  {
    var keys := SortedKeys(items.Keys);
    assert forall i :: 0 <= i < |keys| ==> keys[i] in keys;
    seq(|keys|, i requires 0 <= i < |keys| => ItemOf(items, keys[i]))
  }

  // ----- products

  /** The row a product text names, if there is one. */
  function FindProduct(db: Database, id: string): Option<Uuid> {
    match Parse(id)
    case Some(p) => if p in db.products then Some(p) else None
    case None => None
  }

  function GetProduct(db: Database, id: string): Result<Product, Error> {
    match FindProduct(db, id)
    case Some(p) => Success(db.products[p])
    case None => Failure(ProductNotFound)
  }

  function WithStock(db: Database, p: Uuid, stock: int): Database
    requires p in db.products
  {
    db.(products := db.products[p := db.products[p].(stock := stock)])
  }

  /** UPDATE products SET stock = stock - quantity WHERE id AND stock >= quantity. */
  function DecrementStock(db: Database, id: string, quantity: int): Result<Database, Error> {
    if !IsInt32(quantity) then Failure(Internal)
    else match FindProduct(db, id)
         case None => Failure(ProductNotFound)
         case Some(p) =>
           var stock := db.products[p].stock;
           if stock < quantity then Failure(InsufficientStock)
           else if !IsInt32(stock - quantity) then Failure(Internal)
           else Success(WithStock(db, p, stock - quantity))
  }

  /** UPDATE products SET stock = stock + quantity WHERE id; no row affected is not an error. */
  function IncrementStock(db: Database, id: string, quantity: int): Result<Database, Error> {
    if !IsInt32(quantity) || Parse(id).None? then Failure(Internal)
    else match FindProduct(db, id)
         case None => Success(db)
         case Some(p) =>
           var stock := db.products[p].stock + quantity;
           if 0 <= stock <= INT32_MAX then Success(WithStock(db, p, stock)) else Failure(Internal)
  }

  // ----- orders

  /** The item row meets every constraint of its table. */
  predicate ItemFits(db: Database, k: Uuid, item: OrderItem)
    requires k in db.orders
  {
    && FindProduct(db, item.productId).Some?
    && FindProduct(db, item.productId).value !in db.orders[k].items
    && 0 < item.quantity <= INT32_MAX && item.unitPrice >= 0.0
  }

  function WithItem(db: Database, k: Uuid, p: Uuid, item: Item): Database
    requires k in db.orders
  {
    db.(orders := db.orders[k := db.orders[k].(items := db.orders[k].items[p := item])])
  }

  function InsertItem(db: Database, k: Uuid, item: OrderItem): Database
    requires k in db.orders && ItemFits(db, k, item)
  {
    WithItem(db, k, FindProduct(db, item.productId).value, Item(item.quantity, item.unitPrice))
  }

  /** Inserts the remaining item rows of order k. */
  function InsertItems(db: Database, k: Uuid, items: seq<OrderItem>): Result<Database, Error>
    requires k in db.orders
    decreases |items|
  {
    if items == [] then Success(db)
    else if !ItemFits(db, k, items[0]) then Failure(Internal)
    else InsertItems(InsertItem(db, k, items[0]), k, items[1..])
  }

  /** The orders row of a new order, before its items. */
  function HeaderOf(o: Order): OrderRow {
    OrderRow(o.user, o.total, o.status, o.createdAt, o.cancelledAt, map[])
  }

  /** The row of orders can be written. */
  predicate HeaderFits(db: Database, o: Order) {
    Parse(o.id).Some? && Parse(o.id).value !in db.orders && o.user in db.users
  }

  function InsertOrder(db: Database, o: Order): Result<Database, Error> {
    if !HeaderFits(db, o) then Failure(Internal)
    else
      var k := Parse(o.id).value;
      InsertItems(db.(orders := db.orders[k := HeaderOf(o)]), k, o.items)
  }

  /** The tables once the item rows before the first violated constraint are written. */
  function ItemsWritten(db: Database, k: Uuid, items: seq<OrderItem>): Database
    requires k in db.orders
    decreases |items|
  {
    if items == [] || !ItemFits(db, k, items[0]) then db
    else ItemsWritten(InsertItem(db, k, items[0]), k, items[1..])
  }

  /** What an insertion leaves in the open transaction, whether it ends in an error or not. */
  function OrderWritten(db: Database, o: Order): Database {
    if !HeaderFits(db, o) then db
    else
      var k := Parse(o.id).value;
      ItemsWritten(db.(orders := db.orders[k := HeaderOf(o)]), k, o.items)
  }

  function FindOrder(db: Database, id: string): Option<Uuid> {
    match Parse(id)
    case Some(k) => if k in db.orders then Some(k) else None
    case None => None
  }

  /** The loaded order. Its items are looked up under the caller's spelling of the id, while the
      loader files them under the spelling the database prints. */
  function Loaded(k: Uuid, row: OrderRow, id: string): Order {
    Order(Format(k), row.user, if id == Format(k) then ItemList(row.items) else [],
          row.total, row.status, row.createdAt, row.cancelledAt)
  }

  function GetOrder(db: Database, id: string): Result<Order, Error> {
    match FindOrder(db, id)
    case Some(k) => Success(Loaded(k, db.orders[k], id))
    case None => Failure(OrderNotFound)
  }

  function UpdateStatus(db: Database, id: string, status: Status, cancelledAt: Option<Time>)
    : Result<Database, Error>
  {
    match FindOrder(db, id)
    case Some(k) =>
      Success(db.(orders := db.orders[k := db.orders[k].(status := status, cancelledAt := cancelledAt)]))
    case None => Failure(OrderNotFound)
  }

  // ----- what the statements do, in terms of rows

  lemma GetProductOutcome(db: Database, id: string)
    ensures GetProduct(db, id)
         == if Parse(id).Some? && Parse(id).value in db.products then Success(db.products[Parse(id).value])
            else Failure(ProductNotFound)
  {}

  /** A quantity beyond an INTEGER is an error of its own, then a missing product, then a short stock;
      otherwise the stock of that one product goes down by the quantity. */
  lemma DecrementOutcome(db: Database, id: string, quantity: int)
    requires forall p :: p in db.products ==> 0 <= db.products[p].stock <= 2147483647
    ensures !(-2147483648 <= quantity <= 2147483647) ==> DecrementStock(db, id, quantity) == Failure(Internal)
    ensures -2147483648 <= quantity <= 2147483647 && (Parse(id).None? || Parse(id).value !in db.products) ==>
              DecrementStock(db, id, quantity) == Failure(ProductNotFound)
    ensures -2147483648 <= quantity <= 2147483647 && Parse(id).Some? && Parse(id).value in db.products ==>
              var p := Parse(id).value;
              var before := db.products[p];
              DecrementStock(db, id, quantity)
              == if before.stock < quantity then Failure(InsufficientStock)
              else if before.stock - quantity > 2147483647 then Failure(Internal)
              else Success(Database(db.users,
                                    db.products[p := Product(before.name, before.price, before.stock - quantity, before.createdAt)],
                                    db.orders))
  {}

  /** A malformed id or an amount out of range is an error, a missing product is not. */
  lemma IncrementOutcome(db: Database, id: string, quantity: int)
    requires forall p :: p in db.products ==> 0 <= db.products[p].stock <= 2147483647
    ensures !(-2147483648 <= quantity <= 2147483647) || Parse(id).None? ==> IncrementStock(db, id, quantity) == Failure(Internal)
    ensures -2147483648 <= quantity <= 2147483647 && Parse(id).Some? && Parse(id).value !in db.products ==>
              IncrementStock(db, id, quantity) == Success(db)
    ensures -2147483648 <= quantity <= 2147483647 && Parse(id).Some? && Parse(id).value in db.products ==>
              var p := Parse(id).value;
              var before := db.products[p];
              IncrementStock(db, id, quantity)
              == if 0 <= before.stock + quantity <= 2147483647
              then Success(Database(db.users,
                                    db.products[p := Product(before.name, before.price, before.stock + quantity, before.createdAt)],
                                    db.orders))
              else Failure(Internal)
  {}

  /** An order is found under every spelling of its id and loaded column by column; its items come with
      it exactly under the spelling the database prints. */
  lemma GetOrderOutcome(db: Database, id: string)
    ensures Parse(id).None? || Parse(id).value !in db.orders ==> GetOrder(db, id) == Failure(OrderNotFound)
    ensures Parse(id).Some? && Parse(id).value in db.orders ==>
              var k := Parse(id).value;
              var row := db.orders[k];
              GetOrder(db, id)
              == Success(Order(Format(k), row.user, if id == Format(k) then ItemList(row.items) else [],
                               row.total, row.status, row.createdAt, row.cancelledAt))
  {}

  /** The item list names every stored item once, by ascending product, under the printed product id. */
  lemma ItemListOutcome(items: map<Uuid, Item>, i: nat)
    requires i < |ItemList(items)|
    ensures |ItemList(items)| == |items|
    ensures exists p :: p in items && ItemList(items)[i] == OrderItem(Format(p), items[p].quantity, items[p].unitPrice)
    ensures i > 0 ==> LexLess(ItemList(items)[i - 1].productId, ItemList(items)[i].productId)
  {
    var keys := SortedKeys(items.Keys);
    assert keys[i] in keys && |items.Keys| == |items|;
    if i > 0 {
      assert keys[i - 1] in keys && keys[i - 1] < keys[i];
      TextOrderIsValueOrder(keys[i - 1], keys[i]);
    }
  }

  lemma UpdateStatusOutcome(db: Database, id: string, status: Status, cancelledAt: Option<Time>)
    ensures Parse(id).None? || Parse(id).value !in db.orders ==>
              UpdateStatus(db, id, status, cancelledAt) == Failure(OrderNotFound)
    ensures Parse(id).Some? && Parse(id).value in db.orders ==>
              var k := Parse(id).value;
              var row := db.orders[k];
              UpdateStatus(db, id, status, cancelledAt)
              == Success(Database(db.users, db.products,
                                  db.orders[k := OrderRow(row.user, row.total, status, row.createdAt, cancelledAt, row.items)]))
  {}
}
