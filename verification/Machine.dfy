/** One transaction as a machine that makes one repository call at a time. Between calls it keeps
    only its own rows: those it has locked and those it has inserted. */
module Machine {
  import opened Basics
  import opened Uuid
  import opened Domain
  import opened Merge
  import opened Repository
  import opened Orders

  datatype Row = OrderKey(o: Uuid) | ProductKey(p: Uuid)

  /** Where the body of a transaction stands. */
  datatype Progress =
    | Start                                                // nothing called yet
    | Reserving(todo: seq<Line>, items: seq<OrderItem>)    // next: read a product, or insert the order
    | Charging(price: real, todo: seq<Line>, items: seq<OrderItem>) // next: decrement its stock
    | Settling(order: Order, restock: seq<OrderItem>)      // next: increment a stock, or store the status
    | Leaving(order: Order)                                // the body is done; next: commit

  datatype TxState =
    | Running(progress: Progress, mine: Database)
    | Aborting(error: Error, mine: Database)               // the body failed; next: rollback
    | Done(answer: Answer)
    | Panicked

  const NOTHING := Database({}, map[], map[])

  const INITIAL := Running(Start, NOTHING)

  /** The rows of a database. */
  ghost predicate HasRow(db: Database, r: Row) {
    match r
    case OrderKey(o) => o in db.orders
    case ProductKey(p) => p in db.products
  }

  /** What a transaction sees: the committed database under its own rows. */
  function View(db: Database, mine: Database): Database {
    Database(db.users, db.products + mine.products, db.orders + mine.orders)
  }

  function ProductRow(id: string): Option<Row> {
    match Parse(id) case Some(p) => Some(ProductKey(p)) case None => None
  }

  function OrderRowOf(id: string): Option<Row> {
    match Parse(id) case Some(o) => Some(OrderKey(o)) case None => None
  }

  /** The row the next call locks, if the text it is given names one. */
  function Needs(req: Request, s: Progress): Option<Row> {
    match s
    case Start => if req.Create? then None else OrderRowOf(req.orderId)
    case Reserving(todo, _) =>
      if todo != [] then ProductRow(todo[0].productId)
      else if req.Create? then Some(OrderKey(req.newId)) else None
    case Charging(_, todo, _) => if todo == [] then None else ProductRow(todo[0].productId)
    case Settling(o, todo) => if todo == [] then OrderRowOf(o.id) else ProductRow(todo[0].productId)
    case Leaving(_) => None
  }

  /** Locking a row reads its latest committed value, unless the transaction already owns it. */
  function Fetch(db: Database, mine: Database, row: Option<Row>): Database {
    var base := mine.(users := db.users);
    match row
    case Some(OrderKey(o)) =>
      if o in db.orders && o !in mine.orders then base.(orders := mine.orders[o := db.orders[o]]) else base
    case Some(ProductKey(p)) =>
      if p in db.products && p !in mine.products then base.(products := mine.products[p := db.products[p]])
      else base
    case None => base
  }

  // Each call works on the transaction's own rows, once the row it needs is locked.

  function CallStart(req: Request, mine: Database): TxState {
    if req.Create? then
      if HasBadQuantity(req.lines) then Aborting(InvalidQuantity, mine)
      else if MergeOf(req.lines) == [] then Aborting(EmptyOrder, mine)
      else Running(Reserving(MergeOf(req.lines), []), mine)
    else
      match GetOrder(mine, req.orderId)
      case Failure(e) => Aborting(e, mine)
      case Success(found) =>
        match Transition(req, found)
        case Failure(e) => Aborting(e, mine)
        case Success(o) => Running(Settling(o, ToReturn(req, o)), mine)
  }

  function CallPlace(req: Request, items: seq<OrderItem>, mine: Database): TxState
    requires req.Create?
  {
    match Place(mine, req, items)
    case Failure(e) => Aborting(e, mine)
    case Success((mine', o)) => Running(Leaving(o), mine')
  }

  function CallPrice(todo: seq<Line>, items: seq<OrderItem>, mine: Database): TxState
    requires todo != []
  {
    match GetProduct(mine, todo[0].productId)
    case Failure(e) => Aborting(e, mine)
    case Success(product) => Running(Charging(product.price, todo, items), mine)
  }

  function CallDecrement(price: real, todo: seq<Line>, items: seq<OrderItem>, mine: Database): TxState
    requires todo != []
  {
    match DecrementStock(mine, todo[0].productId, todo[0].quantity)
    case Failure(e) => Aborting(e, mine)
    case Success(mine') => Running(Reserving(todo[1..], items + [Bought(todo[0], price)]), mine')
  }

  function CallIncrement(o: Order, restock: seq<OrderItem>, mine: Database): TxState
    requires restock != []
  {
    match IncrementStock(mine, restock[0].productId, restock[0].quantity)
    case Failure(e) => Aborting(e, mine)
    case Success(mine') => Running(Settling(o, restock[1..]), mine')
  }

  function CallStatus(req: Request, o: Order, mine: Database): TxState {
    match StoreStatus(mine, req, o)
    case Failure(e) => Aborting(e, mine)
    case Success((mine', o')) => Running(Leaving(o'), mine')
  }

  /** The next call; the states the guards exclude are not reached. */
  function Call(req: Request, s: Progress, mine: Database): TxState {
    match s
    case Start => CallStart(req, mine)
    case Reserving(todo, items) =>
      if todo != [] then CallPrice(todo, items, mine)
      else if req.Create? then CallPlace(req, items, mine) else Aborting(Internal, mine)
    case Charging(price, todo, items) =>
      if todo != [] then CallDecrement(price, todo, items, mine) else Aborting(Internal, mine)
    case Settling(o, restock) =>
      if restock != [] then CallIncrement(o, restock, mine) else CallStatus(req, o, mine)
    case Leaving(_) => Running(s, mine)
  }

  /** One call of a transaction whose body is still running. */
  function Step(req: Request, db: Database, s: TxState): TxState {
    if s.Running? && !s.progress.Leaving? then
      Call(req, s.progress, Fetch(db, s.mine, Needs(req, s.progress)))
    else s
  }

  /** The state after k calls against an unchanging database. */
  function Iterate(req: Request, db: Database, k: nat): TxState {
    if k == 0 then INITIAL else Step(req, db, Iterate(req, db, k - 1))
  }

  // ----- a call only depends on the rows it locks

  /** Two databases that differ at most outside the given transaction's rows. */
  ghost predicate SameFor(db: Database, db': Database, mine: Database) {
    && db.users == db'.users
    && db.products.Keys == db'.products.Keys
    && (forall p :: p in mine.products && p in db.products ==> db.products[p] == db'.products[p])
    && (forall o :: o in mine.orders ==> (o in db.orders <==> o in db'.orders))
    && (forall o :: o in mine.orders && o in db.orders ==> db.orders[o] == db'.orders[o])
  }

  lemma {:induction false} InsertItemsKeepsRows(db: Database, k: Uuid, items: seq<OrderItem>)
    requires k in db.orders
    ensures var r := InsertItems(db, k, items);
            r.Success? ==> r.value.products == db.products && r.value.users == db.users
                           && r.value.orders.Keys == db.orders.Keys
    decreases |items|
  {
    if items != [] && FindProduct(db, items[0].productId).Some? {
      var p := FindProduct(db, items[0].productId).value;
      InsertItemsKeepsRows(WithItem(db, k, p, Item(items[0].quantity, items[0].unitPrice)), k, items[1..]);
    }
  }

  ghost predicate RowsKept(mine: Database, mine': Database) {
    mine.products.Keys <= mine'.products.Keys && mine.orders.Keys <= mine'.orders.Keys
  }

  lemma PlaceOwnsRows(req: Request, items: seq<OrderItem>, mine: Database)
    requires req.Create? && CallPlace(req, items, mine).Running?
    ensures RowsKept(mine, CallPlace(req, items, mine).mine)
    ensures req.newId in CallPlace(req, items, mine).mine.orders
  {
    var o := BuildOrder(Format(req.newId), req.user, items, req.now).value;
    ParseFormat(req.newId);
    InsertItemsKeepsRows(mine.(orders := mine.orders[req.newId := HeaderOf(o)]), req.newId, o.items);
  }

  lemma CallOwnsRows(req: Request, s: Progress, mine: Database)
    requires Call(req, s, mine).Running?
    ensures RowsKept(mine, Call(req, s, mine).mine)
    ensures match Needs(req, s)
            case Some(OrderKey(o)) => o in Call(req, s, mine).mine.orders
            case _ => true
  {
    if s.Reserving? && s.todo == [] {
      PlaceOwnsRows(req, s.items, mine);
    }
  }

  /** Rows are only ever added to a transaction's own rows, and a call that goes on owns the row
      it needed, except that a stock increment of a missing product touches nothing. */
  lemma StepOwnsRow(req: Request, db: Database, s: TxState)
    requires s.Running? && Step(req, db, s).Running?
    ensures RowsKept(s.mine, Step(req, db, s).mine)
    ensures match Needs(req, s.progress)
            case Some(OrderKey(o)) => o in Step(req, db, s).mine.orders
            case Some(ProductKey(p)) => p in db.products ==> p in Step(req, db, s).mine.products
            case None => true
  {
    if !s.progress.Leaving? {
      CallOwnsRows(req, s.progress, Fetch(db, s.mine, Needs(req, s.progress)));
    }
  }

  lemma FetchFrame(db: Database, db': Database, mine: Database, row: Option<Row>, mine': Database)
    requires SameFor(db, db', mine') && RowsKept(mine, mine')
    requires match row
             case Some(OrderKey(o)) => o in mine'.orders
             case Some(ProductKey(p)) => p in db.products ==> p in mine'.products
             case None => true
    ensures Fetch(db', mine, row) == Fetch(db, mine, row)
  {
  }

  lemma StepFrame(req: Request, db: Database, db': Database, s: TxState)
    requires s.Running? && Step(req, db, s).Running?
    requires SameFor(db, db', Step(req, db, s).mine)
    ensures Step(req, db', s) == Step(req, db, s)
  {
    StepOwnsRow(req, db, s);
    FetchFrame(db, db', s.mine, Needs(req, s.progress), Step(req, db, s).mine);
  }

  /** A running transaction would stand where it stands had it run on db' all along, if db' agrees
      with db on the rows it owns. */
  lemma {:induction false} IterateFrame(req: Request, db: Database, db': Database, k: nat)
    requires Iterate(req, db, k).Running?
    requires SameFor(db, db', Iterate(req, db, k).mine)
    ensures Iterate(req, db', k) == Iterate(req, db, k)
  {
    if k > 0 {
      var s := Iterate(req, db, k - 1);
      StepOwnsRow(req, db, s);
      IterateFrame(req, db, db', k - 1);
      StepFrame(req, db, db', s);
    }
  }

  // ----- the machine computes the transaction function

  /** What the rest of the body would make of the database the transaction sees. */
  ghost function Meaning(req: Request, db: Database, s: TxState): Attempt
    requires s.Running? || s.Aborting?
  {
    match s
    case Aborting(e, _) => Failure(e)
    case Running(progress, mine) =>
      var view := View(db, mine);
      match progress
      case Start => Body(view, req)
      case Reserving(todo, items) =>
        if req.Create? then ReserveAndPlace(view, req, todo, items) else Failure(Internal)
      case Charging(price, todo, items) =>
        if todo == [] || !req.Create? then Failure(Internal)
        else (match Take(view, price, todo, items)
              case Failure(e) => Failure(e)
              case Success((view', all)) => Place(view', req, all))
      case Settling(o, todo) => Settle(view, req, o, todo)
      case Leaving(o) => Success((view, o))
  }

  /** What every state between two calls satisfies: the items bought so far are on locked products,
      and only Create reserves. */
  ghost predicate Coherent(req: Request, db: Database, s: TxState) {
    && (s.Running? ==> s.progress.Start? ==> s.mine == NOTHING)
    && (s.Running? ==> s.progress.Start? || s.mine.users == db.users)
    && (s.Running? && (s.progress.Reserving? || s.progress.Charging?) ==>
          && req.Create?
          && (forall i :: 0 <= i < |s.progress.items| ==> OnOwnProduct(s.mine, s.progress.items[i].productId)))
    && (s.Running? && s.progress.Charging? ==>
          s.progress.todo != [] && OnOwnProduct(s.mine, s.progress.todo[0].productId))
    && (s.Running? && s.progress.Settling? ==> OnOwnOrder(s.mine, s.progress.order.id))
  }

  ghost predicate OnOwnProduct(mine: Database, id: string) {
    Parse(id).Some? && Parse(id).value in mine.products
  }

  ghost predicate OnOwnOrder(mine: Database, id: string) {
    Parse(id).Some? && Parse(id).value in mine.orders
  }

  lemma FetchKeepsView(db: Database, mine: Database, row: Option<Row>)
    ensures View(db, Fetch(db, mine, row)) == View(db, mine)
  {
  }

  /** Inserting items sees the same products, hence does the same, in a view and in own rows. */
  lemma {:induction false} InsertItemsInView(db: Database, mine: Database, k: Uuid, items: seq<OrderItem>)
    requires k in mine.orders
    requires forall i :: 0 <= i < |items| ==> OnOwnProduct(mine, items[i].productId)
    ensures var r, v := InsertItems(mine, k, items), InsertItems(View(db, mine), k, items);
            && (r.Failure? ==> v == Failure(r.error))
            && (r.Success? ==> v == Success(View(db, r.value)))
    decreases |items|
  {
    if items != [] {
      assert OnOwnProduct(mine, items[0].productId);
      var p := Parse(items[0].productId).value;
      var item := Item(items[0].quantity, items[0].unitPrice);
      var next := WithItem(mine, k, p, item);
      assert View(db, next) == WithItem(View(db, mine), k, p, item);
      forall i | 0 <= i < |items[1..]| ensures OnOwnProduct(next, items[1..][i].productId) {
        assert OnOwnProduct(mine, items[i + 1].productId);
      }
      InsertItemsInView(db, next, k, items[1..]);
    }
  }

  lemma HeaderInView(db: Database, mine: Database, k: Uuid, row: OrderRow)
    ensures var view := View(db, mine);
            View(db, mine.(orders := mine.orders[k := row])) == view.(orders := view.orders[k := row])
  {}

  lemma PlaceInView(db: Database, mine: Database, req: Request, items: seq<OrderItem>)
    requires req.Create? && mine.users == db.users
    requires req.newId in db.orders ==> req.newId in mine.orders
    requires forall i :: 0 <= i < |items| ==> OnOwnProduct(mine, items[i].productId)
    ensures var r, v := Place(mine, req, items), Place(View(db, mine), req, items);
            && (r.Failure? ==> v == Failure(r.error))
            && (r.Success? ==> v == Success((View(db, r.value.0), r.value.1)))
  {
    var k := req.newId;
    ParseFormat(k);
    if BuildOrder(Format(k), req.user, items, req.now).Success? {
      var o := BuildOrder(Format(k), req.user, items, req.now).value;
      if k !in mine.orders && o.user in mine.users {
        var next := mine.(orders := mine.orders[k := HeaderOf(o)]);
        HeaderInView(db, mine, k, HeaderOf(o));
        forall i | 0 <= i < |items| ensures OnOwnProduct(next, items[i].productId) {
          assert OnOwnProduct(mine, items[i].productId);
        }
        InsertItemsInView(db, next, k, items);
      }
    }
  }

  lemma WithStockInView(db: Database, mine: Database, p: Uuid, stock: int)
    requires p in mine.products
    ensures View(db, WithStock(mine, p, stock)) == WithStock(View(db, mine), p, stock)
  {}

  lemma FoundInView(db: Database, mine: Database, id: string)
    requires FindProduct(db, id).Some? ==> OnOwnProduct(mine, id)
    ensures FindProduct(mine, id) == FindProduct(View(db, mine), id)
    ensures GetProduct(mine, id) == GetProduct(View(db, mine), id)
  {}

  /** A stock statement on a row does the same in a view and in own rows. */
  lemma DecrementInView(db: Database, mine: Database, id: string, quantity: int)
    requires FindProduct(db, id).Some? ==> OnOwnProduct(mine, id)
    ensures var r, v := DecrementStock(mine, id, quantity), DecrementStock(View(db, mine), id, quantity);
            && (r.Failure? ==> v == Failure(r.error))
            && (r.Success? ==> v == Success(View(db, r.value)))
  {
    FoundInView(db, mine, id);
    if FindProduct(mine, id).Some? {
      var p := Parse(id).value;
      WithStockInView(db, mine, p, mine.products[p].stock - quantity);
    }
  }

  lemma IncrementInView(db: Database, mine: Database, id: string, quantity: int)
    requires FindProduct(db, id).Some? ==> OnOwnProduct(mine, id)
    ensures var r, v := IncrementStock(mine, id, quantity), IncrementStock(View(db, mine), id, quantity);
            && (r.Failure? ==> v == Failure(r.error))
            && (r.Success? ==> v == Success(View(db, r.value)))
  {
    FoundInView(db, mine, id);
    if FindProduct(mine, id).Some? {
      var p := Parse(id).value;
      WithStockInView(db, mine, p, mine.products[p].stock + quantity);
    }
  }

  lemma StatusInView(db: Database, mine: Database, req: Request, o: Order)
    requires OnOwnOrder(mine, o.id)
    ensures var r, v := StoreStatus(mine, req, o), StoreStatus(View(db, mine), req, o);
            r.Success? && v == Success((View(db, r.value.0), o)) && r.value.1 == o
  {
    var r, v := StoreStatus(mine, req, o), StoreStatus(View(db, mine), req, o);
    assert View(db, r.value.0).orders == v.value.0.orders;
  }

  ghost predicate Kept(req: Request, db: Database, s: TxState, s': TxState)
    requires s.Running?
  {
    (s'.Running? || s'.Aborting?) && Coherent(req, db, s') && Meaning(req, db, s') == Meaning(req, db, s)
  }

  lemma NothingInView(db: Database)
    ensures View(db, NOTHING) == db
  {}

  lemma CreateStartKept(req: Request, db: Database, m: Database)
    requires req.Create? && m.users == db.users && View(db, m) == db
    ensures Kept(req, db, INITIAL, CallStart(req, m))
  {
    NothingInView(db);
  }

  lemma SettlingCoherent(req: Request, db: Database, m: Database, k: Uuid, o: Order)
    requires !req.Create? && m.users == db.users && k in m.orders
    requires Transition(req, Loaded(k, m.orders[k], req.orderId)) == Success(o)
    ensures Coherent(req, db, Running(Settling(o, ToReturn(req, o)), m))
  {
    ParseFormat(k);
    assert o.id == Format(k);
  }

  /** Finding the order in one's own rows is finding it in the database. */
  lemma TransitionStartKept(req: Request, db: Database, m: Database)
    requires !req.Create? && m.users == db.users && View(db, m) == db
    requires GetOrder(m, req.orderId) == GetOrder(db, req.orderId)
    ensures Kept(req, db, INITIAL, CallStart(req, m))
  {
    NothingInView(db);
    assert Meaning(req, db, INITIAL) == Body(db, req);
    var found := GetOrder(m, req.orderId);
    if found.Success? {
      var o := Transition(req, found.value);
      if o.Success? {
        SettlingCoherent(req, db, m, FindOrder(m, req.orderId).value, o.value);
        assert CallStart(req, m) == Running(Settling(o.value, ToReturn(req, o.value)), m);
        assert Body(db, req) == Settle(db, req, o.value, ToReturn(req, o.value));
      }
    }
  }

  lemma PriceKept(req: Request, db: Database, s: TxState, m: Database)
    requires s.Running? && s.progress.Reserving? && s.progress.todo != []
    requires Coherent(req, db, s) && m.users == db.users
    requires RowsKept(s.mine, m) && View(db, m) == View(db, s.mine)
    requires var id := s.progress.todo[0].productId; FindProduct(db, id).Some? ==> OnOwnProduct(m, id)
    ensures Kept(req, db, s, CallPrice(s.progress.todo, s.progress.items, m))
  {
    FoundInView(db, m, s.progress.todo[0].productId);
  }

  lemma DecrementKept(req: Request, db: Database, s: TxState, m: Database)
    requires s.Running? && s.progress.Charging?
    requires Coherent(req, db, s) && m.users == db.users
    requires RowsKept(s.mine, m) && View(db, m) == View(db, s.mine)
    ensures Kept(req, db, s, CallDecrement(s.progress.price, s.progress.todo, s.progress.items, m))
  {
    var Charging(price, todo, items) := s.progress;
    assert OnOwnProduct(m, todo[0].productId);
    DecrementInView(db, m, todo[0].productId, todo[0].quantity);
  }

  lemma IncrementKept(req: Request, db: Database, s: TxState, m: Database)
    requires s.Running? && s.progress.Settling? && s.progress.restock != []
    requires Coherent(req, db, s) && m.users == db.users
    requires RowsKept(s.mine, m) && View(db, m) == View(db, s.mine)
    requires var id := s.progress.restock[0].productId; FindProduct(db, id).Some? ==> OnOwnProduct(m, id)
    ensures Kept(req, db, s, CallIncrement(s.progress.order, s.progress.restock, m))
  {
    IncrementInView(db, m, s.progress.restock[0].productId, s.progress.restock[0].quantity);
  }

  lemma PlaceKept(req: Request, db: Database, s: TxState, m: Database)
    requires s.Running? && s.progress.Reserving? && s.progress.todo == []
    requires Coherent(req, db, s) && m.users == db.users
    requires RowsKept(s.mine, m) && View(db, m) == View(db, s.mine)
    requires req.newId in db.orders ==> req.newId in m.orders
    ensures Kept(req, db, s, CallPlace(req, s.progress.items, m))
  {
    var items := s.progress.items;
    forall i | 0 <= i < |items| ensures OnOwnProduct(m, items[i].productId) {
      assert OnOwnProduct(s.mine, items[i].productId);
    }
    PlaceInView(db, m, req, items);
    InsertKeepsUsers(m, req, items);
    assert Meaning(req, db, s) == Place(View(db, m), req, items);
  }

  lemma InsertKeepsUsers(m: Database, req: Request, items: seq<OrderItem>)
    requires req.Create?
    ensures Place(m, req, items).Success? ==> Place(m, req, items).value.0.users == m.users
  {
    var o := BuildOrder(Format(req.newId), req.user, items, req.now);
    if o.Success? && Parse(o.value.id).Some? {
      var k := Parse(o.value.id).value;
      InsertItemsKeepsRows(m.(orders := m.orders[k := HeaderOf(o.value)]), k, o.value.items);
    }
  }

  lemma StatusKept(req: Request, db: Database, s: TxState, m: Database)
    requires s.Running? && s.progress.Settling? && s.progress.restock == []
    requires Coherent(req, db, s) && m.users == db.users
    requires RowsKept(s.mine, m) && View(db, m) == View(db, s.mine)
    ensures Kept(req, db, s, CallStatus(req, s.progress.order, m))
  {
    StatusInView(db, m, req, s.progress.order);
  }

  /** What locking a row leaves unchanged, and what it provides. */
  lemma FetchFacts(db: Database, mine: Database, row: Option<Row>)
    ensures var m := Fetch(db, mine, row);
            && m.users == db.users && RowsKept(mine, m) && View(db, m) == View(db, mine)
            && (match row
                case Some(ProductKey(p)) => p in db.products ==> p in m.products
                case Some(OrderKey(o)) => o in db.orders ==> o in m.orders
                case None => true)
  {
    FetchKeepsView(db, mine, row);
  }

  lemma StartStep(req: Request, db: Database)
    ensures Kept(req, db, INITIAL, Step(req, db, INITIAL))
  {
    var m := Fetch(db, NOTHING, Needs(req, Start));
    FetchFacts(db, NOTHING, Needs(req, Start));
    NothingInView(db);
    if req.Create? { CreateStartKept(req, db, m); } else { TransitionStartKept(req, db, m); }
    assert Step(req, db, INITIAL) == CallStart(req, m);
  }

  lemma ReservingStep(req: Request, db: Database, s: TxState)
    requires s.Running? && s.progress.Reserving? && Coherent(req, db, s)
    ensures Kept(req, db, s, Step(req, db, s))
  {
    var row := Needs(req, s.progress);
    FetchFacts(db, s.mine, row);
    if s.progress.todo == [] {
      PlaceKept(req, db, s, Fetch(db, s.mine, row));
    } else {
      PriceKept(req, db, s, Fetch(db, s.mine, row));
    }
  }

  lemma ChargingStep(req: Request, db: Database, s: TxState)
    requires s.Running? && s.progress.Charging? && Coherent(req, db, s)
    ensures Kept(req, db, s, Step(req, db, s))
  {
    var row := Needs(req, s.progress);
    FetchFacts(db, s.mine, row);
    DecrementKept(req, db, s, Fetch(db, s.mine, row));
  }

  lemma SettlingStep(req: Request, db: Database, s: TxState)
    requires s.Running? && s.progress.Settling? && Coherent(req, db, s)
    ensures Kept(req, db, s, Step(req, db, s))
  {
    var row := Needs(req, s.progress);
    FetchFacts(db, s.mine, row);
    if s.progress.restock == [] {
      StatusKept(req, db, s, Fetch(db, s.mine, row));
    } else {
      IncrementKept(req, db, s, Fetch(db, s.mine, row));
    }
  }

  /** One call neither changes what the transaction will do nor leaves the coherent states. */
  lemma StepKeepsMeaning(req: Request, db: Database, s: TxState)
    requires s.Running? && Coherent(req, db, s)
    ensures Kept(req, db, s, Step(req, db, s))
  {
    match s.progress
    case Start =>
      assert s == INITIAL;
      StartStep(req, db);
    case Reserving(_, _) => ReservingStep(req, db, s);
    case Charging(_, _, _) => ChargingStep(req, db, s);
    case Settling(_, _) => SettlingStep(req, db, s);
    case Leaving(_) => assert Step(req, db, s) == s;
  }

  /** The transaction function is what the machine computes when it runs alone. */
  lemma {:induction false} IterateKeepsMeaning(req: Request, db: Database, k: nat)
    ensures var s := Iterate(req, db, k);
            && (s.Running? || s.Aborting?)
            && Coherent(req, db, s)
            && Meaning(req, db, s) == Body(db, req)
  {
    if k == 0 {
      NothingInView(db);
    } else {
      IterateKeepsMeaning(req, db, k - 1);
      if Iterate(req, db, k - 1).Running? {
        StepKeepsMeaning(req, db, Iterate(req, db, k - 1));
      }
    }
  }
}
