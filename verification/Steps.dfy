/** The calls the use cases make on the tables are the steps of the machine: the same answers, the same
    contents as the transaction sees them, and the same rows locked. */
module Steps {
  import opened Basics
  import opened Uuid
  import opened Domain
  import opened Merge
  import opened Repository
  import opened Orders
  import opened Machine
  import opened World

  /** The open transaction stands where the machine does after some number of calls. */
  ghost predicate Mirrors(req: Request, db: Database, s: TxState, contents: Database, locked: set<Row>) {
    s.Running? && Reached(req, db, s) && contents == View(db, s.mine) && locked == Rows(s.mine)
  }

  /** The machine has failed with the given error. */
  ghost predicate FailsWith(req: Request, db: Database, s: TxState, e: Error) {
    Reached(req, db, s) && s.Aborting? && s.error == e
  }

  /** A body that ends with the given answer, contents and locks ends as the machine does: with the
      same rows just before the commit, or with the same error just before the rollback. */
  ghost predicate EndsAsMachine(req: Request, db: Database, attempt: Attempt, locked: set<Row>) {
    match attempt
    case Success((after, o)) => exists s :: Mirrors(req, db, s, after, locked) && s.progress == Leaving(o)
    case Failure(e) => exists s :: FailsWith(req, db, s, e)
  }

  lemma StartMirrors(req: Request, db: Database)
    ensures Mirrors(req, db, INITIAL, db, {})
  {
    NothingInView(db);
    assert Iterate(req, db, 0) == INITIAL;
    assert Rows(NOTHING) == {};
  }

  lemma StepReached(req: Request, db: Database, s: TxState)
    requires Reached(req, db, s)
    ensures Reached(req, db, Step(req, db, s))
  {
    var k: nat :| Iterate(req, db, k) == s;
    assert Iterate(req, db, k + 1) == Step(req, db, s);
  }

  lemma ReachedCoherent(req: Request, db: Database, s: TxState)
    requires Reached(req, db, s)
    ensures Coherent(req, db, s)
  {
    var k: nat :| Iterate(req, db, k) == s;
    IterateKeepsMeaning(req, db, k);
  }

  /** Locking adds the row that was found. */
  lemma FetchRows(db: Database, mine: Database, row: Option<Row>)
    ensures Rows(Fetch(db, mine, row))
         == Rows(mine) + if row.Some? && HasRow(db, row.value) then {row.value} else {}
  {}

  // ----- create

  lemma ReserveMirrors(req: Request, db: Database)
    requires req.Create? && !HasBadQuantity(req.lines) && MergeOf(req.lines) != []
    ensures var s := Step(req, db, INITIAL);
            Mirrors(req, db, s, db, {}) && s.progress == Reserving(MergeOf(req.lines), [])
  {
    StartMirrors(req, db);
    StepReached(req, db, INITIAL);
    FetchRows(db, NOTHING, None);
  }

  lemma PriceMirrors(req: Request, db: Database, s: TxState, contents: Database, locked: set<Row>)
    requires Mirrors(req, db, s, contents, locked) && s.progress.Reserving? && s.progress.todo != []
    ensures var id, s' := s.progress.todo[0].productId, Step(req, db, s);
            match GetProduct(contents, id)
            case Failure(e) => FailsWith(req, db, s', e)
            case Success(product) =>
              && s'.Running? && s'.progress == Charging(product.price, s.progress.todo, s.progress.items)
              && Mirrors(req, db, s', contents, locked + {ProductKey(Parse(id).value)})
  {
    var id, row := s.progress.todo[0].productId, Needs(req, s.progress);
    StepReached(req, db, s);
    FetchFacts(db, s.mine, row);
    FetchRows(db, s.mine, row);
    FoundInView(db, Fetch(db, s.mine, row), id);
  }

  lemma DecrementRows(m: Database, id: string, quantity: int)
    requires DecrementStock(m, id, quantity).Success?
    ensures Rows(DecrementStock(m, id, quantity).value) == Rows(m)
    ensures Parse(id).Some? && ProductKey(Parse(id).value) in Rows(m)
  {}

  lemma DecrementMirrors(req: Request, db: Database, s: TxState, contents: Database, locked: set<Row>)
    requires Mirrors(req, db, s, contents, locked) && s.progress.Charging? && s.progress.todo != []
    ensures var line, s' := s.progress.todo[0], Step(req, db, s);
            match DecrementStock(contents, line.productId, line.quantity)
            case Failure(e) => FailsWith(req, db, s', e)
            case Success(after) =>
              && s'.Running?
              && s'.progress == Reserving(s.progress.todo[1..], s.progress.items + [Bought(line, s.progress.price)])
              && Mirrors(req, db, s', after, locked + {ProductKey(Parse(line.productId).value)})
  {
    var line, row := s.progress.todo[0], Needs(req, s.progress);
    var m := Fetch(db, s.mine, row);
    StepReached(req, db, s);
    ReachedCoherent(req, db, s);
    FetchFacts(db, s.mine, row);
    FetchRows(db, s.mine, row);
    DecrementInView(db, m, line.productId, line.quantity);
    if DecrementStock(m, line.productId, line.quantity).Success? {
      DecrementRows(m, line.productId, line.quantity);
    }
  }

  lemma PlaceRows(req: Request, items: seq<OrderItem>, m: Database)
    requires req.Create? && CallPlace(req, items, m).Running?
    ensures Rows(CallPlace(req, items, m).mine) == Rows(m) + {OrderKey(req.newId)}
  {
    PlaceOwnsRows(req, items, m);
    PlaceAddsRow(req, items, m);
  }

  lemma PlaceMirrors(req: Request, db: Database, s: TxState, contents: Database, locked: set<Row>)
    requires Mirrors(req, db, s, contents, locked) && s.progress.Reserving? && s.progress.todo == []
    ensures req.Create?
    ensures var s' := Step(req, db, s);
            match Place(contents, req, s.progress.items)
            case Failure(e) => FailsWith(req, db, s', e)
            case Success((after, o)) =>
              && s'.Running? && s'.progress == Leaving(o)
              && Mirrors(req, db, s', after, locked + {OrderKey(req.newId)})
  {
    var items, row := s.progress.items, Needs(req, s.progress);
    var m := Fetch(db, s.mine, row);
    StepReached(req, db, s);
    ReachedCoherent(req, db, s);
    FetchFacts(db, s.mine, row);
    FetchRows(db, s.mine, row);
    forall i | 0 <= i < |items| ensures OnOwnProduct(m, items[i].productId) {
      assert OnOwnProduct(s.mine, items[i].productId);
    }
    PlaceInView(db, m, req, items);
    if CallPlace(req, items, m).Running? {
      PlaceRows(req, items, m);
    }
  }

  // ----- cancel and confirm

  lemma LoadMirrors(req: Request, db: Database)
    requires !req.Create?
    ensures var s' := Step(req, db, INITIAL);
            match GetOrder(db, req.orderId)
            case Failure(e) => FailsWith(req, db, s', e)
            case Success(found) =>
              match Transition(req, found)
              case Failure(e) => FailsWith(req, db, s', e)
              case Success(o) =>
                && s'.Running? && s'.progress == Settling(o, ToReturn(req, o))
                && Mirrors(req, db, s', db, {OrderKey(Parse(req.orderId).value)})
  {
    var row := Needs(req, Start);
    StartMirrors(req, db);
    StepReached(req, db, INITIAL);
    FetchFacts(db, NOTHING, row);
    FetchRows(db, NOTHING, row);
    assert GetOrder(Fetch(db, NOTHING, row), req.orderId) == GetOrder(db, req.orderId);
  }

  lemma IncrementRows(m: Database, id: string, quantity: int)
    requires IncrementStock(m, id, quantity).Success?
    ensures Rows(IncrementStock(m, id, quantity).value) == Rows(m)
    ensures FindProduct(m, id).Some? ==> ProductKey(Parse(id).value) in Rows(m)
  {}

  lemma IncrementMirrors(req: Request, db: Database, s: TxState, contents: Database, locked: set<Row>)
    requires Mirrors(req, db, s, contents, locked) && s.progress.Settling? && s.progress.restock != []
    ensures var item, s' := s.progress.restock[0], Step(req, db, s);
            match IncrementStock(contents, item.productId, item.quantity)
            case Failure(e) => FailsWith(req, db, s', e)
            case Success(after) =>
              && s'.Running? && s'.progress == Settling(s.progress.order, s.progress.restock[1..])
              && Mirrors(req, db, s', after, if FindProduct(after, item.productId).Some?
                         then locked + {ProductKey(Parse(item.productId).value)} else locked)
  {
    var item, row := s.progress.restock[0], Needs(req, s.progress);
    var m := Fetch(db, s.mine, row);
    StepReached(req, db, s);
    FetchFacts(db, s.mine, row);
    FetchRows(db, s.mine, row);
    FoundInView(db, m, item.productId);
    IncrementInView(db, m, item.productId, item.quantity);
    if IncrementStock(m, item.productId, item.quantity).Success? {
      IncrementRows(m, item.productId, item.quantity);
    }
  }

  lemma StatusMirrors(req: Request, db: Database, s: TxState, contents: Database, locked: set<Row>)
    requires Mirrors(req, db, s, contents, locked) && s.progress.Settling? && s.progress.restock == []
    ensures var o, s' := s.progress.order, Step(req, db, s);
            var stored := StoreStatus(contents, req, o);
            && stored.Success? && stored.value.1 == o && s'.Running? && s'.progress == Leaving(o)
            && Mirrors(req, db, s', stored.value.0, locked + {OrderKey(Parse(o.id).value)})
  {
    var o, row := s.progress.order, Needs(req, s.progress);
    var m := Fetch(db, s.mine, row);
    StepReached(req, db, s);
    ReachedCoherent(req, db, s);
    FetchFacts(db, s.mine, row);
    FetchRows(db, s.mine, row);
    StatusInView(db, m, req, o);
    assert Rows(StoreStatus(m, req, o).value.0) == Rows(m);
  }

  // ----- whole bodies

  function ProductRowOf(id: string): set<Row> {
    match Parse(id) case Some(p) => {ProductKey(p)} case None => {}
  }

  /** The products some lines lock. */
  function LineRows(lines: seq<Line>): set<Row> {
    if lines == [] then {} else ProductRowOf(lines[0].productId) + LineRows(lines[1..])
  }

  /** The products giving back some items locks; a product that is not there locks nothing. */
  function ItemRows(db: Database, items: seq<OrderItem>): set<Row> {
    if items == [] then {}
    else (if FindProduct(db, items[0].productId).Some? then ProductRowOf(items[0].productId) else {})
         + ItemRows(db, items[1..])
  }

  /** The rows a transition of order k that gives back some items locks. */
  function TransitionRows(db: Database, k: Uuid, items: seq<OrderItem>): set<Row> {
    {OrderKey(k)} + ItemRows(db, items)
  }

  /** The items a Cancel or Confirm gives back. */
  function Returned(req: Request, db: Database, k: Uuid): seq<OrderItem>
    requires !req.Create? && k in db.orders
  {
    if req.Cancel? then Loaded(k, db.orders[k], req.orderId).items else []
  }

  /** The rows a body that succeeds has locked. */
  function LockedBy(req: Request, db: Database): set<Row> {
    if req.Create? then LineRows(MergeOf(req.lines)) + {OrderKey(req.newId)}
    else match FindOrder(db, req.orderId)
         case None => {}
         case Some(k) => TransitionRows(db, k, Returned(req, db, k))
  }

  /** What the first line locks and what the rest will lock. */
  lemma LineRowsCons(todo: seq<Line>, locked: set<Row>, last: set<Row>)
    requires todo != []
    ensures locked + ProductRowOf(todo[0].productId) + (LineRows(todo[1..]) + last) == locked + (LineRows(todo) + last)
    ensures locked + ProductRowOf(todo[0].productId) + (LineRows(todo) + last) == locked + (LineRows(todo) + last)
  {}

  lemma {:induction false} ReserveEnds(req: Request, db: Database, s: TxState, contents: Database, locked: set<Row>)
    requires Mirrors(req, db, s, contents, locked) && s.progress.Reserving? && req.Create?
    ensures EndsAsMachine(req, db, ReserveAndPlace(contents, req, s.progress.todo, s.progress.items),
                          locked + (LineRows(s.progress.todo) + {OrderKey(req.newId)}))
    decreases |s.progress.todo|, 1
  {
    var todo := s.progress.todo;
    var s1 := Step(req, db, s);
    if todo == [] {
      PlaceMirrors(req, db, s, contents, locked);
      assert locked + (LineRows(todo) + {OrderKey(req.newId)}) == locked + {OrderKey(req.newId)};
    } else {
      PriceMirrors(req, db, s, contents, locked);
      var priced := GetProduct(contents, todo[0].productId);
      if priced.Success? {
        TakeEnds(req, db, s1, contents, locked + ProductRowOf(todo[0].productId));
        LineRowsCons(todo, locked, {OrderKey(req.newId)});
      }
    }
  }

  /** The rest of the body once a line is priced. */
  ghost function TakeAndPlace(db: Database, req: Request, price: real, todo: seq<Line>, items: seq<OrderItem>): Attempt
    requires req.Create? && todo != []
  {
    match Take(db, price, todo, items)
    case Failure(e) => Failure(e)
    case Success((sold, all)) => Place(sold, req, all)
  }

  lemma TakeAndPlaceStep(db: Database, req: Request, price: real, todo: seq<Line>, items: seq<OrderItem>)
    requires req.Create? && todo != []
    ensures TakeAndPlace(db, req, price, todo, items)
         == match DecrementStock(db, todo[0].productId, todo[0].quantity)
            case Failure(e) => Failure(e)
            case Success(after) => ReserveAndPlace(after, req, todo[1..], items + [Bought(todo[0], price)])
  {}

  lemma {:induction false} TakeEnds(req: Request, db: Database, s: TxState, contents: Database, locked: set<Row>)
    requires Mirrors(req, db, s, contents, locked) && s.progress.Charging? && req.Create? && s.progress.todo != []
    ensures EndsAsMachine(req, db, TakeAndPlace(contents, req, s.progress.price, s.progress.todo, s.progress.items),
                          locked + (LineRows(s.progress.todo) + {OrderKey(req.newId)}))
    decreases |s.progress.todo|, 0
  {
    var todo := s.progress.todo;
    DecrementMirrors(req, db, s, contents, locked);
    TakeAndPlaceStep(contents, req, s.progress.price, todo, s.progress.items);
    var taken := DecrementStock(contents, todo[0].productId, todo[0].quantity);
    if taken.Success? {
      ReserveEnds(req, db, Step(req, db, s), taken.value, locked + ProductRowOf(todo[0].productId));
      LineRowsCons(todo, locked, {OrderKey(req.newId)});
    }
  }

  lemma StatusEnds(req: Request, db: Database, s: TxState, contents: Database, locked: set<Row>)
    requires Mirrors(req, db, s, contents, locked) && s.progress.Settling? && s.progress.restock == []
    requires Parse(s.progress.order.id).Some? && OrderKey(Parse(s.progress.order.id).value) in locked
    ensures EndsAsMachine(req, db, StoreStatus(contents, req, s.progress.order), locked)
  {
    StatusMirrors(req, db, s, contents, locked);
    assert locked + {OrderKey(Parse(s.progress.order.id).value)} == locked;
  }

  /** What giving back one item locks and what the rest will lock. */
  lemma ItemRowsCons(contents: Database, after: Database, items: seq<OrderItem>, locked: set<Row>)
    requires items != [] && after.products.Keys == contents.products.Keys
    ensures (if FindProduct(after, items[0].productId).Some?
             then locked + {ProductKey(Parse(items[0].productId).value)} else locked)
            + ItemRows(after, items[1..])
         == locked + ItemRows(contents, items)
  {
    SameItemRows(after, contents, items[1..]);
  }

  lemma IncrementKeepsKeys(contents: Database, id: string, quantity: int)
    requires IncrementStock(contents, id, quantity).Success?
    ensures IncrementStock(contents, id, quantity).value.products.Keys == contents.products.Keys
  {}

  /** The locks after giving back the first item. */
  function Locking(locked: set<Row>, db: Database, id: string): set<Row> {
    if FindProduct(db, id).Some? then locked + {ProductKey(Parse(id).value)} else locked
  }

  lemma SettleStep(contents: Database, req: Request, o: Order, restock: seq<OrderItem>, after: Database, locked: set<Row>)
    requires restock != [] && IncrementStock(contents, restock[0].productId, restock[0].quantity) == Success(after)
    ensures Settle(contents, req, o, restock) == Settle(after, req, o, restock[1..])
    ensures Locking(locked, after, restock[0].productId) + ItemRows(after, restock[1..]) == locked + ItemRows(contents, restock)
  {
    IncrementKeepsKeys(contents, restock[0].productId, restock[0].quantity);
    ItemRowsCons(contents, after, restock, locked);
  }

  lemma {:induction false} SettleEnds(req: Request, db: Database, s: TxState, contents: Database, locked: set<Row>)
    requires Mirrors(req, db, s, contents, locked) && s.progress.Settling?
    requires Parse(s.progress.order.id).Some? && OrderKey(Parse(s.progress.order.id).value) in locked
    ensures EndsAsMachine(req, db, Settle(contents, req, s.progress.order, s.progress.restock),
                          locked + ItemRows(contents, s.progress.restock))
    decreases |s.progress.restock|
  {
    var restock := s.progress.restock;
    if restock == [] {
      StatusEnds(req, db, s, contents, locked);
      assert locked + ItemRows(contents, restock) == locked;
    } else {
      IncrementMirrors(req, db, s, contents, locked);
      var given := IncrementStock(contents, restock[0].productId, restock[0].quantity);
      if given.Success? {
        SettleEnds(req, db, Step(req, db, s), given.value, Locking(locked, given.value, restock[0].productId));
        SettleStep(contents, req, s.progress.order, restock, given.value, locked);
      }
    }
  }

  lemma {:induction false} SameItemRows(db: Database, other: Database, items: seq<OrderItem>)
    requires db.products.Keys == other.products.Keys
    ensures ItemRows(db, items) == ItemRows(other, items)
  {
    if items != [] {
      SameItemRows(db, other, items[1..]);
    }
  }

  /** A body ends as the machine does, having locked exactly the rows the machine owns at that point. */
  lemma BodyEndsAsMachine(db: Database, req: Request)
    ensures EndsAsMachine(req, db, Body(db, req), LockedBy(req, db))
  {
    var s := Step(req, db, INITIAL);
    if req.Create? {
      if HasBadQuantity(req.lines) || MergeOf(req.lines) == [] {
        StartMirrors(req, db);
        StepReached(req, db, INITIAL);
        assert FailsWith(req, db, s, Body(db, req).error);
      } else {
        ReserveMirrors(req, db);
        ReserveEnds(req, db, s, db, {});
        assert {} + LockedBy(req, db) == LockedBy(req, db);
      }
    } else {
      TransitionEnds(db, req);
    }
  }

  lemma TransitionEnds(db: Database, req: Request)
    requires !req.Create?
    ensures EndsAsMachine(req, db, Body(db, req), LockedBy(req, db))
  {
    LoadMirrors(req, db);
    var found := GetOrder(db, req.orderId);
    if found.Success? && Transition(req, found.value).Success? {
      var o := Transition(req, found.value).value;
      TransitionSettles(db, req, FindOrder(db, req.orderId).value, o);
      assert Body(db, req) == Settle(db, req, o, ToReturn(req, o));
    }
  }

  /** The locks a Create takes, call by call, are the rows of the specification. */
  lemma CreateLocks(db: Database, req: Request)
    requires req.Create?
    ensures {} + LineRows(MergeOf(req.lines)) + {OrderKey(req.newId)} == LockedBy(req, db)
  {}

  /** The locks a transition takes, call by call, are the rows of the specification. */
  lemma TransitionLocks(db: Database, req: Request, o: Order)
    requires !req.Create? && GetOrder(db, req.orderId).Success?
    requires Transition(req, GetOrder(db, req.orderId).value) == Success(o)
    ensures Parse(req.orderId).Some? && Parse(o.id).Some?
    ensures {OrderKey(Parse(req.orderId).value)} + ItemRows(db, ToReturn(req, o)) + {OrderKey(Parse(o.id).value)}
         == LockedBy(req, db)
  {
    var k := FindOrder(db, req.orderId).value;
    ParseFormat(k);
    assert o.id == Format(k) && ToReturn(req, o) == Returned(req, db, k);
  }

  lemma TransitionSettles(db: Database, req: Request, k: Uuid, o: Order)
    requires !req.Create? && FindOrder(db, req.orderId) == Some(k)
    requires Transition(req, Loaded(k, db.orders[k], req.orderId)) == Success(o)
    ensures EndsAsMachine(req, db, Settle(db, req, o, ToReturn(req, o)), LockedBy(req, db))
  {
    var s := Step(req, db, INITIAL);
    LoadMirrors(req, db);
    ParseFormat(k);
    assert o.id == Format(k);
    SettleEnds(req, db, s, db, {OrderKey(k)});
    assert ToReturn(req, o) == Returned(req, db, k);
  }

  /** Contents and locks of an open transaction whose body has succeeded are those of the machine about
      to commit. */
  ghost predicate ReadyToCommit(req: Request, db: Database, o: Order, contents: Database, locked: set<Row>) {
    exists s :: Mirrors(req, db, s, contents, locked) && s.progress == Leaving(o)
  }

  lemma BodyReady(db: Database, req: Request, o: Order, contents: Database, locked: set<Row>)
    requires Body(db, req) == Success((contents, o)) && locked == LockedBy(req, db)
    ensures ReadyToCommit(req, db, o, contents, locked)
  {
    BodyEndsAsMachine(db, req);
  }
}
