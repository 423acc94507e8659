/** Stock is neither created nor lost, over all runs, exactly when cancellations spell the order id
    the way the database prints it. */
module Conservation {
  import opened Basics
  import opened Uuid
  import opened Domain
  import opened Repository
  import opened Orders
  import opened Machine
  import opened World
  import opened Effects

  /** Units of p an order keeps out of stock. */
  function Reserved(o: OrderRow, p: Uuid): int {
    if o.status == Cancelled then 0 else StoredQuantity(o.items, p)
  }

  ghost function HeldBy(orders: map<Uuid, OrderRow>, p: Uuid): nat -> int {
    (o: nat) => if o in orders then Reserved(orders[o], p) else 0
  }

  /** Stock plus the units in all orders that are not cancelled. */
  ghost function Supply(db: Database, p: Uuid): int
    requires p in db.products
  {
    db.products[p].stock + Sum(db.orders.Keys, HeldBy(db.orders, p))
  }

  ghost predicate RowHealthy(o: OrderRow) {
    o.items != map[] && (o.cancelledAt.Some? <==> o.status == Cancelled)
  }

  /** The schema's constraints, orders with items and a consistent cancellation time, and a catalogue
      whose units fit the stock column. */
  ghost predicate Healthy(db: Database) {
    && ConstraintsHold(db)
    && (forall o {:trigger RowHealthy(db.orders[o])} :: o in db.orders ==> RowHealthy(db.orders[o]))
    && (forall p :: p in db.products ==> Supply(db, p) <= INT32_MAX)
  }

  // ----- one transaction

  /** The units a cancellation under a non-canonical spelling drops. */
  ghost function Lost(db: Database, req: Request, p: Uuid): int {
    if req.Cancel? && Apply(db, req).1.Success? && !Canonical(req.orderId) && FindOrder(db, req.orderId).Some?
    then StoredQuantity(db.orders[FindOrder(db, req.orderId).value].items, p)
    else 0
  }

  lemma SupplyNewOrder(db: Database, db': Database, k: Uuid, p: Uuid)
    requires p in db.products && p in db'.products
    requires k !in db.orders && k in db'.orders && db'.orders == db.orders[k := db'.orders[k]]
    ensures Supply(db', p) - Supply(db, p)
         == db'.products[p].stock - db.products[p].stock + Reserved(db'.orders[k], p)
  {
    var f, g := HeldBy(db.orders, p), HeldBy(db'.orders, p);
    SumSplit(db'.orders.Keys, g, k);
    assert db'.orders.Keys - {k} == db.orders.Keys;
    SumCongruent(db.orders.Keys, f, g);
  }

  lemma SupplyChangedOrder(db: Database, db': Database, k: Uuid, p: Uuid)
    requires p in db.products && p in db'.products
    requires k in db.orders && k in db'.orders && db'.orders == db.orders[k := db'.orders[k]]
    ensures Supply(db', p) - Supply(db, p)
         == db'.products[p].stock - db.products[p].stock
            + Reserved(db'.orders[k], p) - Reserved(db.orders[k], p)
  {
    assert db'.orders.Keys == db.orders.Keys;
    SumChangesAt(db.orders.Keys, HeldBy(db.orders, p), HeldBy(db'.orders, p), k);
  }

  /** Every transaction keeps the supply of every product, but for what a misspelt Cancel loses. */
  lemma TransactionSupply(db: Database, req: Request, p: Uuid)
    requires p in db.products
    ensures p in Apply(db, req).0.products
    ensures Supply(Apply(db, req).0, p) == Supply(db, p) - Lost(db, req, p)
  {
    var (db', answer) := Apply(db, req);
    if answer.Failure? {
      FailureEffect(db, req);
    } else if req.Create? {
      CreateEffect(db, req);
      StoredUnits(db'.orders[req.newId].items, answer.value.items, p);
      SupplyNewOrder(db, db', req.newId, p);
    } else if req.Cancel? {
      var k := CancelEffect(db, req);
      ItemListStores(db.orders[k].items);
      StoredUnits(db.orders[k].items, ItemList(db.orders[k].items), p);
      SupplyChangedOrder(db, db', k, p);
    } else {
      var k := ConfirmEffect(db, req);
      SupplyChangedOrder(db, db', k, p);
    }
  }

  lemma HeldNonNegative(db: Database, p: Uuid)
    requires ConstraintsHold(db)
    ensures Sum(db.orders.Keys, HeldBy(db.orders, p)) >= 0
  {
    forall o | o in db.orders.Keys ensures HeldBy(db.orders, p)(o) >= 0 {
      assert OrderRowOk(db, db.orders[o]);
    }
    SumNonNegative(db.orders.Keys, HeldBy(db.orders, p));
  }

  lemma LostNonNegative(db: Database, req: Request, p: Uuid)
    requires ConstraintsHold(db)
    ensures Lost(db, req, p) >= 0
  {
    if FindOrder(db, if req.Create? then "" else req.orderId).Some? {
      var k := FindOrder(db, if req.Create? then "" else req.orderId).value;
      assert OrderRowOk(db, db.orders[k]);
    }
  }

  // ----- what every transaction keeps

  /** A conditional decrement never takes a stock below zero. */
  lemma {:induction false} ReserveKeepsStock(db: Database, todo: seq<Merge.Line>, items: seq<OrderItem>)
    requires StocksNonNegative(db)
    requires Reserve(db, todo, items).Success?
    ensures StocksNonNegative(Reserve(db, todo, items).value.0)
    decreases |todo|
  {
    if todo != [] {
      var product := GetProduct(db, todo[0].productId).value;
      var mid := DecrementStock(db, todo[0].productId, todo[0].quantity).value;
      ReserveKeepsStock(mid, todo[1..], items + [Bought(todo[0], product.price)]);
    }
  }

  lemma CreateKeepsStock(db: Database, req: Request)
    requires req.Create? && StocksNonNegative(db) && Apply(db, req).1.Success?
    ensures StocksNonNegative(Apply(db, req).0)
  {
    var lines := Merge.MergeOf(req.lines);
    var (sold, items) := Reserve(db, lines, []).value;
    ReserveKeepsStock(db, lines, []);
    PlaceEffect(sold, req, items);
  }

  /** New rows meet the constraints of order_items. */
  lemma CreatedRowOk(db: Database, req: Request, o: Order, db': Database)
    requires req.Create? && Created(db, req, o, db')
    ensures OrderRowOk(db', db'.orders[req.newId]) && RowHealthy(db'.orders[req.newId])
  {
    var stored := db'.orders[req.newId].items;
    forall p | p in stored
      ensures p in db'.products && 0 < stored[p].quantity <= INT32_MAX && stored[p].unitPrice >= 0.0
    {
      assert Named(o.items, p);
      var i :| 0 <= i < |o.items| && Names(o.items[i], p);
      assert ItemOk(db, o.items[i]) && StoredAt(stored, o.items[i]);
    }
    assert StoredAt(stored, o.items[0]);
  }

  /** No transaction adds or removes products, or touches anything of them but the stock. */
  lemma TransactionKeepsCatalogue(db: Database, req: Request)
    ensures var db' := Apply(db, req).0;
            db'.users == db.users && SameCatalogue(db.products, db'.products) && db.orders.Keys <= db'.orders.Keys
  {
    if Apply(db, req).1.Success? {
      var items, k := TransactionShape(db, req);
    }
  }

  lemma SupplyStaysBounded(db: Database, db': Database, req: Request)
    requires Healthy(db) && db' == Apply(db, req).0
    ensures forall p :: p in db'.products ==> p in db.products && Supply(db', p) <= Supply(db, p) <= INT32_MAX
  {
    TransactionKeepsCatalogue(db, req);
    forall p | p in db'.products ensures Supply(db', p) <= Supply(db, p) {
      TransactionSupply(db, req, p);
      LostNonNegative(db, req, p);
    }
  }

  lemma StockFromSupply(db: Database, p: Uuid)
    requires p in db.products && Supply(db, p) <= INT32_MAX
    requires forall o :: o in db.orders ==> OrderRowOk(db, db.orders[o])
    ensures db.products[p].stock <= INT32_MAX
  {
    forall o | o in db.orders.Keys ensures HeldBy(db.orders, p)(o) >= 0 {
      assert OrderRowOk(db, db.orders[o]);
    }
    SumNonNegative(db.orders.Keys, HeldBy(db.orders, p));
  }

  ghost predicate RowsOk(db: Database) {
    forall o {:trigger OrderRowOk(db, db.orders[o])} {:trigger RowHealthy(db.orders[o])} ::
      o in db.orders ==> OrderRowOk(db, db.orders[o]) && RowHealthy(db.orders[o])
  }

  /** Changing or adding one good row keeps all rows good. */
  lemma OneRowOk(db: Database, db': Database, k: Uuid)
    requires RowsOk(db) && db'.users == db.users && db'.products.Keys == db.products.Keys
    requires k in db'.orders && db'.orders == db.orders[k := db'.orders[k]]
    requires OrderRowOk(db', db'.orders[k]) && RowHealthy(db'.orders[k])
    ensures RowsOk(db')
  {
    forall o | o in db'.orders ensures OrderRowOk(db', db'.orders[o]) && RowHealthy(db'.orders[o]) {
      if o != k {
        assert OrderRowOk(db, db.orders[o]) && RowHealthy(db.orders[o]);
      }
    }
  }

  lemma TransitionedRowOk(db: Database, db': Database, k: Uuid)
    requires RowsOk(db) && k in db.orders && k in db'.orders
    requires db'.users == db.users && db'.products.Keys == db.products.Keys
    requires var row := db'.orders[k];
             && row == db.orders[k].(status := row.status, cancelledAt := row.cancelledAt)
             && (row.cancelledAt.Some? <==> row.status == Cancelled)
    ensures OrderRowOk(db', db'.orders[k]) && RowHealthy(db'.orders[k])
  {
    assert OrderRowOk(db, db.orders[k]) && RowHealthy(db.orders[k]);
  }

  lemma OrdersStayOk(db: Database, req: Request)
    requires RowsOk(db) && Apply(db, req).1.Success?
    ensures RowsOk(Apply(db, req).0)
  {
    var (db', answer) := Apply(db, req);
    var items, k := TransactionShape(db, req);
    if req.Create? {
      CreateEffect(db, req);
      CreatedRowOk(db, req, answer.value, db');
    } else {
      TransitionedRowOk(db, db', k);
    }
    OneRowOk(db, db', k);
  }

  lemma {:induction false} RestockKeepsStock(db: Database, todo: seq<OrderItem>)
    requires StocksNonNegative(db)
    requires Restock(db, todo).Success?
    ensures StocksNonNegative(Restock(db, todo).value)
    decreases |todo|
  {
    if todo != [] {
      RestockKeepsStock(IncrementStock(db, todo[0].productId, todo[0].quantity).value, todo[1..]);
    }
  }

  ghost predicate StocksNonNegative(db: Database) {
    forall p :: p in db.products ==> db.products[p].stock >= 0
  }

  lemma StockStaysNonNegative(db: Database, req: Request)
    requires StocksNonNegative(db) && Apply(db, req).1.Success?
    ensures StocksNonNegative(Apply(db, req).0)
  {
    if req.Create? {
      CreateKeepsStock(db, req);
    } else {
      var o := Transition(req, GetOrder(db, req.orderId).value).value;
      RestockKeepsStock(db, ToReturn(req, o));
      RestockEffect(db, ToReturn(req, o));
    }
  }

  lemma ProductsStayOk(db: Database, db': Database)
    requires ConstraintsHold(db) && SameCatalogue(db.products, db'.products)
    requires RowsOk(db') && StocksNonNegative(db')
    requires forall p :: p in db'.products ==> Supply(db', p) <= INT32_MAX
    ensures forall p {:trigger ProductOk(db'.products[p])} :: p in db'.products ==> ProductOk(db'.products[p])
  {
    forall p | p in db'.products ensures ProductOk(db'.products[p]) {
      assert ProductOk(db.products[p]);
      StockFromSupply(db', p);
    }
  }

  lemma HealthyParts(db: Database)
    ensures Healthy(db) ==> RowsOk(db) && StocksNonNegative(db)
    ensures Healthy(db) <==>
            && RowsOk(db)
            && (forall p {:trigger ProductOk(db.products[p])} :: p in db.products ==> ProductOk(db.products[p]))
            && (forall p :: p in db.products ==> Supply(db, p) <= INT32_MAX)
  {
    if Healthy(db) {
      forall o | o in db.orders ensures OrderRowOk(db, db.orders[o]) && RowHealthy(db.orders[o]) {}
      forall p | p in db.products ensures db.products[p].stock >= 0 { assert ProductOk(db.products[p]); }
    }
    if RowsOk(db) {
      forall o | o in db.orders ensures OrderRowOk(db, db.orders[o]) {}
      forall o | o in db.orders ensures RowHealthy(db.orders[o]) {}
    }
  }

  /** Every transaction keeps a healthy database healthy: no constraint is ever violated. */
  lemma TransactionKeepsHealth(db: Database, req: Request)
    requires Healthy(db)
    ensures Healthy(Apply(db, req).0)
  {
    var db' := Apply(db, req).0;
    if Apply(db, req).1.Success? {
      HealthyParts(db);
      TransactionKeepsCatalogue(db, req);
      OrdersStayOk(db, req);
      StockStaysNonNegative(db, req);
      SupplyStaysBounded(db, db', req);
      ProductsStayOk(db, db');
      HealthyParts(db');
    }
  }

  lemma RepricedSupply(db: Database, p: Uuid, price: real, q: Uuid)
    requires q in db.products
    ensures var db' := SetPrice(db, p, price);
            q in db'.products && Supply(db', q) == Supply(db, q) && (ProductOk(db.products[q]) ==> ProductOk(db'.products[q]))
  {}

  lemma RepriceKeepsHealth(db: Database, p: Uuid, price: real)
    requires Healthy(db)
    ensures Healthy(SetPrice(db, p, price)) && SetPrice(db, p, price).products.Keys == db.products.Keys
    ensures forall q :: q in db.products ==> Supply(SetPrice(db, p, price), q) == Supply(db, q)
  {
    var db' := SetPrice(db, p, price);
    HealthyParts(db);
    forall q | q in db'.products ensures ProductOk(db'.products[q]) && Supply(db', q) == Supply(db, q) <= INT32_MAX {
      assert ProductOk(db.products[q]);
      RepricedSupply(db, p, price, q);
    }
    forall o | o in db'.orders ensures OrderRowOk(db', db'.orders[o]) && RowHealthy(db'.orders[o]) {
      assert OrderRowOk(db, db.orders[o]) && RowHealthy(db.orders[o]);
    }
    assert RowsOk(db');
    HealthyParts(db');
  }

  // ----- every run

  /** A committed cancellation under another spelling than the printed one. */
  ghost predicate Leaks(reqs: Requests, db: Database, e: Event) {
    && e.Ended? && e.t in reqs
    && reqs[e.t].Cancel? && Apply(db, reqs[e.t]).1.Success? && !Canonical(reqs[e.t].orderId)
  }

  ghost predicate LeakAt(reqs: Requests, db0: Database, log: seq<Event>, i: nat)
    requires i < |log|
  {
    Leaks(reqs, Replay(db0, reqs, log[..i]), log[i])
  }

  /** A leak loses some units of some product. */
  lemma LeakLoses(db: Database, req: Request) returns (p: Uuid)
    requires Healthy(db) && req.Cancel? && Apply(db, req).1.Success? && !Canonical(req.orderId)
    ensures p in db.products && Lost(db, req, p) > 0
  {
    var k := CancelEffect(db, req);
    var stored := db.orders[k].items;
    assert RowHealthy(db.orders[k]) && OrderRowOk(db, db.orders[k]);
    assert stored.Keys != {};
    p :| p in stored.Keys;
  }

  ghost predicate SameSupply(db: Database, db': Database) {
    forall p :: p in db.products && p in db'.products ==> Supply(db', p) == Supply(db, p)
  }

  /** One event of the history keeps health, never adds supply, and keeps it unless it leaks. */
  lemma EventSupply(reqs: Requests, db: Database, e: Event)
    requires Healthy(db)
    ensures var db' := ApplyEvent(db, reqs, e);
            && Healthy(db') && db'.products.Keys == db.products.Keys
            && (forall p :: p in db.products ==> Supply(db', p) <= Supply(db, p))
            && (SameSupply(db, db') <==> !Leaks(reqs, db, e))
  {
    var db' := ApplyEvent(db, reqs, e);
    match e
    case Repriced(p, price) => RepriceKeepsHealth(db, p, price);
    case Ended(t) =>
      if t in reqs {
        TransactionKeepsHealth(db, reqs[t]);
        TransactionKeepsCatalogue(db, reqs[t]);
        forall p | p in db.products ensures Supply(db', p) == Supply(db, p) - Lost(db, reqs[t], p) <= Supply(db, p) {
          TransactionSupply(db, reqs[t], p);
          LostNonNegative(db, reqs[t], p);
        }
        if Leaks(reqs, db, e) {
          var p := LeakLoses(db, reqs[t]);
          assert Supply(db', p) < Supply(db, p);
        }
      }
  }

  ghost predicate NoLeak(reqs: Requests, db0: Database, log: seq<Event>) {
    forall i :: 0 <= i < |log| ==> !LeakAt(reqs, db0, log, i)
  }

  lemma NoLeakLast(reqs: Requests, db0: Database, log: seq<Event>)
    requires log != []
    ensures var n := |log| - 1;
            NoLeak(reqs, db0, log)
            <==> NoLeak(reqs, db0, log[..n]) && !Leaks(reqs, Replay(db0, reqs, log[..n]), log[n])
  {
    var n := |log| - 1;
    forall i | 0 <= i < n ensures LeakAt(reqs, db0, log, i) <==> LeakAt(reqs, db0, log[..n], i) {
      assert log[..n][..i] == log[..i];
    }
    assert LeakAt(reqs, db0, log, n) <==> Leaks(reqs, Replay(db0, reqs, log[..n]), log[n]);
  }

  ghost predicate SupplyShrinks(db: Database, db': Database) {
    db'.products.Keys == db.products.Keys && forall p :: p in db.products ==> Supply(db', p) <= Supply(db, p)
  }

  lemma SupplyChain(db: Database, mid: Database, db': Database)
    requires SupplyShrinks(db, mid) && SupplyShrinks(mid, db')
    ensures SupplyShrinks(db, db') && (SameSupply(db, db') <==> SameSupply(db, mid) && SameSupply(mid, db'))
  {
    forall p | p in db.products ensures Supply(db', p) <= Supply(mid, p) <= Supply(db, p) {}
  }

  lemma {:induction false} HistorySupply(reqs: Requests, db0: Database, log: seq<Event>)
    requires Healthy(db0)
    ensures var db := Replay(db0, reqs, log);
            && Healthy(db)
            && SupplyShrinks(db0, db)
            && (SameSupply(db0, db) <==> NoLeak(reqs, db0, log))
  {
    if log != [] {
      var n := |log| - 1;
      HistorySupply(reqs, db0, log[..n]);
      var mid := Replay(db0, reqs, log[..n]);
      EventSupply(reqs, mid, log[n]);
      NoLeakLast(reqs, db0, log);
      SupplyChain(db0, mid, Replay(db0, reqs, log));
    }
  }

  /** Transaction t cancelled its order and committed. */
  ghost predicate CancelCommitted(reqs: Requests, w: World, t: Tid) {
    && t in reqs && t in w.txs
    && reqs[t].Cancel? && w.txs[t].Done? && w.txs[t].answer.Success?
  }

  lemma LeakWasCommitted(reqs: Requests, db0: Database, w: World, i: nat)
    requires Inv(reqs, w) && Serial(reqs, db0, w) && i < |w.log| && LeakAt(reqs, db0, w.log, i)
    ensures CancelCommitted(reqs, w, w.log[i].t) && !Canonical(reqs[w.log[i].t].orderId)
  {
    assert AnswerAt(reqs, db0, w, i);
  }

  lemma CommittedLeaked(reqs: Requests, db0: Database, w: World, t: Tid)
    requires Inv(reqs, w) && Serial(reqs, db0, w)
    requires CancelCommitted(reqs, w, t) && !Canonical(reqs[t].orderId)
    ensures exists i :: 0 <= i < |w.log| && LeakAt(reqs, db0, w.log, i)
  {
    assert Ended(t) in w.log;
    var i :| 0 <= i < |w.log| && w.log[i] == Ended(t);
    assert AnswerAt(reqs, db0, w, i);
    assert LeakAt(reqs, db0, w.log, i);
  }

  lemma LeaksAreCommittedCancels(reqs: Requests, db0: Database, w: World)
    requires Inv(reqs, w) && Serial(reqs, db0, w)
    ensures NoLeak(reqs, db0, w.log) <==> forall t :: CancelCommitted(reqs, w, t) ==> Canonical(reqs[t].orderId)
  {
    if i: nat :| i < |w.log| && LeakAt(reqs, db0, w.log, i) {
      LeakWasCommitted(reqs, db0, w, i);
    }
    if t :| CancelCommitted(reqs, w, t) && !Canonical(reqs[t].orderId) {
      CommittedLeaked(reqs, db0, w, t);
    }
  }

  /** No run oversells or overstocks: in every committed state every constraint of the schema holds,
      and stock plus the units in live orders is at most what the run started with. */
  lemma NeverOversold(reqs: Requests, w: World, actions: seq<Action>, w': World, p: Uuid)
    requires Initial(reqs, w) && Run(reqs, w, actions, w')
    requires Healthy(w.db) && p in w.db.products
    ensures Healthy(w'.db) && p in w'.db.products
    ensures 0 <= w'.db.products[p].stock
         <= w'.db.products[p].stock + Sum(w'.db.orders.Keys, HeldBy(w'.db.orders, p))
         <= Supply(w.db, p)
  {
    RunsAreSerial(reqs, w, actions, w');
    HistorySupply(reqs, w.db, w'.log);
    HeldNonNegative(w'.db, p);
    assert ProductOk(w'.db.products[p]);
  }

  /** Over every run, stock plus the units in live orders stays what it was for every product if and
      only if every committed cancellation named its order in canonical text. */
  lemma ConservedIffCanonical(reqs: Requests, w: World, actions: seq<Action>, w': World)
    requires Initial(reqs, w) && Run(reqs, w, actions, w')
    requires Healthy(w.db)
    ensures w'.db.products.Keys == w.db.products.Keys
    ensures (forall p :: p in w.db.products ==> Supply(w'.db, p) == Supply(w.db, p))
       <==> forall t :: CancelCommitted(reqs, w', t) ==> Canonical(reqs[t].orderId)
  {
    RunsAreSerial(reqs, w, actions, w');
    HistorySupply(reqs, w.db, w'.log);
    LeaksAreCommittedCancels(reqs, w.db, w');
    assert SameSupply(w.db, w'.db)
      <==> forall p :: p in w.db.products ==> Supply(w'.db, p) == Supply(w.db, p);
  }
}
