/** What later steps of a run may and may not do to a committed order. */
module History {
  import opened Basics
  import opened Uuid
  import opened Domain
  import opened Repository
  import opened Orders
  import opened Machine
  import opened World
  import opened Effects
  import opened RoundTrip
  import opened Batch

  /** The content of an order never changes, and a state other than Pending is final. */
  ghost predicate Follows(before: OrderRow, after: OrderRow) {
    && after == before.(status := after.status, cancelledAt := after.cancelledAt)
    && (before.status != Pending ==> after == before)
  }

  ghost predicate OrdersFollow(db: Database, db': Database) {
    forall o :: o in db.orders ==> o in db'.orders && Follows(db.orders[o], db'.orders[o])
  }

  lemma TransactionFollows(db: Database, req: Request)
    ensures OrdersFollow(db, Apply(db, req).0)
  {
    if Apply(db, req).1.Success? {
      var items, k := TransactionShape(db, req);
    }
  }

  lemma EventFollows(reqs: Requests, db: Database, e: Event)
    ensures OrdersFollow(db, ApplyEvent(db, reqs, e))
  {
    if e.Ended? && e.t in reqs {
      TransactionFollows(db, reqs[e.t]);
    }
  }

  lemma FollowsChain(db: Database, mid: Database, db': Database)
    requires OrdersFollow(db, mid) && OrdersFollow(mid, db')
    ensures OrdersFollow(db, db')
  {
    forall o | o in db.orders ensures o in db'.orders && Follows(db.orders[o], db'.orders[o]) {
      assert Follows(db.orders[o], mid.orders[o]) && Follows(mid.orders[o], db'.orders[o]);
    }
  }

  /** Along the serial history, from any point to any later point. */
  lemma {:induction false} HistoryFollows(reqs: Requests, db0: Database, log: seq<Event>, i: nat)
    requires i <= |log|
    ensures OrdersFollow(Replay(db0, reqs, log[..i]), Replay(db0, reqs, log))
    decreases |log|
  {
    if i == |log| {
      assert log[..i] == log;
    } else {
      var n := |log| - 1;
      assert log[..n][..i] == log[..i];
      HistoryFollows(reqs, db0, log[..n], i);
      EventFollows(reqs, Replay(db0, reqs, log[..n]), log[n]);
      FollowsChain(Replay(db0, reqs, log[..i]), Replay(db0, reqs, log[..n]), Replay(db0, reqs, log));
    }
  }

  // ----- runs

  lemma ExecAppends(reqs: Requests, w: World, a: Action)
    requires Enabled(reqs, w, a)
    ensures w.log <= Exec(reqs, w, a).log
  {}

  lemma PrefixChain(a: seq<Event>, b: seq<Event>, c: seq<Event>)
    requires a <= b && b <= c
    ensures a <= c
  {}

  /** A run keeps the invariant from any state that has it, and only appends to the history. */
  lemma {:induction false} RunAppends(reqs: Requests, db0: Database, w: World, actions: seq<Action>, w': World)
    requires Inv(reqs, w) && Serial(reqs, db0, w) && Run(reqs, w, actions, w')
    ensures Inv(reqs, w') && Serial(reqs, db0, w') && w.log <= w'.log
    decreases |actions|
  {
    if actions != [] {
      var last := |actions| - 1;
      var mid :| Run(reqs, w, actions[..last], mid)
                 && Enabled(reqs, mid, actions[last]) && w' == Exec(reqs, mid, actions[last]);
      RunAppends(reqs, db0, w, actions[..last], mid);
      ExecKeepsInv(reqs, mid, actions[last]);
      ExecKeepsSerial(reqs, db0, mid, actions[last]);
      ExecAppends(reqs, mid, actions[last]);
      PrefixChain(w.log, mid.log, w'.log);
    }
  }

  /** However a run goes on, a committed order keeps its owner, items, prices, total and creation
      time, and once confirmed or cancelled it does not change at all. */
  lemma CommittedOrdersFollow(
    reqs: Requests, w0: World, before: seq<Action>, w: World, after: seq<Action>, w': World)
    requires Initial(reqs, w0) && Run(reqs, w0, before, w) && Run(reqs, w, after, w')
    ensures OrdersFollow(w.db, w'.db)
  {
    RunsAreSerial(reqs, w0, before, w);
    RunAppends(reqs, w0.db, w, after, w');
    assert w'.log[..|w.log|] == w.log;
    HistoryFollows(reqs, w0.db, w'.log, |w.log|);
  }

  // ----- reads in two statements

  /** Reading an order outside a transaction takes two queries. Whatever is committed between them, the
      items the second one finds are the items at the first one, so the order is as of the first. */
  lemma CommitsBetweenQueries(
    reqs: Requests, w0: World, before: seq<Action>, w: World, between: seq<Action>, w': World, k: Uuid, id: string)
    requires Initial(reqs, w0) && Run(reqs, w0, before, w) && Run(reqs, w, between, w')
    requires k in w.db.orders
    ensures k in w'.db.orders
    ensures Loaded(k, w.db.orders[k].(items := w'.db.orders[k].items), id) == Loaded(k, w.db.orders[k], id)
  {
    CommittedOrdersFollow(reqs, w0, before, w, between, w');
    assert Follows(w.db.orders[k], w'.db.orders[k]);
  }

  /** So does a page: each of its orders, with the items of a later batched query, is the order as
      loaded alone at the time of the page query. */
  lemma CommitsBetweenPageQueries(
    reqs: Requests, w0: World, before: seq<Action>, w: World, between: seq<Action>, w': World,
    wanted: set<Uuid>, rows: seq<ItemRow>, k: Uuid)
    requires Initial(reqs, w0) && Run(reqs, w0, before, w) && Run(reqs, w, between, w')
    requires k in wanted && k in w.db.orders && IsItemQuery(w'.db, wanted, rows)
    ensures var alone := Loaded(k, w.db.orders[k], Format(k));
            alone.(items := ItemsAmong(rows, k)) == alone
  {
    CommitsBetweenQueries(reqs, w0, before, w, between, w', k, Format(k));
    BatchedIsSingle(w'.db, wanted, rows, k);
  }

  // ----- one transition per order

  /** Transaction t moved order k out of Pending and committed. */
  ghost predicate Transitioned(reqs: Requests, w: World, t: Tid, k: Uuid) {
    && t in reqs && t in w.txs && !reqs[t].Create?
    && Parse(reqs[t].orderId) == Some(k)
    && w.txs[t].Done? && w.txs[t].answer.Success?
  }

  /** Serially, a successful transition finds the order pending and leaves it not pending. */
  lemma TransitionLeavesPending(db: Database, req: Request, k: Uuid)
    requires !req.Create? && Parse(req.orderId) == Some(k) && Apply(db, req).1.Success?
    ensures k in db.orders && db.orders[k].status == Pending
    ensures k in Apply(db, req).0.orders && Apply(db, req).0.orders[k].status != Pending
  {
    if req.Cancel? {
      var k' := CancelEffect(db, req);
    } else {
      var k' := ConfirmEffect(db, req);
    }
  }

  lemma EndedAt(reqs: Requests, db0: Database, w: World, t: Tid) returns (i: nat)
    requires Serial(reqs, db0, w) && t in w.txs && Decided(w.txs[t]).Some?
    ensures i < |w.log| && w.log[i] == Ended(t) && AnswerAt(reqs, db0, w, i)
  {
    assert Ended(t) in w.log;
    i :| 0 <= i < |w.log| && w.log[i] == Ended(t);
  }

  /** The earlier of two transitions of one order rules out the later one. */
  lemma NotTwice(reqs: Requests, db0: Database, log: seq<Event>, i: nat, j: nat, k: Uuid)
    requires i < j < |log| && log[i].Ended? && log[j].Ended? && log[i].t in reqs && log[j].t in reqs
    requires !reqs[log[i].t].Create? && Parse(reqs[log[i].t].orderId) == Some(k)
    requires !reqs[log[j].t].Create? && Parse(reqs[log[j].t].orderId) == Some(k)
    requires Apply(Replay(db0, reqs, log[..i]), reqs[log[i].t]).1.Success?
    ensures Apply(Replay(db0, reqs, log[..j]), reqs[log[j].t]).1.Failure?
  {
    var first, second := Replay(db0, reqs, log[..i]), Replay(db0, reqs, log[..j]);
    TransitionLeavesPending(first, reqs[log[i].t], k);
    PrefixGrows(log, i);
    ReplayAppend(db0, reqs, log[..i], log[i]);
    assert log[..j][..i + 1] == log[..i + 1];
    HistoryFollows(reqs, db0, log[..j], i + 1);
    assert Follows(Replay(db0, reqs, log[..i + 1]).orders[k], second.orders[k]);
    if Apply(second, reqs[log[j].t]).1.Success? {
      TransitionLeavesPending(second, reqs[log[j].t], k);
    }
  }

  /** Among any racing confirmations and cancellations of one order, over any run, at most one
      commits; so its stock is given back at most once. */
  lemma OneTransitionPerOrder(
    reqs: Requests, w: World, actions: seq<Action>, w': World, t: Tid, u: Tid, k: Uuid)
    requires Initial(reqs, w) && Run(reqs, w, actions, w')
    requires Transitioned(reqs, w', t, k) && Transitioned(reqs, w', u, k)
    ensures t == u
  {
    RunsAreSerial(reqs, w, actions, w');
    var i := EndedAt(reqs, w.db, w', t);
    var j := EndedAt(reqs, w.db, w', u);
    if i < j {
      NotTwice(reqs, w.db, w'.log, i, j, k);
    } else if j < i {
      NotTwice(reqs, w.db, w'.log, j, i, k);
    }
  }

  // ----- the price snapshot

  /** A stored item carries the price its product had in the given database. */
  ghost predicate PricedIn(db: Database, stored: map<Uuid, Item>) {
    forall p :: p in stored ==> p in db.products && stored[p].unitPrice == db.products[p].price
  }

  lemma CreatedPrices(db: Database, req: Request, o: Order, db': Database)
    requires req.Create? && Created(db, req, o, db')
    ensures PricedIn(db, db'.orders[req.newId].items)
  {
    var stored := db'.orders[req.newId].items;
    forall p | p in stored ensures p in db.products && stored[p].unitPrice == db.products[p].price {
      assert Named(o.items, p);
      var i :| 0 <= i < |o.items| && Names(o.items[i], p);
      assert StoredAt(stored, o.items[i]);
    }
  }

  /** In any reachable state, the order of a committed Create still has the unit prices its products
      had at its commit, whatever price changes came later; its total is the sum of its bill. */
  lemma PricesAreSnapshots(reqs: Requests, w: World, actions: seq<Action>, w': World, t: Tid) returns (i: nat)
    requires Initial(reqs, w) && Run(reqs, w, actions, w')
    requires t in reqs && t in w'.txs && reqs[t].Create? && w'.txs[t].Done? && w'.txs[t].answer.Success?
    ensures i < |w'.log| && w'.log[i] == Ended(t)
    ensures reqs[t].newId in w'.db.orders
    ensures var row, bill := w'.db.orders[reqs[t].newId], w'.txs[t].answer.value;
            && PricedIn(Replay(w.db, reqs, w'.log[..i]), row.items)
            && Stores(row.items, bill.items)
            && row.total == bill.total == OrderTotal(ItemList(row.items))
            && row.user == reqs[t].user
  {
    RunsAreSerial(reqs, w, actions, w');
    i := EndedAt(reqs, w.db, w', t);
    var db, log := Replay(w.db, reqs, w'.log[..i]), w'.log;
    CreateEffect(db, reqs[t]);
    CreatedPrices(db, reqs[t], w'.txs[t].answer.value, Apply(db, reqs[t]).0);
    PrefixGrows(log, i);
    ReplayAppend(w.db, reqs, log[..i], log[i]);
    HistoryFollows(reqs, w.db, log, i + 1);
    assert Follows(Replay(w.db, reqs, log[..i + 1]).orders[reqs[t].newId], w'.db.orders[reqs[t].newId]);
    StoredTotal(w'.db.orders[reqs[t].newId].items, w'.txs[t].answer.value.items);
  }
}
