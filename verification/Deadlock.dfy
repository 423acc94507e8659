/** Every transaction locks rows in one global order, so some transaction can always move; and every
    move shortens what is left, so every run ends. */
module Deadlock {
  import opened Basics
  import opened Uuid
  import opened Domain
  import opened Merge
  import opened Repository
  import opened Orders
  import opened Machine
  import opened World
  import opened Effects
  import opened Conservation

  /** The lock order: order rows first, then products by id. */
  function Rank(r: Row): int {
    match r
    case OrderKey(_) => -1
    case ProductKey(p) => p
  }

  /** Products by text, in ascending id order. */
  ghost predicate Precedes(id: string, other: string) {
    Parse(id).Some? && Parse(other).Some? ==> Parse(id).value < Parse(other).value
  }

  ghost predicate IsAbove(held: set<Uuid>, p: Uuid) {
    forall h :: h in held ==> h < p
  }

  /** Going through the lines with some products held, each product not held yet comes after all
      that are; a text that is no id ends the transaction. */
  ghost predicate Climbs(held: set<Uuid>, todo: seq<Line>)
    decreases |todo|
  {
    todo != [] && Parse(todo[0].productId).Some? ==>
      var p := Parse(todo[0].productId).value;
      (p in held || IsAbove(held, p)) && Climbs(held + {p}, todo[1..])
  }

  /** The merged lines climb the ids of the rows. */
  ghost predicate LocksInOrder(req: Request) {
    req.Create? ==> Climbs({}, MergeOf(req.lines))
  }

  ghost predicate SpelledCanonically(req: Request) {
    req.Create? ==> forall l :: l in req.lines && Parse(l.productId).Some? ==> Canonical(l.productId)
  }

  lemma {:induction false} InIdOrderClimbs(held: set<Uuid>, todo: seq<Line>)
    requires forall i, j :: 0 <= i < j < |todo| ==> Precedes(todo[i].productId, todo[j].productId)
    requires forall i :: 0 <= i < |todo| && Parse(todo[i].productId).Some?
                         ==> IsAbove(held, Parse(todo[i].productId).value)
    ensures Climbs(held, todo)
    decreases |todo|
  {
    if todo != [] && Parse(todo[0].productId).Some? {
      var p, rest := Parse(todo[0].productId).value, todo[1..];
      forall i | 0 <= i < |rest| && Parse(rest[i].productId).Some?
        ensures IsAbove(held + {p}, Parse(rest[i].productId).value)
      {
        assert Precedes(todo[0].productId, todo[i + 1].productId);
        assert IsAbove(held, Parse(todo[i + 1].productId).value);
      }
      forall i, j | 0 <= i < j < |rest| ensures Precedes(rest[i].productId, rest[j].productId) {
        assert Precedes(todo[i + 1].productId, todo[j + 1].productId);
      }
      InIdOrderClimbs(held + {p}, rest);
    }
  }

  /** Canonical product ids are locked in id order. */
  lemma CanonicalLocksInOrder(req: Request)
    requires SpelledCanonically(req)
    ensures LocksInOrder(req)
  {
    if req.Create? {
      var out := MergeOf(req.lines);
      MergeFacts(req.lines);
      forall i, j | 0 <= i < j < |out| ensures Precedes(out[i].productId, out[j].productId) {
        var id, other := out[i].productId, out[j].productId;
        if Parse(id).Some? && Parse(other).Some? {
          MergedCanonical(req, id);
          MergedCanonical(req, other);
          TextOrderIsValueOrder(Parse(id).value, Parse(other).value);
        }
      }
      InIdOrderClimbs({}, out);
    }
  }

  lemma MergedCanonical(req: Request, id: string)
    requires req.Create? && SpelledCanonically(req)
    requires exists i :: 0 <= i < |MergeOf(req.lines)| && MergeOf(req.lines)[i].productId == id
    requires Parse(id).Some?
    ensures id == Format(Parse(id).value)
  {
    MergeFacts(req.lines);
    assert Mentions(MergeOf(req.lines), id);
    assert Mentions(req.lines, id);
    var i :| 0 <= i < |req.lines| && req.lines[i].productId == id;
    assert req.lines[i] in req.lines;
  }

  // ----- what a transaction owns comes before what it will ask for

  ghost predicate ProductsBefore(mine: Database, id: string) {
    forall p :: p in mine.products && Parse(id).Some? ==> p < Parse(id).value
  }

  ghost predicate ItemsInIdOrder(items: seq<OrderItem>) {
    forall i, j :: 0 <= i < j < |items| ==> Precedes(items[i].productId, items[j].productId)
  }

  ghost predicate Ordered(s: TxState) {
    s.Running? ==>
      match s.progress
      case Start => s.mine == NOTHING
      case Reserving(todo, _) =>
        s.mine.orders == map[] && Climbs(s.mine.products.Keys, todo)
      case Charging(_, todo, _) =>
        && s.mine.orders == map[]
        && todo != [] && OnOwnProduct(s.mine, todo[0].productId)
        && Climbs(s.mine.products.Keys, todo[1..])
      case Settling(o, restock) =>
        && OnOwnOrder(s.mine, o.id) && ItemsInIdOrder(restock)
        && (forall i :: 0 <= i < |restock| ==> ProductsBefore(s.mine, restock[i].productId))
      case Leaving(_) => true
  }

  lemma PriceOrdered(db: Database, s: TxState)
    requires s.Running? && s.progress.Reserving? && s.progress.todo != [] && Ordered(s)
    ensures Ordered(CallPrice(s.progress.todo, s.progress.items,
                              Fetch(db, s.mine, ProductRow(s.progress.todo[0].productId))))
  {
    var todo := s.progress.todo;
    var m := Fetch(db, s.mine, ProductRow(todo[0].productId));
    if CallPrice(todo, s.progress.items, m).Running? {
      assert m.products.Keys == s.mine.products.Keys + {Parse(todo[0].productId).value};
    }
  }

  lemma DecrementOrdered(db: Database, s: TxState)
    requires s.Running? && s.progress.Charging? && Ordered(s)
    ensures Ordered(CallDecrement(s.progress.price, s.progress.todo, s.progress.items,
                                  Fetch(db, s.mine, ProductRow(s.progress.todo[0].productId))))
  {
    var todo := s.progress.todo;
    var m := Fetch(db, s.mine, ProductRow(todo[0].productId));
    assert m.products == s.mine.products;
    var s' := CallDecrement(s.progress.price, todo, s.progress.items, m);
    assert s'.Running? ==> s'.mine.products.Keys == s.mine.products.Keys;
  }

  lemma IncrementOrdered(db: Database, s: TxState)
    requires s.Running? && s.progress.Settling? && s.progress.restock != [] && Ordered(s)
    ensures Ordered(CallIncrement(s.progress.order, s.progress.restock,
                                  Fetch(db, s.mine, ProductRow(s.progress.restock[0].productId))))
  {
    var todo := s.progress.restock;
    var m := Fetch(db, s.mine, ProductRow(todo[0].productId));
    var s' := CallIncrement(s.progress.order, todo, m);
    if s'.Running? {
      assert s'.mine.products.Keys == m.products.Keys;
      forall i | 0 <= i < |todo[1..]| ensures ProductsBefore(s'.mine, todo[1..][i].productId) {
        assert ProductsBefore(s.mine, todo[i + 1].productId);
        assert Precedes(todo[0].productId, todo[i + 1].productId);
      }
      forall i, j | 0 <= i < j < |todo[1..]| ensures Precedes(todo[1..][i].productId, todo[1..][j].productId) {
        assert Precedes(todo[i + 1].productId, todo[j + 1].productId);
      }
    }
  }

  lemma ListInIdOrder(stored: map<Uuid, Item>)
    ensures ItemsInIdOrder(ItemList(stored))
  {
    var list := ItemList(stored);
    forall i, j | 0 <= i < j < |list| ensures Precedes(list[i].productId, list[j].productId) {
      ItemListAt(stored, i);
      ItemListAt(stored, j);
    }
  }

  lemma TransitionItems(req: Request, k: Uuid, row: OrderRow, o: Order)
    requires !req.Create? && Transition(req, Loaded(k, row, req.orderId)) == Success(o)
    ensures o.id == Format(k) && (ToReturn(req, o) == [] || ToReturn(req, o) == ItemList(row.items))
  {}

  /** Cancel and Confirm own their order row and go through its items by ascending product. */
  lemma SettlingOrdered(m: Database, k: Uuid, o: Order, restock: seq<OrderItem>)
    requires m.products == map[] && k in m.orders && o.id == Format(k)
    requires restock == [] || restock == ItemList(m.orders[k].items)
    ensures Ordered(Running(Settling(o, restock), m))
  {
    ParseFormat(k);
    ListInIdOrder(m.orders[k].items);
  }

  lemma StartOrdered(req: Request, db: Database)
    requires LocksInOrder(req)
    ensures Ordered(Step(req, db, INITIAL))
  {
    var m := Fetch(db, NOTHING, Needs(req, Start));
    assert m.products == map[];
    if req.Create? {
      assert m.orders == map[] && m.products.Keys == {};
    } else if FindOrder(m, req.orderId).Some? {
      var k := FindOrder(m, req.orderId).value;
      var o := Transition(req, Loaded(k, m.orders[k], req.orderId));
      if o.Success? {
        TransitionItems(req, k, m.orders[k], o.value);
        SettlingOrdered(m, k, o.value, ToReturn(req, o.value));
        assert Step(req, db, INITIAL) == Running(Settling(o.value, ToReturn(req, o.value)), m);
      }
    }
  }

  lemma StepOrdered(req: Request, db: Database, s: TxState)
    requires LocksInOrder(req) && Ordered(s)
    ensures Ordered(Step(req, db, s))
  {
    if s.Running? {
      match s.progress
      case Start =>
        assert s == INITIAL;
        StartOrdered(req, db);
      case Reserving(todo, _) => if todo != [] { PriceOrdered(db, s); }
      case Charging(_, todo, _) => DecrementOrdered(db, s);
      case Settling(_, restock) => if restock != [] { IncrementOrdered(db, s); }
      case Leaving(_) =>
    }
  }

  lemma {:induction false} IterateOrdered(req: Request, db: Database, k: nat)
    requires LocksInOrder(req)
    ensures Ordered(Iterate(req, db, k))
  {
    if k > 0 {
      IterateOrdered(req, db, k - 1);
      StepOrdered(req, db, Iterate(req, db, k - 1));
    }
  }

  // ----- somebody can move

  ghost predicate Waiting(reqs: Requests, w: World, t: Tid) {
    t in reqs && t in w.txs && w.txs[t].Running? && Blocked(reqs, w, t)
  }

  function Wanted(reqs: Requests, w: World, t: Tid): Row
    requires t in reqs && t in w.txs && w.txs[t].Running? && Needs(reqs[t], w.txs[t].progress).Some?
  {
    Needs(reqs[t], w.txs[t].progress).value
  }

  /** In an ordered state, owned rows are below the row needed next, if that row is not owned yet. */
  lemma NeedsAbove(req: Request, db: Database, s: TxState, r: Row, wanted: Row)
    requires s.Running? && Ordered(s) && Coherent(req, db, s)
    requires Needs(req, s.progress) == Some(wanted) && wanted !in Rows(s.mine) && HasRow(db, wanted)
    requires req.Create? ==> req.newId !in db.orders
    requires r in Rows(s.mine)
    ensures Rank(r) < Rank(wanted)
  {
    assert Rows(NOTHING) == {};
    match s.progress
    case Start =>
    case Reserving(todo, _) =>
      if todo != [] { assert IsAbove(s.mine.products.Keys, Parse(todo[0].productId).value); }
    case Charging(_, todo, _) =>
    case Settling(o, restock) =>
      if restock != [] { assert ProductsBefore(s.mine, restock[0].productId); }
    case Leaving(_) =>
  }

  /** A waiting transaction only owns rows below the one it waits for. */
  lemma OwnsBelow(reqs: Requests, w: World, t: Tid, r: Row)
    requires Inv(reqs, w) && Waiting(reqs, w, t) && LocksInOrder(reqs[t])
    requires r in Owned(w.txs[t])
    ensures Rank(r) < Rank(Wanted(reqs, w, t))
  {
    var s, wanted := w.txs[t], Wanted(reqs, w, t);
    assert TxOk(reqs[t], w.db, s);
    var k: nat :| Iterate(reqs[t], w.db, k) == s;
    IterateOrdered(reqs[t], w.db, k);
    NotOwnRow(w, t, wanted);
    IterateKeepsMeaning(reqs[t], w.db, k);
    NeedsAbove(reqs[t], w.db, s, r, wanted);
  }

  lemma NotOwnRow(w: World, t: Tid, r: Row)
    requires LocksExact(w) && t in w.txs && r in w.locks && w.locks[r] != t
    ensures r !in Owned(w.txs[t])
  {}

  /** The locked rows above the one t waits for. */
  ghost function Above(reqs: Requests, w: World, t: Tid): set<Row>
    requires Waiting(reqs, w, t)
  {
    set r | r in w.locks && Rank(r) > Rank(Wanted(reqs, w, t))
  }

  ghost predicate CanMove(reqs: Requests, w: World, t: Tid) {
    Enabled(reqs, w, Move(t))
  }

  /** Following the owners of the rows waited for climbs the lock order, so it ends at a
      transaction that can move. */
  lemma {:induction false} ChaseOwner(reqs: Requests, w: World, t: Tid) returns (u: Tid)
    requires Inv(reqs, w) && forall x :: x in reqs ==> LocksInOrder(reqs[x])
    requires Waiting(reqs, w, t)
    ensures CanMove(reqs, w, u)
    decreases Above(reqs, w, t)
  {
    var r := Wanted(reqs, w, t);
    u := w.locks[r];
    assert r in Owned(w.txs[u]);
    if Waiting(reqs, w, u) {
      OwnsBelow(reqs, w, u, r);
      assert Wanted(reqs, w, u) in Above(reqs, w, t);
      u := ChaseOwner(reqs, w, u);
    }
  }

  /** No deadlock: in every reachable state with an unfinished transaction, some transaction can make
      its next call, commit or rollback. */
  lemma NoDeadlock(reqs: Requests, w: World, actions: seq<Action>, w': World, t: Tid)
    requires Initial(reqs, w) && Run(reqs, w, actions, w')
    requires forall x :: x in reqs ==> LocksInOrder(reqs[x])
    requires t in w'.txs && Unfinished(w'.txs[t])
    ensures exists u :: CanMove(reqs, w', u)
  {
    RunsAreSerial(reqs, w, actions, w');
    if Waiting(reqs, w', t) {
      var u := ChaseOwner(reqs, w', t);
    } else {
      assert CanMove(reqs, w', t);
    }
  }

  // ----- every run ends

  /** An upper bound on the calls, commit and rollback a transaction has left. */
  function Weight(req: Request, catalogue: nat, s: TxState): nat {
    match s
    case Done(_) => 0
    case Panicked => 0
    case Aborting(_, _) => 1
    case Running(progress, _) =>
      match progress
      case Start => if req.Create? then 2 * |MergeOf(req.lines)| + 3 else catalogue + 3
      case Reserving(todo, _) => 2 * |todo| + 2
      case Charging(_, todo, _) => 2 * |todo| + 1
      case Settling(_, restock) => |restock| + 2
      case Leaving(_) => 1
  }

  ghost function WeightOf(reqs: Requests, w: World): nat -> int {
    (t: nat) => if t in reqs && t in w.txs then Weight(reqs[t], |w.db.products|, w.txs[t]) else 0
  }

  ghost function TotalWeight(reqs: Requests, w: World): int {
    Sum(reqs.Keys, WeightOf(reqs, w))
  }

  lemma SubsetSize(a: set<Uuid>, b: set<Uuid>)
    requires a <= b
    ensures |a| <= |b|
  {
    assert b == a + (b - a);
  }

  /** An order has at most one item per product. */
  lemma ItemsFewerThanProducts(db: Database, k: Uuid)
    requires ConstraintsHold(db) && k in db.orders
    ensures |ItemList(db.orders[k].items)| <= |db.products|
  {
    assert OrderRowOk(db, db.orders[k]);
    SubsetSize(db.orders[k].items.Keys, db.products.Keys);
    assert |db.products.Keys| == |db.products|;
  }

  lemma FetchedOrder(req: Request, db: Database, k: Uuid)
    requires !req.Create? && FindOrder(Fetch(db, NOTHING, Needs(req, Start)), req.orderId) == Some(k)
    ensures k in db.orders && Fetch(db, NOTHING, Needs(req, Start)).orders[k] == db.orders[k]
  {}

  lemma CreateStartLighter(req: Request, m: Database, catalogue: nat)
    requires req.Create?
    ensures Weight(req, catalogue, CallStart(req, m)) < Weight(req, catalogue, INITIAL)
  {}

  /** A state of a Cancel or Confirm that has gone wrong, or has at most that many items to give back. */
  ghost predicate FewItemsLeft(s: TxState, catalogue: nat) {
    s.Aborting? || (s.Running? && s.progress.Settling? && |s.progress.restock| <= catalogue)
  }

  lemma TransitionState(req: Request, m: Database, k: Uuid, catalogue: nat)
    requires !req.Create? && FindOrder(m, req.orderId) == Some(k) && |ItemList(m.orders[k].items)| <= catalogue
    ensures FewItemsLeft(CallStart(req, m), catalogue)
  {
    var found := Loaded(k, m.orders[k], req.orderId);
    assert GetOrder(m, req.orderId) == Success(found);
    if Transition(req, found).Success? {
      TransitionItems(req, k, m.orders[k], Transition(req, found).value);
    }
  }

  lemma FewItemsAreLighter(req: Request, s: TxState, catalogue: nat)
    requires !req.Create? && FewItemsLeft(s, catalogue)
    ensures Weight(req, catalogue, s) < Weight(req, catalogue, INITIAL)
  {}

  lemma TransitionStartLighter(req: Request, m: Database, k: Uuid, catalogue: nat)
    requires !req.Create? && FindOrder(m, req.orderId) == Some(k) && |ItemList(m.orders[k].items)| <= catalogue
    ensures Weight(req, catalogue, CallStart(req, m)) < Weight(req, catalogue, INITIAL)
  {
    TransitionState(req, m, k, catalogue);
    FewItemsAreLighter(req, CallStart(req, m), catalogue);
  }

  lemma StartLighter(req: Request, db: Database)
    requires ConstraintsHold(db)
    ensures Weight(req, |db.products|, Step(req, db, INITIAL)) < Weight(req, |db.products|, INITIAL)
  {
    var m := Fetch(db, NOTHING, Needs(req, Start));
    assert Step(req, db, INITIAL) == CallStart(req, m);
    if req.Create? {
      CreateStartLighter(req, m, |db.products|);
    } else if FindOrder(m, req.orderId).Some? {
      var k := FindOrder(m, req.orderId).value;
      FetchedOrder(req, db, k);
      ItemsFewerThanProducts(db, k);
      TransitionStartLighter(req, m, k, |db.products|);
    }
  }

  lemma StepLighter(req: Request, db: Database, s: TxState)
    requires ConstraintsHold(db) && s.Running? && !s.progress.Leaving?
    requires s.progress.Start? ==> s.mine == NOTHING
    requires s.progress.Charging? ==> s.progress.todo != []
    ensures Weight(req, |db.products|, Step(req, db, s)) < Weight(req, |db.products|, s)
  {
    if s.progress.Start? {
      assert s == INITIAL;
      StartLighter(req, db);
    }
  }

  ghost predicate IsWork(a: Action) {
    !a.Reprice?
  }

  lemma CatalogueFixed(reqs: Requests, w: World, a: Action)
    requires Inv(reqs, w) && Enabled(reqs, w, a)
    ensures Exec(reqs, w, a).db.products.Keys == w.db.products.Keys
    ensures |Exec(reqs, w, a).db.products| == |w.db.products|
  {
    var w' := Exec(reqs, w, a);
    if a.Move? && w.txs[a.t].Running? && w.txs[a.t].progress.Leaving? {
      assert TxOk(reqs[a.t], w.db, w.txs[a.t]);
    }
    assert |w'.db.products| == |w'.db.products.Keys| && |w.db.products| == |w.db.products.Keys|;
  }

  /** The state an action leaves its transaction in. */
  ghost function NextState(req: Request, db: Database, s: TxState, crash: bool): TxState {
    match s
    case Running(progress, _) =>
      if crash then Panicked else if progress.Leaving? then Done(Success(progress.order)) else Step(req, db, s)
    case Aborting(e, _) => Done(Failure(e))
    case _ => s
  }

  lemma ExecNextState(reqs: Requests, w: World, a: Action)
    requires Inv(reqs, w) && Enabled(reqs, w, a) && IsWork(a)
    ensures a.t in reqs && a.t in w.txs && Unfinished(w.txs[a.t])
    ensures a.t in Exec(reqs, w, a).txs
    ensures Exec(reqs, w, a).txs[a.t] == NextState(reqs[a.t], w.db, w.txs[a.t], a.Crash?)
    ensures forall u :: u in w.txs && u != a.t ==> u in Exec(reqs, w, a).txs && Exec(reqs, w, a).txs[u] == w.txs[u]
  {}

  lemma NextLighter(req: Request, db: Database, s: TxState, crash: bool)
    requires ConstraintsHold(db) && TxOk(req, db, s) && Unfinished(s)
    ensures Weight(req, |db.products|, NextState(req, db, s, crash)) < Weight(req, |db.products|, s)
  {
    if s.Running? && !s.progress.Leaving? {
      var k: nat :| Iterate(req, db, k) == s;
      IterateKeepsMeaning(req, db, k);
      StepLighter(req, db, s);
    }
  }

  lemma WorkerLighter(reqs: Requests, w: World, a: Action)
    requires Inv(reqs, w) && Enabled(reqs, w, a) && IsWork(a) && ConstraintsHold(w.db)
    ensures a.t in reqs && a.t in w.txs && a.t in Exec(reqs, w, a).txs
    ensures Weight(reqs[a.t], |w.db.products|, Exec(reqs, w, a).txs[a.t]) < Weight(reqs[a.t], |w.db.products|, w.txs[a.t])
    ensures forall u :: u in w.txs && u != a.t ==> u in Exec(reqs, w, a).txs && Exec(reqs, w, a).txs[u] == w.txs[u]
  {
    ExecNextState(reqs, w, a);
    assert TxOk(reqs[a.t], w.db, w.txs[a.t]);
    NextLighter(reqs[a.t], w.db, w.txs[a.t], a.Crash?);
  }

  /** Each call, commit, rollback or crash makes the total lighter; a price change does not touch it. */
  lemma ActionLighter(reqs: Requests, w: World, a: Action)
    requires Inv(reqs, w) && Enabled(reqs, w, a) && ConstraintsHold(w.db)
    ensures TotalWeight(reqs, Exec(reqs, w, a)) <= TotalWeight(reqs, w) - if IsWork(a) then 1 else 0
  {
    var w' := Exec(reqs, w, a);
    CatalogueFixed(reqs, w, a);
    if IsWork(a) {
      WorkerLighter(reqs, w, a);
      SumChangesAt(reqs.Keys, WeightOf(reqs, w), WeightOf(reqs, w'), a.t);
    } else {
      SumCongruent(reqs.Keys, WeightOf(reqs, w), WeightOf(reqs, w'));
    }
  }

  ghost function WorkIn(actions: seq<Action>): nat {
    if actions == [] then 0
    else WorkIn(actions[..|actions| - 1]) + if IsWork(actions[|actions| - 1]) then 1 else 0
  }

  lemma {:induction false} WorkIsBounded(reqs: Requests, w: World, actions: seq<Action>, w': World)
    requires Initial(reqs, w) && Run(reqs, w, actions, w') && Healthy(w.db)
    ensures WorkIn(actions) + TotalWeight(reqs, w') <= TotalWeight(reqs, w)
    decreases |actions|
  {
    if actions != [] {
      var last := |actions| - 1;
      var mid :| Run(reqs, w, actions[..last], mid)
                 && Enabled(reqs, mid, actions[last]) && w' == Exec(reqs, mid, actions[last]);
      WorkIsBounded(reqs, w, actions[..last], mid);
      RunsAreSerial(reqs, w, actions[..last], mid);
      HistorySupply(reqs, w.db, mid.log);
      ActionLighter(reqs, mid, actions[last]);
    }
  }

  /** Whatever the scheduler does, a finite set of transactions makes boundedly many moves. */
  lemma EveryRunEnds(reqs: Requests, w: World, actions: seq<Action>, w': World)
    requires Initial(reqs, w) && Run(reqs, w, actions, w') && Healthy(w.db)
    ensures WorkIn(actions) <= TotalWeight(reqs, w)
  {
    WorkIsBounded(reqs, w, actions, w');
    forall t | t in reqs.Keys ensures WeightOf(reqs, w')(t) >= 0 {}
    SumNonNegative(reqs.Keys, WeightOf(reqs, w'));
  }

  /** A run that cannot go on has finished every transaction and holds no lock. */
  lemma StuckMeansFinished(reqs: Requests, w: World, actions: seq<Action>, w': World)
    requires Initial(reqs, w) && Run(reqs, w, actions, w')
    requires forall x :: x in reqs ==> LocksInOrder(reqs[x])
    requires forall u :: !CanMove(reqs, w', u)
    ensures forall t :: t in reqs ==> t in w'.txs && (w'.txs[t].Done? || w'.txs[t].Panicked?)
    ensures w'.locks == map[]
  {
    RunsAreSerial(reqs, w, actions, w');
    forall t | t in w'.txs ensures !Unfinished(w'.txs[t]) {
      if Unfinished(w'.txs[t]) {
        NoDeadlock(reqs, w, actions, w', t);
      }
    }
    assert forall t :: t in w'.txs ==> Owned(w'.txs[t]) == {};
    assert w'.locks.Keys == {};
  }
}
