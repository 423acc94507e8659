/** Any number of transactions interleaved one repository call at a time, and the proof that every
    interleaving is a serial execution. */
module World {
  import opened Basics
  import opened Uuid
  import opened Domain
  import opened Repository
  import opened Orders
  import opened Machine

  type Tid = nat

  /** The calls the clients make, under the name each transaction has in the run. */
  type Requests = map<Tid, Request>

  /** The serial history: when a transaction's fate was decided, and price changes by others. */
  datatype Event = Ended(t: Tid) | Repriced(p: Uuid, price: real)

  datatype World = World(
    db: Database,              // what is committed
    locks: map<Row, Tid>,      // row locks and who holds them
    txs: map<Tid, TxState>,
    log: seq<Event>)

  datatype Action =
    | Move(t: Tid)                       // a repository call, the commit or the rollback of t
    | Crash(t: Tid)                      // t panics, or its commit fails: rolled back, no answer
    | Reprice(p: Uuid, price: real)      // someone else changes a price

  predicate Unfinished(s: TxState) {
    s.Running? || s.Aborting?
  }

  /** The answer the caller gets or is about to get. */
  function Decided(s: TxState): Option<Answer> {
    match s
    case Running(_, _) => None
    case Aborting(e, _) => Some(Failure(e))
    case Done(a) => Some(a)
    case Panicked => None
  }

  ghost function Rows(mine: Database): set<Row> {
    (set p | p in mine.products :: ProductKey(p)) + (set o | o in mine.orders :: OrderKey(o))
  }

  ghost function Owned(s: TxState): set<Row> {
    if Unfinished(s) then Rows(s.mine) else {}
  }

  /** A locking statement waits while another transaction holds the row it finds. */
  ghost predicate Blocked(reqs: Requests, w: World, t: Tid)
    requires t in reqs && t in w.txs && w.txs[t].Running?
  {
    match Needs(reqs[t], w.txs[t].progress)
    case Some(r) => HasRow(w.db, r) && r in w.locks && w.locks[r] != t
    case None => false
  }

  ghost predicate Enabled(reqs: Requests, w: World, a: Action) {
    match a
    case Move(t) =>
      && t in reqs && t in w.txs
      && Unfinished(w.txs[t])
      && (w.txs[t].Running? ==> !Blocked(reqs, w, t))
    case Crash(t) => t in w.txs && w.txs[t].Running?
    case Reprice(p, price) => p in w.db.products && ProductKey(p) !in w.locks && price > 0.0
  }

  ghost function Acquire(locks: map<Row, Tid>, t: Tid, mine: Database): map<Row, Tid> {
    locks + map r | r in Rows(mine) :: t
  }

  ghost function Release(locks: map<Row, Tid>, t: Tid): map<Row, Tid> {
    map r | r in locks && locks[r] != t :: locks[r]
  }

  ghost function SetPrice(db: Database, p: Uuid, price: real): Database {
    if p in db.products && price > 0.0 then db.(products := db.products[p := db.products[p].(price := price)]) else db
  }

  ghost function Commit(w: World, t: Tid): World
    requires t in w.txs && w.txs[t].Running? && w.txs[t].progress.Leaving?
  {
    World(View(w.db, w.txs[t].mine), Release(w.locks, t),
          w.txs[t := Done(Success(w.txs[t].progress.order))], w.log + [Ended(t)])
  }

  ghost function CallRepository(reqs: Requests, w: World, t: Tid): World
    requires t in reqs && t in w.txs && w.txs[t].Running?
  {
    var s := Step(reqs[t], w.db, w.txs[t]);
    World(w.db, Acquire(w.locks, t, s.mine), w.txs[t := s],
          if s.Aborting? then w.log + [Ended(t)] else w.log)
  }

  ghost function Drop(w: World, t: Tid, s: TxState): World {
    w.(locks := Release(w.locks, t), txs := w.txs[t := s])
  }

  ghost function Exec(reqs: Requests, w: World, a: Action): World
    requires Enabled(reqs, w, a)
  {
    match a
    case Move(t) =>
      (match w.txs[t]
       case Running(progress, _) =>
         if progress.Leaving? then Commit(w, t) else CallRepository(reqs, w, t)
       case Aborting(e, _) => Drop(w, t, Done(Failure(e))))
    case Crash(t) => Drop(w, t, Panicked)
    case Reprice(p, price) => w.(db := SetPrice(w.db, p, price), log := w.log + [Repriced(p, price)])
  }

  /** Generated ids are fresh and no two calls get the same one. */
  ghost predicate FreshIds(reqs: Requests, db: Database) {
    && (forall t :: t in reqs && reqs[t].Create? ==> reqs[t].newId !in db.orders)
    && (forall t, u :: t in reqs && u in reqs && t != u && reqs[t].Create? && reqs[u].Create?
                       ==> reqs[t].newId != reqs[u].newId)
  }

  /** Nothing has started: no locks, an empty history. */
  ghost predicate Initial(reqs: Requests, w: World) {
    && w.txs == (map t | t in reqs :: INITIAL)
    && w.locks == map[] && w.log == []
    && FreshIds(reqs, w.db)
  }

  ghost predicate Run(reqs: Requests, w: World, actions: seq<Action>, w': World) {
    if actions == [] then w' == w
    else
      var last := |actions| - 1;
      exists mid :: Run(reqs, w, actions[..last], mid)
                    && Enabled(reqs, mid, actions[last]) && w' == Exec(reqs, mid, actions[last])
  }

  lemma RunStep(reqs: Requests, w: World, actions: seq<Action>, mid: World, a: Action)
    requires Run(reqs, w, actions, mid) && Enabled(reqs, mid, a)
    ensures Run(reqs, w, actions + [a], Exec(reqs, mid, a))
  {
    assert (actions + [a])[..|actions|] == actions;
  }

  // ----- the serial history

  ghost function ApplyEvent(db: Database, reqs: Requests, e: Event): Database {
    match e
    case Ended(t) => if t in reqs then Apply(db, reqs[t]).0 else db
    case Repriced(p, price) => SetPrice(db, p, price)
  }

  /** Runs the logged transactions one at a time. */
  ghost function Replay(db: Database, reqs: Requests, log: seq<Event>): Database {
    if log == [] then db else ApplyEvent(Replay(db, reqs, log[..|log| - 1]), reqs, log[|log| - 1])
  }

  lemma ReplayAppend(db: Database, reqs: Requests, log: seq<Event>, e: Event)
    ensures Replay(db, reqs, log + [e]) == ApplyEvent(Replay(db, reqs, log), reqs, e)
  {
    assert (log + [e])[..|log|] == log;
  }

  /** The committed database is what the serial history makes of the initial one, the history
      holds each decided transaction exactly once, and each answer is the one it gets there. */
  ghost predicate Serial(reqs: Requests, db0: Database, w: World) {
    && w.db == Replay(db0, reqs, w.log)
    && (forall t :: t in w.txs ==> (Decided(w.txs[t]).Some? <==> Ended(t) in w.log))
    && (forall i, j :: 0 <= i < j < |w.log| && w.log[i].Ended? ==> w.log[i] != w.log[j])
    && (forall i :: 0 <= i < |w.log| && w.log[i].Ended? ==> AnswerAt(reqs, db0, w, i))
  }

  ghost predicate AnswerAt(reqs: Requests, db0: Database, w: World, i: nat)
    requires i < |w.log| && w.log[i].Ended?
  {
    var t := w.log[i].t;
    && t in reqs && t in w.txs
    && Decided(w.txs[t]) == Some(Apply(Replay(db0, reqs, w.log[..i]), reqs[t]).1)
  }

  // ----- the invariant

  ghost predicate Reached(req: Request, db: Database, s: TxState) {
    exists k: nat :: Iterate(req, db, k) == s
  }

  /** A transaction's own rows are committed rows, and the order it inserts. */
  ghost predicate OwnRows(req: Request, db: Database, mine: Database) {
    && mine.products.Keys <= db.products.Keys
    && (forall o :: o in mine.orders ==> o in db.orders || (req.Create? && o == req.newId))
  }

  /** The lock table is exactly who owns which row. */
  ghost predicate LocksExact(w: World) {
    && (forall r :: r in w.locks ==> w.locks[r] in w.txs && r in Owned(w.txs[w.locks[r]]))
    && (forall t, r :: t in w.txs && r in Owned(w.txs[t]) ==> r in w.locks && w.locks[r] == t)
  }

  ghost predicate TxOk(req: Request, db: Database, s: TxState) {
    && (s.Running? ==> Reached(req, db, s))
    && (Unfinished(s) ==> OwnRows(req, db, s.mine))
    && (req.Create? && (Unfinished(s) || s.Panicked? || s.answer.Failure?) ==> req.newId !in db.orders)
  }

  ghost predicate Inv(reqs: Requests, w: World) {
    && w.txs.Keys == reqs.Keys
    && LocksExact(w)
    && (forall t, u :: t in reqs && u in reqs && t != u && reqs[t].Create? && reqs[u].Create?
                       ==> reqs[t].newId != reqs[u].newId)
    && (forall t {:trigger TxOk(reqs[t], w.db, w.txs[t])} :: t in reqs ==> TxOk(reqs[t], w.db, w.txs[t]))
  }

  // ----- what one step adds

  /** The rows a call leaves: the ones it found, and the order if it inserted one. */
  ghost predicate AddsAtMostOrder(req: Request, s: Progress, mine: Database, s': TxState) {
    && Unfinished(s')
    && s'.mine.products.Keys == mine.products.Keys
    && mine.orders.Keys <= s'.mine.orders.Keys
    && (forall o :: o in s'.mine.orders ==> o in mine.orders || (req.Create? && o == req.newId))
    && (s'.mine.orders.Keys != mine.orders.Keys ==> req.Create? && Needs(req, s) == Some(OrderKey(req.newId)))
  }

  lemma PlaceAddsRow(req: Request, items: seq<OrderItem>, mine: Database)
    requires req.Create?
    ensures AddsAtMostOrder(req, Reserving([], items), mine, CallPlace(req, items, mine))
  {
    var o := BuildOrder(Format(req.newId), req.user, items, req.now);
    ParseFormat(req.newId);
    if o.Success? && req.newId !in mine.orders {
      InsertItemsKeepsRows(mine.(orders := mine.orders[req.newId := HeaderOf(o.value)]), req.newId, o.value.items);
    }
  }

  lemma CallAddsRow(req: Request, s: Progress, mine: Database)
    requires !s.Leaving?
    ensures AddsAtMostOrder(req, s, mine, Call(req, s, mine))
  {
    match s
    case Start =>
    case Reserving(todo, items) => if todo == [] && req.Create? { PlaceAddsRow(req, items, mine); }
    case Charging(_, _, _) =>
    case Settling(_, _) =>
  }

  /** A call adds at most the row it needed, and only a committed row or the order just inserted. */
  lemma StepAddsRow(req: Request, db: Database, s: TxState)
    requires s.Running? && !s.progress.Leaving?
    requires OwnRows(req, db, s.mine)
    ensures var s' := Step(req, db, s);
            && Unfinished(s')
            && OwnRows(req, db, s'.mine)
            && Rows(s.mine) <= Rows(s'.mine)
            && (forall r :: r in Rows(s'.mine) && r !in Rows(s.mine) ==> Needs(req, s.progress) == Some(r))
  {
    var m := Fetch(db, s.mine, Needs(req, s.progress));
    CallAddsRow(req, s.progress, m);
  }

  lemma OneOwner(w: World, t: Tid, u: Tid, r: Row)
    requires LocksExact(w) && t in w.txs && u in w.txs && t != u && r in Owned(w.txs[t])
    ensures r !in Owned(w.txs[u])
  {
    assert w.locks[r] == t;
  }

  /** What t commits is invisible to u's past calls. */
  lemma CommitFrame(reqs: Requests, w: World, t: Tid, u: Tid)
    requires Inv(reqs, w) && t in reqs && u in reqs && t != u
    requires w.txs[t].Running? && w.txs[u].Running?
    ensures SameFor(w.db, View(w.db, w.txs[t].mine), w.txs[u].mine)
  {
    var mine, other := w.txs[t].mine, w.txs[u].mine;
    assert TxOk(reqs[t], w.db, w.txs[t]);
    forall p | p in other.products ensures p !in mine.products {
      assert ProductKey(p) in Owned(w.txs[u]);
      OneOwner(w, u, t, ProductKey(p));
    }
    forall o | o in other.orders ensures o !in mine.orders {
      assert OrderKey(o) in Owned(w.txs[u]);
      OneOwner(w, u, t, OrderKey(o));
    }
  }

  lemma ReachedFrame(req: Request, db: Database, db': Database, s: TxState)
    requires s.Running? && Reached(req, db, s) && SameFor(db, db', s.mine)
    ensures Reached(req, db', s)
  {
    var k: nat :| Iterate(req, db, k) == s;
    IterateFrame(req, db, db', k);
  }

  // ----- the invariant is kept

  lemma AcquireKeepsOwners(w: World, t: Tid, s: TxState, u: Tid, r: Row)
    requires LocksExact(w) && t in w.txs && Unfinished(s)
    requires forall x :: x in Rows(s.mine) && x in w.locks ==> w.locks[x] == t
    requires u in w.txs && r in Owned(w.txs[t := s][u])
    ensures var locks := Acquire(w.locks, t, s.mine); r in locks && locks[r] == u
  {
    if u != t {
      assert r in Owned(w.txs[u]);
    }
  }

  lemma LocksAfterAcquire(w: World, t: Tid, s: TxState, locks: map<Row, Tid>, txs: map<Tid, TxState>)
    requires LocksExact(w) && t in w.txs && Unfinished(w.txs[t]) && Unfinished(s)
    requires Rows(w.txs[t].mine) <= Rows(s.mine)
    requires forall r :: r in Rows(s.mine) && r in w.locks ==> w.locks[r] == t
    requires locks == Acquire(w.locks, t, s.mine) && txs == w.txs[t := s]
    ensures LocksExact(w.(locks := locks, txs := txs))
  {
    forall u, r | u in txs && r in Owned(txs[u]) ensures r in locks && locks[r] == u {
      AcquireKeepsOwners(w, t, s, u, r);
    }
    forall r | r in locks ensures locks[r] in txs && r in Owned(txs[locks[r]]) {
      if r !in Rows(s.mine) {
        assert r in Owned(w.txs[w.locks[r]]);
      }
    }
  }

  lemma LocksAfterRelease(w: World, t: Tid, s: TxState, locks: map<Row, Tid>, txs: map<Tid, TxState>)
    requires LocksExact(w) && t in w.txs && !Unfinished(s)
    requires locks == Release(w.locks, t) && txs == w.txs[t := s]
    ensures LocksExact(w.(locks := locks, txs := txs))
  {
    forall u, r | u in txs && r in Owned(txs[u]) ensures r in locks && locks[r] == u {
      assert r in Owned(w.txs[u]);
    }
    forall r | r in locks ensures locks[r] in txs && r in Owned(txs[locks[r]]) {
      assert r in Owned(w.txs[w.locks[r]]);
    }
  }

  /** A row a call adds was not owned by anyone else. */
  lemma AddedRowIsFree(reqs: Requests, w: World, t: Tid, r: Row)
    requires Inv(reqs, w) && Enabled(reqs, w, Move(t)) && w.txs[t].Running? && !w.txs[t].progress.Leaving?
    requires r in Rows(Step(reqs[t], w.db, w.txs[t]).mine) && r in w.locks
    ensures w.locks[r] == t
  {
    var s, u := w.txs[t], w.locks[r];
    assert TxOk(reqs[t], w.db, s);
    StepAddsRow(reqs[t], w.db, s);
    assert r in Owned(s) <==> r in Rows(s.mine);
    assert r in Owned(w.txs[u]);
    assert TxOk(reqs[u], w.db, w.txs[u]);
  }

  lemma OtherTxsKept(reqs: Requests, w: World, w': World, t: Tid)
    requires Inv(reqs, w) && w'.db == w.db && t in reqs && t in w'.txs
    requires w'.txs == w.txs[t := w'.txs[t]] && TxOk(reqs[t], w.db, w'.txs[t])
    ensures forall u {:trigger TxOk(reqs[u], w'.db, w'.txs[u])} :: u in reqs ==> TxOk(reqs[u], w'.db, w'.txs[u])
  {
    forall u | u in reqs ensures TxOk(reqs[u], w'.db, w'.txs[u]) {
      assert TxOk(reqs[u], w.db, w.txs[u]);
    }
  }

  lemma StepTxOk(req: Request, db: Database, s: TxState)
    requires TxOk(req, db, s) && s.Running? && !s.progress.Leaving?
    ensures TxOk(req, db, Step(req, db, s))
  {
    StepAddsRow(req, db, s);
    var k: nat :| Iterate(req, db, k) == s;
    assert Iterate(req, db, k + 1) == Step(req, db, s);
  }

  /** Everything a call leaves its transaction with was its own or nobody's. */
  lemma AddedRowsAreFree(reqs: Requests, w: World, t: Tid)
    requires Inv(reqs, w) && Enabled(reqs, w, Move(t)) && w.txs[t].Running? && !w.txs[t].progress.Leaving?
    ensures var s := Step(reqs[t], w.db, w.txs[t]);
            && Unfinished(s) && Rows(w.txs[t].mine) <= Rows(s.mine)
            && forall r :: r in Rows(s.mine) && r in w.locks ==> w.locks[r] == t
  {
    assert TxOk(reqs[t], w.db, w.txs[t]);
    StepAddsRow(reqs[t], w.db, w.txs[t]);
    var s := Step(reqs[t], w.db, w.txs[t]);
    forall r | r in Rows(s.mine) && r in w.locks ensures w.locks[r] == t { AddedRowIsFree(reqs, w, t, r); }
  }

  lemma CallLocks(reqs: Requests, w: World, t: Tid)
    requires Inv(reqs, w) && Enabled(reqs, w, Move(t)) && w.txs[t].Running? && !w.txs[t].progress.Leaving?
    ensures LocksExact(CallRepository(reqs, w, t))
  {
    var w' := CallRepository(reqs, w, t);
    AddedRowsAreFree(reqs, w, t);
    LocksAfterAcquire(w, t, w'.txs[t], w'.locks, w'.txs);
  }

  lemma CallKeepsInv(reqs: Requests, w: World, t: Tid)
    requires Inv(reqs, w) && Enabled(reqs, w, Move(t)) && w.txs[t].Running? && !w.txs[t].progress.Leaving?
    ensures Inv(reqs, CallRepository(reqs, w, t))
  {
    var w' := CallRepository(reqs, w, t);
    CallLocks(reqs, w, t);
    assert TxOk(reqs[t], w.db, w.txs[t]);
    StepTxOk(reqs[t], w.db, w.txs[t]);
    OtherTxsKept(reqs, w, w', t);
  }

  lemma CommitTxOk(reqs: Requests, w: World, t: Tid, u: Tid)
    requires Inv(reqs, w) && t in reqs && w.txs[t].Running? && w.txs[t].progress.Leaving? && u in reqs
    ensures TxOk(reqs[u], Commit(w, t).db, Commit(w, t).txs[u])
  {
    var w' := Commit(w, t);
    assert TxOk(reqs[t], w.db, w.txs[t]);
    assert TxOk(reqs[u], w.db, w.txs[u]);
    if u != t && w.txs[u].Running? {
      CommitFrame(reqs, w, t, u);
      ReachedFrame(reqs[u], w.db, w'.db, w.txs[u]);
    }
  }

  lemma CommitLocks(reqs: Requests, w: World, t: Tid)
    requires Inv(reqs, w) && t in reqs && w.txs[t].Running? && w.txs[t].progress.Leaving?
    ensures LocksExact(Commit(w, t))
  {
    var w' := Commit(w, t);
    LocksAfterRelease(w, t, w'.txs[t], w'.locks, w'.txs);
  }

  lemma CommitKeepsInv(reqs: Requests, w: World, t: Tid)
    requires Inv(reqs, w) && Enabled(reqs, w, Move(t)) && w.txs[t].Running? && w.txs[t].progress.Leaving?
    ensures Inv(reqs, Commit(w, t))
  {
    var w' := Commit(w, t);
    CommitLocks(reqs, w, t);
    forall u | u in reqs ensures TxOk(reqs[u], w'.db, w'.txs[u]) { CommitTxOk(reqs, w, t, u); }
  }

  lemma DropKeepsInv(reqs: Requests, w: World, t: Tid, s: TxState)
    requires Inv(reqs, w) && t in reqs && Unfinished(w.txs[t])
    requires s.Panicked? || (s.Done? && s.answer.Failure?)
    ensures Inv(reqs, Drop(w, t, s))
  {
    var w' := Drop(w, t, s);
    LocksAfterRelease(w, t, s, w'.locks, w'.txs);
    assert LocksExact(w');
    forall u | u in reqs ensures TxOk(reqs[u], w'.db, w'.txs[u]) {
      assert TxOk(reqs[u], w.db, w.txs[u]);
    }
  }

  lemma RepriceKeepsInv(reqs: Requests, w: World, p: Uuid, price: real)
    requires Inv(reqs, w) && Enabled(reqs, w, Reprice(p, price))
    ensures Inv(reqs, Exec(reqs, w, Reprice(p, price)))
  {
    var w' := Exec(reqs, w, Reprice(p, price));
    assert LocksExact(w');
    forall u | u in reqs ensures TxOk(reqs[u], w'.db, w'.txs[u]) {
      assert TxOk(reqs[u], w.db, w.txs[u]);
      if w.txs[u].Running? {
        assert ProductKey(p) !in Owned(w.txs[u]);
        ReachedFrame(reqs[u], w.db, w'.db, w.txs[u]);
      }
    }
  }

  lemma ExecKeepsInv(reqs: Requests, w: World, a: Action)
    requires Inv(reqs, w) && Enabled(reqs, w, a)
    ensures Inv(reqs, Exec(reqs, w, a))
  {
    match a
    case Move(t) =>
      if w.txs[t].Aborting? {
        DropKeepsInv(reqs, w, t, Done(Failure(w.txs[t].error)));
      } else if w.txs[t].progress.Leaving? {
        CommitKeepsInv(reqs, w, t);
      } else {
        CallKeepsInv(reqs, w, t);
      }
    case Crash(t) => DropKeepsInv(reqs, w, t, Panicked);
    case Reprice(p, price) => RepriceKeepsInv(reqs, w, p, price);
  }

  // ----- every step extends the serial history correctly

  /** A transaction decides on the database its serial turn starts from. */
  lemma DecisionIsSerial(reqs: Requests, w: World, t: Tid)
    requires Inv(reqs, w) && Enabled(reqs, w, Move(t)) && w.txs[t].Running?
    ensures w.txs[t].progress.Leaving? ==>
              Apply(w.db, reqs[t]) == (View(w.db, w.txs[t].mine), Success(w.txs[t].progress.order))
    ensures var s := Step(reqs[t], w.db, w.txs[t]);
            s.Aborting? ==> Apply(w.db, reqs[t]) == (w.db, Failure(s.error))
  {
    assert TxOk(reqs[t], w.db, w.txs[t]);
    var k: nat :| Iterate(reqs[t], w.db, k) == w.txs[t];
    IterateKeepsMeaning(reqs[t], w.db, k);
    IterateKeepsMeaning(reqs[t], w.db, k + 1);
  }

  /** Adding an event keeps the answers already given. */
  lemma ExtendSerial(reqs: Requests, db0: Database, w: World, w': World, e: Event)
    requires Serial(reqs, db0, w)
    requires w'.log == w.log + [e] && w'.txs.Keys == w.txs.Keys
    requires w'.db == ApplyEvent(w.db, reqs, e)
    requires match e
             case Ended(t) =>
               && t in reqs && t in w.txs && Decided(w.txs[t]) == None
               && Decided(w'.txs[t]) == Some(Apply(w.db, reqs[t]).1)
               && (forall u :: u in w.txs && u != t ==> w'.txs[u] == w.txs[u])
             case Repriced(_, _) => w'.txs == w.txs
    ensures Serial(reqs, db0, w')
  {
    ReplayAppend(db0, reqs, w.log, e);
    assert e in w'.log by { assert w'.log[|w.log|] == e; }
    forall u | u in w'.txs ensures Decided(w'.txs[u]).Some? <==> Ended(u) in w'.log {
      if Ended(u) in w.log {
        var j :| 0 <= j < |w.log| && w.log[j] == Ended(u);
        assert w'.log[j] == Ended(u);
      }
    }
    forall i, j | 0 <= i < j < |w'.log| && w'.log[i].Ended? ensures w'.log[i] != w'.log[j] {
      assert w'.log[i] == w.log[i];
      if j == |w.log| && e.Ended? { assert w.log[i] in w.log; }
    }
    forall i | 0 <= i < |w'.log| && w'.log[i].Ended? ensures AnswerAt(reqs, db0, w', i) {
      if i < |w.log| {
        assert AnswerAt(reqs, db0, w, i);
        assert w'.log[..i] == w.log[..i];
        assert w.log[i] in w.log;
      } else {
        assert w'.log[..i] == w.log;
      }
    }
  }

  /** A step that leaves the history alone may only move a transaction between states with the same answer. */
  lemma SameHistory(reqs: Requests, db0: Database, w: World, w': World)
    requires Serial(reqs, db0, w)
    requires w'.log == w.log && w'.db == w.db && w'.txs.Keys == w.txs.Keys
    requires forall t :: t in w.txs ==> Decided(w'.txs[t]) == Decided(w.txs[t])
    ensures Serial(reqs, db0, w')
  {
    forall i | 0 <= i < |w'.log| && w'.log[i].Ended? ensures AnswerAt(reqs, db0, w', i) {
      assert AnswerAt(reqs, db0, w, i);
    }
  }

  lemma ExecKeepsSerial(reqs: Requests, db0: Database, w: World, a: Action)
    requires Inv(reqs, w) && Enabled(reqs, w, a) && Serial(reqs, db0, w)
    ensures Serial(reqs, db0, Exec(reqs, w, a))
  {
    var w' := Exec(reqs, w, a);
    match a
    case Move(t) =>
      if w.txs[t].Running? {
        DecisionIsSerial(reqs, w, t);
        assert TxOk(reqs[t], w.db, w.txs[t]);
        if w.txs[t].progress.Leaving? {
          ExtendSerial(reqs, db0, w, w', Ended(t));
        } else {
          StepAddsRow(reqs[t], w.db, w.txs[t]);
          if w'.txs[t].Aborting? {
            ExtendSerial(reqs, db0, w, w', Ended(t));
          } else {
            SameHistory(reqs, db0, w, w');
          }
        }
      } else {
        SameHistory(reqs, db0, w, w');
      }
    case Crash(t) => SameHistory(reqs, db0, w, w');
    case Reprice(p, price) => ExtendSerial(reqs, db0, w, w', Repriced(p, price));
  }

  // ----- every run

  lemma InitialOk(reqs: Requests, w: World)
    requires Initial(reqs, w)
    ensures Inv(reqs, w) && Serial(reqs, w.db, w)
  {
    assert Rows(NOTHING) == {};
    assert forall t :: t in w.txs ==> Owned(w.txs[t]) == {};
    assert LocksExact(w);
    forall t | t in reqs ensures TxOk(reqs[t], w.db, w.txs[t]) {
      assert Iterate(reqs[t], w.db, 0) == INITIAL;
    }
  }

  /** Serializability: whatever the interleaving, crashes and price changes, the committed database
      and every answer are those of running the decided transactions one at a time. */
  lemma {:induction false} RunsAreSerial(reqs: Requests, w: World, actions: seq<Action>, w': World)
    requires Initial(reqs, w) && Run(reqs, w, actions, w')
    ensures Inv(reqs, w') && Serial(reqs, w.db, w')
    decreases |actions|
  {
    InitialOk(reqs, w);
    if actions != [] {
      var last := |actions| - 1;
      var mid :| Run(reqs, w, actions[..last], mid)
                 && Enabled(reqs, mid, actions[last]) && w' == Exec(reqs, mid, actions[last]);
      RunsAreSerial(reqs, w, actions[..last], mid);
      ExecKeepsInv(reqs, mid, actions[last]);
      ExecKeepsSerial(reqs, w.db, mid, actions[last]);
    }
  }
}
