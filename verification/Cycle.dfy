/** Which sets of orders can deadlock: exactly those of which some can each take a first part of their
    lines, no product twice, and then wait for a product another one took. */
module Cycle {
  import opened Basics
  import opened Uuid
  import opened Domain
  import opened Merge
  import opened Repository
  import opened Orders
  import opened Machine
  import opened World
  import opened Effects
  import opened Conservation
  import opened Outcome
  import opened Steps
  import opened Deadlock
  import opened Erasure

  /** Some run ends with an unfinished transaction and nobody able to move. */
  ghost predicate CanDeadlock(reqs: Requests, w: World) {
    exists actions, w' :: Run(reqs, w, actions, w') && Deadlocked(reqs, w')
  }

  ghost predicate Deadlocked(reqs: Requests, w: World) {
    (exists t :: t in w.txs && Unfinished(w.txs[t])) && NobodyMoves(reqs, w)
  }

  /** The products some lines name. */
  function Ids(lines: seq<Line>): set<Uuid> {
    if lines == [] then {}
    else (if Parse(lines[0].productId).Some? then {Parse(lines[0].productId).value} else {}) + Ids(lines[1..])
  }

  /** The products of the first n merged lines of an order. */
  function Held(req: Request, n: nat): set<Uuid> {
    if req.Create? && n <= |MergeOf(req.lines)| then Ids(MergeOf(req.lines)[..n]) else {}
  }

  /** The product of the line after them. */
  function Awaited(req: Request, n: nat): Option<Uuid> {
    if req.Create? && n < |MergeOf(req.lines)| then Parse(MergeOf(req.lines)[n].productId) else None
  }

  /** Alone on the given database the order takes its first n merged lines, and the next one names a
      product that is there. */
  ghost predicate CanReach(req: Request, db: Database, n: nat) {
    && req.Create? && !HasBadQuantity(req.lines) && n < |MergeOf(req.lines)|
    && FirstRefusal(db, MergeOf(req.lines)[..n]).None?
    && FindProduct(db, MergeOf(req.lines)[n].productId).Some?
  }

  /** Some of the orders, each after some of its lines, hold disjoint products and each wait for a
      product another one holds. */
  ghost predicate HoldAndWait(reqs: Requests, db: Database, at: map<Tid, nat>) {
    && at != map[] && at.Keys <= reqs.Keys
    && (forall t :: t in at ==> CanReach(reqs[t], db, at[t]))
    && (forall t, u :: t in at && u in at && t != u ==> Apart(reqs, at, t, u))
    && (forall t :: t in at ==> WaitsForOther(reqs, at, t))
  }

  ghost predicate Apart(reqs: Requests, at: map<Tid, nat>, t: Tid, u: Tid)
    requires t in at && u in at && at.Keys <= reqs.Keys
  {
    Held(reqs[t], at[t]) !! Held(reqs[u], at[u])
  }

  ghost predicate WaitsForOther(reqs: Requests, at: map<Tid, nat>, t: Tid)
    requires t in at && at.Keys <= reqs.Keys
  {
    exists u :: u in at && u != t && WaitsFor(reqs, at, t, u)
  }

  ghost predicate WaitsFor(reqs: Requests, at: map<Tid, nat>, t: Tid, u: Tid)
    requires t in at && u in at && at.Keys <= reqs.Keys
  {
    Awaited(reqs[t], at[t]).Some? && Awaited(reqs[t], at[t]).value in Held(reqs[u], at[u])
  }

  // ----- driving one order while the others stand still

  /** t has moved to state s; the database, the other transactions and their locks are as before. */
  ghost predicate Moved(w: World, t: Tid, s: TxState, w': World) {
    w'.db == w.db && w'.txs == w.txs[t := s] && Release(w'.locks, t) == Release(w.locks, t)
  }

  lemma MovedTwice(w: World, t: Tid, s1: TxState, w1: World, s2: TxState, w2: World)
    requires Moved(w, t, s1, w1) && Moved(w1, t, s2, w2)
    ensures Moved(w, t, s2, w2)
  {
    assert w.txs[t := s1][t := s2] == w.txs[t := s2];
  }

  lemma MovedNowhere(w: World, t: Tid)
    requires t in w.txs
    ensures Moved(w, t, w.txs[t], w)
  {
    assert w.txs[t := w.txs[t]] == w.txs;
  }

  /** A state of a run, and how the run got there. */
  ghost predicate At(reqs: Requests, w0: World, actions: seq<Action>, w: World) {
    Run(reqs, w0, actions, w) && Inv(reqs, w)
  }

  lemma CallMoves(reqs: Requests, w: World, t: Tid)
    requires Inv(reqs, w) && t in reqs && t in w.txs && w.txs[t].Running? && !w.txs[t].progress.Leaving?
    requires !Blocked(reqs, w, t)
    ensures Moved(w, t, Step(reqs[t], w.db, w.txs[t]), CallRepository(reqs, w, t))
  {
    var s := Step(reqs[t], w.db, w.txs[t]);
    AddedRowsAreFree(reqs, w, t);
    ReleaseOwnAcquired(w.locks, t, s.mine);
  }

  lemma MakeCall(reqs: Requests, w0: World, actions: seq<Action>, w: World, t: Tid, s: TxState) returns (w': World)
    requires At(reqs, w0, actions, w)
    requires t in reqs && t in w.txs && w.txs[t].Running? && !w.txs[t].progress.Leaving?
    requires !Blocked(reqs, w, t) && s == Step(reqs[t], w.db, w.txs[t])
    ensures At(reqs, w0, actions + [Move(t)], w') && Moved(w, t, s, w')
  {
    RunStep(reqs, w0, actions, w, Move(t));
    CallKeepsInv(reqs, w, t);
    CallMoves(reqs, w, t);
    w' := CallRepository(reqs, w, t);
    assert Exec(reqs, w, Move(t)) == w';
  }

  ghost function ProductKeys(held: set<Uuid>): set<Row> {
    set p | p in held :: ProductKey(p)
  }

  /** t stands before some lines and owns some products. */
  ghost predicate Stands(reqs: Requests, w: World, t: Tid, todo: seq<Line>, held: set<Uuid>, contents: Database) {
    && t in reqs && t in w.txs
    && Mirrors(reqs[t], w.db, w.txs[t], contents, ProductKeys(held))
    && w.txs[t].progress.Reserving? && w.txs[t].progress.todo == todo
  }

  /** No other transaction than t has the product locked. */
  ghost predicate FreeFor(w: World, t: Tid, p: Uuid) {
    ProductKey(p) !in Release(w.locks, t)
  }

  lemma NotBlocked(reqs: Requests, w: World, t: Tid, p: Uuid)
    requires t in reqs && t in w.txs && w.txs[t].Running?
    requires Needs(reqs[t], w.txs[t].progress) == Some(ProductKey(p)) && FreeFor(w, t, p)
    ensures !Blocked(reqs, w, t)
  {}

  lemma ProductKeysAdd(held: set<Uuid>, p: Uuid)
    ensures ProductKeys(held) + {ProductKey(p)} == ProductKeys(held + {p})
    ensures ProductKeys(held + {p}) + {ProductKey(p)} == ProductKeys(held + {p})
  {}

  lemma TakenLine(contents: Database, line: Line, rest: seq<Line>)
    requires FirstRefusal(contents, [line] + rest).None?
    ensures GetProduct(contents, line.productId).Success? && DecrementStock(contents, line.productId, line.quantity).Success?
    ensures FirstRefusal(DecrementStock(contents, line.productId, line.quantity).value, rest).None?
  {
    NoRefusalAt(contents, [line] + rest, 0);
    assert ([line] + rest)[..0] == [];
    FirstRefusalCons(contents, DecrementStock(contents, line.productId, line.quantity).value, line, rest);
  }

  /** The first of the two calls that take a line. */
  lemma PriceLine(
    reqs: Requests, w0: World, actions: seq<Action>, w: World, t: Tid, todo: seq<Line>, held: set<Uuid>, contents: Database, p: Uuid)
    returns (w': World)
    requires At(reqs, w0, actions, w) && Stands(reqs, w, t, todo, held, contents)
    requires todo != [] && Parse(todo[0].productId) == Some(p) && FreeFor(w, t, p)
    requires GetProduct(contents, todo[0].productId).Success?
    ensures At(reqs, w0, actions + [Move(t)], w') && t in w'.txs && Moved(w, t, w'.txs[t], w')
    ensures Mirrors(reqs[t], w'.db, w'.txs[t], contents, ProductKeys(held + {p}))
    ensures w'.txs[t].progress.Charging? && w'.txs[t].progress.todo == todo
  {
    PriceMirrors(reqs[t], w.db, w.txs[t], contents, ProductKeys(held));
    ProductKeysAdd(held, p);
    NotBlocked(reqs, w, t, p);
    w' := MakeCall(reqs, w0, actions, w, t, Step(reqs[t], w.db, w.txs[t]));
  }

  lemma ChargeLine(
    reqs: Requests, w0: World, actions: seq<Action>, w: World, t: Tid, todo: seq<Line>, held: set<Uuid>, contents: Database, p: Uuid)
    returns (w': World)
    requires At(reqs, w0, actions, w) && t in reqs && t in w.txs && p in held
    requires Mirrors(reqs[t], w.db, w.txs[t], contents, ProductKeys(held))
    requires w.txs[t].progress.Charging? && w.txs[t].progress.todo == todo
    requires todo != [] && Parse(todo[0].productId) == Some(p) && FreeFor(w, t, p)
    requires DecrementStock(contents, todo[0].productId, todo[0].quantity).Success?
    ensures At(reqs, w0, actions + [Move(t)], w') && t in w'.txs && Moved(w, t, w'.txs[t], w')
    ensures Stands(reqs, w', t, todo[1..], held, DecrementStock(contents, todo[0].productId, todo[0].quantity).value)
  {
    DecrementMirrors(reqs[t], w.db, w.txs[t], contents, ProductKeys(held));
    assert ProductKeys(held) + {ProductKey(p)} == ProductKeys(held);
    NotBlocked(reqs, w, t, p);
    w' := MakeCall(reqs, w0, actions, w, t, Step(reqs[t], w.db, w.txs[t]));
  }

  lemma StillFree(w: World, t: Tid, s: TxState, w': World, p: Uuid)
    requires Moved(w, t, s, w') && FreeFor(w, t, p)
    ensures FreeFor(w', t, p)
  {}

  /** Two calls price and take the next line. */
  lemma TakeLine(
    reqs: Requests, w0: World, actions: seq<Action>, w: World, t: Tid, todo: seq<Line>, held: set<Uuid>, contents: Database, p: Uuid)
    returns (more: seq<Action>, w': World)
    requires At(reqs, w0, actions, w) && Stands(reqs, w, t, todo, held, contents)
    requires todo != [] && Parse(todo[0].productId) == Some(p) && FreeFor(w, t, p)
    requires GetProduct(contents, todo[0].productId).Success?
    requires DecrementStock(contents, todo[0].productId, todo[0].quantity).Success?
    ensures At(reqs, w0, more, w') && t in w'.txs && Moved(w, t, w'.txs[t], w')
    ensures Stands(reqs, w', t, todo[1..], held + {p}, DecrementStock(contents, todo[0].productId, todo[0].quantity).value)
  {
    var w1 := PriceLine(reqs, w0, actions, w, t, todo, held, contents, p);
    StillFree(w, t, w1.txs[t], w1, p);
    w' := ChargeLine(reqs, w0, actions + [Move(t)], w1, t, todo, held + {p}, contents, p);
    MovedTwice(w, t, w1.txs[t], w1, w'.txs[t], w');
    more := actions + [Move(t)] + [Move(t)];
  }

  lemma SplitPrefix(todo: seq<Line>, n: nat)
    requires 0 < n <= |todo|
    ensures todo[..n] == [todo[0]] + todo[1..][..n - 1]
    ensures todo[..n][0] == todo[0] && todo[..n][1..] == todo[1..][..n - 1]
    ensures todo[1..][n - 1..] == todo[n..]
  {}

  lemma IdsCons(todo: seq<Line>, n: nat, held: set<Uuid>, p: Uuid)
    requires 0 < n <= |todo| && Parse(todo[0].productId) == Some(p)
    ensures held + Ids(todo[..n]) == held + {p} + Ids(todo[1..][..n - 1])
    ensures p in Ids(todo[..n]) && Ids(todo[1..][..n - 1]) <= Ids(todo[..n])
  {
    SplitPrefix(todo, n);
  }

  /** t takes its next n lines, one after the other. */
  lemma {:induction false} TakeLines(
    reqs: Requests, w0: World, actions: seq<Action>, w: World, t: Tid, todo: seq<Line>, held: set<Uuid>, contents: Database, n: nat)
    returns (more: seq<Action>, w': World, after: Database)
    requires At(reqs, w0, actions, w) && Stands(reqs, w, t, todo, held, contents)
    requires n <= |todo| && FirstRefusal(contents, todo[..n]).None?
    requires forall p :: p in Ids(todo[..n]) ==> FreeFor(w, t, p)
    ensures At(reqs, w0, more, w') && t in w'.txs && Moved(w, t, w'.txs[t], w')
    ensures Stands(reqs, w', t, todo[n..], held + Ids(todo[..n]), after)
    decreases n
  {
    if n == 0 {
      more, w', after := actions, w, contents;
      MovedNowhere(w, t);
      assert held + Ids(todo[..0]) == held && todo[0..] == todo;
    } else {
      SplitPrefix(todo, n);
      TakenLine(contents, todo[0], todo[1..][..n - 1]);
      var p := Parse(todo[0].productId).value;
      IdsCons(todo, n, held, p);
      var acts, w1 := TakeLine(reqs, w0, actions, w, t, todo, held, contents, p);
      forall q | q in Ids(todo[1..][..n - 1]) ensures FreeFor(w1, t, q) { StillFree(w, t, w1.txs[t], w1, q); }
      more, w', after := TakeLines(reqs, w0, acts, w1, t, todo[1..], held + {p},
                                   DecrementStock(contents, todo[0].productId, todo[0].quantity).value, n - 1);
      MovedTwice(w, t, w1.txs[t], w1, w'.txs[t], w');
    }
  }

  /** A fresh order takes its first n lines. */
  lemma StartAndTake(reqs: Requests, w0: World, actions: seq<Action>, w: World, t: Tid, n: nat)
    returns (more: seq<Action>, w': World, after: Database)
    requires At(reqs, w0, actions, w) && t in reqs && t in w.txs && w.txs[t] == INITIAL
    requires CanReach(reqs[t], w.db, n)
    requires forall p :: p in Held(reqs[t], n) ==> FreeFor(w, t, p)
    ensures At(reqs, w0, more, w') && t in w'.txs && Moved(w, t, w'.txs[t], w')
    ensures Stands(reqs, w', t, MergeOf(reqs[t].lines)[n..], Held(reqs[t], n), after)
  {
    var todo := MergeOf(reqs[t].lines);
    ReserveMirrors(reqs[t], w.db);
    var w1 := MakeCall(reqs, w0, actions, w, t, Step(reqs[t], w.db, INITIAL));
    assert ProductKeys({}) == {};
    forall p | p in Ids(todo[..n]) ensures FreeFor(w1, t, p) { StillFree(w, t, w1.txs[t], w1, p); }
    more, w', after := TakeLines(reqs, w0, actions + [Move(t)], w1, t, todo, {}, w.db, n);
    MovedTwice(w, t, w1.txs[t], w1, w'.txs[t], w');
    assert {} + Ids(todo[..n]) == Ids(todo[..n]);
  }

  // ----- driving all of them

  /** Of the orders in at, those not left to drive stand where at says, and nobody else has started. */
  ghost predicate Driven(reqs: Requests, w: World, at: map<Tid, nat>, left: set<Tid>, db: Database) {
    && w.db == db && w.txs.Keys == reqs.Keys
    && (forall t :: t in at && t !in left ==> StandsAt(reqs, w, t, at[t]))
    && (forall t :: t in reqs && (t !in at || t in left) ==> w.txs[t] == INITIAL)
  }

  ghost predicate StandsAt(reqs: Requests, w: World, t: Tid, n: nat) {
    && t in reqs && reqs[t].Create? && n <= |MergeOf(reqs[t].lines)|
    && exists contents :: Stands(reqs, w, t, MergeOf(reqs[t].lines)[n..], Held(reqs[t], n), contents)
  }

  lemma StandsOwns(reqs: Requests, w: World, t: Tid, n: nat)
    requires StandsAt(reqs, w, t, n)
    ensures t in w.txs && w.txs[t].Running? && Owned(w.txs[t]) == ProductKeys(Held(reqs[t], n))
  {}

  lemma HeldDisjoint(reqs: Requests, db: Database, at: map<Tid, nat>, t: Tid, u: Tid)
    requires HoldAndWait(reqs, db, at) && t in at && u in at && t != u
    ensures Held(reqs[t], at[t]) !! Held(reqs[u], at[u])
  {
    assert Apart(reqs, at, t, u);
  }

  lemma ReachesAt(reqs: Requests, db: Database, at: map<Tid, nat>, t: Tid)
    requires HoldAndWait(reqs, db, at) && t in at
    ensures t in reqs && CanReach(reqs[t], db, at[t])
  {}

  lemma WaitsAt(reqs: Requests, db: Database, at: map<Tid, nat>, t: Tid) returns (u: Tid)
    requires HoldAndWait(reqs, db, at) && t in at
    ensures t in reqs && CanReach(reqs[t], db, at[t]) && Awaited(reqs[t], at[t]).Some?
    ensures u in at && u in reqs && u != t && CanReach(reqs[u], db, at[u])
    ensures Awaited(reqs[t], at[t]).value in Held(reqs[u], at[u]) && Held(reqs[t], at[t]) !! Held(reqs[u], at[u])
  {
    assert WaitsForOther(reqs, at, t);
    u :| u in at && u != t && WaitsFor(reqs, at, t, u);
    assert Apart(reqs, at, t, u);
  }

  lemma NothingOwned()
    ensures Owned(INITIAL) == {}
  {
    assert Rows(NOTHING) == {};
  }

  lemma OthersDoNotOwn(reqs: Requests, w: World, at: map<Tid, nat>, left: set<Tid>, db: Database, t: Tid, p: Uuid, u: Tid)
    requires HoldAndWait(reqs, db, at) && Driven(reqs, w, at, left, db)
    requires t in at && t in left && t in reqs && CanReach(reqs[t], db, at[t]) && p in Held(reqs[t], at[t])
    requires u in reqs && u != t
    ensures ProductKey(p) !in Owned(w.txs[u])
  {
    if u in at && u !in left {
      HeldDisjoint(reqs, db, at, t, u);
      StandsOwns(reqs, w, u, at[u]);
    } else {
      NothingOwned();
    }
  }

  lemma ProductsFree(reqs: Requests, w: World, at: map<Tid, nat>, left: set<Tid>, db: Database, t: Tid, p: Uuid)
    requires HoldAndWait(reqs, db, at) && Driven(reqs, w, at, left, db) && LocksExact(w)
    requires t in at && t in left && t in reqs && CanReach(reqs[t], db, at[t]) && p in Held(reqs[t], at[t])
    ensures FreeFor(w, t, p)
  {
    forall u | u in w.txs && u != t ensures ProductKey(p) !in Owned(w.txs[u]) {
      OthersDoNotOwn(reqs, w, at, left, db, t, p, u);
    }
  }

  lemma OthersStand(reqs: Requests, w: World, t: Tid, w': World, u: Tid, n: nat)
    requires StandsAt(reqs, w, u, n) && u != t && t in w'.txs && Moved(w, t, w'.txs[t], w')
    ensures StandsAt(reqs, w', u, n)
  {
    var contents :| Stands(reqs, w, u, MergeOf(reqs[u].lines)[n..], Held(reqs[u], n), contents);
    assert Stands(reqs, w', u, MergeOf(reqs[u].lines)[n..], Held(reqs[u], n), contents);
  }

  lemma DrivenMore(reqs: Requests, w: World, at: map<Tid, nat>, left: set<Tid>, db: Database, t: Tid, w': World)
    requires Driven(reqs, w, at, left, db) && at.Keys <= reqs.Keys && t in at && t in left
    requires t in w'.txs && Moved(w, t, w'.txs[t], w') && StandsAt(reqs, w', t, at[t])
    ensures Driven(reqs, w', at, left - {t}, db)
  {
    forall u | u in at && u !in left - {t} ensures StandsAt(reqs, w', u, at[u]) {
      if u != t { OthersStand(reqs, w, t, w', u, at[u]); }
    }
  }

  lemma DriveOne(reqs: Requests, w0: World, actions: seq<Action>, w: World, at: map<Tid, nat>, left: set<Tid>, db: Database, t: Tid)
    returns (more: seq<Action>, w': World)
    requires HoldAndWait(reqs, db, at) && At(reqs, w0, actions, w) && Driven(reqs, w, at, left, db)
    requires t in at && t in left
    ensures At(reqs, w0, more, w') && Driven(reqs, w', at, left - {t}, db)
  {
    ReachesAt(reqs, db, at, t);
    forall p | p in Held(reqs[t], at[t]) ensures FreeFor(w, t, p) { ProductsFree(reqs, w, at, left, db, t, p); }
    var after;
    more, w', after := StartAndTake(reqs, w0, actions, w, t, at[t]);
    DrivenMore(reqs, w, at, left, db, t, w');
  }

  lemma {:induction false} DriveAll(reqs: Requests, w0: World, actions: seq<Action>, w: World, at: map<Tid, nat>, left: set<Tid>, db: Database)
    returns (more: seq<Action>, w': World)
    requires HoldAndWait(reqs, db, at) && At(reqs, w0, actions, w) && Driven(reqs, w, at, left, db)
    requires left <= at.Keys
    ensures At(reqs, w0, more, w') && Driven(reqs, w', at, {}, db)
    decreases left
  {
    if left == {} {
      more, w' := actions, w;
    } else {
      var t :| t in left;
      more, w' := DriveOne(reqs, w0, actions, w, at, left, db, t);
      more, w' := DriveAll(reqs, w0, more, w', at, left - {t}, db);
    }
  }

  // ----- nobody of them moves again

  /** t waits for a product one of the given transactions has locked. */
  ghost predicate WaitsAmong(reqs: Requests, w: World, stuck: set<Tid>, t: Tid) {
    Waiting(reqs, w, t) && Wanted(reqs, w, t).ProductKey? && w.locks[Wanted(reqs, w, t)] in stuck
  }

  /** Some transactions wait for each other. */
  ghost predicate StuckTogether(reqs: Requests, w: World, stuck: set<Tid>) {
    stuck != {} && forall t :: t in stuck ==> WaitsAmong(reqs, w, stuck, t)
  }

  lemma StandsNeeds(reqs: Requests, w: World, t: Tid, n: nat, db: Database)
    requires StandsAt(reqs, w, t, n) && CanReach(reqs[t], db, n)
    ensures Needs(reqs[t], w.txs[t].progress) == Some(ProductKey(Awaited(reqs[t], n).value))
    ensures Awaited(reqs[t], n).Some? && Awaited(reqs[t], n).value in db.products
  {}

  /** t waits for a product that u owns. */
  lemma WaitsForOwner(reqs: Requests, w: World, t: Tid, u: Tid, p: Uuid)
    requires LocksExact(w) && t in reqs && t in w.txs && u in w.txs && t != u
    requires w.txs[t].Running? && Needs(reqs[t], w.txs[t].progress) == Some(ProductKey(p))
    requires ProductKey(p) in Owned(w.txs[u]) && p in w.db.products
    ensures Waiting(reqs, w, t) && Wanted(reqs, w, t) == ProductKey(p) && w.locks[ProductKey(p)] == u
  {}

  lemma DrivenWaits(reqs: Requests, w: World, at: map<Tid, nat>, db: Database, t: Tid)
    requires HoldAndWait(reqs, db, at) && Driven(reqs, w, at, {}, db) && LocksExact(w) && t in at
    ensures WaitsAmong(reqs, w, at.Keys, t)
  {
    var u := WaitsAt(reqs, db, at, t);
    PairWaits(reqs, w, db, t, at[t], u, at[u]);
  }

  lemma PairWaits(reqs: Requests, w: World, db: Database, t: Tid, n: nat, u: Tid, m: nat)
    requires w.db == db && LocksExact(w) && t in reqs && u in reqs && u != t
    requires CanReach(reqs[t], db, n) && CanReach(reqs[u], db, m)
    requires StandsAt(reqs, w, t, n) && StandsAt(reqs, w, u, m)
    requires Awaited(reqs[t], n).Some? && Awaited(reqs[t], n).value in Held(reqs[u], m)
    ensures Waiting(reqs, w, t) && Wanted(reqs, w, t).ProductKey? && w.locks[Wanted(reqs, w, t)] == u
  {
    StandsNeeds(reqs, w, t, n, db);
    StandsOwns(reqs, w, u, m);
    StandsOwns(reqs, w, t, n);
    WaitsForOwner(reqs, w, t, u, Awaited(reqs[t], n).value);
  }

  lemma DrivenStuck(reqs: Requests, w: World, at: map<Tid, nat>, db: Database)
    requires HoldAndWait(reqs, db, at) && Driven(reqs, w, at, {}, db) && LocksExact(w)
    ensures StuckTogether(reqs, w, at.Keys)
  {
    SomebodyIsThere(reqs, db, at);
    forall t | t in at.Keys ensures WaitsAmong(reqs, w, at.Keys, t) { DrivenWaits(reqs, w, at, db, t); }
  }

  lemma SomebodyIsThere(reqs: Requests, db: Database, at: map<Tid, nat>)
    requires HoldAndWait(reqs, db, at)
    ensures at.Keys != {} && at.Keys <= reqs.Keys
  {}

  /** What the others do leaves stuck transactions stuck. */
  lemma StuckStays(reqs: Requests, w: World, stuck: set<Tid>, u: Tid)
    requires Inv(reqs, w) && StuckTogether(reqs, w, stuck) && CanMove(reqs, w, u)
    ensures Inv(reqs, Exec(reqs, w, Move(u))) && StuckTogether(reqs, Exec(reqs, w, Move(u)), stuck)
  {
    var w' := Exec(reqs, w, Move(u));
    ExecKeepsInv(reqs, w, Move(u));
    CatalogueFixed(reqs, w, Move(u));
    MoveLeavesOthers(reqs, w, u);
    MoverIsNotStuck(reqs, w, stuck, u);
    forall t | t in stuck ensures WaitsAmong(reqs, w', stuck, t) { StillWaits(reqs, w, w', stuck, t); }
  }

  lemma MoverIsNotStuck(reqs: Requests, w: World, stuck: set<Tid>, u: Tid)
    requires StuckTogether(reqs, w, stuck) && CanMove(reqs, w, u)
    ensures u !in stuck && forall t :: t in stuck ==> t in w.txs
  {
    assert forall t :: t in stuck ==> WaitsAmong(reqs, w, stuck, t);
  }

  lemma MoveLeavesOthers(reqs: Requests, w: World, u: Tid)
    requires CanMove(reqs, w, u)
    ensures forall t :: t in w.txs && t != u ==> t in Exec(reqs, w, Move(u)).txs && Exec(reqs, w, Move(u)).txs[t] == w.txs[t]
  {}

  lemma StillWaits(reqs: Requests, w: World, w': World, stuck: set<Tid>, t: Tid)
    requires LocksExact(w) && LocksExact(w') && StuckTogether(reqs, w, stuck) && t in stuck
    requires w'.db.products.Keys == w.db.products.Keys
    requires forall v :: v in stuck ==> v in w.txs && v in w'.txs && w'.txs[v] == w.txs[v]
    ensures WaitsAmong(reqs, w', stuck, t)
  {
    assert WaitsAmong(reqs, w, stuck, t);
    var r := Wanted(reqs, w, t);
    LockOwned(w, r);
    WaitsForOwner(reqs, w', t, w.locks[r], r.p);
  }

  lemma LockOwned(w: World, r: Row)
    requires LocksExact(w) && r in w.locks
    ensures w.locks[r] in w.txs && r in Owned(w.txs[w.locks[r]])
  {}

  lemma WeightNonNegative(reqs: Requests, w: World)
    ensures TotalWeight(reqs, w) >= 0
  {
    forall t | t in reqs.Keys ensures WeightOf(reqs, w)(t) >= 0 {}
    SumNonNegative(reqs.Keys, WeightOf(reqs, w));
  }

  lemma LighterMove(reqs: Requests, w0: World, actions: seq<Action>, w: World, u: Tid, w': World)
    requires Initial(reqs, w0) && Healthy(w0.db) && Run(reqs, w0, actions, w)
    requires CanMove(reqs, w, u) && w' == Exec(reqs, w, Move(u))
    ensures Inv(reqs, w) && 0 <= TotalWeight(reqs, w') < TotalWeight(reqs, w)
  {
    RunsAreSerial(reqs, w0, actions, w);
    HistorySupply(reqs, w0.db, w.log);
    ActionLighter(reqs, w, Move(u));
    WeightNonNegative(reqs, w');
  }

  ghost predicate Reaches(reqs: Requests, w0: World, actions: seq<Action>, w: World) {
    Initial(reqs, w0) && Healthy(w0.db) && Run(reqs, w0, actions, w)
  }

  lemma ReachesMore(reqs: Requests, w0: World, actions: seq<Action>, w: World, u: Tid, w': World)
    requires Reaches(reqs, w0, actions, w) && CanMove(reqs, w, u) && w' == Exec(reqs, w, Move(u))
    ensures Reaches(reqs, w0, actions + [Move(u)], w')
  {
    RunStep(reqs, w0, actions, w, Move(u));
  }

  lemma MoveOnce(reqs: Requests, w0: World, actions: seq<Action>, w: World, stuck: set<Tid>, u: Tid) returns (w': World)
    requires Reaches(reqs, w0, actions, w) && StuckTogether(reqs, w, stuck) && CanMove(reqs, w, u)
    ensures Reaches(reqs, w0, actions + [Move(u)], w') && StuckTogether(reqs, w', stuck)
    ensures 0 <= TotalWeight(reqs, w') < TotalWeight(reqs, w)
  {
    w' := Exec(reqs, w, Move(u));
    LighterMove(reqs, w0, actions, w, u, w');
    ReachesMore(reqs, w0, actions, w, u, w');
    StuckStays(reqs, w, stuck, u);
  }

  /** Let everybody else run until nobody can move. */
  lemma {:induction false} RunOut(reqs: Requests, w0: World, actions: seq<Action>, w: World, stuck: set<Tid>, budget: nat)
    returns (more: seq<Action>, w': World)
    requires Reaches(reqs, w0, actions, w)
    requires StuckTogether(reqs, w, stuck) && TotalWeight(reqs, w) <= budget
    ensures Reaches(reqs, w0, more, w') && StuckTogether(reqs, w', stuck) && NobodyMoves(reqs, w')
    decreases budget
  {
    if NobodyMoves(reqs, w) {
      more, w' := actions, w;
    } else {
      var u :| CanMove(reqs, w, u);
      var w1 := MoveOnce(reqs, w0, actions, w, stuck, u);
      more, w' := RunOut(reqs, w0, actions + [Move(u)], w1, stuck, budget - 1);
    }
  }

  ghost predicate NobodyMoves(reqs: Requests, w: World) {
    forall u :: !CanMove(reqs, w, u)
  }

  lemma StuckMeansDeadlocked(reqs: Requests, w: World, stuck: set<Tid>)
    requires StuckTogether(reqs, w, stuck) && NobodyMoves(reqs, w)
    ensures Deadlocked(reqs, w)
  {
    var t :| t in stuck;
    assert Waiting(reqs, w, t);
  }

  lemma NobodyStarted(reqs: Requests, w: World, at: map<Tid, nat>)
    requires Initial(reqs, w)
    ensures Driven(reqs, w, at, at.Keys, w.db)
  {}

  /** Orders that can hold and wait can deadlock, in whatever company. */
  lemma HoldAndWaitDeadlocks(reqs: Requests, w: World, at: map<Tid, nat>)
    requires Initial(reqs, w) && Healthy(w.db) && HoldAndWait(reqs, w.db, at)
    ensures CanDeadlock(reqs, w)
  {
    var actions, w1 := AllDriven(reqs, w, at);
    StuckRunsOut(reqs, w, actions, w1, at.Keys);
  }

  lemma AllDriven(reqs: Requests, w: World, at: map<Tid, nat>) returns (actions: seq<Action>, w1: World)
    requires Initial(reqs, w) && HoldAndWait(reqs, w.db, at)
    ensures Run(reqs, w, actions, w1) && StuckTogether(reqs, w1, at.Keys)
  {
    assert Run(reqs, w, [], w);
    RunsAreSerial(reqs, w, [], w);
    NobodyStarted(reqs, w, at);
    actions, w1 := DriveAll(reqs, w, [], w, at, at.Keys, w.db);
    DrivenStuck(reqs, w1, at, w.db);
  }

  lemma StuckRunsOut(reqs: Requests, w0: World, actions: seq<Action>, w: World, stuck: set<Tid>)
    requires Initial(reqs, w0) && Healthy(w0.db) && Run(reqs, w0, actions, w) && StuckTogether(reqs, w, stuck)
    ensures CanDeadlock(reqs, w0)
  {
    WeightNonNegative(reqs, w);
    var more, w' := RunOut(reqs, w0, actions, w, stuck, TotalWeight(reqs, w));
    StuckMeansDeadlocked(reqs, w', stuck);
  }

  // ----- where a waiting order stands

  lemma {:induction false} IdsSnoc(lines: seq<Line>, n: nat)
    requires n < |lines|
    ensures Ids(lines[..n + 1])
         == Ids(lines[..n]) + if Parse(lines[n].productId).Some? then {Parse(lines[n].productId).value} else {}
    decreases n
  {
    if n > 0 {
      IdsSnoc(lines[1..], n - 1);
      assert lines[..n + 1][1..] == lines[1..][..n] && lines[..n][1..] == lines[1..][..n - 1];
      assert lines[1..][n - 1] == lines[n];
    } else {
      assert lines[..1][1..] == [] && lines[..0] == [];
    }
  }

  lemma ReserveOne(db: Database, lines: seq<Line>, items: seq<OrderItem>)
    requires |lines| == 1 && GetProduct(db, lines[0].productId).Success?
    requires DecrementStock(db, lines[0].productId, lines[0].quantity).Success?
    ensures Reserve(db, lines, items)
         == Success((DecrementStock(db, lines[0].productId, lines[0].quantity).value,
                     items + [Bought(lines[0], GetProduct(db, lines[0].productId).value.price)]))
  {
    assert Reserve(DecrementStock(db, lines[0].productId, lines[0].quantity).value, lines[1..],
                   items + [Bought(lines[0], GetProduct(db, lines[0].productId).value.price)]).Success?;
  }

  /** Taking one line more. */
  lemma {:induction false} ReserveSnoc(db: Database, lines: seq<Line>, n: nat, items: seq<OrderItem>)
    requires n < |lines| && Reserve(db, lines[..n], items).Success?
    requires var mid := Reserve(db, lines[..n], items).value.0;
             && GetProduct(mid, lines[n].productId).Success?
             && DecrementStock(mid, lines[n].productId, lines[n].quantity).Success?
    ensures var (mid, bought) := Reserve(db, lines[..n], items).value;
            Reserve(db, lines[..n + 1], items)
            == Success((DecrementStock(mid, lines[n].productId, lines[n].quantity).value,
                        bought + [Bought(lines[n], GetProduct(mid, lines[n].productId).value.price)]))
    decreases n
  {
    if n == 0 {
      assert lines[..0] == [];
      ReserveOne(db, lines[..1], items);
    } else {
      assert lines[..n + 1][1..] == lines[1..][..n] && lines[..n][1..] == lines[1..][..n - 1];
      assert lines[1..][n - 1] == lines[n] && lines[..n][0] == lines[..n + 1][0] == lines[0];
      var price := GetProduct(db, lines[0].productId).value.price;
      ReserveSnoc(DecrementStock(db, lines[0].productId, lines[0].quantity).value, lines[1..], n - 1,
                  items + [Bought(lines[0], price)]);
    }
  }

  /** The order has taken its first n lines: it sees what taking them leaves, and owns their products. */
  ghost predicate HasTaken(req: Request, db: Database, n: nat, items: seq<OrderItem>, mine: Database)
    requires req.Create?
  {
    && n <= |MergeOf(req.lines)| && !HasBadQuantity(req.lines)
    && Reserve(db, MergeOf(req.lines)[..n], []) == Success((View(db, mine), items))
    && mine.orders == map[]
  }

  /** How far an order has got. */
  ghost predicate Progressed(req: Request, db: Database, s: TxState) {
    req.Create? && s.Running? ==>
      match s.progress
      case Start => s == INITIAL
      case Reserving(todo, items) =>
        var n := |MergeOf(req.lines)| - |todo|;
        n >= 0 && todo == MergeOf(req.lines)[n..] && HasTaken(req, db, n, items, s.mine)
        && s.mine.products.Keys == Ids(MergeOf(req.lines)[..n])
      case Charging(price, todo, items) =>
        var n := |MergeOf(req.lines)| - |todo|;
        n >= 0 && todo != [] && todo == MergeOf(req.lines)[n..] && HasTaken(req, db, n, items, s.mine)
        && GetProduct(View(db, s.mine), todo[0].productId).Success?
        && GetProduct(View(db, s.mine), todo[0].productId).value.price == price
        && s.mine.products.Keys == Ids(MergeOf(req.lines)[..n + 1])
      case Settling(_, _) => false
      case Leaving(_) => true
  }

  lemma StartProgressed(req: Request, db: Database)
    requires req.Create?
    ensures Progressed(req, db, Step(req, db, INITIAL))
  {
    if Step(req, db, INITIAL).Running? {
      ReserveMirrors(req, db);
      assert MergeOf(req.lines)[..0] == [] && MergeOf(req.lines)[0..] == MergeOf(req.lines);
    }
  }

  lemma PriceOwns(req: Request, db: Database, s: TxState)
    requires s.Running? && s.progress.Reserving? && s.progress.todo != [] && Step(req, db, s).Running?
    ensures var id, s' := s.progress.todo[0].productId, Step(req, db, s);
            && Parse(id).Some? && s'.mine.orders == s.mine.orders
            && s'.mine.products.Keys == s.mine.products.Keys + {Parse(id).value}
            && View(db, s'.mine) == View(db, s.mine)
  {
    var m := Fetch(db, s.mine, Needs(req, s.progress));
    FetchFacts(db, s.mine, Needs(req, s.progress));
    assert Step(req, db, s) == CallPrice(s.progress.todo, s.progress.items, m);
  }

  lemma PriceProgressed(req: Request, db: Database, s: TxState)
    requires req.Create? && s.Running? && s.progress.Reserving? && s.progress.todo != [] && Reached(req, db, s)
    requires Progressed(req, db, s)
    ensures Progressed(req, db, Step(req, db, s))
  {
    var s' := Step(req, db, s);
    PriceMirrors(req, db, s, View(db, s.mine), Rows(s.mine));
    if s'.Running? {
      PriceOwns(req, db, s);
      IdsSnoc(MergeOf(req.lines), |MergeOf(req.lines)| - |s.progress.todo|);
    }
  }

  lemma ChargeProgressed(req: Request, db: Database, s: TxState)
    requires req.Create? && s.Running? && s.progress.Charging? && Reached(req, db, s)
    requires Progressed(req, db, s)
    ensures Progressed(req, db, Step(req, db, s))
  {
    var s', todo := Step(req, db, s), s.progress.todo;
    DecrementMirrors(req, db, s, View(db, s.mine), Rows(s.mine));
    if s'.Running? {
      var n := |MergeOf(req.lines)| - |todo|;
      ReserveSnoc(db, MergeOf(req.lines), n, []);
      ChargeKeepsKeys(req, db, s);
      assert MergeOf(req.lines)[n..][1..] == MergeOf(req.lines)[n + 1..];
    }
  }

  lemma ChargeKeepsKeys(req: Request, db: Database, s: TxState)
    requires s.Running? && s.progress.Charging? && Reached(req, db, s) && Step(req, db, s).Running?
    requires s.mine.orders == map[]
    ensures Step(req, db, s).mine.products.Keys == s.mine.products.Keys && Step(req, db, s).mine.orders == map[]
  {
    ReachedCoherent(req, db, s);
    assert Fetch(db, s.mine, Needs(req, s.progress)).products == s.mine.products;
  }

  lemma StepProgressed(req: Request, db: Database, s: TxState)
    requires req.Create? && s.Running? && Reached(req, db, s) && Progressed(req, db, s)
    ensures Progressed(req, db, Step(req, db, s))
  {
    match s.progress
    case Start => StartProgressed(req, db);
    case Reserving(todo, _) => if todo != [] { PriceProgressed(req, db, s); } else { PlaceProgressed(req, db, s); }
    case Charging(_, _, _) => ChargeProgressed(req, db, s);
    case Settling(_, _) =>
    case Leaving(_) =>
  }

  lemma PlaceProgressed(req: Request, db: Database, s: TxState)
    requires req.Create? && s.Running? && s.progress.Reserving? && s.progress.todo == []
    ensures Step(req, db, s).Running? ==> Step(req, db, s).progress.Leaving?
  {}

  lemma NextProgressed(req: Request, db: Database, s: TxState)
    requires req.Create?
    ensures Reached(req, db, s) && Progressed(req, db, s) ==> Progressed(req, db, Step(req, db, s))
  {
    if Reached(req, db, s) && Progressed(req, db, s) && s.Running? {
      StepProgressed(req, db, s);
    }
  }

  lemma IterateReached(req: Request, db: Database, k: nat)
    ensures Reached(req, db, Iterate(req, db, k))
  {}

  lemma {:induction false} IterateProgressed(req: Request, db: Database, k: nat)
    requires req.Create?
    ensures Progressed(req, db, Iterate(req, db, k))
  {
    if k > 0 {
      IterateProgressed(req, db, k - 1);
      IterateReached(req, db, k - 1);
      NextProgressed(req, db, Iterate(req, db, k - 1));
    }
  }

  // ----- what is refused from less stock

  /** The same products, each with at least as many units, within the range of the column. */
  ghost predicate MoreStock(db: Database, more: Database) {
    && db.products.Keys == more.products.Keys
    && forall p :: p in db.products ==> db.products[p].stock <= more.products[p].stock <= INT32_MAX
  }

  lemma {:induction false} AskedNonNegative(lines: seq<Line>, p: Uuid)
    requires !HasBadQuantity(lines)
    ensures Asked(lines, p) >= 0
  {
    if lines != [] {
      var n := |lines| - 1;
      assert !HasBadQuantity(lines[..n]) by {
        forall i | 0 <= i < n ensures lines[..n][i].quantity > 0 { assert lines[i].quantity > 0; }
      }
      assert lines[n].quantity > 0;
      AskedNonNegative(lines[..n], p);
    }
  }

  /** Lines that can be taken from some stock can be taken from more. */
  lemma {:induction false} RefusedFromMore(db: Database, more: Database, lines: seq<Line>)
    requires MoreStock(db, more) && !HasBadQuantity(lines)
    requires FirstRefusal(db, lines).None?
    ensures FirstRefusal(more, lines).None?
  {
    if lines != [] {
      var n := |lines| - 1;
      assert !HasBadQuantity(lines[..n]) by {
        forall i | 0 <= i < n ensures lines[..n][i].quantity > 0 { assert lines[i].quantity > 0; }
      }
      assert lines[n].quantity > 0;
      RefusedFromMore(db, more, lines[..n]);
      var found := FindProduct(more, lines[n].productId);
      if found.Some? { AskedNonNegative(lines[..n], found.value); }
    }
  }

  /** Orders only ever take from stock. */
  lemma {:induction false} OrdersTakeStock(reqs: Requests, db0: Database, log: seq<Event>)
    requires forall t :: t in reqs ==> reqs[t].Create?
    ensures var db := Replay(db0, reqs, log);
            && db.products.Keys == db0.products.Keys
            && forall p :: p in db0.products ==> db.products[p].stock <= db0.products[p].stock
    decreases |log|
  {
    if log != [] {
      var n := |log| - 1;
      OrdersTakeStock(reqs, db0, log[..n]);
      EventTakesStock(reqs, Replay(db0, reqs, log[..n]), log[n]);
    }
  }

  lemma EventTakesStock(reqs: Requests, db: Database, e: Event)
    requires forall t :: t in reqs ==> reqs[t].Create?
    ensures var db' := ApplyEvent(db, reqs, e);
            && db'.products.Keys == db.products.Keys
            && forall p :: p in db.products ==> db'.products[p].stock <= db.products[p].stock
  {
    if e.Ended? && e.t in reqs && Apply(db, reqs[e.t]).1.Success? {
      CreateEffect(db, reqs[e.t]);
      var o := Apply(db, reqs[e.t]).1.value;
      forall p | p in db.products ensures Units(o.items, p) >= 0 {
        forall i | 0 <= i < |o.items| ensures o.items[i].quantity > 0 { assert ItemOk(db, o.items[i]); }
        UnitsNonNegative(o.items, p);
      }
    }
  }

  // ----- from a deadlock to hold and wait

  /** A good request whose sums do not wrap around. */
  ghost predicate NoOverflow(req: Request) {
    req.Create? && (HasBadQuantity(req.lines) || !HasBadQuantity(MergeOf(req.lines)))
  }

  ghost predicate AllOrders(reqs: Requests) {
    forall t :: t in reqs ==> NoOverflow(reqs[t])
  }

  function LinesTaken(req: Request, s: TxState): int
    requires req.Create?
  {
    if s.Running? && s.progress.Reserving? then |MergeOf(req.lines)| - |s.progress.todo| else 0
  }

  lemma ReachedProgressed(req: Request, db: Database, s: TxState)
    requires req.Create? && Reached(req, db, s)
    ensures Progressed(req, db, s)
  {
    var k: nat :| Iterate(req, db, k) == s;
    IterateProgressed(req, db, k);
  }

  lemma OwnRowIsNotBlocked(w: World, t: Tid, r: Row)
    requires LocksExact(w) && t in w.txs && r in Owned(w.txs[t])
    ensures r in w.locks && w.locks[r] == t
  {}

  /** A waiting order stands before a line, and waits for the product of that line. */
  lemma WaitingBeforeLine(reqs: Requests, w: World, t: Tid)
    requires Inv(reqs, w) && Waiting(reqs, w, t) && reqs[t].Create?
    ensures w.txs[t].progress.Reserving? && w.txs[t].progress.todo != []
  {
    var s := w.txs[t];
    assert TxOk(reqs[t], w.db, s);
    ReachedProgressed(reqs[t], w.db, s);
    ReachedCoherent(reqs[t], w.db, s);
    if s.progress.Charging? {
      OwnRowIsNotBlocked(w, t, ProductKey(Parse(s.progress.todo[0].productId).value));
    }
  }

  lemma TakenIsReachable(req: Request, db: Database, db0: Database, n: nat, items: seq<OrderItem>, mine: Database)
    requires NoOverflow(req) && MoreStock(db, db0) && HasTaken(req, db, n, items, mine)
    requires n < |MergeOf(req.lines)| && FindProduct(db, MergeOf(req.lines)[n].productId).Some?
    ensures CanReach(req, db0, n)
  {
    var lines := MergeOf(req.lines);
    ReserveOutcome(db, lines[..n], []);
    assert !HasBadQuantity(lines[..n]) by {
      forall i | 0 <= i < n ensures lines[..n][i].quantity > 0 { assert lines[i].quantity > 0; }
    }
    RefusedFromMore(db, db0, lines[..n]);
  }

  /** What a waiting order holds and waits for. */
  ghost predicate WaitsThere(reqs: Requests, w: World, db0: Database, t: Tid, n: nat) {
    && t in reqs && Waiting(reqs, w, t) && CanReach(reqs[t], db0, n)
    && Owned(w.txs[t]) == ProductKeys(Held(reqs[t], n))
    && Awaited(reqs[t], n).Some? && Wanted(reqs, w, t) == ProductKey(Awaited(reqs[t], n).value)
  }

  lemma ProgressedIsThere(req: Request, db: Database, s: TxState, db0: Database, n: nat)
    requires Progressed(req, db, s) && s.Running? && s.progress.Reserving? && s.progress.todo != []
    requires NoOverflow(req) && MoreStock(db, db0) && n == LinesTaken(req, s)
    requires FindProduct(db, s.progress.todo[0].productId).Some?
    ensures CanReach(req, db0, n) && Owned(s) == ProductKeys(Held(req, n))
    ensures Awaited(req, n) == Parse(s.progress.todo[0].productId)
  {
    TakenIsReachable(req, db, db0, n, s.progress.items, s.mine);
    assert Rows(s.mine) == ProductKeys(s.mine.products.Keys);
  }

  lemma WaitedProductExists(reqs: Requests, w: World, t: Tid)
    requires Waiting(reqs, w, t) && w.txs[t].progress.Reserving? && w.txs[t].progress.todo != []
    ensures FindProduct(w.db, w.txs[t].progress.todo[0].productId).Some?
    ensures Wanted(reqs, w, t) == ProductKey(Parse(w.txs[t].progress.todo[0].productId).value)
  {}

  lemma WaitingIsThere(reqs: Requests, w: World, db0: Database, t: Tid)
    requires Inv(reqs, w) && Waiting(reqs, w, t) && NoOverflow(reqs[t]) && MoreStock(w.db, db0)
    ensures LinesTaken(reqs[t], w.txs[t]) >= 0
    ensures WaitsThere(reqs, w, db0, t, LinesTaken(reqs[t], w.txs[t]))
  {
    var s := w.txs[t];
    assert TxOk(reqs[t], w.db, s);
    WaitingBeforeLine(reqs, w, t);
    ReachedProgressed(reqs[t], w.db, s);
    WaitedProductExists(reqs, w, t);
    ProgressedIsThere(reqs[t], w.db, s, db0, LinesTaken(reqs[t], s));
  }

  lemma OwnersDiffer(reqs: Requests, w: World, db0: Database, t: Tid, n: nat, u: Tid, m: nat)
    requires LocksExact(w) && t != u && WaitsThere(reqs, w, db0, t, n) && WaitsThere(reqs, w, db0, u, m)
    ensures Held(reqs[t], n) !! Held(reqs[u], m)
  {
    forall p | p in Held(reqs[t], n) ensures p !in Held(reqs[u], m) {
      assert ProductKey(p) in Owned(w.txs[t]);
      OneOwner(w, t, u, ProductKey(p));
    }
  }

  lemma OwnerHolds(reqs: Requests, w: World, db0: Database, t: Tid, n: nat, u: Tid, m: nat)
    requires LocksExact(w) && WaitsThere(reqs, w, db0, t, n) && WaitsThere(reqs, w, db0, u, m)
    requires w.locks[Wanted(reqs, w, t)] == u
    ensures u != t && Awaited(reqs[t], n).value in Held(reqs[u], m)
  {
    LockOwned(w, Wanted(reqs, w, t));
  }

  /** Where everybody unfinished stands. */
  ghost function Standing(reqs: Requests, w: World): map<Tid, nat>
    requires AllOrders(reqs)
  {
    map t | t in reqs && t in w.txs && Unfinished(w.txs[t]) && LinesTaken(reqs[t], w.txs[t]) >= 0 :: LinesTaken(reqs[t], w.txs[t])
  }

  lemma StandingThere(reqs: Requests, w: World, db0: Database, t: Tid)
    requires Inv(reqs, w) && NobodyMoves(reqs, w) && MoreStock(w.db, db0)
    requires AllOrders(reqs)
    requires t in w.txs && Unfinished(w.txs[t])
    ensures t in Standing(reqs, w) && WaitsThere(reqs, w, db0, t, Standing(reqs, w)[t])
  {
    assert !CanMove(reqs, w, t);
    WaitingIsThere(reqs, w, db0, t);
  }

  lemma StandingWaits(reqs: Requests, w: World, db0: Database, t: Tid) returns (u: Tid)
    requires Inv(reqs, w) && NobodyMoves(reqs, w) && MoreStock(w.db, db0)
    requires AllOrders(reqs)
    requires t in Standing(reqs, w)
    ensures u in Standing(reqs, w) && u != t
    ensures WaitsThere(reqs, w, db0, t, Standing(reqs, w)[t]) && WaitsThere(reqs, w, db0, u, Standing(reqs, w)[u])
    ensures Awaited(reqs[t], Standing(reqs, w)[t]).value in Held(reqs[u], Standing(reqs, w)[u])
  {
    StandingThere(reqs, w, db0, t);
    u := w.locks[Wanted(reqs, w, t)];
    LockOwned(w, Wanted(reqs, w, t));
    StandingThere(reqs, w, db0, u);
    OwnerHolds(reqs, w, db0, t, Standing(reqs, w)[t], u, Standing(reqs, w)[u]);
  }

  /** Everybody in at waits where at says. */
  ghost predicate AllThere(reqs: Requests, w: World, db0: Database, at: map<Tid, nat>) {
    at.Keys <= reqs.Keys && forall t :: t in at ==> WaitsThere(reqs, w, db0, t, at[t])
  }

  lemma AllReach(reqs: Requests, w: World, db0: Database, at: map<Tid, nat>)
    requires AllThere(reqs, w, db0, at)
    ensures forall t :: t in at ==> CanReach(reqs[t], db0, at[t])
  {
    forall t | t in at ensures CanReach(reqs[t], db0, at[t]) { assert WaitsThere(reqs, w, db0, t, at[t]); }
  }

  lemma AllApart(reqs: Requests, w: World, db0: Database, at: map<Tid, nat>)
    requires LocksExact(w) && AllThere(reqs, w, db0, at)
    ensures forall t, u :: t in at && u in at && t != u ==> Apart(reqs, at, t, u)
  {
    forall t, u | t in at && u in at && t != u ensures Apart(reqs, at, t, u) {
      OwnersDiffer(reqs, w, db0, t, at[t], u, at[u]);
    }
  }

  lemma AllWait(reqs: Requests, w: World, db0: Database, at: map<Tid, nat>)
    requires Inv(reqs, w) && NobodyMoves(reqs, w) && MoreStock(w.db, db0) && AllOrders(reqs)
    requires at == Standing(reqs, w) && at.Keys <= reqs.Keys
    ensures forall t :: t in at ==> WaitsForOther(reqs, at, t)
  {
    forall t | t in at ensures WaitsForOther(reqs, at, t) {
      var u := StandingWaits(reqs, w, db0, t);
      assert WaitsFor(reqs, at, t, u);
    }
  }

  lemma StandingAllThere(reqs: Requests, w: World, db0: Database, at: map<Tid, nat>)
    requires Inv(reqs, w) && Deadlocked(reqs, w) && MoreStock(w.db, db0) && AllOrders(reqs)
    requires at == Standing(reqs, w)
    ensures at != map[] && AllThere(reqs, w, db0, at)
  {
    var t :| t in w.txs && Unfinished(w.txs[t]);
    StandingThere(reqs, w, db0, t);
    forall u | u in at ensures WaitsThere(reqs, w, db0, u, at[u]) { StandingThere(reqs, w, db0, u); }
  }

  lemma DeadlockedHoldAndWait(reqs: Requests, w: World, db0: Database)
    requires Inv(reqs, w) && Deadlocked(reqs, w) && MoreStock(w.db, db0)
    requires AllOrders(reqs)
    ensures HoldAndWait(reqs, db0, Standing(reqs, w))
  {
    var at := Standing(reqs, w);
    StandingAllThere(reqs, w, db0, at);
    AllReach(reqs, w, db0, at);
    AllApart(reqs, w, db0, at);
    AllWait(reqs, w, db0, at);
  }

  /** Any set of orders whose sums do not overflow can deadlock if and only if some of them can hold and
      wait: a condition on the requests and the stock before anything runs. */
  lemma DeadlockIffHoldAndWait(reqs: Requests, w: World)
    requires Initial(reqs, w) && Healthy(w.db) && AllOrders(reqs)
    ensures CanDeadlock(reqs, w) <==> exists at :: HoldAndWait(reqs, w.db, at)
  {
    if CanDeadlock(reqs, w) {
      var actions, w' :| Run(reqs, w, actions, w') && Deadlocked(reqs, w');
      RunsAreSerial(reqs, w, actions, w');
      OrdersTakeStock(reqs, w.db, w'.log);
      forall p | p in w.db.products ensures w.db.products[p].stock <= INT32_MAX { assert ProductOk(w.db.products[p]); }
      DeadlockedHoldAndWait(reqs, w', w.db);
      assert HoldAndWait(reqs, w.db, Standing(reqs, w'));
    }
    if at :| HoldAndWait(reqs, w.db, at) {
      HoldAndWaitDeadlocks(reqs, w, at);
    }
  }
}
