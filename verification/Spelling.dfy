/** What goes wrong without canonical ids: deadlocks between orders, orders refused or changed, and lost
    stock. */
module Spelling {
  import opened Basics
  import opened Uuid
  import opened Domain
  import opened Merge
  import opened Repository
  import opened Orders
  import opened Machine
  import opened World
  import opened Conservation
  import opened Outcome
  import opened RoundTrip
  import opened Deadlock
  import opened Cycle

  lemma ClimbingNeverDeadlocks(reqs: Requests, w: World)
    requires Initial(reqs, w) && forall t :: t in reqs ==> LocksInOrder(reqs[t])
    ensures !CanDeadlock(reqs, w)
  {
    if CanDeadlock(reqs, w) {
      var actions, w' :| Run(reqs, w, actions, w') && Deadlocked(reqs, w');
      var t :| t in w'.txs && Unfinished(w'.txs[t]);
      NoDeadlock(reqs, w, actions, w', t);
    }
  }

  // ----- where a list stops climbing

  /** The lines up to n name products, and line n names p, which is not held by then while a greater
      h is. */
  ghost predicate Drops(held: set<Uuid>, todo: seq<Line>, n: nat, p: Uuid, h: Uuid) {
    && n < |todo| && (forall i :: 0 <= i < n ==> Parse(todo[i].productId).Some?)
    && Parse(todo[n].productId) == Some(p)
    && p !in held + Ids(todo[..n]) && h in held + Ids(todo[..n]) && p < h
  }

  lemma DropsCons(held: set<Uuid>, todo: seq<Line>, n: nat, p: Uuid, h: Uuid)
    requires todo != [] && Parse(todo[0].productId).Some?
    requires Drops(held + {Parse(todo[0].productId).value}, todo[1..], n, p, h)
    ensures Drops(held, todo, n + 1, p, h)
  {
    assert todo[..n + 1][0] == todo[0] && todo[..n + 1][1..] == todo[1..][..n];
    forall i | 0 <= i < n + 1 ensures Parse(todo[i].productId).Some? {
      if i > 0 { assert todo[1..][i - 1] == todo[i]; }
    }
  }

  lemma {:induction false} FindDrop(held: set<Uuid>, todo: seq<Line>) returns (n: nat, p: Uuid, h: Uuid)
    requires !Climbs(held, todo)
    ensures Drops(held, todo, n, p, h)
    decreases |todo|
  {
    var first := Parse(todo[0].productId).value;
    if first in held || IsAbove(held, first) {
      n, p, h := FindDrop(held + {first}, todo[1..]);
      DropsCons(held, todo, n, p, h);
      n := n + 1;
    } else {
      n, p := 0, first;
      h :| h in held && h >= first;
      assert todo[..0] == [];
    }
  }

  // ----- an order that drops, and one that does not

  /** The canonical request for one unit each of two products. */
  ghost predicate Pair(req: Request, p: Uuid, h: Uuid) {
    req.Create? && req.lines == [Line(Format(p), 1), Line(Format(h), 1)]
  }

  lemma PairMerged(req: Request, p: Uuid, h: Uuid)
    requires Pair(req, p, h) && p < h
    ensures MergeOf(req.lines) == req.lines && !HasBadQuantity(req.lines)
  {
    TextOrderIsValueOrder(p, h);
    AscendingIsMerged(req.lines);
  }

  lemma OneRefusal(db: Database, line: Line)
    requires line.quantity == 1 && FindProduct(db, line.productId).Some?
    requires 1 <= db.products[FindProduct(db, line.productId).value].stock <= INT32_MAX
    ensures FirstRefusal(db, [line]).None?
  {
    assert [line][..0] == [] && FirstRefusal(db, []) == None;
  }

  lemma IdsOne(line: Line, p: Uuid)
    requires Parse(line.productId) == Some(p)
    ensures Ids([line]) == {p}
  {
    assert [line][1..] == [] && Ids([]) == {};
  }

  /** The canonical pair takes p and then waits for h. */
  lemma PairReaches(req: Request, db: Database, p: Uuid, h: Uuid)
    requires Pair(req, p, h) && p < h
    requires p in db.products && h in db.products && 1 <= db.products[p].stock <= INT32_MAX
    ensures CanReach(req, db, 1) && Held(req, 1) == {p} && Awaited(req, 1) == Some(h)
  {
    var lines := req.lines;
    PairMerged(req, p, h);
    ParseFormat(p);
    ParseFormat(h);
    assert lines[..1] == [lines[0]];
    IdsOne(lines[0], p);
    OneRefusal(db, lines[0]);
  }

  lemma DropHoldsAndWaits(reqs: Requests, db: Database, at: map<Tid, nat>, t: Tid, u: Tid, p: Uuid, h: Uuid)
    requires t in reqs && u in reqs && t != u && at.Keys == {t, u} && at[u] == 1
    requires CanReach(reqs[t], db, at[t]) && Drops({}, MergeOf(reqs[t].lines), at[t], p, h)
    requires CanReach(reqs[u], db, 1) && Awaited(reqs[u], 1) == Some(h) && Held(reqs[u], 1) == {p}
    ensures HoldAndWait(reqs, db, at)
  {
    assert {} + Ids(MergeOf(reqs[t].lines)[..at[t]]) == Held(reqs[t], at[t]);
    TwoHoldAndWait(reqs, db, at, t, u);
  }

  /** An order that drops from h to p can deadlock with the canonical order of p and h, in whatever
      company. */
  lemma DropDeadlocks(reqs: Requests, w: World, t: Tid, u: Tid, n: nat, p: Uuid, h: Uuid)
    requires Initial(reqs, w) && Healthy(w.db) && t in reqs && u in reqs && t != u
    requires CanReach(reqs[t], w.db, n) && Drops({}, MergeOf(reqs[t].lines), n, p, h)
    requires Pair(reqs[u], p, h) && h in w.db.products && 1 <= w.db.products[p].stock
    ensures CanDeadlock(reqs, w)
  {
    var at := TwoAt(t, n, u);
    DropMeetsPair(reqs, w.db, at, t, u, p, h);
    HoldAndWaitDeadlocks(reqs, w, at);
  }

  lemma TwoAt(t: Tid, n: nat, u: Tid) returns (at: map<Tid, nat>)
    requires t != u
    ensures at.Keys == {t, u} && at[t] == n && at[u] == 1
  {
    at := map[t := n, u := 1];
  }

  lemma DropMeetsPair(reqs: Requests, db: Database, at: map<Tid, nat>, t: Tid, u: Tid, p: Uuid, h: Uuid)
    requires Healthy(db) && t in reqs && u in reqs && t != u && at.Keys == {t, u} && at[u] == 1
    requires CanReach(reqs[t], db, at[t]) && Drops({}, MergeOf(reqs[t].lines), at[t], p, h)
    requires Pair(reqs[u], p, h) && h in db.products && 1 <= db.products[p].stock
    ensures HoldAndWait(reqs, db, at)
  {
    assert ProductOk(db.products[p]);
    PairReaches(reqs[u], db, p, h);
    DropHoldsAndWaits(reqs, db, at, t, u, p, h);
  }

  lemma TwoHoldAndWait(reqs: Requests, db: Database, at: map<Tid, nat>, t: Tid, u: Tid)
    requires t in reqs && u in reqs && t != u && at.Keys == {t, u}
    requires CanReach(reqs[t], db, at[t]) && CanReach(reqs[u], db, at[u])
    requires Apart(reqs, at, t, u) && WaitsFor(reqs, at, t, u) && WaitsFor(reqs, at, u, t)
    ensures HoldAndWait(reqs, db, at)
  {
    assert WaitsForOther(reqs, at, t) && WaitsForOther(reqs, at, u);
    assert Apart(reqs, at, u, t);
    assert forall x :: x in at ==> x == t || x == u;
  }

  lemma {:induction false} IdsMember(todo: seq<Line>, h: Uuid) returns (i: nat)
    requires h in Ids(todo)
    ensures i < |todo| && Parse(todo[i].productId) == Some(h)
  {
    if Parse(todo[0].productId) == Some(h) {
      i := 0;
    } else {
      i := IdsMember(todo[1..], h);
      i := i + 1;
    }
  }

  // ----- exactly which lists of products are safe

  ghost predicate SameTexts(lines: seq<Line>, other: seq<Line>) {
    forall id :: Mentions(lines, id) <==> Mentions(other, id)
  }

  /** Clients of a database of which one orders the given products, in whatever quantities, and all
      the others spell theirs canonically. */
  ghost predicate Company(reqs: Requests, w: World, db: Database, lines: seq<Line>) {
    && Initial(reqs, w) && w.db == db
    && 0 in reqs && reqs[0].Create? && SameTexts(reqs[0].lines, lines)
    && OthersCanonical(reqs)
  }

  ghost predicate DeadlockProne(db: Database, lines: seq<Line>) {
    exists reqs, w :: Company(reqs, w, db, lines) && CanDeadlock(reqs, w)
  }

  /** One unit of each text. */
  function OneEach(todo: seq<Line>): (r: seq<Line>)
    ensures |r| == |todo| && forall i :: 0 <= i < |todo| ==> r[i] == Line(todo[i].productId, 1)
  {
    seq(|todo|, i requires 0 <= i < |todo| => Line(todo[i].productId, 1))
  }

  lemma OneEachMentions(todo: seq<Line>)
    ensures SameTexts(OneEach(todo), todo)
  {
    forall id ensures Mentions(OneEach(todo), id) <==> Mentions(todo, id) {
      if Mentions(todo, id) {
        var i :| 0 <= i < |todo| && todo[i].productId == id;
        assert OneEach(todo)[i].productId == id;
      }
    }
  }

  /** Quantities do not matter to climbing. */
  lemma {:induction false} ClimbsByTexts(held: set<Uuid>, a: seq<Line>, b: seq<Line>)
    requires OneEach(a) == OneEach(b)
    ensures Climbs(held, a) <==> Climbs(held, b)
    decreases |a|
  {
    assert |a| == |b|;
    if a != [] && Parse(a[0].productId).Some? {
      assert OneEach(a)[0] == OneEach(b)[0];
      assert OneEach(a[1..]) == OneEach(a)[1..] && OneEach(b[1..]) == OneEach(b)[1..];
      ClimbsByTexts(held + {Parse(a[0].productId).value}, a[1..], b[1..]);
    } else if a != [] {
      assert OneEach(a)[0] == OneEach(b)[0];
    }
  }

  lemma OneEachAscends(todo: seq<Line>)
    requires Ascending(todo)
    ensures Ascending(OneEach(todo))
  {}

  /** Requests for the same texts lock the same products in the same order. */
  lemma SameTextsMerge(lines: seq<Line>, other: seq<Line>)
    requires SameTexts(lines, other)
    ensures OneEach(MergeOf(lines)) == OneEach(MergeOf(other))
  {
    var a, b := OneEach(MergeOf(lines)), OneEach(MergeOf(other));
    MergeFacts(lines);
    MergeFacts(other);
    OneEachAscends(MergeOf(lines));
    OneEachAscends(MergeOf(other));
    OneEachMentions(MergeOf(lines));
    OneEachMentions(MergeOf(other));
    forall l | l in a ensures l in b { assert Mentions(a, l.productId); }
    forall l | l in b ensures l in a { assert Mentions(b, l.productId); }
    AscendingUnique(a, b);
  }

  /** The merged list with one unit of each text is its own merge, names the same texts and climbs as
      the merged list does. */
  lemma OneEachMerged(lines: seq<Line>)
    ensures var todo := OneEach(MergeOf(lines));
            MergeOf(todo) == todo && SameTexts(todo, lines) && (Climbs({}, todo) <==> Climbs({}, MergeOf(lines)))
  {
    var todo := OneEach(MergeOf(lines));
    MergeFacts(lines);
    OneEachAscends(MergeOf(lines));
    OneEachMentions(MergeOf(lines));
    AscendingIsMerged(todo);
    assert OneEach(todo) == todo;
    ClimbsByTexts({}, todo, MergeOf(lines));
  }

  /** There are as many units of each product as lines that name it. */
  ghost predicate Stocked(db: Database, todo: seq<Line>) {
    forall l :: l in todo && Parse(l.productId).Some? ==>
                  var p := Parse(l.productId).value;
                  p in db.products && Asked(OneEach(todo), p) <= db.products[p].stock
  }

  lemma {:induction false} AskedPrefix(todo: seq<Line>, n: nat, p: Uuid)
    requires n <= |todo| && forall l :: l in todo ==> l.quantity == 1
    ensures 0 <= Asked(todo[..n], p) <= Asked(todo, p)
    decreases |todo|
  {
    if n == |todo| {
      assert todo[..n] == todo;
      if todo != [] { AskedPrefix(todo[..n - 1], n - 1, p); }
    } else {
      var m := |todo| - 1;
      assert todo[..m][..n] == todo[..n] && todo[m] in todo;
      AskedPrefix(todo[..m], n, p);
    }
  }

  lemma GoodQuantities(todo: seq<Line>)
    ensures !HasBadQuantity(OneEach(todo)) && forall l :: l in OneEach(todo) ==> l.quantity == 1
  {}

  /** A product is left for the next line. */
  lemma LeftForNext(todo: seq<Line>, i: nat, p: Uuid)
    requires i < |todo| && Parse(todo[i].productId) == Some(p)
    ensures 0 <= Asked(OneEach(todo)[..i], p) < Asked(OneEach(todo), p)
  {
    var each := OneEach(todo);
    GoodQuantities(todo);
    AskedPrefix(each, i + 1, p);
    AskedPrefix(each, i, p);
    assert each[..i + 1][..i] == each[..i] && each[..i + 1][i] == each[i];
  }

  lemma NextIsTaken(db: Database, todo: seq<Line>, i: nat)
    requires Healthy(db) && Stocked(db, todo) && i < |todo| && Parse(todo[i].productId).Some?
    ensures FindProduct(db, todo[i].productId).Some? && 1 <= db.products[Parse(todo[i].productId).value].stock
    ensures Refusal(db, OneEach(todo)[..i], OneEach(todo)[i]).None?
  {
    var p := Parse(todo[i].productId).value;
    assert todo[i] in todo;
    LeftForNext(todo, i, p);
    assert ProductOk(db.products[p]);
  }

  /** One unit of each text up to the drop can be taken. */
  lemma DropReaches(db: Database, todo: seq<Line>, req: Request, n: nat, p: Uuid, h: Uuid)
    requires Healthy(db) && Stocked(db, todo) && Drops({}, todo, n, p, h)
    requires req.Create? && req.lines == OneEach(todo) == MergeOf(req.lines)
    ensures CanReach(req, db, n) && h in db.products && 1 <= db.products[p].stock
  {
    var each := OneEach(todo);
    GoodQuantities(todo);
    forall i | 0 <= i < n ensures Refusal(db, each[..n][..i], each[..n][i]).None? {
      NextIsTaken(db, todo, i);
      assert each[..n][..i] == each[..i];
    }
    NoRefusalIfNone(db, each[..n]);
    NextIsTaken(db, todo, n);
    var k := IdsMember(todo[..n], h);
    NextIsTaken(db, todo, k);
  }

  lemma {:induction false} IdsByTexts(a: seq<Line>, b: seq<Line>)
    requires OneEach(a) == OneEach(b)
    ensures Ids(a) == Ids(b)
  {
    assert |a| == |b|;
    if a != [] {
      assert OneEach(a)[0] == OneEach(b)[0];
      assert OneEach(a[1..]) == OneEach(a)[1..] && OneEach(b[1..]) == OneEach(b)[1..];
      IdsByTexts(a[1..], b[1..]);
    }
  }

  lemma DropsByTexts(todo: seq<Line>, n: nat, p: Uuid, h: Uuid)
    requires Drops({}, todo, n, p, h)
    ensures Drops({}, OneEach(todo), n, p, h)
  {
    assert OneEach(OneEach(todo)[..n]) == OneEach(todo[..n]);
    IdsByTexts(OneEach(todo)[..n], todo[..n]);
    forall i | 0 <= i < n ensures Parse(OneEach(todo)[i].productId).Some? {}
  }

  lemma PairIsCanonical(req: Request, p: Uuid, h: Uuid)
    requires Pair(req, p, h)
    ensures SpelledCanonically(req)
  {
    ParseFormat(p);
    ParseFormat(h);
  }

  ghost predicate OthersCanonical(reqs: Requests) {
    forall t :: t in reqs && t != 0 ==> SpelledCanonically(reqs[t])
  }

  lemma OnlyOtherIsCanonical(reqs: Requests)
    requires reqs.Keys == {0, 1} && SpelledCanonically(reqs[1])
    ensures OthersCanonical(reqs)
  {
    forall t | t in reqs && t != 0 ensures SpelledCanonically(reqs[t]) { assert t == 1; }
  }

  ghost function AtStart(db: Database, reqs: Requests): World {
    World(db, map[], map t | t in reqs :: INITIAL, [])
  }

  lemma StartIsInitial(db: Database, reqs: Requests)
    requires reqs.Keys == {0, 1} && reqs[0].Create? && reqs[1].Create?
    requires reqs[0].newId !in db.orders && reqs[1].newId !in db.orders && reqs[0].newId != reqs[1].newId
    ensures Initial(reqs, AtStart(db, reqs)) && AtStart(db, reqs).db == db
  {}

  lemma TwoIsProne(db: Database, lines: seq<Line>, reqs: Requests, n: nat, p: Uuid, h: Uuid)
    requires Healthy(db) && reqs.Keys == {0, 1} && reqs[0].Create? && Pair(reqs[1], p, h)
    requires reqs[0].newId !in db.orders && reqs[1].newId !in db.orders && reqs[0].newId != reqs[1].newId
    requires reqs[0].lines == OneEach(MergeOf(lines)) && Stocked(db, MergeOf(lines))
    requires Drops({}, MergeOf(lines), n, p, h)
    ensures DeadlockProne(db, lines)
  {
    var w := AtStart(db, reqs);
    StartIsInitial(db, reqs);
    OneEachMerged(lines);
    DropReaches(db, MergeOf(lines), reqs[0], n, p, h);
    DropsByTexts(MergeOf(lines), n, p, h);
    PairIsCanonical(reqs[1], p, h);
    OnlyOtherIsCanonical(reqs);
    DropDeadlocks(reqs, w, 0, 1, n, p, h);
    assert Company(reqs, w, db, lines);
  }

  ghost function Two(first: Request, second: Request): (reqs: Requests)
    ensures reqs.Keys == {0, 1} && reqs[0] == first && reqs[1] == second
  {
    map[0 := first, 1 := second]
  }

  /** A company in which one order of the given products meets one canonical order. */
  lemma DropIsProne(db: Database, lines: seq<Line>, id: Uuid, other: Uuid)
    requires Healthy(db) && id !in db.orders && other !in db.orders && id != other
    requires Stocked(db, MergeOf(lines)) && !Climbs({}, MergeOf(lines))
    ensures DeadlockProne(db, lines)
  {
    var n, p, h := FindDrop({}, MergeOf(lines));
    var reqs := Two(Create(0, OneEach(MergeOf(lines)), id, 0),
                    Create(0, [Line(Format(p), 1), Line(Format(h), 1)], other, 0));
    TwoIsProne(db, lines, reqs, n, p, h);
  }

  lemma CompanyClimbs(db: Database, lines: seq<Line>, reqs: Requests, w: World, t: Tid)
    requires Climbs({}, MergeOf(lines)) && Company(reqs, w, db, lines) && t in reqs
    ensures LocksInOrder(reqs[t])
  {
    if t == 0 {
      SameTextsMerge(reqs[0].lines, lines);
      ClimbsByTexts({}, MergeOf(reqs[0].lines), MergeOf(lines));
    } else {
      CanonicalLocksInOrder(reqs[t]);
    }
  }

  /** Over any catalogue with a unit for each line, ordering the given products can deadlock among
      canonical clients if and only if, in merged text order, some product not locked before comes
      after a greater one. */
  lemma DeadlockProneIff(db: Database, lines: seq<Line>, id: Uuid, other: Uuid)
    requires Healthy(db) && id !in db.orders && other !in db.orders && id != other
    requires Stocked(db, MergeOf(lines))
    ensures DeadlockProne(db, lines) <==> !Climbs({}, MergeOf(lines))
  {
    if Climbs({}, MergeOf(lines)) {
      forall reqs: Requests, w: World | Company(reqs, w, db, lines) ensures !CanDeadlock(reqs, w) {
        forall t | t in reqs ensures LocksInOrder(reqs[t]) { CompanyClimbs(db, lines, reqs, w, t); }
        ClimbingNeverDeadlocks(reqs, w);
      }
    } else {
      DropIsProne(db, lines, id, other);
    }
  }

  lemma InvertedPair(lines: seq<Line>, a: Uuid, b: Uuid)
    requires LeadsWithLetter(a) && LeadsWithLetter(b) && a < b
    requires lines == [Line(Upper(Format(b)), 1), Line(Format(a), 1)]
    ensures MergeOf(lines) == lines && lines[..1] == [lines[0]] && Drops({}, lines, 1, a, b)
  {
    UpperCaseInverts(a, b);
    ParseUpper(b);
    ParseFormat(a);
    AscendingIsMerged(lines);
    assert lines[..1] == [lines[0]];
    IdsOne(lines[0], b);
  }

  lemma InvertedReaches(req: Request, db: Database, a: Uuid, b: Uuid)
    requires LeadsWithLetter(a) && LeadsWithLetter(b) && a < b && Healthy(db)
    requires a in db.products && b in db.products && 1 <= db.products[b].stock
    requires req.Create? && req.lines == [Line(Upper(Format(b)), 1), Line(Format(a), 1)]
    ensures CanReach(req, db, 1) && Drops({}, MergeOf(req.lines), 1, a, b)
  {
    InvertedPair(req.lines, a, b);
    ParseUpper(b);
    ParseFormat(a);
    assert ProductOk(db.products[b]);
    OneRefusal(db, req.lines[0]);
  }

  /** The promise that one canonical order avoids deadlocks is false of upper-case ids: for any two
      products in stock whose ids lead with a letter, a client writing only the greater one in upper
      case reverses the merged order and can deadlock with one who does not. */
  lemma UpperCaseCanDeadlock(reqs: Requests, w: World, t: Tid, u: Tid, a: Uuid, b: Uuid)
    requires LeadsWithLetter(a) && LeadsWithLetter(b) && a < b
    requires Initial(reqs, w) && Healthy(w.db) && t in reqs && u in reqs && t != u
    requires a in w.db.products && b in w.db.products
    requires 1 <= w.db.products[a].stock && 1 <= w.db.products[b].stock
    requires reqs[t].Create? && reqs[t].lines == [Line(Upper(Format(b)), 1), Line(Format(a), 1)]
    requires Pair(reqs[u], a, b)
    ensures CanDeadlock(reqs, w)
  {
    InvertedReaches(reqs[t], w.db, a, b);
    DropDeadlocks(reqs, w, t, u, 1, a, b);
  }

  // ----- orders refused or changed

  /** Both lines of a doubled product can be taken. */
  lemma BothTaken(db: Database, lines: seq<Line>, p: Uuid)
    requires p in db.products && 2 <= db.products[p].stock <= INT32_MAX
    requires |lines| == 2 && forall i :: 0 <= i < 2 ==> Parse(lines[i].productId) == Some(p) && lines[i].quantity == 1
    ensures FirstRefusal(db, lines).None?
  {
    assert lines[..1] == [lines[0]] && [lines[0]][..0] == [] && lines[..0] == [];
    OneRefusal(db, lines[0]);
    assert Asked([], p) == 0 && Asked(lines[..1], p) == 1;
  }

  lemma SwappedMerge(lines: seq<Line>, other: seq<Line>)
    requires |lines| == 2 && Ascending(lines) && other == [lines[1], lines[0]]
    ensures MergeOf(other) == lines
  {
    assert lines == [lines[0], lines[1]];
    assert multiset(other) == multiset(lines);
    MergeIgnoresOrder(other, lines);
    AscendingIsMerged(lines);
  }

  /** A product written in two ways is refused with an internal error, however much of it there is. */
  lemma TwoSpellingsAreInternal(db: Database, req: Request, p: Uuid, x: string, y: string)
    requires req.Create? && ConstraintsHold(db) && p in db.products && db.products[p].stock >= 2
    requires Parse(x) == Some(p) && Parse(y) == Some(p) && LexLess(x, y)
    requires req.lines == [Line(x, 1), Line(y, 1)] || req.lines == [Line(y, 1), Line(x, 1)]
    ensures Apply(db, req).1 == Failure(Internal)
  {
    var lines := [Line(x, 1), Line(y, 1)];
    AscendingIsMerged(lines);
    SwappedMerge(lines, [Line(y, 1), Line(x, 1)]);
    assert ProductOk(db.products[p]);
    BothTaken(db, lines, p);
    assert !DistinctProducts(lines);
    CreateOutcome(db, req);
  }

  /** In particular writing it once canonically and once in upper case. */
  lemma DoubledSpellingIsInternal(db: Database, req: Request, p: Uuid)
    requires req.Create? && ConstraintsHold(db) && p in db.products && db.products[p].stock >= 2
    requires LeadsWithLetter(p) && req.lines == [Line(Format(p), 1), Line(Upper(Format(p)), 1)]
    ensures Apply(db, req).1 == Failure(Internal)
  {
    UpperCaseInverts(p, p);
    ParseUpper(p);
    ParseFormat(p);
    TwoSpellingsAreInternal(db, req, p, Upper(Format(p)), Format(p));
  }

  /** An order of one product in upper case is accepted, but does not load back as it was answered. */
  lemma UpperCaseReloadsDifferently(db: Database, req: Request, p: Uuid)
    requires req.Create? && ConstraintsHold(db) && p in db.products && db.products[p].stock >= 1
    requires req.user in db.users && req.newId !in db.orders
    requires LeadsWithLetter(p) && req.lines == [Line(Upper(Format(p)), 1)]
    ensures Apply(db, req).1.Success?
    ensures GetOrder(Apply(db, req).0, Apply(db, req).1.value.id) != Apply(db, req).1
  {
    var line := req.lines[0];
    UpperCaseInverts(p, p);
    ParseUpper(p);
    AscendingIsMerged(req.lines);
    assert ProductOk(db.products[p]);
    OneRefusal(db, line);
    assert req.lines == [line];
    CreateOutcome(db, req);
    CreateThenGet(db, req);
    assert line in req.lines && !Canonical(line.productId);
  }

  // ----- lost stock

  /** Cancelling under any other spelling of the id succeeds, answers without items, marks the order
      cancelled and gives nothing back: every item's product loses its units. */
  lemma MisspeltCancelLosesStock(db: Database, req: Request, k: Uuid, p: Uuid)
    requires req.Cancel? && Healthy(db) && Parse(req.orderId) == Some(k) && !Canonical(req.orderId)
    requires k in db.orders && db.orders[k].user == req.user && db.orders[k].status == Pending
    requires p in db.orders[k].items
    ensures var (db', answer) := Apply(db, req);
            && answer.Success? && answer.value.items == [] && answer.value.status == Cancelled
            && p in db.products && p in db'.products
            && Supply(db', p) == Supply(db, p) - db.orders[k].items[p].quantity < Supply(db, p)
  {
    TransitionOutcome(db, req);
    assert OrderRowOk(db, db.orders[k]);
    TransactionSupply(db, req, p);
  }
}
