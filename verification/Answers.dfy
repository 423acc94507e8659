/** What each use case answers and leaves in the tables, column by column. */
module Answers {
  import opened Basics
  import opened Uuid
  import opened Domain
  import opened Merge
  import opened Repository
  import opened Orders
  import opened Effects
  import opened Conservation
  import opened Outcome
  import opened RoundTrip

  // ----- the total as a sum over rows

  function PriceOf(item: Item): real {
    item.quantity as real * item.unitPrice
  }

  /** Quantity times price over all stored items, in any order. */
  ghost function Billed(stored: map<Uuid, Item>): real
    decreases |stored|
  {
    if stored == map[] then 0.0
    else
      var p :| p in stored;
      Smaller(stored, p);
      PriceOf(stored[p]) + Billed(stored - {p})
  }

  lemma Smaller(stored: map<Uuid, Item>, p: Uuid)
    requires p in stored
    ensures |stored - {p}| < |stored|
  {
    assert (stored - {p}).Keys == stored.Keys - {p};
    assert |stored| == |stored.Keys| && |stored - {p}| == |(stored - {p}).Keys|;
  }

  lemma WithoutBoth(stored: map<Uuid, Item>, p: Uuid, q: Uuid)
    ensures stored - {q} - {p} == stored - {p} - {q}
  {}

  /** Any item may be taken out of the sum first. */
  lemma {:induction false} BilledSplit(stored: map<Uuid, Item>, p: Uuid)
    requires p in stored
    ensures Billed(stored) == PriceOf(stored[p]) + Billed(stored - {p})
    decreases |stored|
  {
    var q :| q in stored && Billed(stored) == PriceOf(stored[q]) + Billed(stored - {q});
    if q != p {
      Smaller(stored, q);
      Smaller(stored, p);
      BilledSplit(stored - {q}, p);
      BilledSplit(stored - {p}, q);
      WithoutBoth(stored, p, q);
    }
  }

  lemma SortedKeysRest(s: set<Uuid>, p: Uuid, i: nat)
    requires s != {} && p == Least(s) && i < |SortedKeys(s - {p})|
    ensures |SortedKeys(s)| == |SortedKeys(s - {p})| + 1 && SortedKeys(s)[i + 1] == SortedKeys(s - {p})[i]
  {
    assert SortedKeys(s) == [p] + SortedKeys(s - {p});
  }

  lemma ListedAt(stored: map<Uuid, Item>, q: Uuid, i: nat)
    requires i < |SortedKeys(stored.Keys)| && SortedKeys(stored.Keys)[i] == q
    ensures q in stored && i < |ItemList(stored)|
    ensures ItemList(stored)[i] == OrderItem(Format(q), stored[q].quantity, stored[q].unitPrice)
  {
    ItemListAt(stored, i);
  }

  /** The item list of a table without its least product. */
  lemma ItemListRest(stored: map<Uuid, Item>, rest: map<Uuid, Item>, p: Uuid, i: nat)
    requires stored != map[] && p == Least(stored.Keys) && rest == stored - {p} && i < |ItemList(rest)|
    ensures i + 1 < |ItemList(stored)| && ItemList(stored)[i + 1] == ItemList(rest)[i]
  {
    assert rest.Keys == stored.Keys - {p};
    SortedKeysRest(stored.Keys, p, i);
    var q := SortedKeys(rest.Keys)[i];
    ListedAt(rest, q, i);
    ListedAt(stored, q, i + 1);
  }

  lemma ItemListFirst(stored: map<Uuid, Item>, p: Uuid)
    requires stored != map[] && p == Least(stored.Keys)
    ensures |ItemList(stored)| == |ItemList(stored - {p})| + 1 && ItemList(stored)[0] == ItemOf(stored, p)
  {
    assert (stored - {p}).Keys == stored.Keys - {p};
    ItemListAt(stored, 0);
  }

  /** The least product comes first in the item list. */
  lemma ItemListCons(stored: map<Uuid, Item>, p: Uuid)
    requires stored != map[] && p == Least(stored.Keys)
    ensures ItemList(stored) == [ItemOf(stored, p)] + ItemList(stored - {p})
  {
    var rest := ItemList(stored - {p});
    ItemListFirst(stored, p);
    forall i | 0 <= i < |rest| ensures ItemList(stored)[i + 1] == rest[i] { ItemListRest(stored, stored - {p}, p, i); }
    SameFrom(ItemList(stored), ItemOf(stored, p), rest);
  }

  lemma SameFrom(all: seq<OrderItem>, first: OrderItem, rest: seq<OrderItem>)
    requires |all| == |rest| + 1 && all[0] == first && forall i :: 0 <= i < |rest| ==> all[i + 1] == rest[i]
    ensures all == [first] + rest
  {
    assert forall i :: 1 <= i < |all| ==> all[i] == rest[i - 1] by {
      forall i | 1 <= i < |all| ensures all[i] == rest[i - 1] { assert all[(i - 1) + 1] == rest[i - 1]; }
    }
  }

  lemma ItemTotal(stored: map<Uuid, Item>, p: Uuid)
    requires p in stored
    ensures OrderTotal([ItemOf(stored, p)]) == PriceOf(stored[p])
  {
    OrderTotalOne(ItemOf(stored, p));
  }

  lemma {:induction false} ListedTotal(stored: map<Uuid, Item>)
    ensures OrderTotal(ItemList(stored)) == Billed(stored)
    decreases |stored|
  {
    if stored == map[] {
      assert ItemList(stored) == [];
    } else {
      var p := Least(stored.Keys);
      ItemListCons(stored, p);
      Smaller(stored, p);
      ListedTotal(stored - {p});
      BilledSplit(stored, p);
      OrderTotalConcat([ItemOf(stored, p)], ItemList(stored - {p}));
      ItemTotal(stored, p);
    }
  }

  // ----- create

  /** The answer of a successful Create and the row it stores: the generated id, the caller, the given
      time, pending, not cancelled, and the total of the stored items. */
  lemma CreateAnswer(db: Database, req: Request)
    requires req.Create? && Apply(db, req).1.Success?
    ensures var o := Apply(db, req).1.value;
            && o.id == Format(req.newId) && o.user == req.user && o.createdAt == req.now
            && o.status == Pending && o.cancelledAt == None
    ensures req.newId !in db.orders && req.newId in Apply(db, req).0.orders
    ensures var (o, row) := (Apply(db, req).1.value, Apply(db, req).0.orders[req.newId]);
            && row.user == req.user && row.createdAt == req.now && row.status == Pending && row.cancelledAt == None
            && o.total == row.total == Billed(row.items)
  {
    CreateEffect(db, req);
    var (o, row) := (Apply(db, req).1.value, Apply(db, req).0.orders[req.newId]);
    StoredTotal(row.items, o.items);
    ListedTotal(row.items);
  }

  /** The answered items: one for each requested text, in ascending text order, with the sum asked for and
      the price the product has. */
  lemma CreateAnswerItems(db: Database, req: Request)
    requires req.Create? && Apply(db, req).1.Success?
    ensures var items := Apply(db, req).1.value.items;
            && (forall i, j :: 0 <= i < j < |items| ==> LexLess(items[i].productId, items[j].productId))
            && (forall id :: Mentions(req.lines, id) <==> exists i :: 0 <= i < |items| && items[i].productId == id)
            && (forall i :: 0 <= i < |items| ==>
                              && items[i].quantity == Wrap64(Total(req.lines, items[i].productId))
                              && Parse(items[i].productId).Some? && Parse(items[i].productId).value in db.products
                              && items[i].unitPrice == db.products[Parse(items[i].productId).value].price)
  {
    var items, merged := Apply(db, req).1.value.items, MergeOf(req.lines);
    CreateEffect(db, req);
    CreatedItemsAscend(db, req, Apply(db, req).1.value);
    MergeFacts(req.lines);
    forall i | 0 <= i < |items|
      ensures items[i].productId == merged[i].productId
      ensures items[i].quantity == Wrap64(Total(req.lines, items[i].productId))
    {
      QuantityAt(merged, i);
    }
    forall id ensures Mentions(req.lines, id) <==> exists i :: 0 <= i < |items| && items[i].productId == id {
      assert Mentions(req.lines, id) <==> Mentions(merged, id);
      if Mentions(merged, id) {
        var i :| 0 <= i < |merged| && merged[i].productId == id;
        assert items[i].productId == id;
      }
      if i :| 0 <= i < |items| && items[i].productId == id {
        assert merged[i].productId == id;
      }
    }
  }

  /** The tables after a successful Create: each product has its stock less the stored quantity and is
      otherwise as before, and so are the users and all other orders. */
  lemma CreateTables(db: Database, req: Request)
    requires req.Create? && Apply(db, req).1.Success?
    ensures var after := Apply(db, req).0;
            && req.newId in after.orders && after.orders == db.orders[req.newId := after.orders[req.newId]]
            && after.users == db.users && after.products.Keys == db.products.Keys
            && forall p :: p in db.products ==>
                             var (before, stored) := (db.products[p], after.orders[req.newId].items);
                             after.products[p] == Product(before.name, before.price,
                                                          before.stock - if p in stored then stored[p].quantity else 0, before.createdAt)
  {
    CreateEffect(db, req);
    var after, o := Apply(db, req).0, Apply(db, req).1.value;
    forall p | p in db.products ensures Units(o.items, p) == StoredQuantity(after.orders[req.newId].items, p) {
      StoredUnits(after.orders[req.newId].items, o.items, p);
    }
  }

  /** The error answers of Create, each if and only if. A line is reached when the ones before it can be
      taken. */
  lemma CreateErrors(db: Database, req: Request)
    requires req.Create? && ConstraintsHold(db)
    ensures Apply(db, req).1 == Failure(EmptyOrder) <==> req.lines == []
    ensures (exists l :: l in req.lines && l.quantity <= 0) ==> Apply(db, req).1 == Failure(InvalidQuantity)
    ensures Apply(db, req).1 == Failure(ProductNotFound) <==>
            (forall l :: l in req.lines ==> l.quantity > 0) && exists i :: MissingAt(db, MergeOf(req.lines), i)
    ensures Apply(db, req).1.Failure? ==>
              Apply(db, req).1.error in {EmptyOrder, InvalidQuantity, ProductNotFound, InsufficientStock, Internal}
  {
    CreateOutcome(db, req);
    var lines := MergeOf(req.lines);
    QuantitiesChecked(req.lines);
    RefusalKinds(db, lines);
    assert MergeOf([]) == [];
    if Apply(db, req).1 == Failure(ProductNotFound) {
      var i := RefusedAt(db, lines);
      assert MissingAt(db, lines, i);
    }
    if i: nat :| MissingAt(db, lines, i) && forall l :: l in req.lines ==> l.quantity > 0 {
      RefusalExtends(db, lines, i);
      assert Apply(db, req).1 == Failure(ProductNotFound);
    }
  }

  /** Line i is reached and names no product. */
  ghost predicate MissingAt(db: Database, lines: seq<Line>, i: nat) {
    && i < |lines| && FirstRefusal(db, lines[..i]).None?
    && (Parse(lines[i].productId).None? || Parse(lines[i].productId).value !in db.products)
  }

  lemma QuantitiesChecked(lines: seq<Line>)
    ensures HasBadQuantity(lines) <==> exists l :: l in lines && l.quantity <= 0
  {
    if HasBadQuantity(lines) {
      var i :| 0 <= i < |lines| && lines[i].quantity <= 0;
      assert lines[i] in lines;
    }
  }

  lemma {:induction false} RefusalKinds(db: Database, lines: seq<Line>)
    ensures FirstRefusal(db, lines).Some? ==>
              FirstRefusal(db, lines).value in {ProductNotFound, InsufficientStock, Internal}
  {
    if lines != [] {
      RefusalKinds(db, lines[..|lines| - 1]);
    }
  }

  // ----- cancel and confirm

  /** The answer of a successful Cancel or Confirm: the stored order with its new status; a Cancel adds the
      given time, and answers with items exactly under the printed id. */
  lemma TransitionAnswer(db: Database, req: Request, k: Uuid)
    requires !req.Create? && Apply(db, req).1.Success? && Parse(req.orderId) == Some(k)
    ensures k in db.orders && db.orders[k].user == req.user && db.orders[k].status == Pending
    ensures var (row, o) := (db.orders[k], Apply(db, req).1.value);
            && o.id == Format(k) && o.user == row.user && o.total == row.total && o.createdAt == row.createdAt
            && o.status == (if req.Cancel? then Cancelled else Confirmed)
            && o.cancelledAt == (if req.Cancel? then Some(req.now) else row.cancelledAt)
            && o.items == if req.orderId == Format(k) then ItemList(row.items) else []
  {
    TransitionPending(db, req, k);
    TransitionValue(db, req, k);
    BodyAnswers(db, req, k);
  }

  lemma TransitionPending(db: Database, req: Request, k: Uuid)
    requires !req.Create? && Apply(db, req).1.Success? && Parse(req.orderId) == Some(k)
    ensures FindOrder(db, req.orderId) == Some(k) && db.orders[k].user == req.user && db.orders[k].status == Pending
  {
    TransitionRefused(db, req);
  }

  lemma BodyAnswers(db: Database, req: Request, k: Uuid)
    requires !req.Create? && Apply(db, req).1.Success? && FindOrder(db, req.orderId) == Some(k)
    ensures Apply(db, req).1 == Transition(req, Loaded(k, db.orders[k], req.orderId))
  {
    var o := Transition(req, Loaded(k, db.orders[k], req.orderId)).value;
    assert Body(db, req) == Settle(db, req, o, ToReturn(req, o));
  }

  /** The tables after a successful Confirm: one order is confirmed, without a cancellation time. */
  lemma ConfirmTables(db: Database, req: Request, k: Uuid)
    requires req.Confirm? && Apply(db, req).1.Success? && Parse(req.orderId) == Some(k)
    ensures k in db.orders
    ensures var row := db.orders[k];
            Apply(db, req).0
            == Database(db.users, db.products,
                        db.orders[k := OrderRow(row.user, row.total, Confirmed, row.createdAt, None, row.items)])
  {
    var k' := ConfirmEffect(db, req);
  }

  /** The tables after a successful Cancel: one order is cancelled at the given time, and under the printed
      id each product gets its stored quantity back. */
  lemma CancelTables(db: Database, req: Request, k: Uuid)
    requires req.Cancel? && Apply(db, req).1.Success? && Parse(req.orderId) == Some(k)
    ensures k in db.orders
    ensures var (after, row) := (Apply(db, req).0, db.orders[k]);
            && after.users == db.users
            && after.orders == db.orders[k := OrderRow(row.user, row.total, Cancelled, row.createdAt, Some(req.now), row.items)]
            && after.products.Keys == db.products.Keys
            && forall p :: p in db.products ==>
                             after.products[p] == GivenBack(db.products[p], if req.orderId == Format(k) && p in row.items
                                                            then row.items[p].quantity else 0)
  {
    var k' := CancelEffect(db, req);
    if req.orderId == Format(k) {
      ReturnedStock(db.products, db.orders[k].items);
    } else {
      ReturnedNothing(db.products);
    }
  }

  /** A product with some units more and nothing else changed. */
  ghost function GivenBack(p: Product, units: int): Product {
    Product(p.name, p.price, p.stock + units, p.createdAt)
  }

  lemma ReturnedNothing(products: map<Uuid, Product>)
    ensures AfterReturn(products, []) == products
  {}

  lemma ReturnedStock(products: map<Uuid, Product>, stored: map<Uuid, Item>)
    ensures AfterReturn(products, ItemList(stored)).Keys == products.Keys
    ensures forall p :: p in products ==>
                          AfterReturn(products, ItemList(stored))[p]
                          == GivenBack(products[p], if p in stored then stored[p].quantity else 0)
  {
    forall p | p in products
      ensures AfterReturn(products, ItemList(stored))[p] == GivenBack(products[p], if p in stored then stored[p].quantity else 0)
    {
      ReturnedUnits(products, stored, p);
    }
  }

  lemma ReturnedUnits(products: map<Uuid, Product>, stored: map<Uuid, Item>, p: Uuid)
    requires p in products
    ensures AfterReturn(products, ItemList(stored))[p] == GivenBack(products[p], if p in stored then stored[p].quantity else 0)
  {
    ItemListStores(stored);
    StoredUnits(stored, ItemList(stored), p);
  }

  lemma PendingIsNotCancelled(db: Database, k: Uuid)
    requires Healthy(db) && k in db.orders && db.orders[k].status == Pending
    ensures db.orders[k].cancelledAt == None
  {
    assert RowHealthy(db.orders[k]);
  }

  lemma TransitionedRow(db: Database, req: Request, k: Uuid)
    requires !req.Create? && Healthy(db) && Apply(db, req).1.Success? && Parse(req.orderId) == Some(k)
    ensures k in db.orders && k in Apply(db, req).0.orders
    ensures var row := db.orders[k];
            Apply(db, req).0.orders[k]
            == OrderRow(row.user, row.total, if req.Cancel? then Cancelled else Confirmed, row.createdAt,
                        if req.Cancel? then Some(req.now) else row.cancelledAt, row.items)
  {
    TransitionPending(db, req, k);
    PendingIsNotCancelled(db, k);
    if req.Cancel? { CancelTables(db, req, k); } else { ConfirmTables(db, req, k); }
  }

  /** What a Cancel or Confirm answers is what loading the order under the same text gives afterwards. */
  lemma TransitionThenGet(db: Database, req: Request)
    requires !req.Create? && Healthy(db) && Apply(db, req).1.Success?
    ensures GetOrder(Apply(db, req).0, req.orderId) == Apply(db, req).1
  {
    TransitionRefused(db, req);
    var k := FindOrder(db, req.orderId).value;
    TransitionAnswer(db, req, k);
    TransitionedRow(db, req, k);
    GetOrderOutcome(Apply(db, req).0, req.orderId);
  }
}
