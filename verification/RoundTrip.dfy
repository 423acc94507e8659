/** Loading back what Create stored. */
module RoundTrip {
  import opened Basics
  import opened Uuid
  import opened Domain
  import opened Merge
  import opened Repository
  import opened Orders
  import opened Effects
  import opened Conservation
  import opened Outcome

  /** Two strictly ascending lists of the same ids are the same list. */
  lemma {:induction false} AscendingKeysUnique(a: seq<Uuid>, b: seq<Uuid>)
    requires forall i, j :: 0 <= i < j < |a| ==> a[i] < a[j]
    requires forall i, j :: 0 <= i < j < |b| ==> b[i] < b[j]
    requires forall x :: x in a <==> x in b
    ensures a == b
  {
    assert a != [] ==> a[0] in b;
    assert b != [] ==> b[0] in a;
    if a != [] {
      assert a[0] == b[0];
      forall x ensures x in a[1..] <==> x in b[1..] {
        TailKeys(a, x);
        TailKeys(b, x);
      }
      AscendingKeysUnique(a[1..], b[1..]);
      assert a == [a[0]] + a[1..] && b == [b[0]] + b[1..];
    }
  }

  ghost predicate Ascends(keys: seq<Uuid>) {
    forall i, j :: 0 <= i < j < |keys| ==> keys[i] < keys[j]
  }

  ghost predicate Lists(keys: seq<Uuid>, s: set<Uuid>) {
    forall x: Uuid :: x in keys <==> x in s
  }

  /** An ascending list of exactly the ids of a set is the sorted list of the set. */
  lemma AscendingIsSorted(keys: seq<Uuid>, s: set<Uuid>)
    requires Ascends(keys) && Lists(keys, s)
    ensures keys == SortedKeys(s)
  {
    AscendingKeysUnique(keys, SortedKeys(s));
  }

  lemma TailKeys(a: seq<Uuid>, x: Uuid)
    requires a != [] && forall i, j :: 0 <= i < j < |a| ==> a[i] < a[j]
    ensures x in a[1..] <==> x in a && x != a[0]
  {
    if x in a && x != a[0] {
      var i :| 0 <= i < |a| && a[i] == x;
      assert a[1..][i - 1] == x;
    }
  }

  ghost predicate CanonicalItems(items: seq<OrderItem>) {
    forall i :: 0 <= i < |items| ==> Canonical(items[i].productId)
  }

  ghost predicate TextAscending(items: seq<OrderItem>) {
    forall i, j :: 0 <= i < j < |items| ==> LexLess(items[i].productId, items[j].productId)
  }

  /** The ids behind canonical product texts. */
  function Keys(items: seq<OrderItem>): (keys: seq<Uuid>)
    requires forall i :: 0 <= i < |items| ==> Parse(items[i].productId).Some?
    ensures |keys| == |items|
    ensures forall i :: 0 <= i < |items| ==> keys[i] == Parse(items[i].productId).value
  {
    seq(|items|, i requires 0 <= i < |items| => Parse(items[i].productId).value)
  }

  /** Text order of canonical ids is id order, so the bought items are already in query order. */
  lemma KeysAscend(items: seq<OrderItem>)
    requires CanonicalItems(items) && TextAscending(items)
    ensures Ascends(Keys(items))
  {
    var keys := Keys(items);
    forall i, j | 0 <= i < j < |keys| ensures keys[i] < keys[j] {
      assert LexLess(items[i].productId, items[j].productId);
      TextOrderIsValueOrder(keys[i], keys[j]);
    }
  }

  lemma SameKeys(stored: map<Uuid, Item>, items: seq<OrderItem>)
    requires Stores(stored, items)
    requires forall i :: 0 <= i < |items| ==> Parse(items[i].productId).Some?
    ensures Lists(Keys(items), stored.Keys)
  {
    var keys := Keys(items);
    forall p: Uuid ensures p in keys <==> p in stored.Keys {
      if p in keys {
        var i :| 0 <= i < |keys| && keys[i] == p;
        assert StoredAt(stored, items[i]);
      }
      if p in stored {
        assert Named(items, p);
        var i :| 0 <= i < |items| && Names(items[i], p);
        assert keys[i] == p;
      }
    }
  }

  /** Stored canonical items come back as the same list in the same order. */
  lemma CanonicalItemsReload(stored: map<Uuid, Item>, items: seq<OrderItem>)
    requires Stores(stored, items) && CanonicalItems(items) && TextAscending(items)
    ensures ItemList(stored) == items
  {
    KeysAscend(items);
    SameKeys(stored, items);
    AscendingIsSorted(Keys(items), stored.Keys);
    forall i | 0 <= i < |items| ensures ItemList(stored)[i] == items[i] {
      assert StoredAt(stored, items[i]);
      ItemListAt(stored, i);
    }
  }

  lemma ReloadedItemsAreCanonical(stored: map<Uuid, Item>)
    ensures CanonicalItems(ItemList(stored))
  {
    forall i | 0 <= i < |ItemList(stored)| ensures Canonical(ItemList(stored)[i].productId) {
      ItemListAt(stored, i);
      ParseFormat(SortedKeys(stored.Keys)[i]);
    }
  }

  lemma CreatedItemsAscend(db: Database, req: Request, o: Order)
    requires req.Create? && Bill(db, req, o)
    ensures TextAscending(o.items)
  {
    MergeFacts(req.lines);
    assert forall i :: 0 <= i < |o.items| ==> o.items[i].productId == MergeOf(req.lines)[i].productId;
  }

  /** The products of the bill are the products of the request, text for text. */
  lemma BillSpelling(db: Database, req: Request, o: Order)
    requires req.Create? && Bill(db, req, o)
    ensures CanonicalItems(o.items) <==> forall l :: l in req.lines ==> Canonical(l.productId)
  {
    var merged := MergeOf(req.lines);
    MergeFacts(req.lines);
    if CanonicalItems(o.items) {
      forall l | l in req.lines ensures Canonical(l.productId) {
        assert Mentions(req.lines, l.productId);
        var i :| 0 <= i < |merged| && merged[i].productId == l.productId;
        assert o.items[i].productId == l.productId;
      }
    }
    if forall l :: l in req.lines ==> Canonical(l.productId) {
      forall i | 0 <= i < |o.items| ensures Canonical(o.items[i].productId) {
        assert Mentions(merged, merged[i].productId);
        var j :| 0 <= j < |req.lines| && req.lines[j].productId == merged[i].productId;
        assert req.lines[j] in req.lines;
      }
    }
  }

  lemma ReloadCreated(db: Database, req: Request)
    requires req.Create? && Apply(db, req).1.Success?
    ensures var (db', answer) := Apply(db, req);
            var o := answer.value;
            && req.newId in db'.orders && Stores(db'.orders[req.newId].items, o.items) && Bill(db, req, o)
            && GetOrder(db', o.id) == Success(o.(items := ItemList(db'.orders[req.newId].items)))
  {
    CreateEffect(db, req);
    ParseFormat(req.newId);
    var (db', answer) := Apply(db, req);
    assert GetOrder(db', answer.value.id) == Success(Loaded(req.newId, db'.orders[req.newId], answer.value.id));
  }

  /** An order just created is found under its id with the same owner, total, status and times; it
      comes back item for item, in order, if and only if the request named its products canonically. */
  lemma CreateThenGet(db: Database, req: Request)
    requires req.Create? && Apply(db, req).1.Success?
    ensures var (db', answer) := Apply(db, req);
            var loaded := GetOrder(db', answer.value.id);
            && loaded.Success?
            && loaded.value == answer.value.(items := loaded.value.items)
            && (loaded == answer <==> forall l :: l in req.lines ==> Canonical(l.productId))
  {
    var (db', answer) := Apply(db, req);
    ReloadCreated(db, req);
    BillSpelling(db, req, answer.value);
    var stored := db'.orders[req.newId].items;
    if CanonicalItems(answer.value.items) {
      CreatedItemsAscend(db, req, answer.value);
      CanonicalItemsReload(stored, answer.value.items);
    }
    ReloadedItemsAreCanonical(stored);
  }

  lemma SameUnits(stored: map<Uuid, Item>, items: seq<OrderItem>, p: Uuid)
    requires Stores(stored, items)
    ensures Units(items, p) == Units(ItemList(stored), p)
  {
    ItemListStores(stored);
    StoredUnits(stored, items, p);
    StoredUnits(stored, ItemList(stored), p);
  }

  lemma ReturnUndoesSale(products: map<Uuid, Product>, sold: seq<OrderItem>, back: seq<OrderItem>)
    requires forall p: Uuid :: Units(sold, p) == Units(back, p)
    ensures AfterReturn(AfterSale(products, sold), back) == products
  {
    var restored := AfterReturn(AfterSale(products, sold), back);
    assert restored.Keys == products.Keys;
    forall p | p in products ensures restored[p] == products[p] {
      assert Units(sold, p) == Units(back, p);
    }
  }

  lemma SoldAndReturned(products: map<Uuid, Product>, stored: map<Uuid, Item>, items: seq<OrderItem>)
    requires Stores(stored, items)
    ensures AfterReturn(AfterSale(products, items), ItemList(stored)) == products
  {
    forall p: Uuid ensures Units(items, p) == Units(ItemList(stored), p) { SameUnits(stored, items, p); }
    ReturnUndoesSale(products, items, ItemList(stored));
  }

  /** The owner can cancel a created order at once, under the id answered, and every product is
      restored. */
  lemma CreateThenCancel(db: Database, req: Request, cancel: Request)
    requires Healthy(db)
    requires req.Create? && Apply(db, req).1.Success?
    requires cancel.Cancel? && cancel.user == req.user && cancel.orderId == Format(req.newId)
    ensures var (db', answer) := Apply(Apply(db, req).0, cancel);
            answer.Success? && db'.products == db.products
  {
    var (db', answer) := Apply(db, req);
    CreateEffect(db, req);
    ParseFormat(req.newId);
    TransactionKeepsHealth(db, req);
    TransitionOutcome(db', cancel);
    var k := CancelEffect(db', cancel);
    SoldAndReturned(db.products, db'.orders[k].items, answer.value.items);
  }

  // ----- the total of the stored items

  lemma {:induction false} OrderTotalConcat(a: seq<OrderItem>, b: seq<OrderItem>)
    ensures OrderTotal(a + b) == OrderTotal(a) + OrderTotal(b)
  {
    if b == [] {
      assert a + b == a;
    } else {
      assert (a + b)[..|a + b| - 1] == a + b[..|b| - 1];
      OrderTotalConcat(a, b[..|b| - 1]);
    }
  }

  ghost predicate NoRepeat(a: seq<OrderItem>) {
    forall i, j :: 0 <= i < j < |a| ==> a[i] != a[j]
  }

  ghost predicate SameItems(a: seq<OrderItem>, b: seq<OrderItem>) {
    forall x :: x in a <==> x in b
  }

  function Without(b: seq<OrderItem>, k: nat): seq<OrderItem>
    requires k < |b|
  {
    b[..k] + b[k + 1..]
  }

  lemma WithoutMembers(b: seq<OrderItem>, k: nat, x: OrderItem)
    requires NoRepeat(b) && k < |b|
    ensures x in Without(b, k) <==> x in b && x != b[k]
    ensures NoRepeat(Without(b, k))
  {
    var rest := Without(b, k);
    forall j | 0 <= j < |rest| ensures rest[j] == b[if j < k then j else j + 1] {}
    if x in b && x != b[k] {
      var j :| 0 <= j < |b| && b[j] == x;
      assert rest[if j < k then j else j - 1] == x;
    }
  }

  lemma OrderTotalOne(x: OrderItem)
    ensures OrderTotal([x]) == x.quantity as real * x.unitPrice
  {
    assert [x][..0] == [];
  }

  lemma SplitAt(b: seq<OrderItem>, k: nat)
    requires k < |b|
    ensures b == b[..k] + ([b[k]] + b[k + 1..])
  {}

  lemma WithoutTotal(b: seq<OrderItem>, k: nat)
    requires k < |b|
    ensures OrderTotal(b) == OrderTotal(Without(b, k)) + OrderTotal([b[k]])
  {
    SplitAt(b, k);
    OrderTotalConcat(b[..k], [b[k]] + b[k + 1..]);
    OrderTotalConcat([b[k]], b[k + 1..]);
    OrderTotalConcat(b[..k], b[k + 1..]);
  }

  lemma SameItemsDrop(a: seq<OrderItem>, b: seq<OrderItem>, k: nat)
    requires a != [] && k < |b| && b[k] == a[|a| - 1]
    requires NoRepeat(a) && NoRepeat(b) && SameItems(a, b)
    ensures NoRepeat(a[..|a| - 1]) && NoRepeat(Without(b, k)) && SameItems(a[..|a| - 1], Without(b, k))
  {
    var n := |a| - 1;
    assert Without(a, n) == a[..n];
    forall x ensures x in a[..n] <==> x in Without(b, k) {
      WithoutMembers(a, n, x);
      WithoutMembers(b, k, x);
    }
    WithoutMembers(a, n, a[n]);
    WithoutMembers(b, k, a[n]);
  }

  lemma SameAsNone(a: seq<OrderItem>, b: seq<OrderItem>)
    requires SameItems(a, b)
    ensures a == [] ==> b == []
  {
    assert b != [] ==> b[0] in a;
  }

  /** Totals do not depend on the order of the items. */
  lemma {:induction false} OrderTotalSameItems(a: seq<OrderItem>, b: seq<OrderItem>)
    requires NoRepeat(a) && NoRepeat(b) && SameItems(a, b)
    ensures OrderTotal(a) == OrderTotal(b)
    decreases |a|
  {
    SameAsNone(a, b);
    if a != [] {
      var n := |a| - 1;
      assert a[n] in b;
      var k :| 0 <= k < |b| && b[k] == a[n];
      SameItemsDrop(a, b, k);
      OrderTotalSameItems(a[..n], Without(b, k));
      WithoutTotal(b, k);
      OrderTotalOne(a[n]);
    }
  }

  /** The same items under the printed spelling of their products. */
  function Respelt(items: seq<OrderItem>): (r: seq<OrderItem>)
    requires forall i :: 0 <= i < |items| ==> Parse(items[i].productId).Some?
    ensures |r| == |items|
    ensures forall i :: 0 <= i < |items|
                        ==> r[i] == items[i].(productId := Format(Parse(items[i].productId).value))
  {
    seq(|items|, i requires 0 <= i < |items| => items[i].(productId := Format(Parse(items[i].productId).value)))
  }

  lemma RespeltPrefix(items: seq<OrderItem>, n: nat)
    requires n <= |items|
    requires forall i :: 0 <= i < |items| ==> Parse(items[i].productId).Some?
    ensures Respelt(items)[..n] == Respelt(items[..n])
  {}

  lemma SameLastPart(r: seq<OrderItem>, items: seq<OrderItem>)
    requires r != [] && items != []
    requires r[|r| - 1].quantity == items[|items| - 1].quantity
    requires r[|r| - 1].unitPrice == items[|items| - 1].unitPrice
    requires OrderTotal(r[..|r| - 1]) == OrderTotal(items[..|items| - 1])
    ensures OrderTotal(r) == OrderTotal(items)
  {}

  lemma {:induction false} RespeltTotal(items: seq<OrderItem>)
    requires forall i :: 0 <= i < |items| ==> Parse(items[i].productId).Some?
    ensures OrderTotal(Respelt(items)) == OrderTotal(items)
  {
    if items != [] {
      var n := |items| - 1;
      RespeltTotal(items[..n]);
      RespeltPrefix(items, n);
      SameLastPart(Respelt(items), items);
    }
  }

  lemma RespeltDistinct(items: seq<OrderItem>)
    requires Distinct(items) && forall i :: 0 <= i < |items| ==> Parse(items[i].productId).Some?
    ensures NoRepeat(Respelt(items))
  {
    var r := Respelt(items);
    forall i, j | 0 <= i < j < |r| ensures r[i] != r[j] {
      ParseFormat(Parse(items[i].productId).value);
      ParseFormat(Parse(items[j].productId).value);
    }
  }

  lemma ListDistinct(stored: map<Uuid, Item>)
    ensures NoRepeat(ItemList(stored))
  {
    var list := ItemList(stored);
    ItemListStores(stored);
    forall i, j | 0 <= i < j < |list| ensures list[i] != list[j] {
      assert Parse(list[i].productId) != Parse(list[j].productId);
    }
  }

  lemma RespeltIsListed(stored: map<Uuid, Item>, items: seq<OrderItem>)
    requires Stores(stored, items)
    requires forall i :: 0 <= i < |items| ==> Parse(items[i].productId).Some?
    ensures SameItems(Respelt(items), ItemList(stored))
  {
    var list, r := ItemList(stored), Respelt(items);
    forall x | x in r ensures x in list {
      var i :| 0 <= i < |r| && r[i] == x;
      EachRespeltListed(stored, items, i);
    }
    forall x | x in list ensures x in r {
      var j :| 0 <= j < |list| && list[j] == x;
      ListedIsRespelt(stored, items, j);
    }
  }

  lemma EachRespeltListed(stored: map<Uuid, Item>, items: seq<OrderItem>, i: nat)
    requires Stores(stored, items) && i < |items|
    requires forall j :: 0 <= j < |items| ==> Parse(items[j].productId).Some?
    ensures Respelt(items)[i] in ItemList(stored)
  {
    assert StoredAt(stored, items[i]);
    ListHas(stored, Parse(items[i].productId).value);
  }

  /** The total of a bill is the sum over the stored rows, in whatever order and spelling the
      products were listed. */
  lemma StoredTotal(stored: map<Uuid, Item>, items: seq<OrderItem>)
    requires Stores(stored, items)
    ensures OrderTotal(ItemList(stored)) == OrderTotal(items)
  {
    forall i | 0 <= i < |items| ensures Parse(items[i].productId).Some? { assert StoredAt(stored, items[i]); }
    RespeltTotal(items);
    RespeltDistinct(items);
    ListDistinct(stored);
    RespeltIsListed(stored, items);
    OrderTotalSameItems(Respelt(items), ItemList(stored));
  }

  lemma ListHas(stored: map<Uuid, Item>, p: Uuid)
    requires p in stored
    ensures ItemOf(stored, p) in ItemList(stored)
  {
    var keys := SortedKeys(stored.Keys);
    assert p in keys;
    var i :| 0 <= i < |keys| && keys[i] == p;
    ItemListAt(stored, i);
  }

  lemma ListedIsRespelt(stored: map<Uuid, Item>, items: seq<OrderItem>, j: nat)
    requires Stores(stored, items) && j < |ItemList(stored)|
    requires forall i :: 0 <= i < |items| ==> Parse(items[i].productId).Some?
    ensures ItemList(stored)[j] in Respelt(items)
  {
    ItemListAt(stored, j);
    var p := SortedKeys(stored.Keys)[j];
    assert Named(items, p);
    var i :| 0 <= i < |items| && Names(items[i], p);
    assert StoredAt(stored, items[i]);
    assert Respelt(items)[i] == ItemList(stored)[j];
  }
}
