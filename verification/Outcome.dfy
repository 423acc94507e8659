/** Exactly when each transaction succeeds, and with which error it fails otherwise. */
module Outcome {
  import opened Basics
  import opened Uuid
  import opened Domain
  import opened Merge
  import opened Repository
  import opened Orders
  import opened Effects
  import opened Conservation

  // ----- the stock pass

  /** Units of p asked for by some lines, whatever the spelling. */
  function Asked(lines: seq<Line>, p: Uuid): int {
    if lines == [] then 0
    else Asked(lines[..|lines| - 1], p)
         + if Parse(lines[|lines| - 1].productId) == Some(p) then lines[|lines| - 1].quantity else 0
  }

  /** Why a line is refused after the lines before it have been taken, if it is. */
  function Refusal(db: Database, before: seq<Line>, line: Line): Option<Error> {
    match FindProduct(db, line.productId)
    case None => Some(ProductNotFound)
    case Some(p) =>
      var left := db.products[p].stock - Asked(before, p);
      if !IsInt32(line.quantity) then Some(Internal)
      else if left < line.quantity then Some(InsufficientStock)
      else if !IsInt32(left - line.quantity) then Some(Internal)
      else None
  }

  /** The refusal of the first refused line. */
  function FirstRefusal(db: Database, lines: seq<Line>): Option<Error> {
    if lines == [] then None
    else match FirstRefusal(db, lines[..|lines| - 1])
         case Some(e) => Some(e)
         case None => Refusal(db, lines[..|lines| - 1], lines[|lines| - 1])
  }

  lemma {:induction false} AskedCons(line: Line, rest: seq<Line>, p: Uuid)
    ensures Asked([line] + rest, p)
         == (if Parse(line.productId) == Some(p) then line.quantity else 0) + Asked(rest, p)
  {
    if rest != [] {
      assert ([line] + rest)[..|rest|] == [line] + rest[..|rest| - 1];
      AskedCons(line, rest[..|rest| - 1], p);
    } else {
      assert [line] + rest == [line];
      assert [line][..0] == [];
    }
  }

  lemma RefusalCons(db: Database, mid: Database, line: Line, before: seq<Line>, next: Line)
    requires DecrementStock(db, line.productId, line.quantity) == Success(mid)
    ensures Refusal(db, [line] + before, next) == Refusal(mid, before, next)
  {
    var found := FindProduct(db, next.productId);
    if found.Some? {
      AskedCons(line, before, found.value);
    }
  }

  lemma {:induction false} FirstRefusalCons(db: Database, mid: Database, line: Line, rest: seq<Line>)
    requires DecrementStock(db, line.productId, line.quantity) == Success(mid)
    requires Refusal(db, [], line).None?
    ensures FirstRefusal(db, [line] + rest) == FirstRefusal(mid, rest)
  {
    if rest == [] {
      assert [line] + rest == [line];
      assert [line][..0] == [];
      assert FirstRefusal(db, []) == None;
    } else {
      var n := |rest| - 1;
      assert ([line] + rest)[..|rest|] == [line] + rest[..n];
      FirstRefusalCons(db, mid, line, rest[..n]);
      RefusalCons(db, mid, line, rest[..n], rest[n]);
    }
  }

  lemma {:induction false} FirstRefusalHead(db: Database, lines: seq<Line>)
    requires lines != [] && Refusal(db, [], lines[0]).Some?
    ensures FirstRefusal(db, lines) == Refusal(db, [], lines[0])
  {
    var n := |lines| - 1;
    if n == 0 {
      assert lines[..0] == [];
    } else {
      assert lines[..n][0] == lines[0];
      FirstRefusalHead(db, lines[..n]);
    }
  }

  /** Taking the lines one by one fails exactly with the first refusal. */
  lemma {:induction false} ReserveOutcome(db: Database, todo: seq<Line>, items: seq<OrderItem>)
    ensures match FirstRefusal(db, todo)
            case Some(e) => Reserve(db, todo, items) == Failure(e)
            case None => Reserve(db, todo, items).Success?
    decreases |todo|
  {
    if todo != [] {
      var step := DecrementStock(db, todo[0].productId, todo[0].quantity);
      if Refusal(db, [], todo[0]).Some? {
        FirstRefusalHead(db, todo);
      } else {
        var price := GetProduct(db, todo[0].productId).value.price;
        FirstRefusalCons(db, step.value, todo[0], todo[1..]);
        assert [todo[0]] + todo[1..] == todo;
        ReserveOutcome(step.value, todo[1..], items + [Bought(todo[0], price)]);
      }
    }
  }

  // ----- create

  /** No product is asked for twice under two spellings. */
  ghost predicate DistinctProducts(lines: seq<Line>) {
    forall i, j :: 0 <= i < j < |lines| ==> Parse(lines[i].productId) != Parse(lines[j].productId)
  }

  lemma PricedDistinct(db: Database, lines: seq<Line>, items: seq<OrderItem>)
    requires Priced(db, lines, items)
    ensures Distinct(items) <==> DistinctProducts(lines)
  {
    forall i | 0 <= i < |lines| ensures items[i].productId == lines[i].productId {}
  }

  ghost predicate InInteger(lines: seq<Line>) {
    forall i :: 0 <= i < |lines| ==> lines[i].quantity <= INT32_MAX
  }

  lemma PricedItemsOk(db: Database, before: Database, lines: seq<Line>, items: seq<OrderItem>)
    requires ConstraintsHold(before) && Priced(before, lines, items) && !HasBadQuantity(lines)
    requires db.products.Keys == before.products.Keys
    ensures (forall i :: 0 <= i < |items| ==> ItemOk(db, items[i])) <==> InInteger(lines)
  {
    forall i | 0 <= i < |items| ensures ItemOk(db, items[i]) <==> lines[i].quantity <= INT32_MAX {
      assert lines[i].quantity > 0;
      assert ProductOk(before.products[FindProduct(before, lines[i].productId).value]);
    }
  }

  lemma InsertOutcome(db: Database, o: Order)
    requires Parse(o.id).Some?
    ensures InsertOrder(db, o).Failure? ==> InsertOrder(db, o).error == Internal
    ensures InsertOrder(db, o).Success? <==>
            && Parse(o.id).value !in db.orders && o.user in db.users
            && (forall i :: 0 <= i < |o.items| ==> ItemOk(db, o.items[i])) && Distinct(o.items)
  {
    var k := Parse(o.id).value;
    var header := db.(orders := db.orders[k := HeaderOf(o)]);
    InsertItemsSucceeds(header, k, o.items);
    InsertItemsFailsInternal(header, k, o.items);
    assert forall i :: 0 <= i < |o.items| ==> (ItemOk(header, o.items[i]) <==> ItemOk(db, o.items[i]));
  }

  lemma {:induction false} InsertItemsFailsInternal(db: Database, k: Uuid, items: seq<OrderItem>)
    requires k in db.orders
    ensures InsertItems(db, k, items).Failure? ==> InsertItems(db, k, items).error == Internal
    decreases |items|
  {
    if items != [] && FindProduct(db, items[0].productId).Some? {
      var p := FindProduct(db, items[0].productId).value;
      InsertItemsFailsInternal(WithItem(db, k, p, Item(items[0].quantity, items[0].unitPrice)), k, items[1..]);
    }
  }

  /** With a positive price in every row, placing fails only for a quantity that overflowed, a
      duplicated product, an unknown user or a used id. */
  lemma PlaceOutcome(db: Database, before: Database, req: Request, lines: seq<Line>, items: seq<OrderItem>)
    requires req.Create? && ConstraintsHold(before) && Priced(before, lines, items) && lines != []
    requires db.users == before.users && db.orders == before.orders && db.products.Keys == before.products.Keys
    ensures Place(db, req, items).Failure? ==>
              Place(db, req, items).error == if HasBadQuantity(lines) then InvalidQuantity else Internal
    ensures Place(db, req, items).Success? <==>
            && !HasBadQuantity(lines) && InInteger(lines)
            && DistinctProducts(lines) && req.user in before.users && req.newId !in before.orders
  {
    ParseFormat(req.newId);
    forall i | 0 <= i < |items| ensures items[i].unitPrice > 0.0 {
      assert ProductOk(before.products[FindProduct(before, lines[i].productId).value]);
    }
    FirstErrorIsQuantity(items);
    PricedQuantities(before, lines, items);
    PricedDistinct(before, lines, items);
    var o := BuildOrder(Format(req.newId), req.user, items, req.now);
    if o.Success? {
      InsertOutcome(db, o.value);
      PricedItemsOk(db, before, lines, items);
    }
  }

  lemma {:induction false} FirstErrorIsQuantity(items: seq<OrderItem>)
    requires forall i :: 0 <= i < |items| ==> items[i].unitPrice > 0.0
    ensures FirstItemError(items) == None || FirstItemError(items) == Some(InvalidQuantity)
  {
    if items != [] {
      FirstErrorIsQuantity(items[..|items| - 1]);
    }
  }

  lemma PricedQuantities(db: Database, lines: seq<Line>, items: seq<OrderItem>)
    requires Priced(db, lines, items) && ConstraintsHold(db)
    ensures FirstItemError(items).None? <==> !HasBadQuantity(lines)
  {
    if HasBadQuantity(lines) {
      var i :| 0 <= i < |lines| && lines[i].quantity <= 0;
      assert items[i] in items;
    } else {
      forall item | item in items ensures item.quantity > 0 && item.unitPrice > 0.0 {
        var i :| 0 <= i < |items| && items[i] == item;
        assert ProductOk(db.products[FindProduct(db, lines[i].productId).value]);
      }
    }
  }

  /** The answer of Create, case by case, on any input: bad quantity, empty order, the first refused
      line in merged order, a sum that overflowed, or a row the tables cannot take. */
  lemma CreateOutcome(db: Database, req: Request)
    requires req.Create? && ConstraintsHold(db)
    ensures var lines := MergeOf(req.lines);
            var answer := Apply(db, req).1;
            && (HasBadQuantity(req.lines) ==> answer == Failure(InvalidQuantity))
            && (req.lines == [] ==> answer == Failure(EmptyOrder))
            && (!HasBadQuantity(req.lines) && req.lines != [] ==>
                  match FirstRefusal(db, lines)
                  case Some(e) => answer == Failure(e)
                  case None =>
                    if HasBadQuantity(lines) then answer == Failure(InvalidQuantity)
                    else if DistinctProducts(lines) && req.user in db.users && req.newId !in db.orders
                    then answer.Success?
                    else answer == Failure(Internal))
  {
    var lines := MergeOf(req.lines);
    MergeFacts(req.lines);
    assert req.lines != [] ==> Mentions(req.lines, req.lines[0].productId);
    assert Mentions([], if req.lines == [] then "" else req.lines[0].productId) == false;
    assert lines == [] <==> req.lines == [];
    if !HasBadQuantity(req.lines) && req.lines != [] {
      ReserveOutcome(db, lines, []);
      if FirstRefusal(db, lines).None? {
        ReserveEffect(db, lines, []);
        var (sold, items) := Reserve(db, lines, []).value;
        assert items[0..] == items;
        PlaceOutcome(sold, db, req, lines, items);
        forall i | 0 <= i < |lines| ensures lines[i].quantity <= INT32_MAX { NoRefusalAt(db, lines, i); }
      }
    }
  }

  lemma {:induction false} NoRefusalAt(db: Database, lines: seq<Line>, i: nat)
    requires i < |lines| && FirstRefusal(db, lines).None?
    ensures Refusal(db, lines[..i], lines[i]).None?
  {
    var n := |lines| - 1;
    if i < n {
      NoRefusalAt(db, lines[..n], i);
      assert lines[..n][..i] == lines[..i] && lines[..n][i] == lines[i];
    }
  }

  lemma {:induction false} NoRefusalIfNone(db: Database, lines: seq<Line>)
    requires forall i :: 0 <= i < |lines| ==> Refusal(db, lines[..i], lines[i]).None?
    ensures FirstRefusal(db, lines).None?
  {
    if lines != [] {
      var n := |lines| - 1;
      forall i | 0 <= i < n ensures Refusal(db, lines[..n][..i], lines[..n][i]).None? {
        assert lines[..n][..i] == lines[..i] && lines[..n][i] == lines[i];
      }
      NoRefusalIfNone(db, lines[..n]);
    }
  }

  // ----- short stock

  /** What the lines before leave of a product is never below zero. */
  lemma {:induction false} LeftNonNegative(db: Database, before: seq<Line>, p: Uuid)
    requires p in db.products && 0 <= db.products[p].stock
    requires FirstRefusal(db, before).None?
    ensures 0 <= db.products[p].stock - Asked(before, p)
  {
    if before != [] {
      LeftNonNegative(db, before[..|before| - 1], p);
    }
  }

  lemma {:induction false} RefusalExtends(db: Database, lines: seq<Line>, i: nat)
    requires i < |lines| && FirstRefusal(db, lines[..i]).None? && Refusal(db, lines[..i], lines[i]).Some?
    ensures FirstRefusal(db, lines) == Refusal(db, lines[..i], lines[i])
  {
    var n := |lines| - 1;
    if i < n {
      assert lines[..n][..i] == lines[..i] && lines[..n][i] == lines[i];
      RefusalExtends(db, lines[..n], i);
    }
  }

  /** Line i of the merged request is the first that is refused, because its product has too few
      units left. */
  ghost predicate RunsShortAt(db: Database, lines: seq<Line>, i: nat) {
    && i < |lines| && FirstRefusal(db, lines[..i]).None?
    && FindProduct(db, lines[i].productId).Some?
    && var p := FindProduct(db, lines[i].productId).value;
    db.products[p].stock - Asked(lines[..i], p) < lines[i].quantity
  }

  /** A request that runs short is answered with insufficient stock exactly when the quantity it runs
      short on fits an INTEGER; otherwise the answer is an internal error. */
  lemma ShortStockAnswer(db: Database, req: Request, i: nat)
    requires req.Create? && ConstraintsHold(db) && !HasBadQuantity(req.lines)
    requires RunsShortAt(db, MergeOf(req.lines), i)
    ensures Apply(db, req).1 == Failure(InsufficientStock) <==> MergeOf(req.lines)[i].quantity <= INT32_MAX
    ensures Apply(db, req).1 == Failure(Internal) <==> MergeOf(req.lines)[i].quantity > INT32_MAX
  {
    var lines := MergeOf(req.lines);
    var p := FindProduct(db, lines[i].productId).value;
    assert ProductOk(db.products[p]);
    LeftNonNegative(db, lines[..i], p);
    RefusalExtends(db, lines, i);
    CreateOutcome(db, req);
    assert MergeOf([]) == [];
  }

  /** Whatever the request, the answer is insufficient stock if and only if a line of the merged
      request is the first to run short, on a quantity that fits an INTEGER. */
  lemma InsufficientStockIff(db: Database, req: Request)
    requires req.Create? && ConstraintsHold(db)
    ensures Apply(db, req).1 == Failure(InsufficientStock) <==>
            !HasBadQuantity(req.lines)
            && exists i: nat :: RunsShortAt(db, MergeOf(req.lines), i) && MergeOf(req.lines)[i].quantity <= INT32_MAX
  {
    CreateOutcome(db, req);
    var lines := MergeOf(req.lines);
    if Apply(db, req).1 == Failure(InsufficientStock) {
      var i := RefusedAt(db, lines);
      assert RunsShortAt(db, lines, i);
    }
    if i: nat :| !HasBadQuantity(req.lines) && RunsShortAt(db, lines, i) && lines[i].quantity <= INT32_MAX {
      ShortStockAnswer(db, req, i);
    }
  }

  lemma {:induction false} RefusedAt(db: Database, lines: seq<Line>) returns (i: nat)
    requires FirstRefusal(db, lines).Some?
    ensures i < |lines| && FirstRefusal(db, lines[..i]).None?
    ensures FirstRefusal(db, lines) == Refusal(db, lines[..i], lines[i])
  {
    var n := |lines| - 1;
    if FirstRefusal(db, lines[..n]).Some? {
      i := RefusedAt(db, lines[..n]);
      assert lines[..n][..i] == lines[..i] && lines[..n][i] == lines[i];
    } else {
      i := n;
    }
  }

  /** An input on which short stock is not reported as such: the greatest GraphQL quantity of one
      product, asked for twice. */
  lemma DoubledMaximumIsInternal(db: Database, req: Request, p: Uuid)
    requires req.Create? && ConstraintsHold(db) && p in db.products
    requires req.lines == [Line(Format(p), INT32_MAX), Line(Format(p), INT32_MAX)]
    ensures db.products[p].stock < Total(req.lines, Format(p))
    ensures Apply(db, req).1 == Failure(Internal)
  {
    var lines, id := req.lines, Format(p);
    ParseFormat(p);
    assert lines[..1] == [Line(id, INT32_MAX)] && lines[..1][..0] == [];
    assert MergeOf(lines[..1]) == [Line(id, INT32_MAX)];
    assert MergeOf(lines) == [Line(id, 2 * INT32_MAX)];
    assert Total(lines[..1], id) == INT32_MAX;
    assert ProductOk(db.products[p]);
    assert MergeOf(lines)[..0] == [];
    assert RunsShortAt(db, MergeOf(lines), 0);
    ShortStockAnswer(db, req, 0);
  }

  lemma {:induction false} AskedOther(lines: seq<Line>, p: Uuid)
    requires forall i :: 0 <= i < |lines| ==> Parse(lines[i].productId) != Some(p)
    ensures Asked(lines, p) == 0
  {
    if lines != [] {
      AskedOther(lines[..|lines| - 1], p);
    }
  }

  /** With one line per product, each line is judged on the committed stock alone. */
  lemma RefusalAlone(db: Database, lines: seq<Line>, i: nat)
    requires DistinctProducts(lines) && i < |lines|
    ensures Refusal(db, lines[..i], lines[i]) == Refusal(db, [], lines[i])
  {
    var found := FindProduct(db, lines[i].productId);
    if found.Some? {
      AskedOther(lines[..i], found.value);
    }
  }

  /** What a successful request looks like to the client: for every product text it mentions, the
      sum it asks for. */
  ghost predicate Servable(db: Database, lines: seq<Line>, id: string) {
    var found := FindProduct(db, id);
    found.Some? && 0 < Wrap64(Total(lines, id)) <= db.products[found.value].stock
  }

  ghost predicate OneSpelling(lines: seq<Line>) {
    forall id, other :: Mentions(lines, id) && Mentions(lines, other) && Parse(id) == Parse(other) ==> id == other
  }

  lemma MergedDistinct(lines: seq<Line>)
    requires forall id :: Mentions(lines, id) ==> Parse(id).Some?
    ensures DistinctProducts(MergeOf(lines)) <==> OneSpelling(lines)
  {
    var out := MergeOf(lines);
    MergeFacts(lines);
    if OneSpelling(lines) {
      forall i, j | 0 <= i < j < |out| ensures Parse(out[i].productId) != Parse(out[j].productId) {
        assert Mentions(out, out[i].productId) && Mentions(out, out[j].productId);
        LexTotal(out[i].productId, out[j].productId);
      }
    }
    if DistinctProducts(out) {
      forall id, other | Mentions(lines, id) && Mentions(lines, other) && Parse(id) == Parse(other)
        ensures id == other
      {
        assert Mentions(out, id) && Mentions(out, other);
        var i :| 0 <= i < |out| && out[i].productId == id;
        var j :| 0 <= j < |out| && out[j].productId == other;
        if i < j { assert Parse(out[i].productId) != Parse(out[j].productId); }
        if j < i { assert Parse(out[j].productId) != Parse(out[i].productId); }
      }
    }
  }

  lemma MergedLine(lines: seq<Line>, i: nat)
    requires i < |MergeOf(lines)|
    ensures var l := MergeOf(lines)[i];
            Mentions(lines, l.productId) && l.quantity == Wrap64(Total(lines, l.productId))
  {
    MergeFacts(lines);
    assert Mentions(MergeOf(lines), MergeOf(lines)[i].productId);
    QuantityAt(MergeOf(lines), i);
  }

  lemma MergedIndex(lines: seq<Line>, id: string) returns (i: nat)
    requires Mentions(lines, id)
    ensures i < |MergeOf(lines)| && MergeOf(lines)[i].productId == id
  {
    MergeFacts(lines);
    assert Mentions(MergeOf(lines), id);
    i :| 0 <= i < |MergeOf(lines)| && MergeOf(lines)[i].productId == id;
  }

  lemma ServableLine(db: Database, lines: seq<Line>, i: nat)
    requires ConstraintsHold(db) && i < |MergeOf(lines)|
    ensures var l := MergeOf(lines)[i];
            Servable(db, lines, l.productId) <==> Refusal(db, [], l).None? && l.quantity > 0
  {
    MergedLine(lines, i);
    var found := FindProduct(db, MergeOf(lines)[i].productId);
    if found.Some? {
      assert ProductOk(db.products[found.value]);
    }
  }

  /** Create succeeds if and only if the request is not empty, every quantity is positive, every
      product exists with enough stock for everything asked of it, no product is spelt in two ways,
      the user is registered and the id is unused. */
  lemma CreateSucceedsIff(db: Database, req: Request)
    requires req.Create? && ConstraintsHold(db)
    ensures Apply(db, req).1.Success? <==>
            && req.lines != [] && !HasBadQuantity(req.lines)
            && (forall id :: Mentions(req.lines, id) ==> Servable(db, req.lines, id))
            && OneSpelling(req.lines)
            && req.user in db.users && req.newId !in db.orders
  {
    var lines := MergeOf(req.lines);
    CreateOutcome(db, req);
    MergeFacts(req.lines);
    if Apply(db, req).1.Success? {
      assert FirstRefusal(db, lines).None?;
      forall id | Mentions(req.lines, id) ensures Servable(db, req.lines, id) {
        var i := MergedIndex(req.lines, id);
        NoRefusalAt(db, lines, i);
        RefusalAlone(db, lines, i);
        ServableLine(db, req.lines, i);
      }
      MergedDistinct(req.lines);
    }
    if req.lines != [] && !HasBadQuantity(req.lines) && OneSpelling(req.lines)
       && (forall id :: Mentions(req.lines, id) ==> Servable(db, req.lines, id)) {
      MergedDistinct(req.lines);
      forall i | 0 <= i < |lines| ensures Refusal(db, lines[..i], lines[i]).None? && lines[i].quantity > 0 {
        MergedLine(req.lines, i);
        ServableLine(db, req.lines, i);
        RefusalAlone(db, lines, i);
      }
      NoRefusalIfNone(db, lines);
    }
  }

  // ----- cancel and confirm

  lemma {:induction false} RestockSucceeds(db: Database, todo: seq<OrderItem>)
    requires forall p :: p in db.products ==> 0 <= db.products[p].stock
    requires forall p :: p in db.products ==> db.products[p].stock + Units(todo, p) <= INT32_MAX
    requires forall i :: 0 <= i < |todo| ==> FindProduct(db, todo[i].productId).Some? && 0 < todo[i].quantity <= INT32_MAX
    ensures Restock(db, todo).Success?
    decreases |todo|
  {
    if todo != [] {
      var p := FindProduct(db, todo[0].productId).value;
      UnitsNonNegative(todo[1..], p);
      assert db.products[p].stock + Units(todo, p) <= INT32_MAX;
      var mid := IncrementStock(db, todo[0].productId, todo[0].quantity).value;
      forall i | 0 <= i < |todo[1..]|
        ensures FindProduct(mid, todo[1..][i].productId).Some? && 0 < todo[1..][i].quantity <= INT32_MAX
      {
        assert todo[1..][i] == todo[i + 1];
      }
      RestockSucceeds(mid, todo[1..]);
    }
  }

  lemma {:induction false} UnitsNonNegative(items: seq<OrderItem>, p: Uuid)
    requires forall i :: 0 <= i < |items| ==> items[i].quantity > 0
    ensures Units(items, p) >= 0
  {
    if items != [] {
      UnitsNonNegative(items[1..], p);
    }
  }

  /** A pending order's units fit back into the stock column. */
  lemma ReturnFits(db: Database, k: Uuid, p: Uuid)
    requires Healthy(db) && k in db.orders && p in db.products && db.orders[k].status == Pending
    ensures db.products[p].stock + StoredQuantity(db.orders[k].items, p) <= INT32_MAX
  {
    var f := HeldBy(db.orders, p);
    forall o | o in db.orders.Keys ensures f(o) >= 0 { assert OrderRowOk(db, db.orders[o]); }
    SumBoundsTerm(db.orders.Keys, f, k);
    assert f(k) == StoredQuantity(db.orders[k].items, p);
  }

  lemma ItemsFit(db: Database, k: Uuid, p: Uuid)
    requires Healthy(db) && k in db.orders && db.orders[k].status == Pending && p in db.products
    ensures 0 <= db.products[p].stock
    ensures db.products[p].stock + Units(ItemList(db.orders[k].items), p) <= INT32_MAX
  {
    var stored := db.orders[k].items;
    assert ProductOk(db.products[p]);
    ItemListStores(stored);
    StoredUnits(stored, ItemList(stored), p);
    ReturnFits(db, k, p);
  }

  lemma ListedItemOk(db: Database, k: Uuid, i: nat)
    requires ConstraintsHold(db) && k in db.orders && i < |ItemList(db.orders[k].items)|
    ensures var item := ItemList(db.orders[k].items)[i];
            FindProduct(db, item.productId).Some? && 0 < item.quantity <= INT32_MAX
  {
    assert OrderRowOk(db, db.orders[k]);
    ItemListAt(db.orders[k].items, i);
  }

  lemma CancelRestocks(db: Database, k: Uuid)
    requires Healthy(db) && k in db.orders && db.orders[k].status == Pending
    ensures Restock(db, ItemList(db.orders[k].items)).Success?
    ensures Restock(db, []).Success?
  {
    var list := ItemList(db.orders[k].items);
    forall p | p in db.products
      ensures 0 <= db.products[p].stock && db.products[p].stock + Units(list, p) <= INT32_MAX
    {
      ItemsFit(db, k, p);
    }
    forall i | 0 <= i < |list| ensures FindProduct(db, list[i].productId).Some? && 0 < list[i].quantity <= INT32_MAX {
      ListedItemOk(db, k, i);
    }
    RestockSucceeds(db, list);
  }

  lemma SettleSucceeds(db: Database, req: Request, k: Uuid, o: Order, todo: seq<OrderItem>)
    requires k in db.orders && FindOrder(db, o.id) == Some(k) && Restock(db, todo).Success?
    ensures Settle(db, req, o, todo).Success? && Settle(db, req, o, todo).value.1 == o
  {
    RestockEffect(db, todo);
  }

  lemma CanRestock(db: Database, req: Request, k: Uuid)
    requires !req.Create? && Healthy(db) && FindOrder(db, req.orderId) == Some(k)
    requires db.orders[k].user == req.user && db.orders[k].status == Pending
    ensures var o := Transition(req, Loaded(k, db.orders[k], req.orderId));
            o.Success? && o.value.id == Format(k) && Restock(db, ToReturn(req, o.value)).Success?
  {
    CancelRestocks(db, k);
    var o := Transition(req, Loaded(k, db.orders[k], req.orderId)).value;
    assert ToReturn(req, o) == [] || ToReturn(req, o) == ItemList(db.orders[k].items);
  }

  lemma TransitionSucceeds(db: Database, req: Request, k: Uuid)
    requires !req.Create? && FindOrder(db, req.orderId) == Some(k)
    requires db.orders[k].user == req.user && db.orders[k].status == Pending
    requires var o := Transition(req, Loaded(k, db.orders[k], req.orderId));
             o.Success? && o.value.id == Format(k) && Restock(db, ToReturn(req, o.value)).Success?
    ensures Body(db, req).Success?
    ensures Success(Body(db, req).value.1) == Transition(req, Loaded(k, db.orders[k], req.orderId))
  {
    ParseFormat(k);
    var o := Transition(req, Loaded(k, db.orders[k], req.orderId)).value;
    SettleSucceeds(db, req, k, o, ToReturn(req, o));
    assert Body(db, req) == Settle(db, req, o, ToReturn(req, o));
  }

  /** The order a Cancel or Confirm of a pending order answers with, column by column. */
  lemma TransitionValue(db: Database, req: Request, k: Uuid)
    requires !req.Create? && FindOrder(db, req.orderId) == Some(k)
    requires db.orders[k].user == req.user && db.orders[k].status == Pending
    ensures var row := db.orders[k];
            Transition(req, Loaded(k, row, req.orderId))
            == Success(Order(Format(k), row.user, if Canonical(req.orderId) then ItemList(row.items) else [],
                             row.total, if req.Cancel? then Cancelled else Confirmed, row.createdAt,
                             if req.Cancel? then Some(req.now) else row.cancelledAt))
  {
    ParseFormat(k);
  }

  lemma TransitionRefused(db: Database, req: Request)
    requires !req.Create?
    ensures match FindOrder(db, req.orderId)
            case None => Apply(db, req).1 == Failure(OrderNotFound)
            case Some(k) =>
              && (db.orders[k].user != req.user ==> Apply(db, req).1 == Failure(OrderNotOwned))
              && (db.orders[k].user == req.user && db.orders[k].status != Pending
                  ==> Apply(db, req).1 == Failure(OrderNotPending))
  {}

  lemma BodySucceeds(db: Database, req: Request)
    requires Body(db, req).Success?
    ensures Apply(db, req).1 == Success(Body(db, req).value.1)
  {}

  /** Cancel and Confirm answer by existence, then owner, then state; nothing else can go wrong:
      the restored stock always fits its column. */
  lemma TransitionOutcome(db: Database, req: Request)
    requires !req.Create? && Healthy(db)
    ensures match FindOrder(db, req.orderId)
            case None => Apply(db, req).1 == Failure(OrderNotFound)
            case Some(k) =>
              if db.orders[k].user != req.user then Apply(db, req).1 == Failure(OrderNotOwned)
              else if db.orders[k].status != Pending then Apply(db, req).1 == Failure(OrderNotPending)
              else
                var row := db.orders[k];
                Apply(db, req).1
                == Success(Order(Format(k), row.user, if Canonical(req.orderId) then ItemList(row.items) else [],
                                            row.total, if req.Cancel? then Cancelled else Confirmed, row.createdAt,
                                            if req.Cancel? then Some(req.now) else row.cancelledAt))
  {
    TransitionRefused(db, req);
    var found := FindOrder(db, req.orderId);
    if found.Some? && db.orders[found.value].user == req.user && db.orders[found.value].status == Pending {
      CanRestock(db, req, found.value);
      TransitionSucceeds(db, req, found.value);
      BodySucceeds(db, req);
      TransitionValue(db, req, found.value);
    }
  }
}
