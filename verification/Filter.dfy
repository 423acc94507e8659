/** Turning a product filter into numbered conditions and their arguments. */
module Filter {
  import opened Basics
  import opened Uuid
  import opened Domain
  import opened Repository
  import opened Paging

  datatype ProductFilter = ProductFilter(name: Option<string>, minPrice: Option<real>, maxPrice: Option<real>)

  datatype Arg = Text(text: string) | Price(price: real) | Count(count: Int64)

  /** A condition with its placeholder number, counted from 1. */
  datatype Cond = NameLike(n: nat) | PriceAtLeast(n: nat) | PriceAtMost(n: nat)

  datatype Where = Where(conds: seq<Cond>, args: seq<Arg>)

  /** The pattern match of the database, which the program does not define. */
  type Like = (string, string) -> bool

  function Pattern(text: string): string {
    "%" + text + "%"
  }

  /** A condition under an argument list; a missing or mistyped argument satisfies nothing. */
  predicate Holds(c: Cond, args: seq<Arg>, like: Like, p: Product) {
    1 <= c.n <= |args| &&
    match (c, args[c.n - 1])
    case (NameLike(_), Text(t)) => like(p.name, Pattern(t))
    case (PriceAtLeast(_), Price(x)) => p.price >= x
    case (PriceAtMost(_), Price(x)) => p.price <= x
    case _ => false
  }

  predicate HoldsAll(conds: seq<Cond>, args: seq<Arg>, like: Like, p: Product) {
    forall i :: 0 <= i < |conds| ==> Holds(conds[i], args, like, p)
  }

  /** What the filter asks for. */
  predicate Matches(filter: ProductFilter, like: Like, p: Product) {
    && (filter.name.Some? ==> like(p.name, Pattern(filter.name.value)))
    && (filter.minPrice.Some? ==> p.price >= filter.minPrice.value)
    && (filter.maxPrice.Some? ==> p.price <= filter.maxPrice.value)
  }

  /** Placeholder i points at argument i, and both lists have the same length. */
  predicate Numbered(w: Where) {
    |w.conds| == |w.args| && forall i :: 0 <= i < |w.conds| ==> w.conds[i].n == i + 1
  }

  /** One more argument for one more condition does not disturb the others. */
  lemma HoldsAllSnoc(w: Where, c: Cond, arg: Arg, like: Like, p: Product)
    requires Numbered(w)
    ensures HoldsAll(w.conds + [c], w.args + [arg], like, p)
       <==> HoldsAll(w.conds, w.args, like, p) && Holds(c, w.args + [arg], like, p)
  {
    var conds, args := w.conds + [c], w.args + [arg];
    forall i | 0 <= i < |w.conds| ensures Holds(conds[i], args, like, p) <==> Holds(w.conds[i], w.args, like, p) {
      assert args[conds[i].n - 1] == w.args[w.conds[i].n - 1];
    }
    assert conds[|w.conds|] == c;
    if HoldsAll(conds, args, like, p) {
      forall i | 0 <= i < |w.conds| ensures Holds(w.conds[i], w.args, like, p) {
        assert Holds(conds[i], args, like, p);
      }
      assert Holds(conds[|w.conds|], args, like, p);
    }
  }

  /** Arguments appended after the conditions' own, such as limit and offset, change nothing. */
  lemma ExtraArguments(w: Where, more: seq<Arg>, like: Like, p: Product)
    requires Numbered(w)
    ensures HoldsAll(w.conds, w.args + more, like, p) <==> HoldsAll(w.conds, w.args, like, p)
  {
    forall i | 0 <= i < |w.conds|
      ensures Holds(w.conds[i], w.args + more, like, p) <==> Holds(w.conds[i], w.args, like, p)
    {}
  }

  /** A generated clause selects exactly what a filter asks for. */
  ghost predicate Means(w: Where, filter: ProductFilter) {
    forall like: Like, p: Product :: HoldsAll(w.conds, w.args, like, p) <==> Matches(filter, like, p)
  }

  lemma MeansSnoc(w: Where, c: Cond, arg: Arg, before: ProductFilter, after: ProductFilter)
    requires Numbered(w) && Means(w, before)
    requires forall like: Like, p: Product :: Matches(after, like, p)
                                              <==> Matches(before, like, p) && Holds(c, w.args + [arg], like, p)
    ensures Means(Where(w.conds + [c], w.args + [arg]), after)
    ensures c.n == |w.args| + 1 ==> Numbered(Where(w.conds + [c], w.args + [arg]))
  {
    forall like: Like, p: Product
      ensures HoldsAll(w.conds + [c], w.args + [arg], like, p) <==> Matches(after, like, p)
    {
      HoldsAllSnoc(w, c, arg, like, p);
      assert HoldsAll(w.conds, w.args, like, p) <==> Matches(before, like, p);
    }
  }

  // Adding a condition numbers it after the arguments so far.

  function AddName(w: Where, text: string): Where {
    Where(w.conds + [NameLike(|w.args| + 1)], w.args + [Text(text)])
  }

  function AddMinPrice(w: Where, price: real): Where {
    Where(w.conds + [PriceAtLeast(|w.args| + 1)], w.args + [Price(price)])
  }

  function AddMaxPrice(w: Where, price: real): Where {
    Where(w.conds + [PriceAtMost(|w.args| + 1)], w.args + [Price(price)])
  }

  lemma NameMeans(w: Where, text: string, before: ProductFilter)
    requires Numbered(w) && Means(w, before) && before.name == None
    ensures Numbered(AddName(w, text)) && Means(AddName(w, text), before.(name := Some(text)))
  {
    MeansSnoc(w, NameLike(|w.args| + 1), Text(text), before, before.(name := Some(text)));
  }

  lemma MinPriceMeans(w: Where, price: real, before: ProductFilter)
    requires Numbered(w) && Means(w, before) && before.minPrice == None
    ensures Numbered(AddMinPrice(w, price)) && Means(AddMinPrice(w, price), before.(minPrice := Some(price)))
  {
    MeansSnoc(w, PriceAtLeast(|w.args| + 1), Price(price), before, before.(minPrice := Some(price)));
  }

  lemma MaxPriceMeans(w: Where, price: real, before: ProductFilter)
    requires Numbered(w) && Means(w, before) && before.maxPrice == None
    ensures Numbered(AddMaxPrice(w, price)) && Means(AddMaxPrice(w, price), before.(maxPrice := Some(price)))
  {
    MeansSnoc(w, PriceAtMost(|w.args| + 1), Price(price), before, before.(maxPrice := Some(price)));
  }

  lemma NothingMeans()
    ensures Numbered(Where([], [])) && Means(Where([], []), ProductFilter(None, None, None))
  {}

  /** The generated conditions, read against the generated arguments, select exactly the products
      that meet every criterion that was set. */
  method BuildProductFilter(filter: ProductFilter) returns (w: Where)
    ensures Numbered(w) && Means(w, filter)
  {
    w := Where([], []);
    ghost var seen := ProductFilter(None, None, None);
    NothingMeans();
    if filter.name.Some? {
      NameMeans(w, filter.name.value, seen);
      w := AddName(w, filter.name.value);
      seen := seen.(name := filter.name);
    }
    if filter.minPrice.Some? {
      MinPriceMeans(w, filter.minPrice.value, seen);
      w := AddMinPrice(w, filter.minPrice.value);
      seen := seen.(minPrice := filter.minPrice);
    }
    if filter.maxPrice.Some? {
      MaxPriceMeans(w, filter.maxPrice.value, seen);
      w := AddMaxPrice(w, filter.maxPrice.value);
      seen := seen.(maxPrice := filter.maxPrice);
    }
    assert seen == filter;
  }

  // ----- the listing

  /** A row of products. */
  datatype Entry = Entry(id: Uuid, product: Product)

  /** The order of names in the database's collation, which the program does not define. */
  type Collation = (string, string) -> bool

  ghost predicate StrictTotal(less: Collation) {
    && (forall a, b {:trigger less(a, b)} :: less(a, b) ==> !less(b, a) && a != b)
    && (forall a, b {:trigger less(a, b)} :: less(a, b) || a == b || less(b, a))
    && (forall a, b, c {:trigger less(a, b), less(b, c)} :: less(a, b) && less(b, c) ==> less(a, c))
  }

  /** ORDER BY name, id. */
  predicate Comes(less: Collation, a: Entry, b: Entry) {
    less(a.product.name, b.product.name) || (a.product.name == b.product.name && a.id < b.id)
  }

  ghost predicate InOrder(less: Collation, rows: seq<Entry>) {
    forall i, j :: 0 <= i < j < |rows| ==> Comes(less, rows[i], rows[j])
  }

  /** The products that match, each once, in listing order. */
  ghost predicate IsCatalogue(db: Database, filter: ProductFilter, like: Like, less: Collation, rows: seq<Entry>) {
    && (forall e :: e in rows <==> (
                                     && e.id in db.products && e.product == db.products[e.id]
                                     && (filter.name.Some? ==> like(e.product.name, "%" + filter.name.value + "%"))
                                     && (filter.minPrice.Some? ==> e.product.price >= filter.minPrice.value)
                                     && (filter.maxPrice.Some? ==> e.product.price <= filter.maxPrice.value)))
    && (forall i, j :: 0 <= i < j < |rows| ==>
                         var a, b := rows[i], rows[j];
                         less(a.product.name, b.product.name) || (a.product.name == b.product.name && a.id < b.id))
  }

  function PutIn(less: Collation, e: Entry, rows: seq<Entry>): seq<Entry> {
    if rows == [] || Comes(less, e, rows[0]) then [e] + rows else [rows[0]] + PutIn(less, e, rows[1..])
  }

  /** ORDER BY as a function. */
  function Ordered(less: Collation, rows: seq<Entry>): seq<Entry> {
    if rows == [] then [] else PutIn(less, rows[0], Ordered(less, rows[1..]))
  }

  /** The rows of the given products. */
  function EntriesOf(db: Database, keys: seq<Uuid>): (rows: seq<Entry>)
    requires forall i :: 0 <= i < |keys| ==> keys[i] in db.products
    ensures |rows| == |keys| && forall i :: 0 <= i < |rows| ==> rows[i] == Entry(keys[i], db.products[keys[i]])
  {
    seq(|keys|, i requires 0 <= i < |keys| => Entry(keys[i], db.products[keys[i]]))
  }

  /** The rows of the table, in no order that matters. */
  function Entries(db: Database): seq<Entry> {
    var keys := SortedKeys(db.products.Keys);
    assert forall i :: 0 <= i < |keys| ==> keys[i] in keys;
    EntriesOf(db, keys)
  }

  lemma EntriesAreTheTable(db: Database)
    ensures forall e :: e in Entries(db) <==> e.id in db.products && e.product == db.products[e.id]
    ensures DistinctIds(Entries(db))
  {
    var keys, rows := SortedKeys(db.products.Keys), Entries(db);
    assert |rows| == |keys|;
    forall e ensures e in rows <==> e.id in db.products && e.product == db.products[e.id] {
      if e in rows {
        var i :| 0 <= i < |rows| && rows[i] == e;
        assert keys[i] in keys;
      }
      if e.id in db.products && e.product == db.products[e.id] {
        assert e.id in keys;
        var i :| 0 <= i < |keys| && keys[i] == e.id;
        assert rows[i] == e;
      }
    }
  }

  /** The rows a WHERE clause keeps. */
  function Selected(rows: seq<Entry>, conds: seq<Cond>, args: seq<Arg>, like: Like): seq<Entry> {
    if rows == [] then []
    else (if HoldsAll(conds, args, like, rows[0].product) then [rows[0]] else [])
         + Selected(rows[1..], conds, args, like)
  }

  /** The rows a filter asks for. */
  function Matching(rows: seq<Entry>, filter: ProductFilter, like: Like): seq<Entry> {
    if rows == [] then []
    else (if Matches(filter, like, rows[0].product) then [rows[0]] else []) + Matching(rows[1..], filter, like)
  }

  function Catalogue(db: Database, filter: ProductFilter, like: Like, less: Collation): seq<Entry> {
    Ordered(less, Matching(Entries(db), filter, like))
  }

  lemma {:induction false} SelectedAreMatching(rows: seq<Entry>, conds: seq<Cond>, args: seq<Arg>, filter: ProductFilter, like: Like)
    requires forall p: Product :: HoldsAll(conds, args, like, p) <==> Matches(filter, like, p)
    ensures Selected(rows, conds, args, like) == Matching(rows, filter, like)
  {
    if rows != [] {
      SelectedAreMatching(rows[1..], conds, args, filter, like);
    }
  }

  lemma {:induction false} MatchingMembers(rows: seq<Entry>, filter: ProductFilter, like: Like, e: Entry)
    ensures e in Matching(rows, filter, like) <==> e in rows && Matches(filter, like, e.product)
  {
    if rows != [] {
      assert rows == [rows[0]] + rows[1..];
      MatchingMembers(rows[1..], filter, like, e);
    }
  }

  ghost predicate DistinctIds(rows: seq<Entry>) {
    forall i, j :: 0 <= i < j < |rows| ==> rows[i].id != rows[j].id
  }

  lemma {:induction false} MatchingDistinct(rows: seq<Entry>, filter: ProductFilter, like: Like)
    requires DistinctIds(rows)
    ensures DistinctIds(Matching(rows, filter, like))
  {
    if rows != [] {
      var rest := Matching(rows[1..], filter, like);
      assert DistinctIds(rows[1..]);
      MatchingDistinct(rows[1..], filter, like);
      forall j | 0 <= j < |rest| ensures rest[j].id != rows[0].id {
        MatchingMembers(rows[1..], filter, like, rest[j]);
        var i :| 0 <= i < |rows[1..]| && rows[1..][i] == rest[j];
        assert rows[i + 1] == rest[j];
      }
    }
  }

  lemma {:induction false} PutInMembers(less: Collation, e: Entry, rows: seq<Entry>, x: Entry)
    ensures x in PutIn(less, e, rows) <==> x == e || x in rows
  {
    if rows != [] && !Comes(less, e, rows[0]) {
      assert rows == [rows[0]] + rows[1..];
      PutInMembers(less, e, rows[1..], x);
    }
  }

  lemma {:induction false} PutInOrder(less: Collation, e: Entry, rows: seq<Entry>)
    requires StrictTotal(less) && InOrder(less, rows) && forall x :: x in rows ==> x.id != e.id
    ensures InOrder(less, PutIn(less, e, rows))
  {
    if rows != [] {
      if Comes(less, e, rows[0]) {
        forall j | 0 <= j < |rows| ensures Comes(less, e, rows[j]) { assert j > 0 ==> Comes(less, rows[0], rows[j]); }
      } else {
        var rest := PutIn(less, e, rows[1..]);
        assert rows[0] in rows && Comes(less, rows[0], e);
        assert forall x :: x in rows[1..] ==> x in rows;
        PutInOrder(less, e, rows[1..]);
        forall j | 0 <= j < |rest| ensures Comes(less, rows[0], rest[j]) {
          PutInMembers(less, e, rows[1..], rest[j]);
          if rest[j] in rows[1..] {
            var i :| 0 <= i < |rows[1..]| && rows[1..][i] == rest[j];
            assert rows[i + 1] == rest[j];
          }
        }
      }
    }
  }

  lemma {:induction false} OrderedMembers(less: Collation, rows: seq<Entry>, x: Entry)
    ensures x in Ordered(less, rows) <==> x in rows
  {
    if rows != [] {
      assert rows == [rows[0]] + rows[1..];
      OrderedMembers(less, rows[1..], x);
      PutInMembers(less, rows[0], Ordered(less, rows[1..]), x);
    }
  }

  lemma {:induction false} OrderedInOrder(less: Collation, rows: seq<Entry>)
    requires StrictTotal(less) && DistinctIds(rows)
    ensures InOrder(less, Ordered(less, rows))
  {
    if rows != [] {
      assert DistinctIds(rows[1..]);
      OrderedInOrder(less, rows[1..]);
      forall x | x in Ordered(less, rows[1..]) ensures x.id != rows[0].id {
        OrderedMembers(less, rows[1..], x);
        var i :| 0 <= i < |rows[1..]| && rows[1..][i] == x;
        assert rows[i + 1] == x;
      }
      PutInOrder(less, rows[0], Ordered(less, rows[1..]));
    }
  }

  /** The catalogue holds exactly the products meeting every criterion, each once, by name and id. */
  lemma CatalogueIsCatalogue(db: Database, filter: ProductFilter, like: Like, less: Collation)
    requires StrictTotal(less)
    ensures IsCatalogue(db, filter, like, less, Catalogue(db, filter, like, less))
  {
    var matching := Matching(Entries(db), filter, like);
    EntriesAreTheTable(db);
    MatchingDistinct(Entries(db), filter, like);
    OrderedInOrder(less, matching);
    forall e ensures e in Catalogue(db, filter, like, less) <==>
                     e.id in db.products && e.product == db.products[e.id] && Matches(filter, like, e.product)
    {
      OrderedMembers(less, matching, e);
      MatchingMembers(Entries(db), filter, like, e);
    }
  }

  ghost predicate Contains(text: string, part: string) {
    exists before, after :: text == before + part + after
  }

  /** If the pattern match means what SQL says of a text between two wildcards, a name filter lists exactly
      the products whose name contains the text. */
  lemma NameFilterContains(db: Database, text: string, like: Like, less: Collation)
    requires StrictTotal(less)
    requires forall name, part {:trigger Contains(name, part)} :: like(name, "%" + part + "%") <==> Contains(name, part)
    ensures forall e :: e in Catalogue(db, ProductFilter(Some(text), None, None), like, less) <==>
                        (e.id in db.products && e.product == db.products[e.id] && Contains(e.product.name, text))
  {
    CatalogueIsCatalogue(db, ProductFilter(Some(text), None, None), like, less);
    forall e: Entry ensures like(e.product.name, "%" + text + "%") <==> Contains(e.product.name, text) {}
  }

  /** The page query reads its limit and offset from the two arguments after the filter's. */
  function PageQuery(db: Database, conds: seq<Cond>, args: seq<Arg>, limitArg: nat, offsetArg: nat, like: Like, less: Collation)
    : Result<seq<Entry>, Error>
  {
    if 1 <= limitArg <= |args| && 1 <= offsetArg <= |args| && args[limitArg - 1].Count? && args[offsetArg - 1].Count?
    then Window(Ordered(less, Selected(Entries(db), conds, args, like)), args[limitArg - 1].count, args[offsetArg - 1].count)
    else Failure(Internal)
  }

  lemma {:induction false} OrderedSize(less: Collation, rows: seq<Entry>)
    ensures |Ordered(less, rows)| == |rows|
  {
    if rows != [] {
      OrderedSize(less, rows[1..]);
      PutInSize(less, rows[0], Ordered(less, rows[1..]));
    }
  }

  lemma {:induction false} PutInSize(less: Collation, e: Entry, rows: seq<Entry>)
    ensures |PutIn(less, e, rows)| == |rows| + 1
  {
    if rows != [] && !Comes(less, e, rows[0]) {
      PutInSize(less, e, rows[1..]);
    }
  }

  /** A page of the catalogue and the total: both queries range over the same matching products. */
  method List(db: Database, filter: ProductFilter, page: Int64, pageSize: Int64, like: Like, less: Collation)
    returns (items: Result<seq<Entry>, Error>, total: nat)
    ensures total == |Catalogue(db, filter, like, less)|
    ensures items == Window(Catalogue(db, filter, like, less), pageSize, Offset(page, pageSize))
  {
    var w := BuildProductFilter(filter);
    var rows := Entries(db);
    SelectedAreMatching(rows, w.conds, w.args, filter, like);
    OrderedSize(less, Matching(rows, filter, like));
    total := |Selected(rows, w.conds, w.args, like)|;
    var limitArg, offsetArg := |w.args| + 1, |w.args| + 2;
    var args := w.args + [Count(pageSize), Count(Offset(page, pageSize))];
    forall p: Product ensures HoldsAll(w.conds, args, like, p) <==> Matches(filter, like, p) {
      ExtraArguments(w, [Count(pageSize), Count(Offset(page, pageSize))], like, p);
    }
    SelectedAreMatching(rows, w.conds, args, filter, like);
    items := PageQuery(db, w.conds, args, limitArg, offsetArg, like, less);
  }

  /** The pages of the catalogue partition it. */
  lemma CataloguePagesPartition(db: Database, filter: ProductFilter, like: Like, less: Collation, page: Int64, pageSize: Int64)
    requires |Catalogue(db, filter, like, less)| + NormalizePagination(page, pageSize).1 - 1 < INT64_LIMIT
    ensures var (p, size) := NormalizePagination(page, pageSize);
            var all := Catalogue(db, filter, like, less);
            var read := Page<Entry>.Page([], |all|, p, size);
            && read.TotalPages() >= 0
            && FirstPages(all, size, read.TotalPages()) == all
            && (read.HasNextPage() <==> p * size < |all|)
  {
    var (p, size) := NormalizePagination(page, pageSize);
    var all := Catalogue(db, filter, like, less);
    PagesPartition(all, Page<Entry>.Page([], |all|, p, size));
  }
}
