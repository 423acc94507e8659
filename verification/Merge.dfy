/** Merging repeated order lines into one line per product, in ascending text order. */
module Merge {
  import opened Basics
  import opened Uuid
  import opened Domain

  datatype Line = Line(productId: string, quantity: Int64)

  predicate Mentions(lines: seq<Line>, id: string) {
    exists i :: 0 <= i < |lines| && lines[i].productId == id
  }

  /** What the caller asked for of one product text, as a mathematical sum. */
  function Total(lines: seq<Line>, id: string): int {
    if lines == [] then 0
    else Total(lines[..|lines| - 1], id)
         + if lines[|lines| - 1].productId == id then lines[|lines| - 1].quantity else 0
  }

  ghost predicate Ascending(lines: seq<Line>) {
    forall i, j :: 0 <= i < j < |lines| ==> LexLess(lines[i].productId, lines[j].productId)
  }

  /** One line per requested text, ascending, carrying the 64-bit sum of its quantities. */
  ghost predicate IsMerge(lines: seq<Line>, out: seq<Line>) {
    && Ascending(out)
    && (forall id :: Mentions(out, id) <==> Mentions(lines, id))
    && (forall l :: l in out ==> l.quantity == Wrap64(Total(lines, l.productId)))
  }

  // ----- the merge as a function

  /** Adds one line to an ascending list. */
  function Put(out: seq<Line>, line: Line): (r: seq<Line>) {
    if out == [] then [line]
    else if out[0].productId == line.productId then
      [Line(line.productId, Wrap64(out[0].quantity + line.quantity))] + out[1..]
    else if LexLess(line.productId, out[0].productId) then [line] + out
    else [out[0]] + Put(out[1..], line)
  }

  function MergeOf(lines: seq<Line>): seq<Line> {
    if lines == [] then [] else Put(MergeOf(lines[..|lines| - 1]), lines[|lines| - 1])
  }

  function QuantityIn(out: seq<Line>, id: string): Int64 {
    if out == [] then 0 else if out[0].productId == id then out[0].quantity else QuantityIn(out[1..], id)
  }

  lemma {:induction false} PutMentions(out: seq<Line>, line: Line, id: string)
    ensures Mentions(Put(out, line), id) <==> Mentions(out, id) || line.productId == id
  {
    var r := Put(out, line);
    if out == [] {
      assert r[0] == line;
    } else if out[0].productId == line.productId || LexLess(line.productId, out[0].productId) {
      assert r[0].productId == line.productId;
      assert forall i :: 1 <= i < |out| ==> out[i] in r && out[i] in out;
      assert out[0].productId == line.productId || (r[1] == out[0]);
      forall i | 0 <= i < |out| ensures Mentions(r, out[i].productId) {
        if out[i] in r { var j :| 0 <= j < |r| && r[j] == out[i]; }
      }
      forall j | 0 <= j < |r|
        ensures r[j].productId == line.productId || Mentions(out, r[j].productId) {
        if r[j] in out { var i :| 0 <= i < |out| && out[i] == r[j]; }
      }
    } else {
      PutMentions(out[1..], line, id);
      MentionsCons(out, id);
      MentionsCons(r, id);
    }
  }

  lemma MentionsCons(lines: seq<Line>, id: string)
    requires lines != []
    ensures Mentions(lines, id) <==> lines[0].productId == id || Mentions(lines[1..], id)
  {
    if Mentions(lines, id) {
      var i :| 0 <= i < |lines| && lines[i].productId == id;
      if i > 0 { assert lines[1..][i - 1].productId == id; }
    }
    if Mentions(lines[1..], id) {
      var i :| 0 <= i < |lines[1..]| && lines[1..][i].productId == id;
      assert lines[i + 1].productId == id;
    }
  }

  lemma MentionsLast(lines: seq<Line>, id: string)
    requires lines != []
    ensures Mentions(lines, id)
       <==> lines[|lines| - 1].productId == id || Mentions(lines[..|lines| - 1], id)
  {
    if Mentions(lines, id) {
      var i :| 0 <= i < |lines| && lines[i].productId == id;
      if i < |lines| - 1 { assert lines[..|lines| - 1][i].productId == id; }
    }
  }

  lemma {:induction false} PutQuantity(out: seq<Line>, line: Line, id: string)
    requires Ascending(out)
    ensures QuantityIn(Put(out, line), id)
         == if id == line.productId then Wrap64(QuantityIn(out, id) + line.quantity) else QuantityIn(out, id)
  {
    if out != [] {
      PutQuantity(out[1..], line, id);
      if LexLess(line.productId, out[0].productId) {
        AbsentBelow(out, line.productId);
        LexTotal(line.productId, out[0].productId);
      }
    }
  }

  /** Nothing before the first line of an ascending list is in it. */
  lemma {:induction false} AbsentBelow(out: seq<Line>, id: string)
    requires Ascending(out)
    requires out == [] || LexLess(id, out[0].productId)
    ensures QuantityIn(out, id) == 0
  {
    if out != [] {
      LexTotal(id, out[0].productId);
      if |out| > 1 { LexTransitive(id, out[0].productId, out[1].productId); }
      AbsentBelow(out[1..], id);
    }
  }

  lemma {:induction false} PutAscending(out: seq<Line>, line: Line)
    requires Ascending(out)
    ensures Ascending(Put(out, line))
  {
    if out != [] {
      var r := Put(out, line);
      LexTotal(line.productId, out[0].productId);
      if LexLess(line.productId, out[0].productId) {
        forall j | 1 <= j < |out| ensures LexLess(line.productId, out[j].productId) {
          LexTransitive(line.productId, out[0].productId, out[j].productId);
        }
      } else if out[0].productId != line.productId {
        PutAscending(out[1..], line);
        forall j | 1 <= j < |r| ensures LexLess(r[0].productId, r[j].productId) {
          PutMentions(out[1..], line, r[j].productId);
          assert Mentions(r[1..], r[j].productId) by { assert r[1..][j - 1] == r[j]; }
          if r[j].productId != line.productId {
            var i :| 0 <= i < |out[1..]| && out[1..][i].productId == r[j].productId;
            assert out[i + 1].productId == r[j].productId;
          }
        }
      }
    }
  }

  lemma {:induction false} QuantityAt(out: seq<Line>, i: nat)
    requires Ascending(out) && i < |out|
    ensures QuantityIn(out, out[i].productId) == out[i].quantity
  {
    if i > 0 {
      LexTotal(out[0].productId, out[i].productId);
      QuantityAt(out[1..], i - 1);
    }
  }

  lemma DropMultiple(x: int, k: int)
    ensures (x - 0x1_0000_0000_0000_0000 * k) % 0x1_0000_0000_0000_0000 == x % 0x1_0000_0000_0000_0000
  {}

  /** Wrapping after each addition is wrapping once at the end. */
  lemma WrapAdds(a: int, b: Int64)
    ensures Wrap64(Wrap64(a) + b) == Wrap64(a + b)
  {
    var x := a + INT64_LIMIT;
    var k := x / 0x1_0000_0000_0000_0000;
    assert x % 0x1_0000_0000_0000_0000 == x - 0x1_0000_0000_0000_0000 * k;
    DropMultiple(x + b, k);
  }

  lemma {:induction false} MergeFacts(lines: seq<Line>)
    ensures Ascending(MergeOf(lines))
    ensures forall id :: Mentions(MergeOf(lines), id) <==> Mentions(lines, id)
    ensures forall id :: QuantityIn(MergeOf(lines), id) == Wrap64(Total(lines, id))
  {
    if lines != [] {
      var init, last := lines[..|lines| - 1], lines[|lines| - 1];
      MergeFacts(init);
      PutAscending(MergeOf(init), last);
      forall id
        ensures Mentions(MergeOf(lines), id) <==> Mentions(lines, id)
        ensures QuantityIn(MergeOf(lines), id) == Wrap64(Total(lines, id))
      {
        PutMentions(MergeOf(init), last, id);
        MentionsLast(lines, id);
        PutQuantity(MergeOf(init), last, id);
        WrapAdds(Total(init, id), last.quantity);
      }
    }
  }

  /** The function meets the declarative description. */
  lemma MergeOfIsMerge(lines: seq<Line>)
    ensures IsMerge(lines, MergeOf(lines))
  {
    MergeFacts(lines);
    var out := MergeOf(lines);
    forall l | l in out ensures l.quantity == Wrap64(Total(lines, l.productId)) {
      var i :| 0 <= i < |out| && out[i] == l;
      QuantityAt(out, i);
    }
  }

  // ----- the description has exactly one solution

  lemma {:induction false} AscendingUnique(a: seq<Line>, b: seq<Line>)
    requires Ascending(a) && Ascending(b)
    requires forall l :: l in a <==> l in b
    ensures a == b
  {
    assert a != [] ==> a[0] in b;
    assert b != [] ==> b[0] in a;
    if a != [] && b != [] {
      var i :| 0 <= i < |b| && b[i] == a[0];
      var j :| 0 <= j < |a| && a[j] == b[0];
      LexTotal(a[0].productId, b[0].productId);
      assert a[0] == b[0];
      forall l ensures l in a[1..] <==> l in b[1..] {
        TailMembers(a, l);
        TailMembers(b, l);
      }
      AscendingUnique(a[1..], b[1..]);
      assert a == [a[0]] + a[1..] && b == [b[0]] + b[1..];
    }
  }

  lemma TailMembers(a: seq<Line>, l: Line)
    requires Ascending(a) && a != []
    ensures l in a[1..] <==> l in a && l != a[0]
  {
    if l in a[1..] {
      var i :| 0 <= i < |a[1..]| && a[1..][i] == l;
      LexTotal(a[0].productId, a[i + 1].productId);
    }
    if l in a && l != a[0] {
      var i :| 0 <= i < |a| && a[i] == l;
      assert a[1..][i - 1] == l;
    }
  }

  /** Two requests asking for the same texts with the same sums merge to the same list. */
  lemma MergeDependsOnSums(lines: seq<Line>, other: seq<Line>, a: seq<Line>, b: seq<Line>)
    requires IsMerge(lines, a) && IsMerge(other, b)
    requires forall id :: Mentions(lines, id) <==> Mentions(other, id)
    requires forall id :: Mentions(lines, id) ==> Wrap64(Total(lines, id)) == Wrap64(Total(other, id))
    ensures a == b
  {
    forall l | l in a ensures l in b { SameEntry(lines, other, a, b, l); }
    forall l | l in b ensures l in a { SameEntry(other, lines, b, a, l); }
    AscendingUnique(a, b);
  }

  lemma SameEntry(lines: seq<Line>, other: seq<Line>, a: seq<Line>, b: seq<Line>, l: Line)
    requires IsMerge(lines, a) && IsMerge(other, b)
    requires forall id :: Mentions(lines, id) <==> Mentions(other, id)
    requires forall id :: Mentions(lines, id) ==> Wrap64(Total(lines, id)) == Wrap64(Total(other, id))
    requires l in a
    ensures l in b
  {
    assert Mentions(a, l.productId);
    assert Mentions(b, l.productId);
    var j :| 0 <= j < |b| && b[j].productId == l.productId;
    assert b[j] in b;
    assert b[j] == l;
  }

  // ----- consequences

  lemma {:induction false} TotalConcat(a: seq<Line>, b: seq<Line>, id: string)
    ensures Total(a + b, id) == Total(a, id) + Total(b, id)
  {
    if b == [] {
      assert a + b == a;
    } else {
      assert (a + b)[..|a + b| - 1] == a + b[..|b| - 1];
      TotalConcat(a, b[..|b| - 1], id);
    }
  }

  lemma {:induction false} TotalOfPermutation(a: seq<Line>, b: seq<Line>, id: string)
    requires multiset(a) == multiset(b)
    ensures Total(a, id) == Total(b, id)
    decreases |a|
  {
    if a == [] {
      assert |multiset(b)| == 0;
    } else {
      var x := a[|a| - 1];
      assert x in multiset(a);
      assert x in b;
      var k :| 0 <= k < |b| && b[k] == x;
      var rest := b[..k] + b[k + 1..];
      assert b == b[..k] + [x] + b[k + 1..];
      assert a == a[..|a| - 1] + [x];
      assert multiset(b) == multiset(b[..k]) + multiset{x} + multiset(b[k + 1..]);
      assert multiset(rest) == multiset(b) - multiset{x};
      assert multiset(a) == multiset(a[..|a| - 1]) + multiset{x};
      TotalOfPermutation(a[..|a| - 1], rest, id);
      TotalConcat(b[..k] + [x], b[k + 1..], id);
      TotalConcat(b[..k], [x], id);
      TotalConcat(b[..k], b[k + 1..], id);
    }
  }

  /** The order in which the client wrote the lines is irrelevant. */
  lemma MergeIgnoresOrder(lines: seq<Line>, other: seq<Line>)
    requires multiset(lines) == multiset(other)
    ensures MergeOf(lines) == MergeOf(other)
  {
    MergeOfIsMerge(lines);
    MergeOfIsMerge(other);
    forall id ensures Mentions(lines, id) <==> Mentions(other, id) {
      if Mentions(lines, id) {
        var i :| 0 <= i < |lines| && lines[i].productId == id;
        assert lines[i] in multiset(other);
      }
      if Mentions(other, id) {
        var i :| 0 <= i < |other| && other[i].productId == id;
        assert other[i] in multiset(lines);
      }
    }
    forall id ensures Total(lines, id) == Total(other, id) { TotalOfPermutation(lines, other, id); }
    MergeDependsOnSums(lines, other, MergeOf(lines), MergeOf(other));
  }

  lemma {:induction false} TotalInAscending(out: seq<Line>, id: string)
    requires Ascending(out)
    ensures Total(out, id) == QuantityIn(out, id)
  {
    if out != [] {
      var x := out[0];
      assert out == [x] + out[1..];
      TotalConcat([x], out[1..], id);
      TotalInAscending(out[1..], id);
      if x.productId == id && |out| > 1 { AbsentBelow(out[1..], id); }
    }
  }

  /** An ascending list is its own merge. */
  lemma AscendingIsMerged(out: seq<Line>)
    requires Ascending(out)
    ensures MergeOf(out) == out
  {
    forall l | l in out ensures l.quantity == Wrap64(Total(out, l.productId)) {
      var i :| 0 <= i < |out| && out[i] == l;
      TotalInAscending(out, l.productId);
      QuantityAt(out, i);
    }
    MergeOfIsMerge(out);
    MergeDependsOnSums(out, out, out, MergeOf(out));
  }

  /** Merging is idempotent. */
  lemma MergeIdempotent(lines: seq<Line>)
    ensures MergeOf(MergeOf(lines)) == MergeOf(lines)
  {
    MergeFacts(lines);
    AscendingIsMerged(MergeOf(lines));
  }

  lemma {:induction false} TotalPositive(lines: seq<Line>, id: string)
    requires forall l :: l in lines ==> l.quantity > 0
    ensures Total(lines, id) >= 0
    ensures Mentions(lines, id) ==> Total(lines, id) > 0
  {
    if lines != [] {
      TotalPositive(lines[..|lines| - 1], id);
      MentionsLast(lines, id);
    }
  }

  lemma {:induction false} TotalBound(lines: seq<Line>, id: string)
    requires forall l :: l in lines ==> 0 < l.quantity <= INT32_MAX
    ensures 0 <= Total(lines, id) <= INT32_MAX * |lines|
  {
    if lines != [] {
      TotalBound(lines[..|lines| - 1], id);
    }
  }

  /** Quantities within a GraphQL Int (section 3.5.1, October 2021) and at most 2^32 lines: no
      partial sum leaves the 64-bit range, so the merged quantities are the true positive sums. */
  lemma NoOverflowWithinGraphQLInt(lines: seq<Line>, n: nat, id: string)
    requires forall l :: l in lines ==> 0 < l.quantity <= INT32_MAX
    requires |lines| <= 0x1_0000_0000 && n <= |lines|
    ensures 0 <= Total(lines[..n], id) < INT64_LIMIT
    ensures Mentions(lines, id) ==> QuantityIn(MergeOf(lines), id) == Total(lines, id) > 0
  {
    TotalBound(lines[..n], id);
    TotalBound(lines, id);
    TotalPositive(lines, id);
    MergeFacts(lines);
  }

  // ----- the loops

  /** What sort.Slice leaves: the same lines by ascending product text. */
  function Sorted(lines: seq<Line>): seq<Line> {
    if lines == [] then [] else SortIn(lines[0], Sorted(lines[1..]))
  }

  function SortIn(x: Line, sorted: seq<Line>): seq<Line> {
    if sorted == [] || LexLess(x.productId, sorted[0].productId) then [x] + sorted
    else [sorted[0]] + SortIn(x, sorted[1..])
  }

  lemma {:induction false} SortInMembers(x: Line, sorted: seq<Line>, l: Line)
    ensures l in SortIn(x, sorted) <==> l == x || l in sorted
  {
    if sorted != [] && !LexLess(x.productId, sorted[0].productId) {
      SortInMembers(x, sorted[1..], l);
    }
  }

  lemma {:induction false} SortInAscending(x: Line, sorted: seq<Line>)
    requires Ascending(sorted)
    requires forall l :: l in sorted ==> l.productId != x.productId
    ensures Ascending(SortIn(x, sorted))
  {
    if sorted != [] {
      var r := SortIn(x, sorted);
      LexTotal(x.productId, sorted[0].productId);
      if LexLess(x.productId, sorted[0].productId) {
        forall j | 1 <= j < |sorted| ensures LexLess(x.productId, sorted[j].productId) {
          LexTransitive(x.productId, sorted[0].productId, sorted[j].productId);
        }
      } else {
        SortInAscending(x, sorted[1..]);
        assert sorted[0] in sorted;
        forall j | 1 <= j < |r| ensures LexLess(r[0].productId, r[j].productId) {
          assert r[j] == SortIn(x, sorted[1..])[j - 1];
          SortInMembers(x, sorted[1..], r[j]);
        }
      }
    }
  }

  lemma {:induction false} SortedFacts(lines: seq<Line>)
    requires forall i, j :: 0 <= i < j < |lines| ==> lines[i].productId != lines[j].productId
    ensures Ascending(Sorted(lines))
    ensures forall l :: l in Sorted(lines) <==> l in lines
  {
    if lines != [] {
      SortedFacts(lines[1..]);
      SortInAscending(lines[0], Sorted(lines[1..]));
      forall l ensures l in Sorted(lines) <==> l in lines { SortInMembers(lines[0], Sorted(lines[1..]), l); }
    }
  }

  /** The state of the first loop after reading a prefix of the request. */
  ghost predicate Tallied(lines: seq<Line>, quantityById: map<string, Int64>, order: seq<string>) {
    && (forall id :: id in quantityById <==> Mentions(lines, id))
    && (forall id :: id in order <==> id in quantityById)
    && (forall id :: id in quantityById ==> quantityById[id] == Wrap64(Total(lines, id)))
    && (forall j, k :: 0 <= j < k < |order| ==> order[j] != order[k])
  }

  lemma {:induction false} TotalOfAbsent(lines: seq<Line>, id: string)
    requires !Mentions(lines, id)
    ensures Total(lines, id) == 0
  {
    if lines != [] {
      MentionsLast(lines, id);
      TotalOfAbsent(lines[..|lines| - 1], id);
    }
  }

  /** The sum of a product after one more line; an unseen product starts from zero. */
  function Added(quantityById: map<string, Int64>, line: Line): Int64 {
    Wrap64((if line.productId in quantityById then quantityById[line.productId] else 0) + line.quantity)
  }

  lemma TallyStep(lines: seq<Line>, line: Line, quantityById: map<string, Int64>, order: seq<string>)
    requires Tallied(lines, quantityById, order)
    ensures Tallied(lines + [line],
                    quantityById[line.productId := Added(quantityById, line)],
                    if line.productId in quantityById then order else order + [line.productId])
  {
    var sofar := lines + [line];
    assert sofar[..|sofar| - 1] == lines;
    if line.productId !in quantityById {
      TotalOfAbsent(lines, line.productId);
    }
    WrapAdds(Total(lines, line.productId), line.quantity);
    forall id
      ensures Mentions(sofar, id) <==> line.productId == id || Mentions(lines, id)
      ensures Total(sofar, id) == Total(lines, id) + if line.productId == id then line.quantity else 0
    {
      MentionsLast(sofar, id);
    }
  }

  /** Listing a tally and sorting the listing gives the merge. */
  lemma TallyToMerge(lines: seq<Line>, quantityById: map<string, Int64>, order: seq<string>, listed: seq<Line>)
    requires Tallied(lines, quantityById, order)
    requires |listed| == |order|
    requires forall j :: 0 <= j < |order|
                         ==> order[j] in quantityById && listed[j] == Line(order[j], quantityById[order[j]])
    ensures Sorted(listed) == MergeOf(lines)
  {
    var merged := Sorted(listed);
    SortedFacts(listed);
    forall id ensures Mentions(merged, id) <==> Mentions(lines, id) {
      if id in order {
        var j :| 0 <= j < |order| && order[j] == id;
        assert listed[j] in merged;
      }
      if Mentions(merged, id) {
        var k :| 0 <= k < |merged| && merged[k].productId == id;
        assert merged[k] in listed;
      }
    }
    MergeOfIsMerge(lines);
    MergeDependsOnSums(lines, lines, merged, MergeOf(lines));
  }

  /** A map of sums and a list of first appearances, then the list is turned into lines and sorted. */
  method MergeLines(lines: seq<Line>) returns (merged: seq<Line>)
    ensures merged == MergeOf(lines)
  {
    var quantityById: map<string, Int64> := map[];
    var order: seq<string> := [];
    for i := 0 to |lines|
      invariant Tallied(lines[..i], quantityById, order)
    {
      PrefixGrows(lines, i);
      TallyStep(lines[..i], lines[i], quantityById, order);
      if lines[i].productId !in quantityById {
        order := order + [lines[i].productId];
      }
      quantityById := quantityById[lines[i].productId := Added(quantityById, lines[i])];
    }
    assert lines[..|lines|] == lines;
    merged := ListLines(lines, quantityById, order);
    TallyToMerge(lines, quantityById, order, merged);
    merged := Sorted(merged);
  }

  /** The lines in order of first appearance. */
  method ListLines(ghost lines: seq<Line>, quantityById: map<string, Int64>, order: seq<string>)
    returns (listed: seq<Line>)
    requires Tallied(lines, quantityById, order)
    ensures |listed| == |order|
    ensures forall j :: 0 <= j < |order|
                        ==> order[j] in quantityById && listed[j] == Line(order[j], quantityById[order[j]])
  {
    listed := [];
    for i := 0 to |order|
      invariant |listed| == i
      invariant forall j :: 0 <= j < i
                            ==> order[j] in quantityById && listed[j] == Line(order[j], quantityById[order[j]])
    {
      assert order[i] in order;
      listed := listed + [Line(order[i], quantityById[order[i]])];
    }
  }
}
