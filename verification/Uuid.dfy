/** UUID values, their text (section 4 of RFC 9562) and the two orders the program relies on:
    Go compares the text, SQL compares the 16 bytes, that is the 128-bit number. */
module Uuid {
  import opened Basics

  const LIMIT: nat := 0x1_0000_0000_0000_0000_0000_0000_0000_0000

  type Uuid = u: nat | u < LIMIT

  /** Go's `<` on strings: the first differing character decides, a proper prefix is smaller. */
  predicate LexLess(a: string, b: string) {
    b != [] && (a == [] || a[0] < b[0] || (a[0] == b[0] && LexLess(a[1..], b[1..])))
  }

  function HexChar(d: nat): (c: char)
    requires d < 16
  {
    if d < 10 then '0' + d as char else 'a' + (d - 10) as char
  }

  /** Both cases are accepted on input. */
  function HexDigit(c: char): Option<nat> {
    if '0' <= c <= '9' then Some((c - '0') as nat)
    else if 'a' <= c <= 'f' then Some((c - 'a') as nat + 10)
    else if 'A' <= c <= 'F' then Some((c - 'A') as nat + 10)
    else None
  }

  /** The n low-order hexadecimal digits of v, most significant first. */
  function Hex(v: nat, n: nat): (t: string)
    ensures |t| == n
  {
    if n == 0 then "" else Hex(v / 16, n - 1) + [HexChar(v % 16)]
  }

  function HexValue(t: string): Option<nat> {
    if t == "" then Some(0)
    else match (HexValue(t[..|t| - 1]), HexDigit(t[|t| - 1]))
         case (Some(v), Some(d)) => Some(16 * v + d)
         case _ => None
  }

  /** The 8-4-4-4-12 layout. */
  function Hyphenated(t: string): string
    requires |t| == 32
  {
    t[..8] + ("-" + (t[8..12] + ("-" + (t[12..16] + ("-" + (t[16..20] + ("-" + t[20..])))))))
  }

  predicate HyphensInPlace(t: string) {
    |t| == 36 && t[8] == '-' && t[13] == '-' && t[18] == '-' && t[23] == '-'
  }

  function Unhyphenated(t: string): (d: string)
    requires HyphensInPlace(t)
    ensures |d| == 32
  {
    t[..8] + t[9..13] + t[14..18] + t[19..23] + t[24..]
  }

  /** The lower-case text the database and the id generator produce. */
  function Format(u: Uuid): string {
    Hyphenated(Hex(u, 32))
  }

  /** The text a uuid column accepts; None is the malformed-id error. */
  function Parse(t: string): Option<Uuid> {
    if HyphensInPlace(t) then
      match HexValue(Unhyphenated(t))
      case Some(v) => (HexValueBound(Unhyphenated(t)); PowerIsLimit(); Some(v))
      case None => None
    else None
  }

  predicate Canonical(t: string) {
    Parse(t).Some? && t == Format(Parse(t).value)
  }

  // ----- digits

  function Power16(n: nat): (p: nat)
    ensures p > 0
  {
    if n == 0 then 1 else 16 * Power16(n - 1)
  }

  lemma PowerIsLimit()
    ensures Power16(32) == LIMIT
  {
    assert Power16(8) == 0x1_0000_0000;
    assert Power16(16) == 0x1_0000_0000_0000_0000;
    assert Power16(24) == 0x1_0000_0000_0000_0000_0000_0000;
  }

  lemma {:induction false} HexValueBound(t: string)
    ensures HexValue(t).Some? ==> HexValue(t).value < Power16(|t|)
  {
    if t != "" {
      HexValueBound(t[..|t| - 1]);
    }
  }

  lemma {:induction false} HexValueOfHex(v: nat, n: nat)
    requires v < Power16(n)
    ensures HexValue(Hex(v, n)) == Some(v)
  {
    if n > 0 {
      HexValueOfHex(v / 16, n - 1);
      var t := Hex(v, n);
      assert t[..n - 1] == Hex(v / 16, n - 1);
      assert HexDigit(t[n - 1]) == Some(v % 16);
    }
  }

  // ----- round trip

  lemma UnhyphenatedHyphenated(t: string)
    requires |t| == 32
    ensures HyphensInPlace(Hyphenated(t)) && Unhyphenated(Hyphenated(t)) == t
  {
    var h := Hyphenated(t);
    assert h[..8] == t[..8];
    assert h[9..13] == t[8..12];
    assert h[14..18] == t[12..16];
    assert h[19..23] == t[16..20];
    assert h[24..] == t[20..];
    assert t == t[..8] + t[8..12] + t[12..16] + t[16..20] + t[20..];
  }

  /** What the database prints for an id is read back as that id, so printed ids are canonical
      and distinct ids have distinct text. */
  lemma ParseFormat(u: Uuid)
    ensures Parse(Format(u)) == Some(u)
    ensures Canonical(Format(u))
  {
    PowerIsLimit();
    HexValueOfHex(u, 32);
    UnhyphenatedHyphenated(Hex(u, 32));
  }

  lemma {:induction false} HexDigitsLower(v: nat, n: nat)
    ensures forall i :: 0 <= i < n ==> '0' <= Hex(v, n)[i] <= '9' || 'a' <= Hex(v, n)[i] <= 'f'
  {
    if n > 0 {
      HexDigitsLower(v / 16, n - 1);
    }
  }

  /** The printed form: 36 characters, hyphens at 8, 13, 18 and 23, lower-case hexadecimal elsewhere. */
  lemma FormatShape(u: Uuid)
    ensures |Format(u)| == 36
    ensures forall i :: 0 <= i < 36 ==>
                          if i in {8, 13, 18, 23} then Format(u)[i] == '-'
                          else '0' <= Format(u)[i] <= '9' || 'a' <= Format(u)[i] <= 'f'
  {
    HexDigitsLower(u, 32);
    var h := Hex(u, 32);
    assert forall i :: 0 <= i < 36 && i !in {8, 13, 18, 23} ==> Format(u)[i] in h;
  }

  // ----- lexicographic order is a strict total order

  lemma {:induction false} LexTotal(a: string, b: string)
    ensures LexLess(a, b) || a == b || LexLess(b, a)
    ensures !(LexLess(a, b) && LexLess(b, a)) && (a == b ==> !LexLess(a, b))
  {
    if a != [] && b != [] && a[0] == b[0] {
      LexTotal(a[1..], b[1..]);
      assert a == [a[0]] + a[1..] && b == [b[0]] + b[1..];
    }
  }

  /** The first difference decides. */
  lemma {:induction false} LexDifference(a: string, b: string, i: nat)
    requires i < |a| && i < |b| && a[..i] == b[..i] && a[i] != b[i]
    ensures LexLess(a, b) <==> a[i] < b[i]
    decreases i
  {
    if i > 0 {
      assert a[0] == a[..i][0] && b[0] == b[..i][0];
      assert a[1..][..i - 1] == a[..i][1..] && b[1..][..i - 1] == b[..i][1..];
      LexDifference(a[1..], b[1..], i - 1);
    }
  }

  /** A text comes before its extensions. */
  lemma {:induction false} LexPrefix(a: string, more: string)
    requires more != []
    ensures LexLess(a, a + more)
  {
    if a != [] {
      LexPrefix(a[1..], more);
      assert (a + more)[1..] == a[1..] + more;
    } else {
      assert a + more == more;
    }
  }

  lemma {:induction false} LexTransitive(a: string, b: string, c: string)
    requires LexLess(a, b) && LexLess(b, c)
    ensures LexLess(a, c)
  {
    if a != [] && a[0] == b[0] == c[0] {
      LexTransitive(a[1..], b[1..], c[1..]);
    }
  }

  // ----- the text order of canonical ids is the order of their values

  /** With equal-length heads, the heads decide first. */
  lemma {:induction false} LexConcat(a: string, x: string, b: string, y: string)
    requires |a| == |b|
    ensures LexLess(a + x, b + y) <==> LexLess(a, b) || (a == b && LexLess(x, y))
  {
    if a == [] {
      assert a + x == x && b + y == y;
    } else {
      assert (a + x)[1..] == a[1..] + x && (b + y)[1..] == b[1..] + y;
      assert a == [a[0]] + a[1..] && b == [b[0]] + b[1..];
      LexConcat(a[1..], x, b[1..], y);
    }
  }

  lemma LexHyphen(a: string, x: string, b: string, y: string)
    requires |a| == |b|
    ensures LexLess(a + ("-" + x), b + ("-" + y)) <==> LexLess(a + x, b + y)
  {
    LexConcat(a, "-" + x, b, "-" + y);
    LexConcat("-", x, "-", y);
    LexConcat(a, x, b, y);
  }

  /** A common hyphen after equal-length heads can be dropped even behind another pair of heads. */
  lemma LexUnder(a: string, x: string, x': string, b: string, y: string, y': string)
    requires |a| == |b|
    requires LexLess(x, y) <==> LexLess(x', y')
    ensures LexLess(a + x, b + y) <==> LexLess(a + x', b + y')
  {
    LexConcat(a, x, b, y);
    LexConcat(a, x', b, y');
  }

  lemma Slices(s: string, i: nat, j: nat)
    requires i <= j <= |s|
    ensures s[i..j] + s[j..] == s[i..]
  {}

  /** One more group: comparing from position i on with a hyphen at j is comparing without it. */
  lemma LexGroup(s: string, t: string, i: nat, j: nat, x: string, y: string)
    requires i <= j <= |s| && |s| == |t|
    requires LexLess(x, y) <==> LexLess(s[j..], t[j..])
    ensures LexLess(s[i..j] + ("-" + x), t[i..j] + ("-" + y)) <==> LexLess(s[i..], t[i..])
  {
    LexHyphen(s[i..j], x, t[i..j], y);
    LexUnder(s[i..j], x, s[j..], t[i..j], y, t[j..]);
    Slices(s, i, j);
    Slices(t, i, j);
  }

  lemma LexHyphenated(s: string, t: string)
    requires |s| == 32 && |t| == 32
    ensures LexLess(Hyphenated(s), Hyphenated(t)) <==> LexLess(s, t)
  {
    var s4, t4 := s[16..20] + ("-" + s[20..]), t[16..20] + ("-" + t[20..]);
    var s3, t3 := s[12..16] + ("-" + s4), t[12..16] + ("-" + t4);
    var s2, t2 := s[8..12] + ("-" + s3), t[8..12] + ("-" + t3);
    LexGroup(s, t, 16, 20, s[20..], t[20..]);
    LexGroup(s, t, 12, 16, s4, t4);
    LexGroup(s, t, 8, 12, s3, t3);
    LexGroup(s, t, 0, 8, s2, t2);
    assert s[0..] == s && t[0..] == t;
  }

  lemma {:induction false} HexOrder(a: nat, b: nat, n: nat)
    requires a < Power16(n) && b < Power16(n)
    ensures LexLess(Hex(a, n), Hex(b, n)) <==> a < b
    ensures Hex(a, n) == Hex(b, n) ==> a == b
  {
    if n > 0 {
      HexOrder(a / 16, b / 16, n - 1);
      LexConcat(Hex(a / 16, n - 1), [HexChar(a % 16)], Hex(b / 16, n - 1), [HexChar(b % 16)]);
    }
    HexValueOfHex(a, n);
    HexValueOfHex(b, n);
  }

  /** The order used by the merge of order lines is the order used by ORDER BY on uuid columns. */
  lemma TextOrderIsValueOrder(a: Uuid, b: Uuid)
    ensures LexLess(Format(a), Format(b)) <==> a < b
  {
    PowerIsLimit();
    HexOrder(a, b, 32);
    LexHyphenated(Hex(a, 32), Hex(b, 32));
  }

  // ----- another spelling of the same id

  function UpperChar(c: char): char {
    if 'a' <= c <= 'f' then 'A' + (c - 'a') else c
  }

  function Upper(t: string): (r: string)
    ensures |r| == |t| && forall i :: 0 <= i < |t| ==> r[i] == UpperChar(t[i])
  {
    seq(|t|, i requires 0 <= i < |t| => UpperChar(t[i]))
  }

  lemma {:induction false} HexValueUpper(t: string)
    ensures HexValue(Upper(t)) == HexValue(t)
  {
    if t != "" {
      var n := |t| - 1;
      assert Upper(t)[..n] == Upper(t[..n]);
      HexValueUpper(t[..n]);
    }
  }

  lemma UpperSlice(t: string, i: nat, j: nat)
    requires i <= j <= |t|
    ensures Upper(t)[i..j] == Upper(t[i..j])
  {}

  lemma UpperConcat(a: string, b: string)
    ensures Upper(a + b) == Upper(a) + Upper(b)
  {}

  lemma UpperUnhyphenated(t: string)
    requires HyphensInPlace(t)
    ensures HyphensInPlace(Upper(t)) && Unhyphenated(Upper(t)) == Upper(Unhyphenated(t))
  {
    var (a, b, c, d, e) := (t[..8], t[9..13], t[14..18], t[19..23], t[24..]);
    UpperSlice(t, 0, 8);
    UpperSlice(t, 9, 13);
    UpperSlice(t, 14, 18);
    UpperSlice(t, 19, 23);
    UpperSlice(t, 24, 36);
    UpperConcat(a, b);
    UpperConcat(a + b, c);
    UpperConcat(a + b + c, d);
    UpperConcat(a + b + c + d, e);
  }

  /** The upper-case text of an id is read as the same id. */
  lemma ParseUpper(u: Uuid)
    ensures Parse(Upper(Format(u))) == Some(u)
  {
    var t := Format(u);
    ParseFormat(u);
    UpperUnhyphenated(t);
    HexValueUpper(Unhyphenated(t));
  }

  lemma {:induction false} SameDigits(t: string, v: nat)
    requires HexValue(t) == Some(v)
    ensures Upper(t) == Upper(Hex(v, |t|))
  {
    if t != "" {
      var n := |t| - 1;
      var d := HexDigit(t[n]).value;
      SameDigits(t[..n], v / 16);
      assert Upper(t) == Upper(t[..n]) + [UpperChar(t[n])];
      assert Upper(Hex(v, |t|)) == Upper(Hex(v / 16, n)) + [UpperChar(HexChar(v % 16))];
    }
  }

  lemma UpperHyphenated(t: string)
    requires |t| == 32
    ensures Upper(Hyphenated(t)) == Hyphenated(Upper(t))
  {
    forall i | 0 <= i < 36 ensures Upper(Hyphenated(t))[i] == Hyphenated(Upper(t))[i] {}
  }

  lemma Rehyphenated(t: string)
    requires HyphensInPlace(t)
    ensures Hyphenated(Unhyphenated(t)) == t
  {
    var d := Unhyphenated(t);
    assert d[..8] == t[..8] && d[8..12] == t[9..13] && d[12..16] == t[14..18] && d[16..20] == t[19..23] && d[20..] == t[24..];
    assert t == t[..8] + ("-" + (t[9..13] + ("-" + (t[14..18] + ("-" + (t[19..23] + ("-" + t[24..])))))));
  }

  /** A text is read as an id exactly when it is the printed text of the id up to the case of its letters. */
  lemma ParseSpelling(t: string, u: Uuid)
    ensures Parse(t) == Some(u) <==> Upper(t) == Upper(Format(u))
  {
    ParseFormat(u);
    if Parse(t) == Some(u) {
      Rehyphenated(t);
      SameDigits(Unhyphenated(t), u);
      UpperHyphenated(Unhyphenated(t));
      UpperHyphenated(Hex(u, 32));
    }
    if Upper(t) == Upper(Format(u)) {
      HyphensKept(t, Format(u));
      UpperUnhyphenated(t);
      UpperUnhyphenated(Format(u));
      HexValueUpper(Unhyphenated(t));
      HexValueUpper(Unhyphenated(Format(u)));
    }
  }

  lemma HyphensKept(t: string, printed: string)
    requires HyphensInPlace(printed) && Upper(t) == Upper(printed)
    ensures HyphensInPlace(t)
  {
    assert forall i :: 0 <= i < 36 ==> UpperChar(t[i]) == Upper(t)[i] == UpperChar(printed[i]);
    assert UpperChar(t[8]) == '-' && UpperChar(t[13]) == '-' && UpperChar(t[18]) == '-' && UpperChar(t[23]) == '-';
  }

  /** The leading digit of an id is a letter. */
  predicate LeadsWithLetter(u: Uuid) {
    u >= 10 * Power16(31)
  }

  lemma {:induction false} LeadingDigit(v: nat, n: nat)
    requires n > 0 && 10 * Power16(n - 1) <= v < Power16(n)
    ensures 'a' <= Hex(v, n)[0] <= 'f'
  {
    if n > 1 {
      LeadingDigit(v / 16, n - 1);
    } else {
      assert Hex(v, 1) == Hex(v / 16, 0) + [HexChar(v % 16)];
      assert Hex(v, 1)[0] == HexChar(v % 16);
    }
  }

  /** Upper-casing puts an id that leads with a letter before every canonical one that does. */
  lemma UpperCaseInverts(a: Uuid, b: Uuid)
    requires LeadsWithLetter(a) && LeadsWithLetter(b)
    ensures LexLess(Upper(Format(b)), Format(a)) && !Canonical(Upper(Format(b)))
  {
    PowerIsLimit();
    assert Power16(32) == 16 * Power16(31);
    LeadingDigit(a, 32);
    LeadingDigit(b, 32);
    ParseUpper(b);
    assert Format(a)[0] == Hex(a, 32)[..8][0];
    assert Format(b)[0] == Hex(b, 32)[..8][0];
  }
}
