/**
 Python string operations the repository leans on: code-point order, `split` and `join` on one
 character, and `strip`.
 */
module Text {

  // ----- order -----------------------------------------------------------------------------

  /** Python's `<` on strings: lexicographic by code point. */
  predicate StrLt(a: string, b: string) {
    b != [] && (a == [] || a[0] < b[0] || (a[0] == b[0] && StrLt(a[1..], b[1..])))
  }

  predicate StrLe(a: string, b: string) {
    a == b || StrLt(a, b)
  }

  lemma {:induction false} StrLtIrreflexive(a: string)
    ensures !StrLt(a, a)
  {
    if a != [] {
      StrLtIrreflexive(a[1..]);
    }
  }

  lemma {:induction false} StrLtTransitive(a: string, b: string, c: string)
    requires StrLt(a, b) && StrLt(b, c)
    ensures StrLt(a, c)
  {
    if a != [] && a[0] == b[0] == c[0] {
      StrLtTransitive(a[1..], b[1..], c[1..]);
    }
  }

  lemma {:induction false} StrLtTotal(a: string, b: string)
    ensures StrLt(a, b) || a == b || StrLt(b, a)
  {
    if a != [] && b != [] && a[0] == b[0] {
      StrLtTotal(a[1..], b[1..]);
      assert a == [a[0]] + a[1..] && b == [b[0]] + b[1..];
    }
  }

  lemma StrLtAsymmetric(a: string, b: string)
    requires StrLt(a, b)
    ensures !StrLt(b, a) && a != b
  {
    StrLtIrreflexive(a);
    if StrLt(b, a) {
      StrLtTransitive(a, b, a);
    }
  }

  /** A common prefix does not matter to the order. */
  lemma {:induction false} StrLtPrefix(p: string, a: string, b: string)
    ensures StrLt(p + a, p + b) <==> StrLt(a, b)
  {
    if p == [] {
      assert p + a == a && p + b == b;
    } else {
      assert (p + a)[1..] == p[1..] + a && (p + b)[1..] == p[1..] + b;
      StrLtPrefix(p[1..], a, b);
    }
  }

  /** The order is decided where two texts first differ; a text that only ends sooner comes first. */
  lemma StrLtExactly(p: string, a: string, b: string)
    requires a == "" || b == "" || a[0] != b[0]
    ensures StrLt(p + a, p + b) <==> b != "" && (a == "" || a[0] < b[0])
  {
    StrLtPrefix(p, a, b);
  }

  /** At equal length, the first part decides and the second breaks ties. */
  lemma {:induction false} StrLtConcat(a: string, b: string, x: string, y: string)
    requires |a| == |b|
    ensures StrLt(a + x, b + y) <==> StrLt(a, b) || (a == b && StrLt(x, y))
  {
    if a == [] {
      assert a + x == x && b + y == y;
    } else {
      assert (a + x)[1..] == a[1..] + x && (b + y)[1..] == b[1..] + y;
      assert a == b <==> a[0] == b[0] && a[1..] == b[1..] by {
        assert a == [a[0]] + a[1..] && b == [b[0]] + b[1..];
      }
      StrLtConcat(a[1..], b[1..], x, y);
    }
  }

  ghost predicate StrictlySorted(names: seq<string>) {
    forall i, j :: 0 <= i < j < |names| ==> StrLt(names[i], names[j])
  }

  ghost function Members(names: seq<string>): set<string> {
    set n | n in names
  }

  /** The sorted listing of a set of names is unique, so `sorted(...)` is a function of the set. */
  lemma {:induction false} SortedUnique(a: seq<string>, b: seq<string>)
    requires StrictlySorted(a) && StrictlySorted(b) && Members(a) == Members(b)
    ensures a == b
  {
    assert forall n :: n in a <==> n in Members(a);
    assert forall n :: n in b <==> n in Members(b);
    if a != [] {
      assert a[0] in b;
    }
    if b != [] {
      assert b[0] in a;
      var i :| 0 <= i < |b| && b[i] == a[0];
      var j :| 0 <= j < |a| && a[j] == b[0];
      if i > 0 && j > 0 {
        StrLtAsymmetric(a[0], b[0]);
      }
      assert a[0] == b[0];
      TailMembers(a);
      TailMembers(b);
      SortedUnique(a[1..], b[1..]);
      assert a == [a[0]] + a[1..] && b == [b[0]] + b[1..];
    }
  }

  lemma TailMembers(a: seq<string>)
    requires a != [] && StrictlySorted(a)
    ensures Members(a[1..]) == Members(a) - {a[0]}
    ensures StrictlySorted(a[1..])
  {
    forall n ensures n in Members(a[1..]) <==> n in Members(a) - {a[0]} {
      if n in a[1..] {
        var k :| 0 <= k < |a| - 1 && a[1..][k] == n;
        StrLtAsymmetric(a[0], a[k + 1]);
      }
    }
  }

  /** Any finite set of names has a least one. */
  lemma {:induction false} LeastExists(s: set<string>) returns (least: string)
    requires s != {}
    ensures least in s && forall n :: n in s ==> StrLe(least, n)
  {
    var x :| x in s;
    if s == {x} {
      least := x;
    } else {
      var m := LeastExists(s - {x});
      StrLtTotal(x, m);
      least := if StrLt(x, m) then x else m;
      forall n | n in s ensures StrLe(least, n) {
        if n != x && least == x && m != n {
          assert n in s - {x};
          StrLtTransitive(x, m, n);
        }
      }
    }
  }

  /** `sorted(names)`: insertion of the least name first. */
  ghost function Sorted(s: set<string>): (r: seq<string>)
    ensures StrictlySorted(r) && Members(r) == s
  {
    if s == {} then
      []
    else
      var least := Least(s);
      var rest := Sorted(s - {least});
      assert Members([least] + rest) == {least} + Members(rest);
      assert forall n :: n in rest ==> n in Members(rest);
      [least] + rest
  }

  lemma SortedOne(n: string)
    ensures Sorted({n}) == [n]
  {
    assert Members([n]) == {n};
    SortedUnique(Sorted({n}), [n]);
  }

  ghost function Least(s: set<string>): (least: string)
    requires s != {}
    ensures least in s && forall n :: n in s && n != least ==> StrLt(least, n)
  {
    assert exists m :: m in s && forall n :: n in s ==> StrLe(m, n) by {
      var m := LeastExists(s);
    }
    var least :| least in s && forall n :: n in s ==> StrLe(least, n);
    least
  }

  /** Part of `s` is out in order, and `rest` comes after all of it. */
  ghost predicate Sorting(names: seq<string>, rest: set<string>, s: set<string>) {
    && StrictlySorted(names)
    && (forall n :: n in s <==> n in names || n in rest)
    && (forall m, n :: m in names && n in rest ==> StrLt(m, n))
  }

  lemma SortingStep(names: seq<string>, rest: set<string>, s: set<string>, least: string)
    requires Sorting(names, rest, s) && least in rest && forall n :: n in rest ==> StrLe(least, n)
    ensures Sorting(names + [least], rest - {least}, s)
  {
    var next := names + [least];
    forall i, j | 0 <= i < j < |next| ensures StrLt(next[i], next[j]) {
      if j == |names| {
        assert next[i] in names;
      }
    }
  }

  method SortNames(s: set<string>) returns (names: seq<string>)
    ensures names == Sorted(s)
  {
    names := [];
    var rest := s;
    while rest != {}
      invariant Sorting(names, rest, s)
      decreases |rest|
    {
      ghost var first := LeastExists(rest);
      var least :| least in rest && forall n :: n in rest ==> StrLe(least, n);
      SortingStep(names, rest, s, least);
      names, rest := names + [least], rest - {least};
    }
    assert forall n :: n in Members(names) <==> n in s;
    SortedUnique(names, Sorted(s));
  }

  // ----- split and join --------------------------------------------------------------------

  /** `s.split(c)` for a one-character separator: always at least one part. */
  function Split(s: string, c: char): (parts: seq<string>)
    ensures |parts| >= 1
  {
    if s == "" then
      [""]
    else if s[0] == c then
      [""] + Split(s[1..], c)
    else
      var rest := Split(s[1..], c);
      [[s[0]] + rest[0]] + rest[1..]
  }

  /** `c.join(parts)`. */
  function Join(parts: seq<string>, c: char): string {
    if |parts| == 0 then ""
    else if |parts| == 1 then parts[0]
    else parts[0] + [c] + Join(parts[1..], c)
  }

  lemma {:induction false} JoinSplit(s: string, c: char)
    ensures Join(Split(s, c), c) == s
    ensures forall p :: p in Split(s, c) ==> c !in p
  {
    if s != "" {
      JoinSplit(s[1..], c);
      var rest := Split(s[1..], c);
      assert s == [s[0]] + s[1..];
      assert rest[0] in rest;
      if s[0] == c {
        JoinEmpty(rest, c);
      } else {
        JoinLonger(rest, s[0], c);
      }
    }
  }

  lemma JoinEmpty(rest: seq<string>, c: char)
    requires |rest| >= 1
    ensures Join([""] + rest, c) == [c] + Join(rest, c)
  {
    assert ([""] + rest)[1..] == rest;
  }

  lemma JoinLonger(rest: seq<string>, x: char, c: char)
    requires |rest| >= 1
    ensures Join([[x] + rest[0]] + rest[1..], c) == [x] + Join(rest, c)
  {
    var parts := [[x] + rest[0]] + rest[1..];
    assert parts[1..] == rest[1..];
    if |rest| > 1 {
      assert [x] + (rest[0] + [c] + Join(rest[1..], c)) == ([x] + rest[0]) + [c] + Join(rest[1..], c);
    }
  }

  lemma {:induction false} SplitWhole(p: string, c: char)
    requires c !in p
    ensures Split(p, c) == [p]
  {
    if p != "" {
      SplitWhole(p[1..], c);
      assert p == [p[0]] + p[1..];
    }
  }

  /** A separator cuts the text into what is left of it and what is right of it. */
  lemma {:induction false} SplitAt(a: string, c: char, b: string)
    ensures Split(a + [c] + b, c) == Split(a, c) + Split(b, c)
  {
    var s := a + [c] + b;
    if a == "" {
      assert s[1..] == b;
    } else {
      assert s[1..] == a[1..] + [c] + b;
      SplitAt(a[1..], c, b);
    }
  }

  lemma {:induction false} SplitJoin(parts: seq<string>, c: char)
    requires |parts| >= 1
    requires forall p :: p in parts ==> c !in p
    ensures Split(Join(parts, c), c) == parts
  {
    SplitWhole(parts[0], c);
    if |parts| > 1 {
      SplitJoin(parts[1..], c);
      SplitAt(parts[0], c, Join(parts[1..], c));
      assert parts == [parts[0]] + parts[1..];
    }
  }

  lemma {:induction false} JoinAppend(a: seq<string>, b: seq<string>, c: char)
    requires |a| >= 1 && |b| >= 1
    ensures Join(a + b, c) == Join(a, c) + [c] + Join(b, c)
  {
    assert (a + b)[0] == a[0] && (a + b)[1..] == a[1..] + b;
    if |a| > 1 {
      JoinAppend(a[1..], b, c);
    } else {
      assert a[1..] + b == b;
    }
  }

  lemma {:induction false} SegmentWithin(s: string, c: char, segment: string, x: char)
    requires segment in Split(s, c) && x !in s
    ensures x !in segment
  {
    if s != "" {
      var rest := Split(s[1..], c);
      if s[0] == c {
        if segment in rest {
          SegmentWithin(s[1..], c, segment, x);
        }
      } else if segment in rest[1..] {
        SegmentWithin(s[1..], c, segment, x);
      } else {
        assert segment == [s[0]] + rest[0] && rest[0] in rest;
        SegmentWithin(s[1..], c, rest[0], x);
      }
    }
  }

  lemma {:induction false} JoinWithout(parts: seq<string>, c: char, x: char)
    requires x != c && forall p :: p in parts ==> x !in p
    ensures x !in Join(parts, c)
  {
    if |parts| > 1 {
      JoinWithout(parts[1..], c, x);
    }
  }

  // ----- strip -----------------------------------------------------------------------------

  /** `str.isspace` on one character. */
  predicate IsSpace(c: char) {
    var n := c as int;
    || 9 <= n <= 13 || 28 <= n <= 32 || n in {0x85, 0xA0, 0x1680, 0x2028, 0x2029, 0x202F, 0x205F, 0x3000}
    || 0x2000 <= n <= 0x200A
  }

  predicate Blank(s: string) {
    forall i :: 0 <= i < |s| ==> IsSpace(s[i])
  }

  /** How many leading characters are white. */
  function Leading(s: string): (n: nat)
    ensures n <= |s| && Blank(s[..n]) && (n < |s| ==> !IsSpace(s[n]))
  {
    if s != "" && IsSpace(s[0]) then
      assert forall i :: 0 < i < |s| ==> s[i] == s[1..][i - 1];
      1 + Leading(s[1..])
    else 0
  }

  /** The position after the last character that is not white. */
  function Trailing(s: string): (n: nat)
    ensures n <= |s| && Blank(s[n..]) && (n > 0 ==> !IsSpace(s[n - 1]))
  {
    if s != "" && IsSpace(s[|s| - 1]) then Trailing(s[..|s| - 1]) else |s|
  }

  function RStrip(s: string): string {
    s[..Trailing(s)]
  }

  /** `s.strip()`: empty exactly when all is white, and otherwise bounded by characters that are not. */
  function Strip(s: string): (r: string)
    ensures r == "" <==> Blank(s)
    ensures r != "" ==> !IsSpace(r[0]) && !IsSpace(r[|r| - 1])
    ensures exists i, j :: 0 <= i <= j <= |s| && r == s[i..j] && Blank(s[..i]) && Blank(s[j..])
  {
    var i, j := Leading(s), Trailing(s);
    assert forall k :: 0 <= k < i ==> s[k] == s[..i][k];
    assert forall k :: j <= k < |s| ==> s[k] == s[j..][k - j];
    if i == |s| then
      assert s[|s|..|s|] == "" && s[..|s|] == s;
      ""
    else
      assert i < j;
      s[i..j]
  }

  // ----- decimal text ----------------------------------------------------------------------

  predicate IsDigit(c: char) {
    '0' <= c <= '9'
  }

  predicate AllDigits(s: string) {
    forall i :: 0 <= i < |s| ==> IsDigit(s[i])
  }

  function DigitChar(d: nat): (c: char)
    requires d < 10
    ensures IsDigit(c)
  {
    '0' + d as char
  }

  /** The value of a run of ASCII digits. */
  function Num(s: string): nat
    requires AllDigits(s)
  {
    if s == "" then 0 else 10 * Num(s[..|s| - 1]) + (s[|s| - 1] as int - '0' as int) as nat
  }

  /** `str(n)` for a natural number. */
  function Decimal(n: nat): (s: string)
    ensures |s| >= 1 && AllDigits(s)
  {
    if n < 10 then [DigitChar(n)] else Decimal(n / 10) + [DigitChar(n % 10)]
  }

  function DecimalInt(n: int): string {
    if n < 0 then "-" + Decimal(-n) else Decimal(n)
  }

  lemma {:induction false} NumDecimal(n: nat)
    ensures Num(Decimal(n)) == n
  {
    if n < 10 {
      assert Decimal(n)[..0] == "";
    } else {
      NumDecimal(n / 10);
      assert Decimal(n)[..|Decimal(n)| - 1] == Decimal(n / 10);
    }
  }

  /** No leading zero. */
  lemma {:induction false} DecimalLeads(n: nat)
    ensures n > 0 ==> Decimal(n)[0] != '0'
    ensures Decimal(0) == "0"
  {
    if n >= 10 {
      DecimalLeads(n / 10);
    }
  }

  // ----- fixed-width decimal text ------------------------------------------------------------

  function Pow10(n: nat): int {
    if n == 0 then 1 else 10 * Pow10(n - 1)
  }

  /** `f"{n:0{width}d}"` for a number that fits in `width` digits. */
  function Pad(n: nat, width: nat): (s: string)
    ensures |s| == width
  {
    if width == 0 then "" else Pad(n / 10, width - 1) + [DigitChar(n % 10)]
  }

  lemma {:induction false} PadNum(s: string)
    requires AllDigits(s)
    ensures Pad(Num(s), |s|) == s && Num(s) < Pow10(|s|)
  {
    if s != "" {
      PadNum(s[..|s| - 1]);
      var d := s[|s| - 1] as int - '0' as int;
      assert Num(s) / 10 == Num(s[..|s| - 1]) && Num(s) % 10 == d && DigitChar(d) == s[|s| - 1];
      assert s == s[..|s| - 1] + [s[|s| - 1]];
    }
  }

  lemma {:induction false} NumPad(n: nat, width: nat)
    requires n < Pow10(width)
    ensures AllDigits(Pad(n, width)) && Num(Pad(n, width)) == n
  {
    if width != 0 {
      NumPad(n / 10, width - 1);
      var s := Pad(n, width);
      assert s[..width - 1] == Pad(n / 10, width - 1);
    }
  }

  /** Equal-width decimal text sorts by value. */
  lemma {:induction false} PadOrder(a: nat, b: nat, width: nat)
    requires a < Pow10(width) && b < Pow10(width)
    ensures StrLt(Pad(a, width), Pad(b, width)) <==> a < b
    ensures Pad(a, width) == Pad(b, width) <==> a == b
  {
    if width != 0 {
      PadOrder(a / 10, b / 10, width - 1);
      StrLtConcat(Pad(a / 10, width - 1), Pad(b / 10, width - 1), [DigitChar(a % 10)], [DigitChar(b % 10)]);
      NumPad(a, width);
      NumPad(b, width);
    }
  }
}
