/** The string operations bulb takes from Go's standard library, on ASCII text. */
module Text {
  import Ordering

  predicate IsSpace(c: char) {
    c == ' ' || c == '\t' || c == '\n' || c == '\r' || c == '\U{0B}' || c == '\U{0C}'
  }

  predicate IsNewline(c: char) { c == '\n' }

  predicate IsComma(c: char) { c == ',' }

  predicate IsDigit(c: char) { '0' <= c <= '9' }

  ghost predicate Free(s: string, sep: char -> bool) {
    forall i :: 0 <= i < |s| ==> !sep(s[i])
  }

  ghost predicate AllFree(parts: seq<string>, sep: char -> bool) {
    forall i :: 0 <= i < |parts| ==> Free(parts[i], sep)
  }

  // ---- strings.Split, strings.Fields, strings.Join ----

  function Split(s: string, sep: char -> bool): (r: seq<string>)
    ensures |r| >= 1
  {
    if s == "" then [""]
    else
      var r := Split(s[1..], sep);
      if sep(s[0]) then [""] + r else [[s[0]] + r[0]] + r[1..]
  }

  function NonEmpty(parts: seq<string>): seq<string> {
    if parts == [] then []
    else (if parts[0] == "" then [] else [parts[0]]) + NonEmpty(parts[1..])
  }

  function Fields(s: string): seq<string> {
    NonEmpty(Split(s, IsSpace))
  }

  function Join(parts: seq<string>, c: char): string {
    if parts == [] then "" else if |parts| == 1 then parts[0] else parts[0] + [c] + Join(parts[1..], c)
  }

  lemma {:induction false} SplitFirst(a: string, c: char, rest: string, sep: char -> bool)
    requires Free(a, sep) && sep(c)
    ensures Split(a + [c] + rest, sep) == [a] + Split(rest, sep)
    decreases |a|
  {
    var s := a + [c] + rest;
    if a == "" {
      assert s[0] == c && s[1..] == rest;
    } else {
      assert s[0] == a[0] && s[1..] == a[1..] + [c] + rest;
      SplitFirst(a[1..], c, rest, sep);
      assert [a[0]] + a[1..] == a;
    }
  }

  lemma {:induction false} SplitFree(a: string, sep: char -> bool)
    requires Free(a, sep)
    ensures Split(a, sep) == [a]
  {
    if a != "" {
      SplitFree(a[1..], sep);
      assert [a[0]] + a[1..] == a;
    }
  }

  /** Splitting a join gives the parts back. */
  lemma {:induction false} SplitJoin(parts: seq<string>, c: char, sep: char -> bool)
    requires parts != [] && AllFree(parts, sep) && sep(c)
    ensures Split(Join(parts, c), sep) == parts
  {
    if |parts| == 1 {
      SplitFree(parts[0], sep);
    } else {
      assert AllFree(parts[1..], sep);
      SplitJoin(parts[1..], c, sep);
      SplitFirst(parts[0], c, Join(parts[1..], c), sep);
    }
  }

  lemma {:induction false} NonEmptyAll(parts: seq<string>)
    requires forall i :: 0 <= i < |parts| ==> parts[i] != ""
    ensures NonEmpty(parts) == parts
  {
    if parts != [] { NonEmptyAll(parts[1..]); }
  }

  lemma FieldsJoin(tokens: seq<string>)
    requires tokens != [] && AllFree(tokens, IsSpace)
    requires forall i :: 0 <= i < |tokens| ==> tokens[i] != ""
    ensures Fields(Join(tokens, ' ')) == tokens
  {
    SplitJoin(tokens, ' ', IsSpace);
    NonEmptyAll(tokens);
  }

  lemma {:induction false} JoinFree(parts: seq<string>, c: char, sep: char -> bool)
    requires AllFree(parts, sep) && !sep(c)
    ensures Free(Join(parts, c), sep)
  {
    if |parts| > 1 {
      assert AllFree(parts[1..], sep);
      JoinFree(parts[1..], c, sep);
    }
  }

  lemma JoinEnds(parts: seq<string>, c: char)
    requires parts != [] && parts[0] != "" && parts[|parts| - 1] != ""
    ensures var j := Join(parts, c);
            && |j| > 0 && j[0] == parts[0][0]
            && j[|j| - 1] == parts[|parts| - 1][|parts[|parts| - 1]| - 1]
  {
    JoinTail(parts, c);
  }

  lemma {:induction false} JoinTail(parts: seq<string>, c: char)
    requires parts != [] && parts[|parts| - 1] != ""
    ensures var j, last := Join(parts, c), parts[|parts| - 1];
            |j| > 0 && j[|j| - 1] == last[|last| - 1]
  {
    if |parts| > 1 { JoinTail(parts[1..], c); }
  }

  // ---- strings.TrimSpace ----

  function TrimLeft(s: string): string {
    if s != "" && IsSpace(s[0]) then TrimLeft(s[1..]) else s
  }

  function TrimRight(s: string): string {
    if s != "" && IsSpace(s[|s| - 1]) then TrimRight(s[..|s| - 1]) else s
  }

  function TrimSpace(s: string): string {
    TrimRight(TrimLeft(s))
  }

  lemma TrimNothing(s: string)
    requires s == "" || (!IsSpace(s[0]) && !IsSpace(s[|s| - 1]))
    ensures TrimSpace(s) == s
  {
  }

  lemma TrimTrailing(s: string, c: char)
    requires s != "" && !IsSpace(s[0]) && !IsSpace(s[|s| - 1]) && IsSpace(c)
    ensures TrimSpace(s + [c]) == s
  {
    assert TrimLeft(s + [c]) == s + [c];
    assert (s + [c])[..|s|] == s && (s + [c])[|s|] == c;
    assert TrimRight(s) == s;
  }

  // ---- decimal numbers ----

  function Digit(d: nat): char
    requires d < 10
  {
    '0' + d as char
  }

  function DigitValue(c: char): nat
    requires IsDigit(c)
  {
    (c - '0') as nat
  }

  function Decimal(n: nat): string {
    if n < 10 then [Digit(n)] else Decimal(n / 10) + [Digit(n % 10)]
  }

  /** `%d`. */
  function Itoa(n: int): string {
    if n < 0 then "-" + Decimal(-n) else Decimal(n)
  }

  function LeadingDigits(s: string): (d: string)
    ensures forall i :: 0 <= i < |d| ==> IsDigit(d[i])
  {
    if s != "" && IsDigit(s[0]) then [s[0]] + LeadingDigits(s[1..]) else ""
  }

  function Value(d: string): nat
    requires forall i :: 0 <= i < |d| ==> IsDigit(d[i])
  {
    if d == "" then 0 else 10 * Value(d[..|d| - 1]) + DigitValue(d[|d| - 1])
  }

  /** `fmt.Sscanf(raw, "%d", &port)` into an int32 that starts at zero: an optional sign and
      the digits after it; no digits or a number too large leave the zero. */
  function ParsePort(raw: string): int {
    var negative := raw != "" && raw[0] == '-';
    var rest := if raw != "" && (raw[0] == '-' || raw[0] == '+') then raw[1..] else raw;
    var d := LeadingDigits(rest);
    var v := if negative then 0 - Value(d) as int else Value(d) as int;
    if -0x8000_0000 <= v < 0x8000_0000 then v else 0
  }

  lemma {:induction false} DecimalDigits(n: nat)
    ensures Decimal(n) != "" && forall i :: 0 <= i < |Decimal(n)| ==> IsDigit(Decimal(n)[i])
  {
    if n >= 10 { DecimalDigits(n / 10); }
  }

  lemma {:induction false} DecimalValue(n: nat)
    requires forall i :: 0 <= i < |Decimal(n)| ==> IsDigit(Decimal(n)[i])
    ensures Value(Decimal(n)) == n
  {
    if n >= 10 {
      DecimalDigits(n / 10);
      DecimalValue(n / 10);
      assert Decimal(n)[..|Decimal(n)| - 1] == Decimal(n / 10);
    }
  }

  lemma {:induction false} LeadingAll(d: string)
    requires forall i :: 0 <= i < |d| ==> IsDigit(d[i])
    ensures LeadingDigits(d) == d
  {
    if d != "" { LeadingAll(d[1..]); }
  }

  /** Parsing undoes printing. */
  lemma ParseItoa(n: int)
    requires -0x8000_0000 <= n < 0x8000_0000
    ensures ParsePort(Itoa(n)) == n
  {
    var m: nat := if n < 0 then -n else n;
    DecimalDigits(m);
    DecimalValue(m);
    LeadingAll(Decimal(m));
    assert n < 0 ==> Itoa(n)[1..] == Decimal(m);
  }

  lemma ItoaInjective(m: int, n: int)
    requires Itoa(m) == Itoa(n)
    ensures m == n
  {
    var a: nat, b: nat := if m < 0 then -m else m, if n < 0 then -n else n;
    DecimalDigits(a);
    DecimalDigits(b);
    assert m < 0 <==> Itoa(m)[0] == '-';
    assert n < 0 <==> Itoa(n)[0] == '-';
    assert m < 0 ==> Itoa(m)[1..] == Decimal(a);
    assert n < 0 ==> Itoa(n)[1..] == Decimal(b);
    assert Decimal(a) == Decimal(b);
    DecimalValue(a);
    DecimalValue(b);
  }

  // ---- the order of sort.Strings ----

  predicate StringLe(a: string, b: string) {
    a == "" || (b != "" && (a[0] < b[0] || (a[0] == b[0] && StringLe(a[1..], b[1..]))))
  }

  lemma {:induction false} StringTotal(a: string, b: string)
    ensures StringLe(a, b) || StringLe(b, a)
    ensures StringLe(a, b) && StringLe(b, a) ==> a == b
  {
    if a != "" && b != "" {
      StringTotal(a[1..], b[1..]);
      assert a == [a[0]] + a[1..] && b == [b[0]] + b[1..];
    }
  }

  lemma {:induction false} StringTransitive(a: string, b: string, c: string)
    requires StringLe(a, b) && StringLe(b, c)
    ensures StringLe(a, c)
  {
    if a != "" && a[0] == b[0] && b[0] == c[0] {
      StringTransitive(a[1..], b[1..], c[1..]);
    }
  }

  lemma StringOrder()
    ensures Ordering.TotalPreorder(StringLe)
  {
    forall a, b ensures StringLe(a, b) || StringLe(b, a) { StringTotal(a, b); }
    forall a, b, c | StringLe(a, b) && StringLe(b, c) ensures StringLe(a, c) { StringTransitive(a, b, c); }
  }

  /** The order is that of the first difference; a text comes after its own beginnings. */
  lemma {:induction false} StringLeExact(a: string, b: string)
    ensures StringLe(a, b) <==> a <= b || exists i :: 0 <= i < |a| && i < |b| && a[..i] == b[..i] && a[i] < b[i]
  {
    if a != "" && b != "" {
      var x, y := a[1..], b[1..];
      StringLeExact(x, y);
      assert a == [a[0]] + x && b == [b[0]] + y;
      if a[0] == b[0] {
        assert a <= b <==> x <= y;
        if i :| 0 <= i < |x| && i < |y| && x[..i] == y[..i] && x[i] < y[i] {
          assert a[..i + 1] == [a[0]] + x[..i] && b[..i + 1] == [b[0]] + y[..i] && a[i + 1] < b[i + 1];
        }
        if i :| 0 <= i < |a| && i < |b| && a[..i] == b[..i] && a[i] < b[i] {
          assert i > 0;
          assert x[..i - 1] == a[..i][1..] && y[..i - 1] == b[..i][1..] && x[i - 1] < y[i - 1];
        }
      } else if a[0] < b[0] {
        assert a[..0] == b[..0];
      } else {
        assert !(a <= b);
        forall i | 0 < i < |a| && i < |b| ensures a[..i] != b[..i] { assert a[..i][0] == a[0] && b[..i][0] == b[0]; }
      }
    }
  }
}
