/** Sorting as Go's `sort` package is used by bulb: an ascending rearrangement of a list.
    Every list bulb compares or replays is also free of ties, and then the ascending
    rearrangement is unique, so the library's choice of algorithm cannot be observed. */
module Ordering {

  ghost predicate TotalPreorder<T(!new)>(le: (T, T) -> bool) {
    && (forall x, y :: le(x, y) || le(y, x))
    && (forall x, y, z :: le(x, y) && le(y, z) ==> le(x, z))
  }

  ghost predicate Ascending<T>(le: (T, T) -> bool, s: seq<T>) {
    forall i, j :: 0 <= i < j < |s| ==> le(s[i], s[j])
  }

  /** Ascending without ties. */
  ghost predicate Strict<T>(le: (T, T) -> bool, s: seq<T>) {
    forall i, j :: 0 <= i < j < |s| ==> le(s[i], s[j]) && !le(s[j], s[i])
  }

  ghost predicate Distinct<T>(s: seq<T>) {
    forall i, j :: 0 <= i < j < |s| ==> s[i] != s[j]
  }

  function Insert<T>(le: (T, T) -> bool, x: T, s: seq<T>): seq<T> {
    if s == [] then [x]
    else if le(x, s[0]) then [x] + s
    else [s[0]] + Insert(le, x, s[1..])
  }

  function Sort<T>(le: (T, T) -> bool, s: seq<T>): seq<T> {
    if s == [] then [] else Insert(le, s[0], Sort(le, s[1..]))
  }

  lemma {:induction false} InsertPermutes<T>(le: (T, T) -> bool, x: T, s: seq<T>)
    ensures multiset(Insert(le, x, s)) == multiset{x} + multiset(s)
    ensures |Insert(le, x, s)| == |s| + 1
  {
    if s == [] || le(x, s[0]) {
    } else {
      InsertPermutes(le, x, s[1..]);
      assert s == [s[0]] + s[1..];
    }
  }

  lemma {:induction false} InsertAscends<T(!new)>(le: (T, T) -> bool, x: T, s: seq<T>)
    requires TotalPreorder(le) && Ascending(le, s)
    ensures Ascending(le, Insert(le, x, s))
  {
    if s == [] || le(x, s[0]) {
    } else {
      InsertAscends(le, x, s[1..]);
      InsertPermutes(le, x, s[1..]);
      var r := Insert(le, x, s[1..]);
      forall j | 0 <= j < |r| ensures le(s[0], r[j]) {
        assert r[j] in multiset(r);
        assert r[j] == x || r[j] in s[1..];
      }
    }
  }

  /** The result is an ascending permutation of the input. */
  lemma {:induction false} SortPermutes<T>(le: (T, T) -> bool, s: seq<T>)
    ensures multiset(Sort(le, s)) == multiset(s)
    ensures |Sort(le, s)| == |s|
    ensures forall x :: x in Sort(le, s) <==> x in s
  {
    if s != [] {
      SortPermutes(le, s[1..]);
      InsertPermutes(le, s[0], Sort(le, s[1..]));
      assert s == [s[0]] + s[1..];
    }
    assert forall x :: x in Sort(le, s) <==> x in multiset(Sort(le, s));
    assert forall x :: x in s <==> x in multiset(s);
  }

  lemma {:induction false} SortAscends<T(!new)>(le: (T, T) -> bool, s: seq<T>)
    requires TotalPreorder(le)
    ensures Ascending(le, Sort(le, s))
  {
    if s != [] {
      SortAscends(le, s[1..]);
      InsertAscends(le, s[0], Sort(le, s[1..]));
    }
  }

  /** No two elements rank equal. */
  ghost predicate TieFree<T>(le: (T, T) -> bool, s: seq<T>) {
    forall i, j :: 0 <= i < j < |s| ==> !le(s[i], s[j]) || !le(s[j], s[i])
  }

  lemma {:induction false} SortStrict<T(!new)>(le: (T, T) -> bool, s: seq<T>)
    requires TotalPreorder(le) && TieFree(le, s)
    ensures Strict(le, Sort(le, s))
  {
    if s != [] {
      var t := Sort(le, s[1..]);
      SortStrict(le, s[1..]);
      SortPermutes(le, s[1..]);
      forall y | y in t ensures !le(s[0], y) || !le(y, s[0]) {
        assert y in s[1..];
      }
      InsertStrict(le, s[0], t);
    }
  }

  lemma {:induction false} InsertStrict<T(!new)>(le: (T, T) -> bool, x: T, s: seq<T>)
    requires TotalPreorder(le) && Strict(le, s)
    requires forall y :: y in s ==> !le(x, y) || !le(y, x)
    ensures Strict(le, Insert(le, x, s))
  {
    if s == [] {
    } else if le(x, s[0]) {
      forall j | 0 <= j < |s| ensures le(x, s[j]) && !le(s[j], x) {
        assert s[j] in s;
      }
    } else {
      InsertStrict(le, x, s[1..]);
      InsertPermutes(le, x, s[1..]);
      var r := Insert(le, x, s[1..]);
      forall j | 0 <= j < |r| ensures le(s[0], r[j]) && !le(r[j], s[0]) {
        assert r[j] in multiset(r);
        assert r[j] == x || r[j] in s[1..];
      }
    }
  }

  /** A tie-free ascending list is determined by its elements. */
  lemma {:induction false} StrictUnique<T>(le: (T, T) -> bool, a: seq<T>, b: seq<T>)
    requires Strict(le, a) && Strict(le, b)
    requires forall x :: x in a <==> x in b
    ensures a == b
  {
    assert |a| > 0 ==> a[0] in b;
    assert |b| > 0 ==> b[0] in a;
    if a != [] {
      assert a[0] == b[0];
      forall x ensures x in a[1..] <==> x in b[1..] {
        if x in a[1..] { assert x in b; assert x != a[0]; }
        if x in b[1..] { assert x in a; assert x != b[0]; }
      }
      StrictUnique(le, a[1..], b[1..]);
      assert a == [a[0]] + a[1..] && b == [b[0]] + b[1..];
    }
  }

  /** The elements that satisfy ok, in order. */
  function Keep<T>(s: seq<T>, ok: T -> bool): seq<T> {
    if s == [] then [] else
      var r, last := Keep(s[..|s| - 1], ok), s[|s| - 1];
      if ok(last) then r + [last] else r
  }

  lemma {:induction false} KeepMembers<T>(s: seq<T>, ok: T -> bool, x: T)
    ensures x in Keep(s, ok) <==> x in s && ok(x)
  {
    if s != [] {
      KeepMembers(s[..|s| - 1], ok, x);
      assert s == s[..|s| - 1] + [s[|s| - 1]];
    }
  }

  lemma {:induction false} KeepStrict<T>(le: (T, T) -> bool, s: seq<T>, ok: T -> bool)
    requires Strict(le, s)
    ensures Strict(le, Keep(s, ok))
  {
    if s != [] {
      var f, last := s[..|s| - 1], s[|s| - 1];
      KeepStrict(le, f, ok);
      forall i | 0 <= i < |Keep(f, ok)| ensures le(Keep(f, ok)[i], last) && !le(last, Keep(f, ok)[i]) {
        KeepMembers(f, ok, Keep(f, ok)[i]);
        var j :| 0 <= j < |f| && f[j] == Keep(f, ok)[i];
        assert s[j] == f[j];
      }
    }
  }
}
