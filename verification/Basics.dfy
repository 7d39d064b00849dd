/** Small shared vocabulary: optional values, duplicate-free sequences and order inside a sequence. */
module Basics {

  datatype Option<+T> = None | Some(value: T)

  type Byte = x: int | 0 <= x < 256

  function Min(a: int, b: int): int {
    if a < b then a else b
  }

  function Max(a: int, b: int): int {
    if a > b then a else b
  }

  function Clamp(n: int, lo: int, hi: int): int {
    Max(lo, Min(hi, n))
  }

  /** The source's `a || b` on texts. */
  function Or(a: string, b: string): string {
    if a != "" then a else b
  }

  predicate EndsWith<T(==)>(s: seq<T>, t: seq<T>) {
    |t| <= |s| && s[|s| - |t|..] == t
  }

  predicate NoDup<T(==)>(s: seq<T>) {
    forall i, j | 0 <= i < j < |s| :: s[i] != s[j]
  }

  /** `a` occurs somewhere before `b`. */
  ghost predicate Before<T>(s: seq<T>, a: T, b: T) {
    exists i, j :: 0 <= i < j < |s| && s[i] == a && s[j] == b
  }

  /** `s` without the elements of `gone`, order kept (the source's Array.prototype.filter calls). */
  function Minus<T(==)>(s: seq<T>, gone: set<T>): (r: seq<T>)
    ensures forall x | x in r :: x in s && x !in gone
    ensures forall x | x in s && x !in gone :: x in r
    ensures NoDup(s) ==> NoDup(r)
    ensures |r| <= |s|
  {
    if s == [] then []
    else if s[0] in gone then Minus(s[1..], gone)
    else [s[0]] + Minus(s[1..], gone)
  }

  lemma {:induction false} MinusConcat<T>(s: seq<T>, t: seq<T>, gone: set<T>)
    ensures Minus(s + t, gone) == Minus(s, gone) + Minus(t, gone)
  {
    if s == [] {
      assert s + t == t;
    } else {
      assert (s + t)[1..] == s[1..] + t;
      MinusConcat(s[1..], t, gone);
    }
  }

  lemma {:induction false} MinusNothing<T>(s: seq<T>, gone: set<T>)
    requires forall x | x in s :: x !in gone
    ensures Minus(s, gone) == s
  {
    if s != [] {
      assert forall x | x in s[1..] :: x in s;
      MinusNothing(s[1..], gone);
    }
  }

  lemma {:induction false} MinusOther<T>(s: seq<T>, x: T)
    requires x !in s
    ensures Minus(s, {x}) == s
  {
    if s != [] {
      MinusOther(s[1..], x);
    }
  }

  /** Removing the one occurrence of `x` from `s + [x] + t`. */
  lemma {:induction false} MinusOne<T>(s: seq<T>, x: T, t: seq<T>)
    requires x !in s && x !in t
    ensures Minus(s + [x] + t, {x}) == s + t
  {
    if s == [] {
      assert [] + [x] + t == [x] + t && ([x] + t)[1..] == t;
      MinusOther(t, x);
    } else {
      assert (s + [x] + t)[1..] == s[1..] + [x] + t;
      MinusOne(s[1..], x, t);
    }
  }

  /** In a list without duplicates an element is not among the others. */
  lemma NoDupApart<T>(s: seq<T>, x: T, t: seq<T>)
    requires NoDup(s + [x] + t)
    ensures x !in s && x !in t
  {
    var all := s + [x] + t;
    assert all[|s|] == x;
    forall i | 0 <= i < |s| ensures s[i] != x {
      assert all[i] == s[i];
    }
    forall i | 0 <= i < |t| ensures t[i] != x {
      assert all[|s| + 1 + i] == t[i];
    }
  }

  lemma {:induction false} MinusBefore<T>(s: seq<T>, gone: set<T>, a: T, b: T)
    requires Before(s, a, b) && a !in gone && b !in gone
    ensures Before(Minus(s, gone), a, b)
  {
    var i, j :| 0 <= i < j < |s| && s[i] == a && s[j] == b;
    var r := Minus(s[1..], gone);
    if i == 0 {
      assert b in s[1..] by { assert s[1..][j - 1] == b; }
      var k :| 0 <= k < |r| && r[k] == b;
      assert ([a] + r)[0] == a && ([a] + r)[k + 1] == b;
    } else {
      assert s[1..][i - 1] == a && s[1..][j - 1] == b;
      MinusBefore(s[1..], gone, a, b);
      var p, w :| 0 <= p < w < |r| && r[p] == a && r[w] == b;
      if s[0] !in gone {
        assert ([s[0]] + r)[p + 1] == a && ([s[0]] + r)[w + 1] == b;
      }
    }
  }
}
