/** Byte strings in order.  `sort.Strings` and `std::sort` both leave some sorted permutation; there
    is only one. */
module Sorting {
  import opened Bytes

  /** The comparison both languages make: bytewise, a prefix first. */
  predicate AtMost(a: seq<byte>, b: seq<byte>) {
    if a == [] then true
    else if b == [] then false
    else a[0] < b[0] || (a[0] == b[0] && AtMost(a[1..], b[1..]))
  }

  lemma {:induction false} AtMostTotal(a: seq<byte>, b: seq<byte>)
    ensures AtMost(a, b) || AtMost(b, a)
    ensures AtMost(a, b) && AtMost(b, a) ==> a == b
  {
    if a != [] && b != [] {
      AtMostTotal(a[1..], b[1..]);
      assert a == [a[0]] + a[1..] && b == [b[0]] + b[1..];
    }
  }

  lemma {:induction false} AtMostTransitive(a: seq<byte>, b: seq<byte>, c: seq<byte>)
    requires AtMost(a, b) && AtMost(b, c)
    ensures AtMost(a, c)
  {
    if a != [] && a[0] == b[0] && b[0] == c[0] {
      AtMostTransitive(a[1..], b[1..], c[1..]);
    }
  }

  /** Up to some byte they agree; there the first ends, or has the smaller byte. */
  ghost predicate Ascends(a: seq<byte>, b: seq<byte>) {
    exists n: nat ::
      && n <= |a| && n <= |b| && a[..n] == b[..n]
      && (n == |a| || (n < |b| && a[n] < b[n]))
  }

  lemma {:induction false} AtMostMeans(a: seq<byte>, b: seq<byte>)
    ensures AtMost(a, b) <==> Ascends(a, b)
  {
    if a == [] {
      assert a[..0] == b[..0];
    } else if b != [] {
      AtMostMeans(a[1..], b[1..]);
      if a[0] == b[0] && Ascends(a[1..], b[1..]) {
        var n: nat :| n <= |a| - 1 && n <= |b| - 1 && a[1..][..n] == b[1..][..n]
          && (n == |a| - 1 || (n < |b| - 1 && a[1..][n] < b[1..][n]));
        assert a[..n + 1] == [a[0]] + a[1..][..n] && b[..n + 1] == [b[0]] + b[1..][..n];
      }
      if a[0] < b[0] {
        assert a[..0] == b[..0];
      }
      if n: nat :| n <= |a| && n <= |b| && a[..n] == b[..n] && (n == |a| || (n < |b| && a[n] < b[n])) {
        if n > 0 {
          assert a[0] == a[..n][0] && b[0] == b[..n][0];
          assert a[1..][..n - 1] == a[..n][1..] && b[1..][..n - 1] == b[..n][1..];
          assert n - 1 < |a| - 1 ==> a[1..][n - 1] == a[n];
        }
      }
    }
  }

  ghost predicate IsSorted(s: seq<seq<byte>>) {
    forall i, j :: 0 <= i < j < |s| ==> AtMost(s[i], s[j])
  }

  lemma AtMostAll(x: seq<byte>, s: seq<seq<byte>>)
    requires IsSorted(s) && s != [] && AtMost(x, s[0])
    ensures IsSorted([x] + s)
  {
    hide AtMost;
    forall j | 0 <= j < |s| ensures AtMost(x, s[j]) {
      if j > 0 { AtMostTransitive(x, s[0], s[j]); }
    }
  }

  lemma FirstStaysFirst(x: seq<byte>, s: seq<seq<byte>>, t: seq<seq<byte>>)
    requires IsSorted(s) && s != [] && AtMost(s[0], x)
    requires IsSorted(t) && multiset(t) == multiset{x} + multiset(s[1..])
    ensures IsSorted([s[0]] + t)
  {
    hide AtMost;
    forall j | 0 <= j < |t| ensures AtMost(s[0], t[j]) {
      assert t[j] in multiset(t);
      assert t[j] == x || t[j] in s[1..];
    }
  }

  function Insert(x: seq<byte>, s: seq<seq<byte>>): (r: seq<seq<byte>>)
    requires IsSorted(s)
    ensures IsSorted(r) && multiset(r) == multiset{x} + multiset(s)
  {
    if s == [] then [x]
    else
      AtMostTotal(x, s[0]);
      assert s == [s[0]] + s[1..];
      if AtMost(x, s[0]) then
        AtMostAll(x, s);
        [x] + s
      else
        var t := Insert(x, s[1..]);
        FirstStaysFirst(x, s, t);
        [s[0]] + t
  }

  function Sort(s: seq<seq<byte>>): (r: seq<seq<byte>>)
    ensures IsSorted(r) && multiset(r) == multiset(s)
  {
    if s == [] then [] else
      assert s == [s[0]] + s[1..];
      Insert(s[0], Sort(s[1..]))
  }

  lemma FirstIsLeast(s: seq<seq<byte>>, x: seq<byte>)
    requires IsSorted(s) && x in s
    ensures AtMost(s[0], x)
  {
    AtMostTotal(x, x);
    var i :| 0 <= i < |s| && s[i] == x;
  }

  lemma SameFirst(a: seq<seq<byte>>, b: seq<seq<byte>>)
    requires IsSorted(a) && IsSorted(b) && multiset(a) == multiset(b) && a != [] && b != []
    ensures a[0] == b[0]
  {
    assert a[0] in multiset(b) && b[0] in multiset(a);
    FirstIsLeast(a, b[0]);
    FirstIsLeast(b, a[0]);
    AtMostTotal(a[0], b[0]);
  }

  /** So whichever algorithm sorts, the result is the same. */
  lemma {:induction false} SortedIsUnique(a: seq<seq<byte>>, b: seq<seq<byte>>)
    requires IsSorted(a) && IsSorted(b) && multiset(a) == multiset(b)
    ensures a == b
  {
    hide AtMost;
    if a == [] || b == [] {
      assert |multiset(a)| == |a| && |multiset(b)| == |b|;
    } else {
      SameFirst(a, b);
      assert a == [a[0]] + a[1..] && b == [b[0]] + b[1..];
      assert multiset(a[1..]) == multiset(a) - multiset{a[0]};
      assert multiset(b[1..]) == multiset(b) - multiset{b[0]};
      SortedIsUnique(a[1..], b[1..]);
    }
  }
}
