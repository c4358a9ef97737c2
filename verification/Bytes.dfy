/** Bytes, and the string operations both signers are written with.

    Go strings and C++ `std::string`s are byte strings, so everything that is signed or hashed is a
    `seq<byte>` here.  The generic splitting and joining functions stand for `strings.Split`,
    `strings.SplitN`, `strings.Cut` and `strings.Join`. */
module Bytes {

  newtype byte = x: int | 0 <= x < 256

  /** `n` copies of `b`. */
  function Repeat(b: byte, n: nat): (r: seq<byte>)
    ensures |r| == n
  {
    seq(n, _ => b)
  }

  lemma RepeatAdd(b: byte, n: nat, m: nat)
    ensures Repeat(b, n) + Repeat(b, m) == Repeat(b, n + m)
    ensures Repeat(b, 0) == []
  {}
}

module Splitting {

  /** The index of the first `sep` in `s`, or `|s|` when there is none. */
  function IndexOf<T(==)>(s: seq<T>, sep: T): (i: nat)
    ensures i <= |s|
    ensures i < |s| ==> s[i] == sep
    ensures sep !in s[..i]
  {
    if s == [] || s[0] == sep then 0 else
      var i := 1 + IndexOf(s[1..], sep);
      assert s[..i] == [s[0]] + s[1..][..i - 1];
      i
  }

  /** `strings.Split(s, sep)` for a one-element separator: always at least one part. */
  function Split<T(==)>(s: seq<T>, sep: T): (parts: seq<seq<T>>)
    ensures |parts| >= 1
    ensures forall p :: p in parts ==> sep !in p
    decreases |s|
  {
    var i := IndexOf(s, sep);
    if i == |s| then
      assert s[..i] == s;
      [s]
    else [s[..i]] + Split(s[i + 1..], sep)
  }

  /** `strings.Join(parts, sep)` for a one-element separator. */
  function Join<T>(parts: seq<seq<T>>, sep: T): (s: seq<T>) {
    if |parts| == 0 then []
    else if |parts| == 1 then parts[0]
    else parts[0] + [sep] + Join(parts[1..], sep)
  }

  lemma {:induction false} IndexOfFirst<T>(prefix: seq<T>, sep: T, rest: seq<T>)
    requires sep !in prefix
    ensures IndexOf(prefix + [sep] + rest, sep) == |prefix|
  {
    if |prefix| > 0 {
      assert (prefix + [sep] + rest)[1..] == prefix[1..] + [sep] + rest;
      IndexOfFirst(prefix[1..], sep, rest);
    }
  }

  lemma IndexOfNone<T>(s: seq<T>, sep: T)
    requires sep !in s
    ensures IndexOf(s, sep) == |s|
  {}

  /** Joining what was split gives the string back. */
  lemma {:induction false} JoinSplit<T>(s: seq<T>, sep: T)
    ensures Join(Split(s, sep), sep) == s
    decreases |s|
  {
    hide IndexOf;
    var i := IndexOf(s, sep);
    if i < |s| {
      var rest := s[i + 1..];
      JoinSplit(rest, sep);
      var parts := [s[..i]] + Split(rest, sep);
      assert Split(s, sep) == parts && parts[1..] == Split(rest, sep);
      assert Join(parts, sep) == s[..i] + [sep] + rest;
      assert s == s[..i] + [sep] + rest;
    } else {
      assert s[..i] == s;
    }
  }

  /** Splitting what was joined gives the parts back, when no part holds the separator. */
  lemma {:induction false} SplitJoin<T>(parts: seq<seq<T>>, sep: T)
    requires |parts| >= 1
    requires forall p :: p in parts ==> sep !in p
    ensures Split(Join(parts, sep), sep) == parts
  {
    hide IndexOf;
    var s := Join(parts, sep);
    if |parts| == 1 {
      IndexOfNone(s, sep);
    } else {
      var rest := Join(parts[1..], sep);
      IndexOfFirst(parts[0], sep, rest);
      SplitJoin(parts[1..], sep);
      assert s == parts[0] + [sep] + rest;
      assert s[..|parts[0]|] == parts[0];
      assert s[|parts[0]| + 1..] == rest;
      assert parts == [parts[0]] + parts[1..];
    }
  }

  lemma SplitStep<T>(first: seq<T>, sep: T, rest: seq<T>)
    requires sep !in first
    ensures Split(first + [sep] + rest, sep) == [first] + Split(rest, sep)
  {
    hide IndexOf;
    var s := first + [sep] + rest;
    IndexOfFirst(first, sep, rest);
    assert s[..|first|] == first && s[|first| + 1..] == rest;
  }

  lemma SplitOne<T>(s: seq<T>, sep: T)
    requires sep !in s
    ensures Split(s, sep) == [s]
  {
    IndexOfNone(s, sep);
  }

  lemma {:induction false} SplitConcat<T>(a: seq<T>, b: seq<T>, sep: T)
    ensures Split(a + [sep] + b, sep) == Split(a, sep) + Split(b, sep)
    decreases |a|
  {
    hide Split, IndexOf;
    var i := IndexOf(a, sep);
    if i == |a| {
      assert a[..i] == a;
      SplitOne(a, sep);
      SplitStep(a, sep, b);
    } else {
      var first, rest := a[..i], a[i + 1..];
      assert a == first + [sep] + rest;
      assert a + [sep] + b == first + [sep] + (rest + [sep] + b);
      SplitStep(first, sep, rest);
      SplitStep(first, sep, rest + [sep] + b);
      SplitConcat(rest, b, sep);
    }
  }

  lemma {:induction false} JoinOneMore<T>(parts: seq<seq<T>>, last: seq<T>, sep: T)
    requires |parts| >= 1
    ensures Join(parts + [last], sep) == Join(parts, sep) + [sep] + last
  {
    var all := parts + [last];
    assert all[1..] == parts[1..] + [last];
    if |parts| == 1 {
      assert all[1..] == [last];
    } else {
      JoinOneMore(parts[1..], last, sep);
    }
  }

  /** Two strings with the same first separator position are equal only if both halves are. */
  lemma FirstSeparator<T>(a: seq<T>, b: seq<T>, a': seq<T>, b': seq<T>, sep: T)
    requires sep !in a && sep !in a'
    requires a + [sep] + b == a' + [sep] + b'
    ensures a == a' && b == b'
  {
    IndexOfFirst(a, sep, b);
    IndexOfFirst(a', sep, b');
    assert a == (a + [sep] + b)[..|a|];
    assert a' == (a' + [sep] + b')[..|a|];
    assert b == (a + [sep] + b)[|a| + 1..];
    assert b' == (a' + [sep] + b')[|a| + 1..];
  }
}
