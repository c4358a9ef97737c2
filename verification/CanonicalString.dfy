/** The string both sides MAC over: what it is, that the Go and the C++ code build the same one, and
    what two requests that share one have in common. */
module CanonicalString {
  import opened Bytes
  import opened Splitting
  import opened Sorting
  import opened UriEncoding
  import Hmac
  import Sha256Spec

  type Pair = (seq<byte>, seq<byte>)

  datatype Scope = Scope(accessKeyId: seq<byte>, date: seq<byte>, region: seq<byte>, service: seq<byte>)

  /** A request as the C++ signer holds it, the query a list of pairs. */
  datatype Request = Request(method_: seq<byte>, path: seq<byte>, query: seq<Pair>, body: seq<byte>)

  /** `DARIYA1-HMAC-SHA256` */
  function Algorithm(): seq<byte> {
    [68, 65, 82, 73, 89, 65, 49, 45, 72, 77, 65, 67, 45, 83, 72, 65, 50, 53, 54]
  }

  // ---- The parts ----

  /** Upper case for ASCII, which is what a method name is made of. */
  function Upper(s: seq<byte>): (r: seq<byte>)
    ensures |r| == |s|
  {
    seq(|s|, i requires 0 <= i < |s| => if 97 <= s[i] <= 122 then s[i] - 32 else s[i])
  }

  function CanonicalPath(path: seq<byte>): seq<byte> {
    if path == [] then [SLASH] else EncodeKeeping(path, true)
  }

  function EncodePair(p: Pair): seq<byte> { Encode(p.0) + [EQUALS] + Encode(p.1) }

  function EncodePairs(query: seq<Pair>): (r: seq<seq<byte>>)
    ensures |r| == |query|
    ensures forall i :: 0 <= i < |r| ==> r[i] == EncodePair(query[i])
  {
    if query == [] then [] else [EncodePair(query[0])] + EncodePairs(query[1..])
  }

  function CanonicalQuery(query: seq<Pair>): seq<byte> {
    Join(Sort(EncodePairs(query)), AMPERSAND)
  }

  function HashBody(body: seq<byte>): seq<byte> { Hmac.ToHex(Sha256Spec.Sha256(body)) }

  function ScopeFields(s: Scope): seq<seq<byte>> { [s.accessKeyId, s.date, s.region, s.service] }

  function ScopeString(s: Scope): seq<byte> { Join(ScopeFields(s), SLASH) }

  function Lines(r: Request, scope: Scope, timestamp: seq<byte>): seq<seq<byte>> {
    [Algorithm(), Upper(r.method_), CanonicalPath(r.path), CanonicalQuery(r.query), timestamp,
     HashBody(r.body), ScopeString(scope)]
  }

  function Canonical(r: Request, scope: Scope, timestamp: seq<byte>): seq<byte> {
    Join(Lines(r, scope, timestamp), NEWLINE)
  }

  // ---- The path, in two languages ----

  function EncodeAll(parts: seq<seq<byte>>): (r: seq<seq<byte>>)
    ensures |r| == |parts|
    ensures forall i :: 0 <= i < |r| ==> r[i] == Encode(parts[i])
  {
    if parts == [] then [] else [Encode(parts[0])] + EncodeAll(parts[1..])
  }

  lemma EncodeSegment(segment: seq<byte>, rest: seq<byte>)
    requires SLASH !in segment
    ensures EncodeKeeping(segment + [SLASH] + rest, true)
         == Encode(segment) + [SLASH] + EncodeKeeping(rest, true)
  {
    NoSlashToKeep(segment);
    EncodeKeepingAppend(segment, [SLASH] + rest, true);
    assert segment + [SLASH] + rest == segment + ([SLASH] + rest);
    assert ([SLASH] + rest)[1..] == rest;
  }

  /** Encoding the segments one by one leaves exactly the slashes. */
  lemma {:induction false} EncodeSegments(path: seq<byte>)
    ensures Join(EncodeAll(Split(path, SLASH)), SLASH) == EncodeKeeping(path, true)
    decreases |path|
  {
    hide EncodeKeeping, Encode;
    var i := IndexOf(path, SLASH);
    if i == |path| {
      assert path[..i] == path;
      NoSlashToKeep(path);
      assert EncodeAll([path]) == [Encode(path)];
    } else {
      var rest := path[i + 1..];
      EncodeSegments(rest);
      EncodeSegment(path[..i], rest);
      assert path == path[..i] + [SLASH] + rest;
      var parts := EncodeAll(Split(rest, SLASH));
      assert EncodeAll(Split(path, SLASH)) == [Encode(path[..i])] + parts;
      assert ([Encode(path[..i])] + parts)[1..] == parts;
    }
  }

  /** Go: split on "/", encode every segment in place, join. */
  method GoCanonicalPath(path: seq<byte>) returns (r: seq<byte>)
    ensures r == CanonicalPath(path)
  {
    if path == [] {
      return [SLASH];
    }
    var segments := Split(path, SLASH);
    ghost var parts := segments;
    for i := 0 to |segments|
      invariant |segments| == |parts|
      invariant forall j :: 0 <= j < i ==> segments[j] == Encode(parts[j])
      invariant forall j :: i <= j < |parts| ==> segments[j] == parts[j]
    {
      var s := UriEncode(segments[i]);
      segments := segments[i := s];
    }
    assert segments == EncodeAll(parts);
    EncodeSegments(path);
    return Join(segments, SLASH);
  }

  /** One turn of the C++ loop: the segment at `start`, and what is left behind the next slash. */
  lemma SegmentAt(path: seq<byte>, start: nat)
    requires start <= |path|
    ensures var slash := start + IndexOf(path[start..], SLASH);
      EncodeKeeping(path[start..], true)
        == if slash == |path| then Encode(path[start..slash])
           else Encode(path[start..slash]) + [SLASH] + EncodeKeeping(path[slash + 1..], true)
  {
    hide EncodeKeeping, Encode;
    var slash := start + IndexOf(path[start..], SLASH);
    var segment := path[start..slash];
    assert segment == path[start..][..slash - start];
    if slash == |path| {
      assert path[start..] == segment;
      NoSlashToKeep(segment);
    } else {
      assert path[start..] == segment + [SLASH] + path[slash + 1..];
      EncodeSegment(segment, path[slash + 1..]);
    }
  }

  function From(path: seq<byte>, start: nat): seq<byte>
    requires start <= |path|
  {
    path[start..]
  }

  /** Where the next "/" is, or the end of the path. */
  function NextSlash(path: seq<byte>, start: nat): (slash: nat)
    requires start <= |path|
    ensures start <= slash <= |path|
  {
    start + IndexOf(path[start..], SLASH)
  }

  lemma SegmentBehind(out: seq<byte>, path: seq<byte>, start: nat)
    requires start <= |path|
    ensures var slash := NextSlash(path, start);
      out + EncodeKeeping(From(path, start), true)
        == if slash == |path| then out + Encode(path[start..slash])
           else out + Encode(path[start..slash]) + [SLASH] + EncodeKeeping(From(path, slash + 1), true)
  {
    hide EncodeKeeping, Encode, IndexOf;
    var slash := NextSlash(path, start);
    SegmentAt(path, start);
    if slash < |path| {
      Reassociate(out, Encode(path[start..slash]), [SLASH], EncodeKeeping(path[slash + 1..], true));
    }
  }

  lemma FromStart(path: seq<byte>)
    ensures [] + EncodeKeeping(From(path, 0), true) == EncodeKeeping(path, true)
  {
    hide EncodeKeeping;
    assert path[0..] == path;
  }

  /** C++: look for the next "/" from an index, append the segment before it, step over it. */
  method CppCanonicalPath(path: seq<byte>) returns (out: seq<byte>)
    ensures out == CanonicalPath(path)
  {
    if path == [] {
      return [SLASH];
    }
    hide EncodeKeeping, Encode, From, NextSlash;
    out := [];
    var start := 0;
    FromStart(path);
    while true
      invariant start <= |path|
      invariant out + EncodeKeeping(From(path, start), true) == EncodeKeeping(path, true)
      decreases |path| - start
    {
      var slash := NextSlash(path, start);
      var segment := path[start..slash];
      SegmentBehind(out, path, start);
      var s := UriEncode(segment);
      out := out + s;
      if slash == |path| {
        break;
      }
      out := out + [SLASH];
      start := slash + 1;
    }
  }

  lemma Reassociate(a: seq<byte>, b: seq<byte>, c: seq<byte>, d: seq<byte>)
    ensures a + (b + c + d) == a + b + c + d
  {}

  // ---- The query, in two languages ----

  /** `url.Values`: every key with the values it was given. */
  type Values = map<seq<byte>, seq<seq<byte>>>

  /** `query` is the pairs of `values`, in some order. */
  ghost predicate Lists(query: seq<Pair>, values: Values) {
    forall k, v :: multiset(query)[(k, v)] == if k in values then multiset(values[k])[v] else 0
  }

  lemma {:induction false} EncodePairsAppend(a: seq<Pair>, b: seq<Pair>)
    ensures EncodePairs(a + b) == EncodePairs(a) + EncodePairs(b)
  {
    if a == [] {
      assert a + b == b;
    } else {
      assert (a + b)[1..] == a[1..] + b;
      EncodePairsAppend(a[1..], b);
    }
  }

  lemma EncodePairsAround(a: seq<Pair>, p: Pair, b: seq<Pair>)
    ensures EncodePairs(a + [p] + b) == EncodePairs(a) + [EncodePair(p)] + EncodePairs(b)
  {
    hide EncodePair;
    EncodePairsAppend(a + [p], b);
    EncodePairsAppend(a, [p]);
    assert EncodePairs([p]) == [EncodePair(p)];
  }

  /** Taking one pair out takes one encoded pair out. */
  lemma WithoutOne(before: seq<Pair>, p: Pair, rest: seq<Pair>)
    ensures multiset(before + [p] + rest) == multiset(before + rest) + multiset{p}
    ensures multiset(EncodePairs(before + [p] + rest)) == multiset(EncodePairs(before + rest)) + multiset{EncodePair(p)}
  {
    hide EncodePair, EncodePairs;
    EncodePairsAround(before, p, rest);
    EncodePairsAppend(before, rest);
    MultisetAround(before, p, rest);
    MultisetAround(EncodePairs(before), EncodePair(p), EncodePairs(rest));
  }

  lemma SplitAround<T>(s: seq<T>, x: T) returns (before: seq<T>, rest: seq<T>)
    requires x in s
    ensures s == before + [x] + rest
  {
    var i :| 0 <= i < |s| && s[i] == x;
    before, rest := s[..i], s[i + 1..];
  }

  lemma MultisetAround<T>(a: seq<T>, x: T, b: seq<T>)
    ensures multiset(a + [x] + b) == multiset(a + b) + multiset{x}
  {}

  lemma Cancel<T>(a: multiset<T>, b: multiset<T>, x: T)
    requires a + multiset{x} == b + multiset{x}
    ensures a == b
  {
    assert a == a + multiset{x} - multiset{x};
    assert b == b + multiset{x} - multiset{x};
  }

  lemma {:induction false} EncodePairsPermuted(a: seq<Pair>, b: seq<Pair>)
    requires multiset(a) == multiset(b)
    ensures multiset(EncodePairs(a)) == multiset(EncodePairs(b))
    decreases |a|
  {
    hide EncodePair, EncodePairs;
    if a == [] || b == [] {
      assert |multiset(a)| == |a| && |multiset(b)| == |b|;
    } else {
      var p := a[0];
      assert p in multiset(b);
      var a1, a2 := SplitAround(a, p);
      var b1, b2 := SplitAround(b, p);
      WithoutOne(a1, p, a2);
      WithoutOne(b1, p, b2);
      Cancel(multiset(a1 + a2), multiset(b1 + b2), p);
      EncodePairsPermuted(a1 + a2, b1 + b2);
    }
  }

  /** The order of the pairs on the wire never changes the canonical query. */
  lemma QueryOrderIsIrrelevant(a: seq<Pair>, b: seq<Pair>)
    requires multiset(a) == multiset(b)
    ensures CanonicalQuery(a) == CanonicalQuery(b)
  {
    EncodePairsPermuted(a, b);
    SortedIsUnique(Sort(EncodePairs(a)), Sort(EncodePairs(b)));
  }

  /** Nor does the order of a map. */
  lemma ListingIsIrrelevant(a: seq<Pair>, b: seq<Pair>, values: Values)
    requires Lists(a, values) && Lists(b, values)
    ensures CanonicalQuery(a) == CanonicalQuery(b)
  {
    assert forall p: Pair :: multiset(a)[p] == multiset(b)[p] by {
      forall p: Pair ensures multiset(a)[p] == multiset(b)[p] {
        assert p == (p.0, p.1);
      }
    }
    assert multiset(a) == multiset(b);
    QueryOrderIsIrrelevant(a, b);
  }

  /** Every value of one key. */
  function KeyPairs(key: seq<byte>, values: seq<seq<byte>>): (r: seq<Pair>)
    ensures |r| == |values|
    ensures forall i :: 0 <= i < |r| ==> r[i] == (key, values[i])
  {
    if values == [] then [] else [(key, values[0])] + KeyPairs(key, values[1..])
  }

  lemma {:induction false} KeyPairsCount(key: seq<byte>, values: seq<seq<byte>>, k: seq<byte>, v: seq<byte>)
    ensures multiset(KeyPairs(key, values))[(k, v)] == if k == key then multiset(values)[v] else 0
  {
    if values != [] {
      assert values == [values[0]] + values[1..];
      KeyPairsCount(key, values[1..], k, v);
    }
  }

  /** The values of one key, sorted among themselves and encoded. */
  method EncodeKey(key: seq<byte>, values: seq<seq<byte>>) returns (pairs: seq<seq<byte>>)
    ensures pairs == EncodePairs(KeyPairs(key, Sort(values)))
  {
    hide Encode, Sort;
    var sorted := Sort(values);
    pairs := [];
    for j := 0 to |sorted|
      invariant |pairs| == j
      invariant forall i :: 0 <= i < j ==> pairs[i] == EncodePair((key, sorted[i]))
    {
      var k := UriEncode(key);
      var v := UriEncode(sorted[j]);
      pairs := pairs + [k + [EQUALS] + v];
    }
  }

  /** `listed` is the pairs of the keys of `values` outside `left`. */
  ghost predicate ListsOutside(listed: seq<Pair>, values: Values, left: set<seq<byte>>) {
    forall k, v :: multiset(listed)[(k, v)]
      == if k in values && k !in left then multiset(values[k])[v] else 0
  }

  lemma ListOneKey(listed: seq<Pair>, values: Values, left: set<seq<byte>>, key: seq<byte>)
    requires ListsOutside(listed, values, left) && key in left && key in values
    ensures ListsOutside(listed + KeyPairs(key, Sort(values[key])), values, left - {key})
  {
    var more := KeyPairs(key, Sort(values[key]));
    forall k, v
      ensures multiset(listed + more)[(k, v)]
        == if k in values && k !in left - {key} then multiset(values[k])[v] else 0
    {
      KeyPairsCount(key, Sort(values[key]), k, v);
    }
  }

  /** Go: walk the map in whatever order it has, sort each key's values, then sort everything. */
  method GoCanonicalQuery(values: Values) returns (r: seq<byte>)
    ensures forall query | Lists(query, values) :: r == CanonicalQuery(query)
  {
    hide Sort, EncodePairs, KeyPairs;
    var pairs := [];
    var left := values.Keys;
    ghost var listed: seq<Pair> := [];
    EncodeNoPairs();
    while left != {}
      invariant left <= values.Keys
      invariant ListsOutside(listed, values, left)
      invariant pairs == EncodePairs(listed)
      decreases |left|
    {
      var key :| key in left;
      var more := EncodeKey(key, values[key]);
      ghost var m := KeyPairs(key, Sort(values[key]));
      ListOneKey(listed, values, left, key);
      EncodePairsAppend(listed, m);
      pairs, listed := pairs + more, listed + m;
      left := left - {key};
    }
    r := Join(Sort(pairs), AMPERSAND);
    assert Lists(listed, values);
    forall query | Lists(query, values)
      ensures r == CanonicalQuery(query)
    {
      ListingIsIrrelevant(query, listed, values);
    }
  }

  lemma EncodeNoPairs()
    ensures EncodePairs([]) == []
  {}

  /** C++: encode every pair, sort once. */
  method CppCanonicalQuery(query: seq<Pair>) returns (out: seq<byte>)
    ensures out == CanonicalQuery(query)
  {
    if query == [] {
      return [];
    }
    var pairs := EncodeInOrder(query);
    out := JoinPairs(Sort(pairs));
  }

  /** The separator goes in front of every pair but the first. */
  method JoinPairs(pairs: seq<seq<byte>>) returns (out: seq<byte>)
    ensures out == Join(pairs, AMPERSAND)
  {
    out := [];
    for i := 0 to |pairs|
      invariant out == Join(pairs[..i], AMPERSAND)
    {
      assert pairs[..i] + [pairs[i]] == pairs[..i + 1];
      if i > 0 {
        out := out + [AMPERSAND];
        JoinOneMore(pairs[..i], pairs[i], AMPERSAND);
      }
      out := out + pairs[i];
    }
    assert pairs[..|pairs|] == pairs;
  }

  method EncodeInOrder(query: seq<Pair>) returns (pairs: seq<seq<byte>>)
    ensures pairs == EncodePairs(query)
  {
    hide Encode;
    pairs := [];
    for i := 0 to |query|
      invariant |pairs| == i
      invariant forall j :: 0 <= j < i ==> pairs[j] == EncodePair(query[j])
    {
      var k := UriEncode(query[i].0);
      var v := UriEncode(query[i].1);
      pairs := pairs + [k + [EQUALS] + v];
    }
  }

  // ---- The whole string, in two languages ----

  /** A map is some list. */
  lemma EveryMapIsListed(values: Values, left: set<seq<byte>>) returns (query: seq<Pair>)
    requires left <= values.Keys
    ensures ListsOutside(query, values, left)
    decreases |values.Keys - left|
  {
    if values.Keys <= left {
      query := [];
    } else {
      var key :| key in values.Keys && key !in left;
      assert values.Keys - (left + {key}) == values.Keys - left - {key};
      query := EveryMapIsListed(values, left + {key});
      ListOneKey(query, values, left + {key}, key);
      assert left + {key} - {key} == left;
      query := query + KeyPairs(key, Sort(values[key]));
    }
  }

  /** `signing.CanonicalString`. */
  method GoCanonicalString(verb: seq<byte>, path: seq<byte>, values: Values, body: seq<byte>,
                           scope: Scope, timestamp: seq<byte>) returns (b: seq<byte>)
    ensures forall query | Lists(query, values) ::
      b == Canonical(Request(verb, path, query, body), scope, timestamp)
  {
    hide Algorithm, HashBody, Upper, EncodeKeeping, CanonicalQuery, CanonicalPath;
    var p := GoCanonicalPath(path);
    var q := GoCanonicalQuery(values);
    b := Algorithm();
    b := b + [NEWLINE];
    b := b + Upper(verb);
    b := b + [NEWLINE];
    b := b + p;
    b := b + [NEWLINE];
    b := b + q;
    b := b + [NEWLINE];
    b := b + timestamp;
    b := b + [NEWLINE];
    b := b + HashBody(body);
    b := b + [NEWLINE];
    b := b + ScopeString(scope);
    JoinSeven(Algorithm(), Upper(verb), p, q, timestamp, HashBody(body), ScopeString(scope));
  }

  /** `canonical_string`. */
  method CppCanonicalString(request: Request, scope: Scope, timestamp: seq<byte>)
    returns (out: seq<byte>)
    requires |request.body| < Hmac.MAX_BYTES
    ensures out == Canonical(request, scope, timestamp)
  {
    hide Algorithm, Upper, EncodeKeeping, CanonicalQuery, CanonicalPath, Hmac.ToHex, Sha256Spec.Sha256;
    var p := CppCanonicalPath(request.path);
    var q := CppCanonicalQuery(request.query);
    var digest := Hmac.HashChunks([request.body]);
    assert Hmac.Flatten([request.body]) == request.body;
    var h := Hmac.WriteHex(digest);
    out := Algorithm();
    out := out + [NEWLINE];
    out := out + Upper(request.method_);
    out := out + [NEWLINE];
    out := out + p;
    out := out + [NEWLINE];
    out := out + q;
    out := out + [NEWLINE];
    out := out + timestamp;
    out := out + [NEWLINE];
    out := out + h;
    out := out + [NEWLINE];
    out := out + ScopeString(scope);
    JoinSeven(Algorithm(), Upper(request.method_), p, q, timestamp, h, ScopeString(scope));
  }

  lemma JoinSeven(a: seq<byte>, b: seq<byte>, c: seq<byte>, d: seq<byte>, e: seq<byte>, f: seq<byte>,
                  g: seq<byte>)
    ensures Join([a, b, c, d, e, f, g], NEWLINE)
      == a + [NEWLINE] + b + [NEWLINE] + c + [NEWLINE] + d + [NEWLINE] + e + [NEWLINE] + f + [NEWLINE] + g
  {
    var n := [NEWLINE];
    assert Join([g], NEWLINE) == g;
    assert Join([f, g], NEWLINE) == f + n + g;
    assert Join([e, f, g], NEWLINE) == e + n + Join([f, g], NEWLINE);
    assert Join([d, e, f, g], NEWLINE) == d + n + Join([e, f, g], NEWLINE);
    assert Join([c, d, e, f, g], NEWLINE) == c + n + Join([d, e, f, g], NEWLINE);
    assert Join([b, c, d, e, f, g], NEWLINE) == b + n + Join([c, d, e, f, g], NEWLINE);
    assert Join([a, b, c, d, e, f, g], NEWLINE) == a + n + Join([b, c, d, e, f, g], NEWLINE);
  }

  lemma JoinFour(a: seq<byte>, b: seq<byte>, c: seq<byte>, d: seq<byte>)
    ensures Join([a, b, c, d], SLASH) == a + [SLASH] + b + [SLASH] + c + [SLASH] + d
  {
    assert Join([d], SLASH) == d;
    assert Join([c, d], SLASH) == c + [SLASH] + d;
    assert Join([b, c, d], SLASH) == b + [SLASH] + Join([c, d], SLASH);
    assert Join([a, b, c, d], SLASH) == a + [SLASH] + Join([b, c, d], SLASH);
  }

  /** The two implementations MAC over the same bytes, for every path, body, scope and timestamp and
      every query, whatever order the list and the map have. */
  method SignersAgree(request: Request, values: Values, scope: Scope, timestamp: seq<byte>)
    returns (go: seq<byte>, cpp: seq<byte>)
    requires Lists(request.query, values) && |request.body| < Hmac.MAX_BYTES
    ensures go == cpp
  {
    hide Canonical;
    go := GoCanonicalString(request.method_, request.path, values, request.body, scope, timestamp);
    cpp := CppCanonicalString(request, scope, timestamp);
    assert request == Request(request.method_, request.path, request.query, request.body);
  }
}
