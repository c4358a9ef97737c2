/** What a signature is a signature of: two requests have the same canonical string exactly when they
    agree on everything that is signed. */
module CanonicalInjectivity {
  import opened Bytes
  import opened Splitting
  import opened Sorting
  import opened UriEncoding
  import opened CanonicalString
  import Hmac
  import Sha256Spec

  /** Joined strings are equal only if the parts are, when only the last part may hold the separator. */
  lemma {:induction false} JoinInjective(a: seq<seq<byte>>, b: seq<seq<byte>>, sep: byte)
    requires |a| == |b| >= 1
    requires forall i :: 0 <= i < |a| - 1 ==> sep !in a[i] && sep !in b[i]
    requires Join(a, sep) == Join(b, sep)
    ensures a == b
  {
    if |a| > 1 {
      FirstSeparator(a[0], Join(a[1..], sep), b[0], Join(b[1..], sep), sep);
      JoinInjective(a[1..], b[1..], sep);
      assert a == [a[0]] + a[1..] && b == [b[0]] + b[1..];
    }
  }

  // ---- The query line ----

  lemma EncodePairInjective(p: Pair, q: Pair)
    requires EncodePair(p) == EncodePair(q)
    ensures p == q
  {
    EncodedBytes(p.0, false);
    EncodedBytes(q.0, false);
    FirstSeparator(Encode(p.0), Encode(p.1), Encode(q.0), Encode(q.1), EQUALS);
    EncodeInjective(p.0, q.0, false);
    EncodeInjective(p.1, q.1, false);
  }

  lemma EncodedPairBytes(p: Pair)
    ensures EQUALS in EncodePair(p) && AMPERSAND !in EncodePair(p) && NEWLINE !in EncodePair(p)
  {
    EncodedBytes(p.0, false);
    EncodedBytes(p.1, false);
    assert EncodePair(p)[|Encode(p.0)|] == EQUALS;
  }

  /** Every sorted pair is some pair of the query, encoded. */
  lemma SortedPairs(query: seq<Pair>, x: seq<byte>)
    requires x in Sort(EncodePairs(query))
    ensures EQUALS in x && AMPERSAND !in x && NEWLINE !in x
  {
    assert x in multiset(Sort(EncodePairs(query)));
    assert x in EncodePairs(query);
    var i :| 0 <= i < |query| && EncodePairs(query)[i] == x;
    EncodedPairBytes(query[i]);
  }

  lemma {:induction false} JoinHasPart(parts: seq<seq<byte>>, sep: byte, c: byte)
    requires parts != [] && c in parts[0]
    ensures c in Join(parts, sep)
  {}

  lemma SortedPairsFromQuery(query: seq<Pair>)
    requires query != []
    ensures Split(CanonicalQuery(query), AMPERSAND) == Sort(EncodePairs(query))
    ensures CanonicalQuery(query) != []
  {
    var sorted := Sort(EncodePairs(query));
    assert |multiset(sorted)| == |sorted| && |multiset(EncodePairs(query))| == |query|;
    forall p | p in sorted ensures AMPERSAND !in p && EQUALS in p {
      SortedPairs(query, p);
    }
    SplitJoin(sorted, AMPERSAND);
    assert sorted[0] in sorted;
    JoinHasPart(sorted, AMPERSAND, EQUALS);
  }

  /** The pairs come in ascending order of their bytes, … */
  lemma QueryIsAscending(query: seq<Pair>, i: nat)
    requires query != [] && i + 1 < |Split(CanonicalQuery(query), '&' as int as byte)|
    ensures var parts := Split(CanonicalQuery(query), '&' as int as byte); Ascends(parts[i], parts[i + 1])
  {
    hide Encode, Split, AtMost, CanonicalQuery, Ascends;
    SortedPairsFromQuery(query);
    var parts := Sort(EncodePairs(query));
    AtMostMeans(parts[i], parts[i + 1]);
  }

  /** … each as often as it was given. */
  lemma QueryHasPairs(query: seq<Pair>)
    requires query != []
    ensures multiset(Split(CanonicalQuery(query), '&' as int as byte)) == multiset(EncodePairs(query))
    ensures |EncodePairs(query)| == |query|
    ensures forall i | 0 <= i < |query| ::
      EncodePairs(query)[i] == Encode(query[i].0) + ['=' as int as byte] + Encode(query[i].1)
  {
    hide Encode, Split, AtMost, CanonicalQuery;
    SortedPairsFromQuery(query);
  }

  lemma {:induction false} CountEncoded(query: seq<Pair>, p: Pair)
    ensures multiset(EncodePairs(query))[EncodePair(p)] == multiset(query)[p]
  {
    hide EncodePair;
    if query != [] {
      CountEncoded(query[1..], p);
      assert query == [query[0]] + query[1..];
      if EncodePair(query[0]) == EncodePair(p) {
        EncodePairInjective(query[0], p);
      }
    }
  }

  lemma QueryInjective(a: seq<Pair>, b: seq<Pair>)
    requires CanonicalQuery(a) == CanonicalQuery(b)
    ensures multiset(a) == multiset(b)
  {
    hide EncodePair, EncodePairs, Sort, CanonicalQuery;
    EmptyQuery();
    if a != [] { SortedPairsFromQuery(a); }
    if b != [] { SortedPairsFromQuery(b); }
    if a != [] && b != [] {
      assert multiset(EncodePairs(a)) == multiset(EncodePairs(b));
      forall p: Pair ensures multiset(a)[p] == multiset(b)[p] {
        CountEncoded(a, p);
        CountEncoded(b, p);
      }
    }
  }

  lemma EmptyQuery()
    ensures CanonicalQuery([]) == []
  {}

  // ---- The other lines ----

  lemma {:induction false} JoinFree(parts: seq<seq<byte>>, sep: byte, c: byte)
    requires c != sep
    requires forall p :: p in parts ==> c !in p
    ensures c !in Join(parts, sep)
  {
    if |parts| > 1 {
      JoinFree(parts[1..], sep, c);
    }
  }

  lemma QueryIsOneLine(query: seq<Pair>)
    ensures NEWLINE !in CanonicalQuery(query)
  {
    hide Sort;
    forall x | x in Sort(EncodePairs(query)) ensures NEWLINE !in x {
      SortedPairs(query, x);
    }
    JoinFree(Sort(EncodePairs(query)), AMPERSAND, NEWLINE);
  }

  lemma UpperIsOneLine(s: seq<byte>)
    requires NEWLINE !in s
    ensures NEWLINE !in Upper(s)
  {}

  lemma PathIsOneLine(path: seq<byte>)
    ensures NEWLINE !in CanonicalPath(path)
  {
    EncodedBytes(path, true);
  }

  /** The paths that are written "/". */
  predicate IsRoot(path: seq<byte>) { path == [] || path == [SLASH] }

  lemma PathInjective(p: seq<byte>, q: seq<byte>)
    ensures CanonicalPath(p) == CanonicalPath(q) <==> p == q || (IsRoot(p) && IsRoot(q))
  {
    assert EncodeKeeping([SLASH], true) == [SLASH];
    if CanonicalPath(p) == CanonicalPath(q) {
      EncodeInjective(if p == [] then [SLASH] else p, if q == [] then [SLASH] else q, true);
    }
  }

  lemma BodyInjective(a: seq<byte>, b: seq<byte>)
    ensures NEWLINE !in HashBody(a)
    ensures HashBody(a) == HashBody(b) <==> Sha256Spec.Sha256(a) == Sha256Spec.Sha256(b)
  {
    hide Sha256Spec.Sha256;
    if HashBody(a) == HashBody(b) {
      Hmac.ToHexInjective(Sha256Spec.Sha256(a), Sha256Spec.Sha256(b));
    }
  }

  /** Only the last field may hold a slash. */
  ghost predicate PlainScope(s: Scope) {
    SLASH !in s.accessKeyId && SLASH !in s.date && SLASH !in s.region
  }

  lemma ScopeInjective(a: Scope, b: Scope)
    requires PlainScope(a) && PlainScope(b)
    requires ScopeString(a) == ScopeString(b)
    ensures a == b
  {
    JoinInjective(ScopeFields(a), ScopeFields(b), SLASH);
    assert ScopeFields(a)[0] == ScopeFields(b)[0] && ScopeFields(a)[1] == ScopeFields(b)[1];
    assert ScopeFields(a)[2] == ScopeFields(b)[2] && ScopeFields(a)[3] == ScopeFields(b)[3];
  }

  lemma AlgorithmIsOneLine()
    ensures NEWLINE !in Algorithm()
  {
    assert forall i :: 0 <= i < |Algorithm()| ==> Algorithm()[i] >= 45;
  }

  lemma SixLines(a: seq<byte>, b: seq<byte>, c: seq<byte>, d: seq<byte>, e: seq<byte>, f: seq<byte>,
                 g: seq<byte>)
    requires NEWLINE !in a && NEWLINE !in b && NEWLINE !in c
    requires NEWLINE !in d && NEWLINE !in e && NEWLINE !in f
    ensures forall i :: 0 <= i < 6 ==> NEWLINE !in [a, b, c, d, e, f, g][i]
  {}

  lemma LinesAreLines(r: Request, scope: Scope, timestamp: seq<byte>)
    requires NEWLINE !in r.method_ && NEWLINE !in timestamp
    ensures forall i :: 0 <= i < 6 ==> NEWLINE !in Lines(r, scope, timestamp)[i]
  {
    hide Algorithm, CanonicalPath, CanonicalQuery, HashBody, Upper, ScopeString;
    AlgorithmIsOneLine();
    UpperIsOneLine(r.method_);
    PathIsOneLine(r.path);
    QueryIsOneLine(r.query);
    BodyInjective(r.body, r.body);
    SixLines(Algorithm(), Upper(r.method_), CanonicalPath(r.path), CanonicalQuery(r.query), timestamp,
             HashBody(r.body), ScopeString(scope));
  }

  // ---- The theorem ----

  /** What two requests with one signature agree on. */
  ghost predicate SameSigned(r: Request, s: Scope, t: seq<byte>, r': Request, s': Scope, t': seq<byte>) {
    && Upper(r.method_) == Upper(r'.method_)
    && (r.path == r'.path || (IsRoot(r.path) && IsRoot(r'.path)))
    && multiset(r.query) == multiset(r'.query)
    && t == t'
    && Sha256Spec.Sha256(r.body) == Sha256Spec.Sha256(r'.body)
    && s == s'
  }

  lemma SameScope(r: Request, s: Scope, t: seq<byte>, r': Request, s': Scope, t': seq<byte>)
    requires SameSigned(r, s, t, r', s', t')
    ensures s == s'
  {}

  lemma CanonicalIsMeaning(r: Request, s: Scope, t: seq<byte>, r': Request, s': Scope, t': seq<byte>)
    requires NEWLINE !in r.method_ && NEWLINE !in r'.method_ && NEWLINE !in t && NEWLINE !in t'
    requires PlainScope(s) && PlainScope(s')
    ensures Canonical(r, s, t) == Canonical(r', s', t') <==> SameSigned(r, s, t, r', s', t')
  {
    hide CanonicalPath, CanonicalQuery, HashBody, Upper, ScopeString, Sha256Spec.Sha256;
    var l, l' := Lines(r, s, t), Lines(r', s', t');
    PathInjective(r.path, r'.path);
    BodyInjective(r.body, r'.body);
    if Canonical(r, s, t) == Canonical(r', s', t') {
      LinesAreLines(r, s, t);
      LinesAreLines(r', s', t');
      JoinInjective(l, l', NEWLINE);
      assert l[1] == l'[1] && l[2] == l'[2] && l[3] == l'[3];
      assert l[4] == l'[4] && l[5] == l'[5] && l[6] == l'[6];
      QueryInjective(r.query, r'.query);
      ScopeInjective(s, s');
    }
    if SameSigned(r, s, t, r', s', t') {
      QueryOrderIsIrrelevant(r.query, r'.query);
      assert l == l';
    }
  }

  // ---- The shape of the string ----

  /** Every segment of the path is encoded by itself; no path is the root. */
  lemma PathSegments(path: seq<byte>)
    ensures path == [] ==> CanonicalPath(path) == ['/' as int as byte]
    ensures path != [] ==>
      var segments := Split(path, '/' as int as byte);
      Split(CanonicalPath(path), '/' as int as byte)
        == seq(|segments|, i requires 0 <= i < |segments| => Encode(segments[i]))
  {
    hide EncodeKeeping, Split;
    if path != [] {
      var segments := Split(path, SLASH);
      var encoded := EncodeAll(segments);
      EncodeSegments(path);
      forall p | p in encoded ensures SLASH !in p {
        var i :| 0 <= i < |encoded| && encoded[i] == p;
        EncodedBytes(segments[i], false);
      }
      SplitJoin(encoded, SLASH);
      assert encoded == seq(|segments|, i requires 0 <= i < |segments| => Encode(segments[i]));
    }
  }

  /** The bytes of a text of ASCII characters. */
  predicate Spells(s: seq<byte>, text: string) {
    |s| == |text| && forall i | 0 <= i < |s| :: s[i] as int == text[i] as int
  }

  lemma AlgorithmIs()
    ensures Spells(Algorithm(), "DARIYA1-HMAC-SHA256")
  {
    var a, text := Algorithm(), "DARIYA1-HMAC-SHA256";
    assert a[0] as int == text[0] as int && a[1] as int == text[1] as int && a[2] as int == text[2] as int;
    assert a[3] as int == text[3] as int && a[4] as int == text[4] as int && a[5] as int == text[5] as int;
    assert a[6] as int == text[6] as int && a[7] as int == text[7] as int && a[8] as int == text[8] as int;
    assert a[9] as int == text[9] as int && a[10] as int == text[10] as int && a[11] as int == text[11] as int;
    assert a[12] as int == text[12] as int && a[13] as int == text[13] as int && a[14] as int == text[14] as int;
    assert a[15] as int == text[15] as int && a[16] as int == text[16] as int && a[17] as int == text[17] as int;
    assert a[18] as int == text[18] as int;
  }

  lemma UpperIs(s: seq<byte>, i: nat)
    requires i < |s|
    ensures Upper(s)[i] as int ==
      if 'a' as int <= s[i] as int <= 'z' as int then 'A' as int + (s[i] as int - 'a' as int) else s[i] as int
  {}

  /** The string, line by line. */
  lemma CanonicalIs(r: Request, scope: Scope, timestamp: seq<byte>)
    ensures var line, slash := ['\n' as int as byte], ['/' as int as byte];
      Canonical(r, scope, timestamp)
        == Algorithm() + line + Upper(r.method_) + line + CanonicalPath(r.path) + line + CanonicalQuery(r.query)
         + line + timestamp + line + Hmac.ToHex(Sha256Spec.Sha256(r.body))
         + line + (scope.accessKeyId + slash + scope.date + slash + scope.region + slash + scope.service)
  {
    hide Algorithm, CanonicalPath, CanonicalQuery, Upper, Sha256Spec.Sha256, Hmac.ToHex, Join;
    JoinSeven(Algorithm(), Upper(r.method_), CanonicalPath(r.path), CanonicalQuery(r.query), timestamp,
              HashBody(r.body), ScopeString(scope));
    JoinFour(scope.accessKeyId, scope.date, scope.region, scope.service);
  }
}
