/** The query on the wire: what the C++ client sends, and the parser of its library that reads it back.  The
    service is written in Go and reads the query with that language's own library, which is not modelled. */
module WireQuery {
  import opened Bytes
  import opened Splitting
  import opened UriEncoding
  import opened CanonicalString
  import CanonicalInjectivity

  const QUESTION_MARK: byte := 63

  /** Everything behind the question mark. */
  function WireForm(query: seq<Pair>): seq<byte> { Join(EncodePairs(query), AMPERSAND) }

  /** `build_query_string` */
  method BuildQueryString(query: seq<Pair>) returns (out: seq<byte>)
    ensures out == if query == [] then [] else [QUESTION_MARK] + WireForm(query)
  {
    if query == [] {
      return [];
    }
    hide Encode;
    out := [QUESTION_MARK];
    ghost var pairs := EncodePairs(query);
    for i := 0 to |query|
      invariant out == [QUESTION_MARK] + Join(pairs[..i], AMPERSAND)
    {
      assert pairs[..i] + [pairs[i]] == pairs[..i + 1];
      if i > 0 {
        out := out + [AMPERSAND];
        JoinOneMore(pairs[..i], pairs[i], AMPERSAND);
      }
      var k := UriEncode(query[i].0);
      var v := UriEncode(query[i].1);
      out := out + (k + [EQUALS] + v);
    }
    assert pairs[..|pairs|] == pairs;
  }

  /** One `key=value`, or a key alone. */
  function ParsePair(part: seq<byte>): Pair {
    var eq := IndexOf(part, EQUALS);
    if eq == |part| then (Decode(part), []) else (Decode(part[..eq]), Decode(part[eq + 1..]))
  }

  /** Empty parts are skipped. */
  function ParsePart(part: seq<byte>): seq<Pair> {
    if part == [] then [] else [ParsePair(part)]
  }

  function ParseParts(parts: seq<seq<byte>>): seq<Pair> {
    if parts == [] then [] else ParsePart(parts[0]) + ParseParts(parts[1..])
  }

  function ParseWire(raw: seq<byte>): seq<Pair> { ParseParts(Split(raw, AMPERSAND)) }

  /** One turn of the loop: the part at `start`, and what is left behind the next separator. */
  lemma PartAt(raw: seq<byte>, start: nat)
    requires start <= |raw|
    ensures var amp := start + IndexOf(raw[start..], AMPERSAND);
      ParseWire(raw[start..])
        == ParsePart(raw[start..amp]) + if amp == |raw| then [] else ParseWire(raw[amp + 1..])
  {
    hide IndexOf, ParsePart;
    var i := IndexOf(raw[start..], AMPERSAND);
    var part := raw[start..start + i];
    assert part == raw[start..][..i];
    if start + i < |raw| {
      var rest := raw[start + i + 1..];
      assert rest == raw[start..][i + 1..];
      assert ([part] + Split(rest, AMPERSAND))[1..] == Split(rest, AMPERSAND);
    } else {
      assert part == raw[start..];
      assert ParseParts([part][1..]) == [];
    }
  }

  method ReadPart(part: seq<byte>) returns (out: seq<Pair>)
    ensures out == ParsePart(part)
  {
    if part == [] {
      return [];
    }
    var eq := IndexOf(part, EQUALS);
    if eq == |part| {
      var k := FormDecode(part);
      return [(k, [])];
    } else {
      var k := FormDecode(part[..eq]);
      var v := FormDecode(part[eq + 1..]);
      return [(k, v)];
    }
  }

  /** A key alone reads as one with no value; otherwise the first `=` ends the key. */
  lemma PairReads(key: seq<byte>, value: seq<byte>)
    requires '=' as int as byte !in key
    ensures ParsePair(key) == (Decode(key), [])
    ensures ParsePair(key + ['=' as int as byte] + value) == (Decode(key), Decode(value))
  {
    hide Decode, IndexOf;
    var part := key + [EQUALS] + value;
    IndexOfNone(key, EQUALS);
    IndexOfFirst(key, EQUALS, value);
    assert part[..|key|] == key && part[|key| + 1..] == value;
  }

  lemma {:induction false} ParsePartsConcat(a: seq<seq<byte>>, b: seq<seq<byte>>)
    ensures ParseParts(a + b) == ParseParts(a) + ParseParts(b)
  {
    hide ParsePart;
    if a == [] {
      assert a + b == b;
    } else {
      assert (a + b)[1..] == a[1..] + b;
      ParsePartsConcat(a[1..], b);
    }
  }

  /** What `&` separates is read by itself, and nothing is read from an empty part. */
  lemma WireReads(a: seq<byte>, b: seq<byte>)
    ensures ParseWire([]) == []
    ensures a != [] && '&' as int as byte !in a ==> ParseWire(a) == [ParsePair(a)]
    ensures ParseWire(a + ['&' as int as byte] + b) == ParseWire(a) + ParseWire(b)
  {
    hide ParsePair, IndexOf, Split;
    NothingToParse();
    SplitConcat(a, b, AMPERSAND);
    ParsePartsConcat(Split(a, AMPERSAND), Split(b, AMPERSAND));
    if AMPERSAND !in a {
      SplitOne(a, AMPERSAND);
      assert ParseParts([a][1..]) == [];
    }
  }

  /** What is sent: encoded pairs, `&` between them, `=` in them. */
  lemma WireIs(first: Pair, rest: seq<Pair>)
    ensures WireForm([first] + rest)
         == Encode(first.0) + ['=' as int as byte] + Encode(first.1)
          + (if rest == [] then [] else ['&' as int as byte] + WireForm(rest))
  {
    hide Encode;
    assert EncodePairs(([first] + rest)[1..]) == EncodePairs(rest);
    var pairs := EncodePairs([first] + rest);
    assert pairs[1..] == EncodePairs(rest);
  }

  lemma NothingToParse()
    ensures ParseWire([]) == []
  {
    assert Split([], AMPERSAND) == [[]];
    assert ParseParts([[]]) == ParsePart([]) + ParseParts([[]][1..]);
  }

  lemma Regroup(a: seq<Pair>, b: seq<Pair>, c: seq<Pair>)
    ensures a + (b + c) == a + b + c
  {}

  /** `parse_query`: scans from separator to separator by index. */
  method ParseQuery(raw: seq<byte>) returns (out: seq<Pair>)
    ensures out == ParseWire(raw)
  {
    hide *;
    out := [];
    if raw == [] {
      NothingToParse();
      return;
    }
    var start := 0;
    assert raw[start..] == raw;
    while start <= |raw|
      invariant start <= |raw|
      invariant out + ParseWire(raw[start..]) == ParseWire(raw)
      decreases |raw| - start
    {
      var amp := start + IndexOf(raw[start..], AMPERSAND);
      PartAt(raw, start);
      var more := ReadPart(raw[start..amp]);
      ghost var rest := if amp == |raw| then [] else ParseWire(raw[amp + 1..]);
      Regroup(out, more, rest);
      out := out + more;
      if amp == |raw| {
        break;
      }
      start := amp + 1;
    }
  }

  lemma ParseEncodedPair(p: Pair)
    ensures ParsePair(EncodePair(p)) == p
  {
    hide IndexOf, Decode;
    EncodedBytes(p.0, false);
    var e := EncodePair(p);
    IndexOfFirst(Encode(p.0), EQUALS, Encode(p.1));
    assert e[..|Encode(p.0)|] == Encode(p.0);
    assert e[|Encode(p.0)| + 1..] == Encode(p.1);
    DecodeEncode(p.0, false);
    DecodeEncode(p.1, false);
  }

  lemma {:induction false} ParseEncodedPairs(query: seq<Pair>)
    ensures ParseParts(EncodePairs(query)) == query
  {
    hide ParsePair, EncodePair;
    if query != [] {
      ParseEncodedPair(query[0]);
      CanonicalInjectivity.EncodedPairBytes(query[0]);
      ParseEncodedPairs(query[1..]);
      var rest := EncodePairs(query[1..]);
      assert ([EncodePair(query[0])] + rest)[1..] == rest;
    }
  }

  /** Parsing what was sent gives the same pairs, in the same order. */
  lemma WireRoundTrip(query: seq<Pair>)
    ensures ParseWire(WireForm(query)) == query
  {
    hide IndexOf, Split;
    if query == [] {
      EmptyWire();
      NothingToParse();
    } else {
      var pairs := EncodePairs(query);
      forall p | p in pairs ensures AMPERSAND !in p && EQUALS in p {
        var i :| 0 <= i < |pairs| && pairs[i] == p;
        CanonicalInjectivity.EncodedPairBytes(query[i]);
      }
      SplitJoin(pairs, AMPERSAND);
      assert pairs[0] in pairs;
      CanonicalInjectivity.JoinHasPart(pairs, AMPERSAND, EQUALS);
      ParseEncodedPairs(query);
    }
  }

  /** So what the client's library recomputes from the wire is what it signed. */
  method SentQueryIsSignedQuery(query: seq<Pair>) returns (recomputed: seq<byte>)
    ensures recomputed == CanonicalQuery(query)
  {
    hide CanonicalQuery, WireForm, ParseWire;
    var wire := BuildQueryString(query);
    var received := if wire == [] then [] else wire[1..];
    assert received == WireForm(query) by {
      EmptyWire();
      if query != [] {
        assert ([QUESTION_MARK] + WireForm(query))[1..] == WireForm(query);
      }
    }
    var parsed := ParseQuery(received);
    WireRoundTrip(query);
    recomputed := CppCanonicalQuery(parsed);
  }

  lemma EmptyWire()
    ensures WireForm([]) == []
  {}
}
