/** Signing a request, reading the Authorization header, and verifying what it says. */
module Signature {
  import opened Bytes
  import opened Splitting
  import opened UriEncoding
  import opened CanonicalString
  import opened Wrappers
  import Hmac
  import CanonicalInjectivity
  import Sha256Spec

  datatype Failure =
    | MalformedHeader | UnknownAlgorithm | MalformedCredential | MissingDate | MalformedDate
    | DateMismatch | Skew | ScopeMismatch | BodyHash | BadSignature

  datatype Parsed = Parsed(scope: Scope, signature: seq<byte>)

  /** Reading and writing timestamps.  `format` takes whole seconds of the Unix clock; `parse` may
      accept more than `format` writes, a fraction of a second for one. */
  datatype Calendar = Calendar(format: int -> seq<byte>, parse: seq<byte> -> Option<real>)

  // The years 0000 to 9999, the ones a timestamp has sixteen characters for.
  const FIRST_SECOND: int := -62_167_219_200
  const LAST_SECOND: int := 253_402_300_799

  ghost predicate IsCalendar(c: Calendar) {
    forall s: int | FIRST_SECOND <= s <= LAST_SECOND ::
      |c.format(s)| == 16 && c.parse(c.format(s)) == Some(s as real)
  }

  /** Five minutes, in seconds. */
  const MAX_SKEW := 300.0

  // `Credential` and `Signature`
  function CredentialKey(): seq<byte> { [67, 114, 101, 100, 101, 110, 116, 105, 97, 108] }

  function SignatureKey(): seq<byte> { [83, 105, 103, 110, 97, 116, 117, 114, 101] }

  // ---- Sign ----

  function Mac(secret: seq<byte>, message: seq<byte>): seq<byte> {
    Hmac.ToHex(Hmac.HmacSha256(secret, message))
  }

  function AuthorizationHeader(scope: Scope, signature: seq<byte>): seq<byte> {
    Algorithm() + [SPACE] + (CredentialKey() + [EQUALS] + ScopeString(scope) + [COMMA]
                             + [SPACE] + SignatureKey() + [EQUALS] + signature)
  }

  datatype Signed = Signed(authorization: seq<byte>, date: seq<byte>, contentSha256: seq<byte>)

  function ScopeFor(accessKeyId: seq<byte>, timestamp: seq<byte>, region: seq<byte>, service: seq<byte>): Scope
    requires |timestamp| == 16
  {
    Scope(accessKeyId, timestamp[..8], region, service)
  }

  function Sign(r: Request, accessKeyId: seq<byte>, secret: seq<byte>, region: seq<byte>,
                service: seq<byte>, timestamp: seq<byte>): Signed
    requires |timestamp| == 16
  {
    var scope := ScopeFor(accessKeyId, timestamp, region, service);
    var signature := Mac(secret, Canonical(r, scope, timestamp));
    Signed(AuthorizationHeader(scope, signature), timestamp, HashBody(r.body))
  }

  // ---- ParseAuthorization ----

  predicate IsSpace(c: byte) { c == SPACE || 9 <= c <= 13 }

  function TrimLeft(s: seq<byte>): seq<byte> {
    if s != [] && IsSpace(s[0]) then TrimLeft(s[1..]) else s
  }

  function TrimRight(s: seq<byte>): seq<byte> {
    if s != [] && IsSpace(s[|s| - 1]) then TrimRight(s[..|s| - 1]) else s
  }

  /** `strings.TrimSpace`, on strings whose ends are ASCII. */
  function TrimSpace(s: seq<byte>): seq<byte> { TrimRight(TrimLeft(s)) }

  /** What the loop over the parameters has seen. */
  datatype Seen = Seen(credential: Option<Scope>, signature: Option<seq<byte>>)

  /** One parameter.  A later one of the same name replaces an earlier one; others are ignored. */
  function ReadParameter(part: seq<byte>, seen: Seen): Result<Seen, Failure> {
    var p := TrimSpace(part);
    var eq := IndexOf(p, EQUALS);
    if eq == |p| then Err(MalformedHeader) else
      var key, value := p[..eq], p[eq + 1..];
      if key == CredentialKey() then
        var fields := Split(value, SLASH);
        if |fields| != 4 then Err(MalformedCredential)
        else Ok(seen.(credential := Some(Scope(fields[0], fields[1], fields[2], fields[3]))))
      else if key == SignatureKey() then Ok(seen.(signature := Some(value)))
      else Ok(seen)
  }

  function ReadParameters(parts: seq<seq<byte>>, seen: Seen): Result<Seen, Failure> {
    if parts == [] then Ok(seen) else
      match ReadParameter(parts[0], seen)
      case Err(f) => Err(f)
      case Ok(more) => ReadParameters(parts[1..], more)
  }

  function ParseHeader(header: seq<byte>): Result<Parsed, Failure> {
    var h := TrimSpace(header);
    var space := IndexOf(h, SPACE);
    if space == |h| then Err(MalformedHeader)
    else if h[..space] != Algorithm() then Err(UnknownAlgorithm)
    else
      match ReadParameters(Split(h[space + 1..], COMMA), Seen(None, None))
      case Err(f) => Err(f)
      case Ok(Seen(Some(scope), Some(signature))) => Ok(Parsed(scope, signature))
      case Ok(_) => Err(MalformedHeader)
  }

  /** `signing.ParseAuthorization`. */
  method ParseAuthorization(header: seq<byte>) returns (r: Result<Parsed, Failure>)
    ensures r == ParseHeader(header)
  {
    hide IndexOf, Split, TrimSpace, Algorithm, CredentialKey, SignatureKey;
    var h := TrimSpace(header);
    var space := IndexOf(h, SPACE);
    if space == |h| {
      return Err(MalformedHeader);
    }
    if h[..space] != Algorithm() {
      return Err(UnknownAlgorithm);
    }
    var scope, signature := Scope([], [], [], []), [];
    var credSeen, sigSeen := false, false;
    var parts := Split(h[space + 1..], COMMA);
    ghost var start := Seen(None, None);
    assert parts[0..] == parts;
    for i := 0 to |parts|
      invariant ReadParameters(parts, start)
        == ReadParameters(parts[i..], Seen(if credSeen then Some(scope) else None,
                                           if sigSeen then Some(signature) else None))
    {
      assert parts[i..][0] == parts[i] && parts[i..][1..] == parts[i + 1..];
      var p := TrimSpace(parts[i]);
      var eq := IndexOf(p, EQUALS);
      if eq == |p| {
        return Err(MalformedHeader);
      }
      var key, value := p[..eq], p[eq + 1..];
      if key == CredentialKey() {
        var fields := Split(value, SLASH);
        if |fields| != 4 {
          return Err(MalformedCredential);
        }
        scope, credSeen := Scope(fields[0], fields[1], fields[2], fields[3]), true;
      } else if key == SignatureKey() {
        signature, sigSeen := value, true;
      }
    }
    if !credSeen || !sigSeen {
      return Err(MalformedHeader);
    }
    return Ok(Parsed(scope, signature));
  }

  // ---- Verify ----

  datatype VerifyInput = VerifyInput(
    request: Request, signature: Parsed, date: seq<byte>, contentSha256: seq<byte>,
    secret: seq<byte>, region: seq<byte>, service: seq<byte>, now: real)

  /** `signing.Verify`, in the order it checks.  A date that parses has at least eight bytes. */
  function Verify(c: Calendar, v: VerifyInput): Option<Failure> {
    if v.date == [] then Some(MissingDate) else
    var ts := c.parse(v.date);
    if ts.None? || |v.date| < 8 then Some(MalformedDate)
    else if v.signature.scope.date != v.date[..8] then Some(DateMismatch)
    else if v.now - ts.value > MAX_SKEW || v.now - ts.value < -MAX_SKEW then Some(Skew)
    else if v.signature.scope.region != v.region || v.signature.scope.service != v.service then
      Some(ScopeMismatch)
    else if v.contentSha256 != [] && HashBody(v.request.body) != v.contentSha256 then Some(BodyHash)
    else if Mac(v.secret, Canonical(v.request, v.signature.scope, v.date)) != v.signature.signature then
      Some(BadSignature)
    else None
  }

  // ---- Parsing what was signed ----

  /** Free of "/", "," and white space. */
  ghost predicate PlainField(s: seq<byte>) {
    forall c :: c in s ==> c != SLASH && c != COMMA && !IsSpace(c)
  }

  ghost predicate PlainFields(s: Scope) {
    PlainField(s.accessKeyId) && PlainField(s.date) && PlainField(s.region) && PlainField(s.service)
  }

  lemma NothingToTrim(s: seq<byte>)
    requires s != [] && !IsSpace(s[0]) && !IsSpace(s[|s| - 1])
    ensures TrimSpace(s) == s
  {}

  lemma OneSpaceToTrim(s: seq<byte>)
    requires s != [] && !IsSpace(s[0]) && !IsSpace(s[|s| - 1])
    ensures TrimSpace([SPACE] + s) == s
  {
    var padded := [SPACE] + s;
    assert padded[1..] == s && IsSpace(padded[0]);
    assert TrimLeft(s) == s;
    assert TrimLeft(padded) == TrimLeft(padded[1..]);
  }

  lemma FirstWord(word: seq<byte>, sep: byte, rest: seq<byte>)
    requires sep !in word
    ensures IndexOf(word + [sep] + rest, sep) == |word|
    ensures (word + [sep] + rest)[..|word|] == word
    ensures (word + [sep] + rest)[|word| + 1..] == rest
  {
    IndexOfFirst(word, sep, rest);
  }

  lemma ScopeBytes(s: Scope)
    requires PlainFields(s)
    ensures forall c :: c in ScopeString(s) ==> c != COMMA && !IsSpace(c)
    ensures Split(ScopeString(s), SLASH) == ScopeFields(s)
  {
    hide IsSpace, Join, Split;
    SplitJoin(ScopeFields(s), SLASH);
    JoinFour(s.accessKeyId, s.date, s.region, s.service);
    SlashIsNotSpace();
  }

  lemma SlashIsNotSpace()
    ensures !IsSpace(SLASH)
  {}

  lemma CredentialParses(s: Scope, seen: Seen)
    requires PlainFields(s)
    ensures ReadParameter(CredentialKey() + [EQUALS] + ScopeString(s), seen)
      == Ok(seen.(credential := Some(s)))
  {
    hide ScopeString, IndexOf, Split, TrimSpace;
    ScopeBytes(s);
    var part := CredentialKey() + [EQUALS] + ScopeString(s);
    assert part[0] == 67;
    if ScopeString(s) != [] {
      assert part[|part| - 1] == ScopeString(s)[|ScopeString(s)| - 1];
    }
    NothingToTrim(part);
    FirstWord(CredentialKey(), EQUALS, ScopeString(s));
  }

  lemma SignatureParses(signature: seq<byte>, seen: Seen)
    requires forall c :: c in signature ==> !IsSpace(c)
    ensures ReadParameter([SPACE] + SignatureKey() + [EQUALS] + signature, seen)
      == Ok(seen.(signature := Some(signature)))
  {
    hide IndexOf, TrimSpace;
    var p := SignatureKey() + [EQUALS] + signature;
    assert p[0] == 83;
    if signature != [] {
      assert p[|p| - 1] == signature[|signature| - 1];
    }
    OneSpaceToTrim(p);
    assert [SPACE] + SignatureKey() + [EQUALS] + signature == [SPACE] + p;
    FirstWord(SignatureKey(), EQUALS, signature);
  }

  lemma HeaderParts(scope: Scope, signature: seq<byte>)
    requires PlainFields(scope) && COMMA !in signature
    ensures Split(CredentialKey() + [EQUALS] + ScopeString(scope) + [COMMA]
                  + [SPACE] + SignatureKey() + [EQUALS] + signature, COMMA)
      == [CredentialKey() + [EQUALS] + ScopeString(scope), [SPACE] + SignatureKey() + [EQUALS] + signature]
  {
    hide ScopeString, Split;
    ScopeBytes(scope);
    var first := CredentialKey() + [EQUALS] + ScopeString(scope);
    var second := [SPACE] + SignatureKey() + [EQUALS] + signature;
    assert COMMA !in CredentialKey() && COMMA !in SignatureKey();
    SplitJoin([first, second], COMMA);
    assert Join([first, second], COMMA) == first + [COMMA] + second by {
      assert Join([second], COMMA) == second;
    }
    assert first + [COMMA] + second == CredentialKey() + [EQUALS] + ScopeString(scope) + [COMMA]
                  + [SPACE] + SignatureKey() + [EQUALS] + signature;
  }

  lemma HeaderEnds(scope: Scope, signature: seq<byte>)
    requires forall c :: c in signature ==> !IsSpace(c)
    ensures TrimSpace(AuthorizationHeader(scope, signature)) == AuthorizationHeader(scope, signature)
    ensures SPACE !in Algorithm()
  {
    hide ScopeString, TrimSpace;
    var h := AuthorizationHeader(scope, signature);
    assert h[0] == 68;
    if signature != [] {
      assert h[|h| - 1] == signature[|signature| - 1];
    }
    NothingToTrim(h);
  }

  /** Parsing the header of a signed request recovers the scope and the signature. */
  lemma HeaderRoundTrip(scope: Scope, signature: seq<byte>)
    requires PlainFields(scope)
    requires forall c :: c in signature ==> c != COMMA && !IsSpace(c)
    ensures ParseHeader(AuthorizationHeader(scope, signature)) == Ok(Parsed(scope, signature))
  {
    hide ScopeString, IndexOf, Split, TrimSpace, Algorithm, CredentialKey, SignatureKey, ReadParameter;
    var params := CredentialKey() + [EQUALS] + ScopeString(scope) + [COMMA]
                  + [SPACE] + SignatureKey() + [EQUALS] + signature;
    HeaderEnds(scope, signature);
    FirstWord(Algorithm(), SPACE, params);
    HeaderParts(scope, signature);
    var first := CredentialKey() + [EQUALS] + ScopeString(scope);
    var second := [SPACE] + SignatureKey() + [EQUALS] + signature;
    var s0 := Seen(None, None);
    CredentialParses(scope, s0);
    SignatureParses(signature, Seen(Some(scope), None));
    assert [first, second][1..] == [second];
    assert [second][1..] == [];
    assert ReadParameters([second], Seen(Some(scope), None)) == Ok(Seen(Some(scope), Some(signature)));
  }

  lemma MacIsPlain(secret: seq<byte>, message: seq<byte>)
    ensures forall c :: c in Mac(secret, message) ==> c != COMMA && !IsSpace(c)
  {
    hide Hmac.HmacSha256;
    var mac := Mac(secret, message);
    forall c | c in mac ensures c != COMMA && !IsSpace(c) {
      assert Hmac.IsLowerHex(c);
    }
  }

  /** A request signed in the second `signedAt`, sent with its headers and parsed on arrival, verifies
      at exactly the instants within five minutes of that second. */
  lemma VerifiesWithinSkew(c: Calendar, r: Request, accessKeyId: seq<byte>, secret: seq<byte>,
                           region: seq<byte>, service: seq<byte>, signedAt: int, now: real)
    requires IsCalendar(c) && FIRST_SECOND <= signedAt <= LAST_SECOND
    requires PlainFields(ScopeFor(accessKeyId, c.format(signedAt), region, service))
    ensures var sent := Sign(r, accessKeyId, secret, region, service, c.format(signedAt));
      && ParseHeader(sent.authorization).Ok?
      && (Verify(c, VerifyInput(r, ParseHeader(sent.authorization).value, sent.date, sent.contentSha256,
                                secret, region, service, now)) == None
          <==> signedAt as real - MAX_SKEW <= now <= signedAt as real + MAX_SKEW)
  {
    hide Mac, HashBody, Canonical, ParseHeader, AuthorizationHeader;
    var ts := c.format(signedAt);
    var scope := ScopeFor(accessKeyId, ts, region, service);
    MacIsPlain(secret, Canonical(r, scope, ts));
    HeaderRoundTrip(scope, Mac(secret, Canonical(r, scope, ts)));
  }

  /** A header is taken for what it says in all its particulars, whoever wrote it: it is accepted if and only if
      its timestamp can be read and its day is the scope's, the clock is within five minutes of it, the scope is
      the endpoint's region and service, a body hash that was sent is the body's, and the signature is the MAC of
      the canonical string. */
  lemma AcceptedIff(c: Calendar, v: VerifyInput)
    ensures Verify(c, v) == None <==>
      && |v.date| >= 8 && c.parse(v.date).Some?
      && v.signature.scope.date == v.date[..8]
      && c.parse(v.date).value - 300.0 <= v.now <= c.parse(v.date).value + 300.0
      && v.signature.scope.region == v.region && v.signature.scope.service == v.service
      && (v.contentSha256 == [] || v.contentSha256 == Hmac.ToHex(Sha256Spec.Sha256(v.request.body)))
      && v.signature.signature
           == Hmac.ToHex(Hmac.HmacSha256(v.secret, Canonical(v.request, v.signature.scope, v.date)))
  {
    hide Canonical, Hmac.HmacSha256, Hmac.ToHex, Sha256Spec.Sha256;
  }

  /** And if it is refused, for the first of these that does not hold. */
  lemma RefusedFor(c: Calendar, v: VerifyInput)
    ensures Verify(c, v) == Some(MissingDate) <==> v.date == []
    ensures Verify(c, v) == Some(MalformedDate) <==> v.date != [] && (c.parse(v.date).None? || |v.date| < 8)
    ensures Verify(c, v) == Some(ScopeMismatch) ==>
      v.signature.scope.region != v.region || v.signature.scope.service != v.service
    ensures Verify(c, v) == Some(BadSignature) ==>
      v.signature.signature
        != Hmac.ToHex(Hmac.HmacSha256(v.secret, Canonical(v.request, v.signature.scope, v.date)))
    ensures Verify(c, v) == Some(BodyHash) ==>
      v.contentSha256 != [] && v.contentSha256 != Hmac.ToHex(Sha256Spec.Sha256(v.request.body))
    ensures Verify(c, v) == Some(Skew) ==>
      c.parse(v.date).Some? && (v.now > c.parse(v.date).value + 300.0 || v.now < c.parse(v.date).value - 300.0)
    ensures Verify(c, v) == Some(DateMismatch) ==> |v.date| >= 8 && v.signature.scope.date != v.date[..8]
  {
    hide Canonical, Hmac.HmacSha256, Hmac.ToHex, Sha256Spec.Sha256;
  }

  /** A signature made for one request, in whatever region and for whatever service, is accepted on another only
      when the two are the same request and the region and the service are the endpoint's, unless their two
      canonical strings have one MAC. */
  lemma AcceptedIsWhatWasSigned(c: Calendar, r: Request, accessKeyId: seq<byte>, timestamp: seq<byte>,
                                region: seq<byte>, service: seq<byte>, v: VerifyInput)
    requires |timestamp| == 16 && NEWLINE !in timestamp && NEWLINE !in v.date
    requires NEWLINE !in r.method_ && NEWLINE !in v.request.method_
    requires CanonicalInjectivity.PlainScope(ScopeFor(accessKeyId, timestamp, region, service))
    requires CanonicalInjectivity.PlainScope(v.signature.scope)
    requires var scope := ScopeFor(accessKeyId, timestamp, region, service);
      && v.signature.signature == Mac(v.secret, Canonical(r, scope, timestamp))
      && (Mac(v.secret, Canonical(r, scope, timestamp))
            == Mac(v.secret, Canonical(v.request, v.signature.scope, v.date))
          ==> Canonical(r, scope, timestamp) == Canonical(v.request, v.signature.scope, v.date))
    requires Verify(c, v) == None
    ensures region == v.region && service == v.service
    ensures CanonicalInjectivity.SameSigned(
      r, ScopeFor(accessKeyId, timestamp, region, service), timestamp,
      v.request, v.signature.scope, v.date)
  {
    hide Mac, HashBody, Canonical, CanonicalInjectivity.PlainScope, CanonicalInjectivity.SameSigned;
    var scope := ScopeFor(accessKeyId, timestamp, region, service);
    CanonicalInjectivity.CanonicalIsMeaning(r, scope, timestamp, v.request, v.signature.scope, v.date);
    CanonicalInjectivity.SameScope(r, scope, timestamp, v.request, v.signature.scope, v.date);
  }

  /** What was signed for another region or service is refused, whatever else is right. */
  lemma OtherScopeIsRefused(c: Calendar, r: Request, accessKeyId: seq<byte>, secret: seq<byte>, region: seq<byte>,
                            service: seq<byte>, signedAt: int, endpointRegion: seq<byte>, endpointService: seq<byte>,
                            now: real)
    requires IsCalendar(c) && FIRST_SECOND <= signedAt <= LAST_SECOND
    requires PlainFields(ScopeFor(accessKeyId, c.format(signedAt), region, service))
    requires region != endpointRegion || service != endpointService
    ensures var sent := Sign(r, accessKeyId, secret, region, service, c.format(signedAt));
      && ParseHeader(sent.authorization).Ok?
      && Verify(c, VerifyInput(r, ParseHeader(sent.authorization).value, sent.date, sent.contentSha256,
                               secret, endpointRegion, endpointService, now))
         == Some(if signedAt as real - MAX_SKEW <= now <= signedAt as real + MAX_SKEW then ScopeMismatch else Skew)
  {
    hide Mac, HashBody, Canonical, ParseHeader, AuthorizationHeader;
    var ts := c.format(signedAt);
    var scope := ScopeFor(accessKeyId, ts, region, service);
    MacIsPlain(secret, Canonical(r, scope, ts));
    HeaderRoundTrip(scope, Mac(secret, Canonical(r, scope, ts)));
  }

  // ---- What the header is made of ----

  /** Tab, line feed, vertical tab, form feed, carriage return and space. */
  predicate IsWhite(c: byte) { c == 9 || c == 10 || c == 11 || c == 12 || c == 13 || c == 32 }

  /** White space around is trimmed, and nothing else. */
  lemma {:induction false} TrimLeftReads(pad: seq<byte>, s: seq<byte>)
    requires forall c | c in pad :: IsWhite(c)
    requires s != [] && !IsWhite(s[0])
    ensures TrimLeft(pad + s) == s
  {
    if pad == [] {
      assert pad + s == s && !IsSpace(s[0]);
    } else {
      assert (pad + s)[0] == pad[0] && pad[0] in pad && IsSpace(pad[0]);
      assert (pad + s)[1..] == pad[1..] + s;
      TrimLeftReads(pad[1..], s);
    }
  }

  lemma {:induction false} TrimRightReads(s: seq<byte>, pad: seq<byte>)
    requires forall c | c in pad :: IsWhite(c)
    requires s != [] && !IsWhite(s[|s| - 1])
    ensures TrimRight(s + pad) == s
  {
    if pad == [] {
      assert s + pad == s && !IsSpace(s[|s| - 1]);
    } else {
      var front := pad[..|pad| - 1];
      assert (s + pad)[|s + pad| - 1] == pad[|pad| - 1] && pad[|pad| - 1] in pad && IsSpace(pad[|pad| - 1]);
      assert (s + pad)[..|s + pad| - 1] == s + front;
      TrimRightReads(s, front);
    }
  }

  /** What a parameter is read as: a credential of four fields, a signature, or nothing; a later one replaces an
      earlier one. */
  lemma ParameterReads(key: seq<byte>, value: seq<byte>, seen: Seen)
    requires key != [] && value != [] && '=' as int as byte !in key
    requires !IsWhite(key[0]) && !IsWhite(value[|value| - 1])
    ensures var read := ReadParameter(key + ['=' as int as byte] + value, seen);
      var fields := Split(value, '/' as int as byte);
      && (CanonicalInjectivity.Spells(key, "Credential") && |fields| == 4 ==>
            read == Ok(Seen(Some(Scope(fields[0], fields[1], fields[2], fields[3])), seen.signature)))
      && (CanonicalInjectivity.Spells(key, "Credential") && |fields| != 4 ==> read == Err(MalformedCredential))
      && (CanonicalInjectivity.Spells(key, "Signature") ==> read == Ok(Seen(seen.credential, Some(value))))
      && (!CanonicalInjectivity.Spells(key, "Credential") && !CanonicalInjectivity.Spells(key, "Signature") ==>
            read == Ok(seen))
  {
    hide IndexOf, Split, TrimSpace, CredentialKey, SignatureKey;
    var part := key + [EQUALS] + value;
    assert part[0] == key[0] && part[|part| - 1] == value[|value| - 1];
    NothingToTrim(part);
    FirstWord(key, EQUALS, value);
    KeysAre();
    if CanonicalInjectivity.Spells(key, "Credential") {
      SpelledAlike(key, CredentialKey(), "Credential");
      KeysDiffer();
    }
    if CanonicalInjectivity.Spells(key, "Signature") {
      SpelledAlike(key, SignatureKey(), "Signature");
      KeysDiffer();
    }
  }

  lemma KeysDiffer()
    ensures CredentialKey() != SignatureKey()
  {
    assert |CredentialKey()| == 10 && |SignatureKey()| == 9;
  }

  lemma SpelledAlike(a: seq<byte>, b: seq<byte>, text: string)
    requires CanonicalInjectivity.Spells(a, text) && CanonicalInjectivity.Spells(b, text)
    ensures a == b
  {}

  lemma NoEqualsIsMalformed(part: seq<byte>, seen: Seen)
    requires part != [] && '=' as int as byte !in part && !IsWhite(part[0]) && !IsWhite(part[|part| - 1])
    ensures ReadParameter(part, seen) == Err(MalformedHeader)
  {
    hide IndexOf, TrimSpace;
    NothingToTrim(part);
    IndexOfNone(part, EQUALS);
  }

  lemma KeysAre()
    ensures CanonicalInjectivity.Spells(CredentialKey(), "Credential")
    ensures CanonicalInjectivity.Spells(SignatureKey(), "Signature")
  {}
}
