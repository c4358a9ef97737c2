/** The token that carries an authorization decision from the front door to a service.

    Times are nanoseconds.  A signature verifies exactly on what was minted under its key. */
module Capability {
  import opened TtlCache
  import opened Wrappers

  const MILLI := 1_000_000

  datatype Capability = Capability(
    account: string, caller: string, principal: string, action: string, resource: string, request: string,
    issuedMs: int, expiresMs: int)

  datatype Claims = Claims(
    account: string, caller: string, principal: string, action: string, resource: string, request: string)

  /** The bytes that are signed: none, such as do not decode, or a capability. */
  datatype Body = NoBytes | Garbled | Holds(capability: Capability)

  datatype Token = Token(body: Body, keyId: string, signed: bool)

  datatype TokenError = NoSuchKey | BadSignature | Expired | MalformedToken

  /** `UnixMilli` rounds down. */
  function UnixMilli(t: int): int { t / MILLI }

  function Mint(c: Claims, now: int, ttl: nat): Capability {
    Capability(c.account, if c.caller == "" then c.account else c.caller, c.principal, c.action, c.resource,
               c.request, UnixMilli(now), UnixMilli(now + ttl))
  }

  function TokenOf(c: Capability, keyId: string): Token { Token(Holds(c), keyId, true) }

  /** `minted` holds, with its key, everything that was ever signed. */
  function Verify(minted: set<(Capability, string)>, keys: set<string>, token: Token, now: int, skew: nat)
    : Result<Capability, TokenError>
  {
    if token.body.NoBytes? || !token.signed then Err(MalformedToken)
    else if token.keyId !in keys then Err(NoSuchKey)
    // Before anything is decoded; and what does not decode was never signed.
    else if token.body.Garbled? || (token.body.capability, token.keyId) !in minted then Err(BadSignature)
    else if UnixMilli(now - skew) > token.body.capability.expiresMs then Err(Expired)
    else Ok(token.body.capability)
  }

  /** A token is accepted if and only if it is signed, its key is one the verifier has, it was minted under that
      key, and it is no more than the skew past its expiry, in whole milliseconds. */
  lemma AcceptedIff(minted: set<(Capability, string)>, keys: set<string>, token: Token, now: int, skew: nat,
                    c: Capability)
    ensures Verify(minted, keys, token, now, skew) == Ok(c) <==>
      && token.signed && token.body == Holds(c) && token.keyId in keys && (c, token.keyId) in minted
      && (now - skew) / 1_000_000 <= c.expiresMs
  {}

  /** What a token says is what was claimed, and when. */
  lemma MintRecords(c: Claims, now: int, ttl: nat)
    ensures var m := Mint(c, now, ttl);
      && m.account == c.account && m.principal == c.principal && m.action == c.action && m.resource == c.resource
      && m.request == c.request && m.caller == (if c.caller == "" then c.account else c.caller)
      && m.issuedMs * 1_000_000 <= now < (m.issuedMs + 1) * 1_000_000
      && m.expiresMs * 1_000_000 <= now + ttl < (m.expiresMs + 1) * 1_000_000
  {}

  /** A genuine token is good until its lifetime and the skew are over, and for less than a millisecond
      more. */
  lemma GoodUntil(c: Claims, keyId: string, minted: set<(Capability, string)>, keys: set<string>, mintedAt: int,
                  ttl: nat, now: int, skew: nat)
    requires (Mint(c, mintedAt, ttl), keyId) in minted && keyId in keys
    ensures var r := Verify(minted, keys, TokenOf(Mint(c, mintedAt, ttl), keyId), now, skew);
      && (now <= mintedAt + ttl + skew ==> r == Ok(Mint(c, mintedAt, ttl)))
      && (now >= mintedAt + ttl + skew + MILLI ==> r == Err(Expired))
      && (r.Ok? <==> now < (UnixMilli(mintedAt + ttl) + 1) * MILLI + skew)
  {}
}
