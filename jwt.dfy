/**
 * JwtUtils: the Authorization header parsing and the expiry arithmetic of a
 * freshly issued token. Signing and validation are not modelled.
 */
module Jwt {
  import opened Wrappers
  import opened JavaText

  const BearerPrefix: string := "Bearer "

  /** `getJwtFromHeader`: the token after "Bearer ", or null. */
  function JwtFromHeader(header: Option<string>): (r: Option<string>)
    ensures r.Some? <==> HasText(header) && |header.value| >= 7 && header.value[..7] == BearerPrefix
    ensures r.Some? ==> header.value == BearerPrefix + r.value
  {
    if HasText(header) && |header.value| >= |BearerPrefix| && header.value[..|BearerPrefix|] == BearerPrefix
    then Some(header.value[|BearerPrefix|..])
    else None
  }

  /** A token prefixed with "Bearer " is read back unchanged, even the empty one. */
  lemma HeaderRoundTrip(token: string)
    ensures JwtFromHeader(Some(BearerPrefix + token)) == Some(token)
  {
    var h := BearerPrefix + token;
    assert !IsWhitespace(h[0]);
    assert h[..7] == BearerPrefix;
  }

  /** A missing or blank header yields no token. */
  lemma NoTokenWithoutText(header: Option<string>)
    requires !HasText(header)
    ensures JwtFromHeader(header) == None
  {
  }

  /** The prefix is case-sensitive and needs its trailing space. */
  lemma PrefixIsExact()
    ensures JwtFromHeader(Some("bearer abc")) == None
    ensures JwtFromHeader(Some("Bearerabc")) == None
  {
    assert "bearer abc"[..7] != BearerPrefix by { assert "bearer abc"[0] == 'b'; }
    assert "Bearerabc"[..7] != BearerPrefix by { assert "Bearerabc"[6] == 'a'; }
  }

  const LongMin: int := -0x8000_0000_0000_0000
  const LongMax: int := 0x7FFF_FFFF_FFFF_FFFF

  predicate IsLong(x: int) { LongMin <= x <= LongMax }

  /** Java `long` addition: two's-complement wrap-around. */
  function LongAdd(a: int, b: int): (r: int)
    requires IsLong(a) && IsLong(b)
    ensures IsLong(r)
    ensures IsLong(a + b) ==> r == a + b
    ensures a + b > LongMax ==> r == a + b - 0x1_0000_0000_0000_0000
    ensures a + b < LongMin ==> r == a + b + 0x1_0000_0000_0000_0000
  {
    (a + b - LongMin) % 0x1_0000_0000_0000_0000 + LongMin
  }

  /** `now.getTime() + jwtExpirationInMs`: the expiry instant, in milliseconds. */
  function ExpiryMillis(nowMillis: int, expirationMs: int): (r: int)
    requires IsLong(nowMillis) && IsLong(expirationMs)
    ensures IsLong(r)
  {
    LongAdd(nowMillis, expirationMs)
  }

  /**
   * With a positive lifetime the token expires after it is issued exactly
   * when the sum does not overflow; an overflowing sum wraps to an instant
   * before the issue time.
   */
  lemma ExpiryAfterIssue(nowMillis: int, expirationMs: int)
    requires IsLong(nowMillis) && IsLong(expirationMs) && expirationMs > 0
    ensures ExpiryMillis(nowMillis, expirationMs) > nowMillis <==> nowMillis + expirationMs <= LongMax
    ensures nowMillis + expirationMs <= LongMax ==> ExpiryMillis(nowMillis, expirationMs) == nowMillis + expirationMs
  {
  }
}
