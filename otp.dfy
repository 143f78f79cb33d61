/**
 * OtpServiceImpl: one-time passwords for registration, kept in a cache
 * keyed by e-mail whose entries expire five minutes after they were
 * written. The random draw is a parameter and the clock is the `now`
 * argument, in milliseconds.
 */
module OtpService {
  import opened Wrappers
  import Registration

  const ExpireMinutes: nat := 5
  const ExpireAfterWriteMillis: nat := ExpireMinutes * 60 * 1000
  /** The bound passed to `Random.nextInt`: the draw is below it. */
  const OtpBound: nat := 999999

  // ---------------------------------------------------------------------------
  // DecimalFormat("000000")

  function DigitChar(d: nat): (c: char)
    requires d < 10
    ensures '0' <= c <= '9'
  {
    ('0' as int + d) as char
  }

  predicate AllDigits(s: string) {
    forall i :: 0 <= i < |s| ==> '0' <= s[i] <= '9'
  }

  /** The number a string of decimal digits denotes. */
  function DigitsValue(s: string): (v: nat)
    requires AllDigits(s)
  {
    if s == [] then 0 else DigitsValue(s[..|s| - 1]) * 10 + (s[|s| - 1] as int - '0' as int)
  }

  function Pow10(k: nat): (p: nat)
    ensures p >= 1
  {
    if k == 0 then 1 else 10 * Pow10(k - 1)
  }

  /** The last `width` decimal digits of `n`, zero-padded on the left. */
  function PaddedDigits(n: nat, width: nat): (s: string)
    ensures |s| == width && AllDigits(s)
  {
    if width == 0 then [] else PaddedDigits(n / 10, width - 1) + [DigitChar(n % 10)]
  }

  /** Zero-padding to a width the number fits in loses nothing. */
  lemma {:induction false} PaddedDigitsValue(n: nat, width: nat)
    requires n < Pow10(width)
    ensures DigitsValue(PaddedDigits(n, width)) == n
  {
    if width > 0 {
      PaddedDigitsValue(n / 10, width - 1);
      var s := PaddedDigits(n, width);
      assert s[..|s| - 1] == PaddedDigits(n / 10, width - 1);
    }
  }

  /** `new DecimalFormat("000000").format(n)` for `0 <= n < 1000000`. */
  function FormatOtp(n: nat): (otp: string)
    requires n < 1000000
    ensures |otp| == 6 && AllDigits(otp) && DigitsValue(otp) == n
  {
    PaddedDigitsValue(n, 6);
    PaddedDigits(n, 6)
  }

  // ---------------------------------------------------------------------------
  // The cache

  datatype OtpRegistrationData = OtpRegistrationData(otp: string, registrationRequest: Registration.RegistrationRequest)

  datatype CacheEntry = CacheEntry(data: OtpRegistrationData, writtenAt: int)

  /** Guava's expire-after-write rule: an entry is gone once the full duration has elapsed. */
  predicate IsLive(e: CacheEntry, now: int) {
    now - e.writtenAt < ExpireAfterWriteMillis
  }

  /** `getIfPresent`: the live entry for `email`, or null. */
  function Lookup(entries: map<string, CacheEntry>, email: string, now: int): (r: Option<OtpRegistrationData>)
    ensures r.Some? <==> email in entries && IsLive(entries[email], now)
    ensures r.Some? ==> r.value == entries[email].data
  {
    if email in entries && IsLive(entries[email], now) then Some(entries[email].data) else None
  }

  class OtpCache {
    var entries: map<string, CacheEntry>

    constructor ()
      ensures entries == map[]
    {
      entries := map[];
    }

    /**
     * `generateAndStoreOtp`: formats the draw of `nextInt(999999)` as six
     * digits and stores it with the request, replacing any earlier entry.
     */
    method GenerateAndStoreOtp(email: string, request: Registration.RegistrationRequest, draw: nat, now: int)
      returns (otp: string)
      requires draw < OtpBound
      modifies this
      ensures |otp| == 6 && AllDigits(otp) && DigitsValue(otp) == draw && DigitsValue(otp) <= 999998
      ensures entries == old(entries)[email := CacheEntry(OtpRegistrationData(otp, request), now)]
    {
      otp := FormatOtp(draw);
      entries := entries[email := CacheEntry(OtpRegistrationData(otp, request), now)];
    }

    /** `getOtp`: the stored otp while the entry is live, otherwise null. */
    method GetOtp(email: string, now: int) returns (r: Option<string>)
      ensures r.Some? <==> Lookup(entries, email, now).Some?
      ensures r.Some? ==> r.value == Lookup(entries, email, now).value.otp
    {
      var data := Lookup(entries, email, now);
      r := if data.Some? then Some(data.value.otp) else None;
    }

    /** `getRegistrationRequest`: the stored request while the entry is live, otherwise null. */
    method GetRegistrationRequest(email: string, now: int) returns (r: Option<Registration.RegistrationRequest>)
      ensures r.Some? <==> Lookup(entries, email, now).Some?
      ensures r.Some? ==> r.value == Lookup(entries, email, now).value.registrationRequest
    {
      var data := Lookup(entries, email, now);
      r := if data.Some? then Some(data.value.registrationRequest) else None;
    }

    /** `clearOtp`: invalidates the entry for `email`. */
    method ClearOtp(email: string)
      modifies this
      ensures entries == old(entries) - {email}
    {
      entries := entries - {email};
    }
  }

  /** A stored entry reads back until five minutes after it was written, and not afterwards. */
  lemma StoredReadsBack(entries: map<string, CacheEntry>, email: string, data: OtpRegistrationData,
                        writtenAt: int, now: int)
    ensures Lookup(entries[email := CacheEntry(data, writtenAt)], email, now) ==
              if now < writtenAt + ExpireAfterWriteMillis then Some(data) else None
  {
  }

  /** Storing again for the same e-mail replaces the earlier otp and request. */
  lemma SecondStoreOverwrites(entries: map<string, CacheEntry>, email: string, first: CacheEntry, second: CacheEntry)
    ensures entries[email := first][email := second] == entries[email := second]
  {
  }

  /** After clearing, both getters return null for that e-mail. */
  lemma ClearedIsAbsent(entries: map<string, CacheEntry>, email: string, now: int)
    ensures Lookup(entries - {email}, email, now).None?
  {
  }

  /** Storing or clearing one e-mail leaves every other e-mail's lookup as it was. */
  lemma OtherEmailsUnaffected(entries: map<string, CacheEntry>, email: string, other: string, e: CacheEntry, now: int)
    requires other != email
    ensures Lookup(entries[email := e], other, now) == Lookup(entries, other, now)
    ensures Lookup(entries - {email}, other, now) == Lookup(entries, other, now)
  {
  }

  /** An entry, once expired, stays expired. */
  lemma ExpiryIsPermanent(e: CacheEntry, now: int, later: int)
    requires now <= later && !IsLive(e, now)
    ensures !IsLive(e, later)
  {
  }
}
