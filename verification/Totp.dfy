/**
The TOTP second factor of `totp.rs`: code verification, and the enrolment and replay protocol
under concurrent logins, with each SQL statement a step of its own.
*/
module Totp {
  import opened Wrappers
  import opened Bytes
  import opened Text

  const TOTP_PERIOD: int := 30
  const TOTP_DIGITS: nat := 6
  const TOTP_MODULUS: int := 1_000_000

  // ---------------------------------------------------------------------------------------------
  // Codes
  // ---------------------------------------------------------------------------------------------

  /** An HMAC-SHA1 of twenty bytes. */
  type Mac = m: seq<Byte> | |m| == 20 witness seq(20, _ => 0)

  /** The dynamic truncation of section 5.3 of RFC 4226; the four bytes read are always in range. */
  function Truncate(mac: Mac): (code: int)
    ensures 0 <= code < TOTP_MODULUS
  {
    var offset := mac[19] % 16;
    var (b0: int, b1: int, b2: int, b3: int) := (mac[offset], mac[offset + 1], mac[offset + 2], mac[offset + 3]);
    var word := (b0 % 0x80) * 0x100_0000 + b1 * 0x1_0000 + b2 * 0x100 + b3;
    word % TOTP_MODULUS
  }

  /** The worked example of section 5.4 of RFC 4226. */
  lemma TruncateExample()
    ensures Truncate([0x1f, 0x86, 0x98, 0x69, 0x0e, 0x02, 0xca, 0x16, 0x61, 0x85,
                      0x50, 0xef, 0x7f, 0x19, 0xda, 0x8e, 0x94, 0x5b, 0x55, 0x5a]) == 872921
  {
    var mac: Mac := [0x1f, 0x86, 0x98, 0x69, 0x0e, 0x02, 0xca, 0x16, 0x61, 0x85,
                     0x50, 0xef, 0x7f, 0x19, 0xda, 0x8e, 0x94, 0x5b, 0x55, 0x5a];
    assert mac[19] % 16 == 10 && mac[10] == 0x50 && mac[11] == 0xef && mac[12] == 0x7f && mac[13] == 0x19;
  }

  /** The keyed hash of a secret and a counter; any function will do. */
  type Hmac = (nat, nat) -> Mac

  function Hotp(hmac: Hmac, secret: nat, counter: nat): int {
    Truncate(hmac(secret, counter))
  }

  function Decimal(s: string): (n: int)
    requires forall i :: 0 <= i < |s| ==> IsDigit(s[i])
    ensures 0 <= n < Pow10(|s|)
  {
    if s == [] then 0
    else
      var last := s[|s| - 1];
      assert IsDigit(last);
      10 * Decimal(s[..|s| - 1]) + ((last as int) - ('0' as int))
  }

  function Pow10(n: nat): nat {
    if n == 0 then 1 else 10 * Pow10(n - 1)
  }

  /** The number a code spells: six ASCII digits, white space around them ignored. */
  function ParseCode(code: string): Option<int> {
    var trimmed := Trim(code);
    if |trimmed| == TOTP_DIGITS && forall i :: 0 <= i < |trimmed| ==> IsDigit(trimmed[i])
    then Some(Decimal(trimmed)) else None
  }

  /** A step the code is valid for now: within one period, not yet used, and with a matching HOTP. */
  predicate Eligible(hmac: Hmac, secret: nat, code: string, now: int, lastUsed: Option<int>, step: int) {
    && now >= 0
    && now / TOTP_PERIOD - 1 <= step <= now / TOTP_PERIOD + 1
    && step >= 0
    && (lastUsed.Some? ==> step > lastUsed.value)
    && ParseCode(code) == Some(Hotp(hmac, secret, step))
  }

  /** `verify_code` as a specification: the earliest eligible step. */
  function VerifyCode(hmac: Hmac, secret: nat, code: string, now: int, lastUsed: Option<int>): Option<int> {
    var current := now / TOTP_PERIOD;
    if Eligible(hmac, secret, code, now, lastUsed, current - 1) then Some(current - 1)
    else if Eligible(hmac, secret, code, now, lastUsed, current) then Some(current)
    else if Eligible(hmac, secret, code, now, lastUsed, current + 1) then Some(current + 1)
    else None
  }

  /** A code is refused only when no step is eligible, and the step returned is the earliest. */
  lemma VerifyCodeIsEarliest(hmac: Hmac, secret: nat, code: string, now: int, lastUsed: Option<int>, step: int)
    ensures var r := VerifyCode(hmac, secret, code, now, lastUsed);
      && (r.Some? ==> Eligible(hmac, secret, code, now, lastUsed, r.value))
      && (Eligible(hmac, secret, code, now, lastUsed, step) ==> r.Some? && r.value <= step)
  {
    hide ParseCode, Hotp;
  }

  method VerifyCodeLoop(hmac: Hmac, secret: nat, code: string, now: int, lastUsed: Option<int>)
    returns (r: Option<int>)
    ensures r == VerifyCode(hmac, secret, code, now, lastUsed)
  {
    hide Hotp, Trim;
    var trimmed := Trim(code);
    if |trimmed| != TOTP_DIGITS || !(forall i :: 0 <= i < |trimmed| ==> IsDigit(trimmed[i])) {
      return None;
    }
    var number := Decimal(trimmed);
    if number >= TOTP_MODULUS {
      return None;
    }
    if now < 0 {
      return None;
    }
    var current := now / TOTP_PERIOD;
    var delta := -1;
    while delta <= 1
      invariant -1 <= delta <= 2
      invariant forall step :: current - 1 <= step < current + delta ==>
        !Eligible(hmac, secret, code, now, lastUsed, step)
    {
      var step := current + delta;
      if !(step < 0) && !(lastUsed.Some? && step <= lastUsed.value) {
        if Hotp(hmac, secret, step) == number {
          return Some(step);
        }
      }
      delta := delta + 1;
    }
    r := None;
  }
}
