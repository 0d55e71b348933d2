/** How large a sealed frame's plaintext is. */
module Frames {
  const FRAME_SIZE_LIMIT := 1024 * 1024

  /** The bytes of `{"_meta":{"sequence":,"nonce":""},"envelope":}` and a base64 nonce of 16. */
  const WRAPPING := 62

  function Digits(n: nat): nat {
    if n < 10 then 1 else 1 + Digits(n / 10)
  }

  /** The frame's number is part of its plaintext, so the same envelope can fit under one number
      and not under another. */
  function FrameSize(envelope: nat, number: nat): nat {
    WRAPPING + envelope + Digits(number)
  }

  predicate Fits(envelope: nat, number: nat) {
    FrameSize(envelope, number) <= FRAME_SIZE_LIMIT
  }

  function Pow10(k: nat): nat {
    if k == 0 then 1 else 10 * Pow10(k - 1)
  }

  lemma {:induction false} DigitsAtMost(n: nat, k: nat)
    requires k > 0 && n < Pow10(k)
    ensures Digits(n) <= k
  {
    if n >= 10 {
      DigitsAtMost(n / 10, k - 1);
    }
  }

  /** A counter that JavaScript can represent exactly has at most 16 digits. */
  lemma SafeDigits(n: nat)
    requires n < 9_007_199_254_740_992
    ensures Digits(n) <= 16
  {
    assert Pow10(4) == 10_000;
    assert Pow10(8) == 100_000_000;
    assert Pow10(12) == 1_000_000_000_000;
    assert Pow10(16) == 10_000_000_000_000_000;
    DigitsAtMost(n, 16);
  }

  lemma {:induction false} DigitsExactly(n: nat, k: nat)
    requires k > 0 && n < Pow10(k) && (k > 1 ==> Pow10(k - 1) <= n)
    ensures Digits(n) == k
  {
    if k > 1 {
      DigitsExactly(n / 10, k - 1);
    }
  }

  /** In bytes: 1 MiB less the wrapping leaves 1048514 for the envelope and the digits of the number. */
  lemma FitsIff(envelope: nat, number: nat, digits: nat)
    requires digits > 0 && number < Pow10(digits) && (digits > 1 ==> Pow10(digits - 1) <= number)
    ensures Fits(envelope, number) <==> envelope + digits <= 1_048_514
  {
    DigitsExactly(number, digits);
  }
}
