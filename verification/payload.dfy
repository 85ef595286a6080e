/**
  The MQTT payload text "Message <n> from Zephyr", where `<n>` is the round
  number formatted the way `%u` formats an unsigned 32-bit value, and the proof
  that it always fits the 64-byte payload buffer with its terminator.
 */
module Payload {

  const PayloadBufferSize := 64
  const Uint32Limit := 0x1_0000_0000

  const Prefix := "Message "
  const Suffix := " from Zephyr"

  function DigitChar(d: nat): (c: char)
    requires d < 10
    ensures '0' <= c <= '9'
  {
    ('0' as int + d) as char
  }

  predicate IsDigits(s: string) {
    forall k :: 0 <= k < |s| ==> '0' <= s[k] <= '9'
  }

  /** Decimal digits of `n`, most significant first, with no leading zero. */
  function Decimal(n: nat): (s: string)
    ensures |s| >= 1
    ensures IsDigits(s)
    ensures n > 0 ==> s[0] != '0'
    decreases n
  {
    if n < 10 then [DigitChar(n)] else Decimal(n / 10) + [DigitChar(n % 10)]
  }

  /** The number a string of decimal digits denotes. */
  function DigitsValue(s: string): nat
    requires IsDigits(s)
    decreases |s|
  {
    if s == [] then 0
    else DigitsValue(s[..|s| - 1]) * 10 + (s[|s| - 1] as int - '0' as int)
  }

  function Pow10(k: nat): (p: nat)
    ensures p >= 1
  {
    if k == 0 then 1 else 10 * Pow10(k - 1)
  }

  /** Reading the digits back gives the number that was formatted. */
  lemma {:induction false} DecimalRoundTrip(n: nat)
    ensures DigitsValue(Decimal(n)) == n
    decreases n
  {
    var s := Decimal(n);
    if n >= 10 {
      assert s[..|s| - 1] == Decimal(n / 10);
      DecimalRoundTrip(n / 10);
    }
  }

  /** A number below 10^k takes at most k digits. */
  lemma {:induction false} DecimalLength(n: nat, k: nat)
    requires 1 <= k
    requires n < Pow10(k)
    ensures |Decimal(n)| <= k
    decreases n
  {
    if n >= 10 {
      assert k >= 2;
      assert n / 10 < Pow10(k - 1);
      DecimalLength(n / 10, k - 1);
    }
  }

  /** The text `sprintf` writes into the payload buffer in round `n` (without its terminator). */
  function Message(n: nat): (s: string)
    ensures |s| == |Prefix| + |Decimal(n)| + |Suffix|
    ensures s[..|Prefix|] == Prefix
    ensures s[|s| - |Suffix|..] == Suffix
    ensures IsDigits(s[|Prefix|..|s| - |Suffix|])
  {
    var s := Prefix + Decimal(n) + Suffix;
    assert s[|Prefix|..|s| - |Suffix|] == Decimal(n);
    s
  }

  /** The number embedded in a message. */
  function MessageNumber(s: string): nat
    requires |s| >= |Prefix| + |Suffix|
    requires IsDigits(s[|Prefix|..|s| - |Suffix|])
  {
    DigitsValue(s[|Prefix|..|s| - |Suffix|])
  }

  /** The round number can be read back from the payload, so no two rounds publish the same text. */
  lemma MessageRoundTrip(n: nat)
    ensures MessageNumber(Message(n)) == n
  {
    var s := Prefix + Decimal(n) + Suffix;
    assert s[|Prefix|..|s| - |Suffix|] == Decimal(n);
    DecimalRoundTrip(n);
  }

  /**
    For every value a 32-bit unsigned counter can hold, the message is at most
    30 characters, so with its terminator it fits the 64-byte buffer.
   */
  lemma MessageFits(n: nat)
    requires n < Uint32Limit
    ensures |Message(n)| <= 30
    ensures |Message(n)| + 1 <= PayloadBufferSize
  {
    assert Pow10(10) == 10000000000;
    DecimalLength(n, 10);
  }
}
