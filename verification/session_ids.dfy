/**
 * The fixed-width identifiers both proxies build with
 * `(ZEROES + n % 10^k).slice(-k)`: a 6-digit session id per accepted
 * connection and a 4-digit instance id per process, from a random
 * unsigned 32-bit integer (`Crypto.randomBytes(4).readUIntBE(0, 4)`),
 * which is taken here as a parameter.
 */
module SessionIds {
  import opened Text

  const Zeroes: string := "000000"

  /** The range of `readUIntBE(0, 4)`. */
  type Uint32 = n: nat | n < 0x1_0000_0000

  /**
   * `(ZEROES + r).slice(-width)` for a remainder `r` below 10^width: its
   * decimal text, left-padded with zeroes to exactly `width` digits.
   */
  function ZeroPadded(r: nat, width: nat): (id: string)
    requires 1 <= width <= |Zeroes| && r < Pow10(width)
    ensures |id| == width && IsDigits(id) && ValueOf(id) == r
  {
    var digits := Decimal(r);
    var padded := Zeroes + digits;
    DecimalLength(r, width);
    ValueOfDecimal(r);
    assert padded[|padded| - width..] == Zeroes[|Zeroes| - (width - |digits|)..] + digits;
    ValueOfZeroPadded(Zeroes[|Zeroes| - (width - |digits|)..], digits);
    padded[|padded| - width..]
  }

  /** `(ZEROES + n % 10^width).slice(-width)`. */
  function FixedWidthId(n: nat, width: nat): (id: string)
    requires 1 <= width <= |Zeroes|
    ensures |id| == width && IsDigits(id)
    ensures ValueOf(id) == n % Pow10(width)
  {
    ZeroPadded(n % Pow10(width), width)
  }

  /** Two numbers get the same id exactly when they agree modulo 10^width. */
  lemma FixedWidthIdInjective(a: nat, b: nat, width: nat)
    requires 1 <= width <= |Zeroes|
    ensures FixedWidthId(a, width) == FixedWidthId(b, width) <==> a % Pow10(width) == b % Pow10(width)
  {
    if a % Pow10(width) == b % Pow10(width) {
      assert FixedWidthId(a, width) == FixedWidthId(b, width);
    }
  }

  /** The session id given to an accepted connection (simple-proxy.js:75, port-forward.js:53). */
  function SessionId(n: Uint32): (id: string)
    ensures |id| == 6 && IsDigits(id) && ValueOf(id) == n % 1000000
  {
    assert Pow10(6) == 1000000;
    FixedWidthId(n, 6)
  }

  /** The instance id printed in every log line (simple-proxy.js:12, port-forward.js:9). */
  function InstanceId(n: Uint32): (id: string)
    ensures |id| == 4 && IsDigits(id) && ValueOf(id) == n % 10000
  {
    assert Pow10(4) == 10000;
    FixedWidthId(n, 4)
  }
}
