/** Reputation arithmetic of the peer set manager: saturating 32-bit scores that
    decay towards zero once per elapsed second. */
module Reputation {
  const I32_MIN := -0x8000_0000
  const I32_MAX := 0x7fff_ffff

  /** `82 * (i32::MIN / 100)`; the division truncates towards zero. */
  const BANNED_THRESHOLD := 82 * -21_474_836
  const DISCONNECT_REPUTATION_CHANGE := -256

  predicate IsI32(x: int) {
    I32_MIN <= x <= I32_MAX
  }

  function Clamp(x: int): int {
    if x < I32_MIN then I32_MIN else if x > I32_MAX then I32_MAX else x
  }

  function SaturatingAdd(x: int, y: int): int {
    Clamp(x + y)
  }

  /** A saturating sum is the 32-bit number nearest to the sum. */
  lemma SaturatingNearest(x: int, y: int, z: int)
    requires IsI32(z)
    ensures IsI32(SaturatingAdd(x, y)) && Abs(x + y - SaturatingAdd(x, y)) <= Abs(x + y - z)
  {
  }

  function SaturatingSub(x: int, y: int): int {
    Clamp(x - y)
  }

  /** Integer division rounding towards zero. */
  function TruncDiv(x: int, d: int): int
    requires d > 0
  {
    if x >= 0 then x / d else -(-x / d)
  }

  function Abs(x: int): nat {
    if x < 0 then -x else x
  }

  /** One second of decay. */
  function Tick(r: int): int {
    var d := TruncDiv(r, 50);
    var diff := if d == 0 && r < 0 then -1 else if d == 0 && r > 0 then 1 else d;
    SaturatingSub(r, diff)
  }

  function Ticks(r: int, n: nat): int
    decreases n
  {
    if n == 0 then r else Ticks(Tick(r), n - 1)
  }

  /** A tick never saturates, never crosses zero, and strictly shrinks any nonzero score:
      the score loses a fiftieth of its magnitude, but at least one point. */
  lemma TickShrinks(r: int)
    requires IsI32(r)
    ensures IsI32(Tick(r))
    ensures r == 0 ==> Tick(r) == 0
    ensures r > 0 ==> 0 <= Tick(r) < r
    ensures r < 0 ==> r < Tick(r) <= 0
    ensures r != 0 ==> Abs(r) - Abs(Tick(r)) == (if Abs(r) < 50 then 1 else Abs(r) / 50)
  {
    assert Abs(r) / 50 <= Abs(r);
  }

  lemma TickMonotone(x: int, y: int)
    requires IsI32(x) && IsI32(y) && x <= y
    ensures Tick(x) <= Tick(y)
  {
    TickShrinks(x);
    TickShrinks(y);
  }

  lemma {:induction false} TicksMonotone(x: int, y: int, n: nat)
    requires IsI32(x) && IsI32(y) && x <= y
    ensures IsI32(Ticks(x, n)) && IsI32(Ticks(y, n))
    ensures Ticks(x, n) <= Ticks(y, n)
    decreases n
  {
    if n > 0 {
      TickShrinks(x);
      TickShrinks(y);
      TickMonotone(x, y);
      TicksMonotone(Tick(x), Tick(y), n - 1);
    }
  }

  lemma {:induction false} TicksAdd(r: int, m: nat, n: nat)
    ensures Ticks(r, m + n) == Ticks(Ticks(r, m), n)
    decreases m
  {
    if m > 0 {
      TicksAdd(Tick(r), m - 1, n);
    }
  }

  lemma {:induction false} TicksShrink(r: int, n: nat)
    requires IsI32(r)
    ensures IsI32(Ticks(r, n)) && Abs(Ticks(r, n)) <= Abs(r)
    ensures r >= 0 ==> Ticks(r, n) >= 0
    ensures r <= 0 ==> r <= Ticks(r, n) <= 0
    decreases n
  {
    if n > 0 {
      TickShrinks(r);
      TicksShrink(Tick(r), n - 1);
    }
  }

  /** As long as the magnitude stays at `step * 50` or more, every tick takes at least `step`. */
  lemma {:induction false} TicksDescend(r: int, n: nat, step: nat, floor: nat)
    requires IsI32(r) && step >= 1
    requires step > 1 ==> step * 50 <= floor
    ensures Abs(Ticks(r, n)) <= floor || Abs(Ticks(r, n)) <= Abs(r) - n * step
    decreases n
  {
    if Abs(r) <= floor {
      TicksShrink(r, n);
    } else if n > 0 {
      TickShrinks(r);
      assert Abs(Tick(r)) <= Abs(r) - step;
      TicksDescend(Tick(r), n - 1, step, floor);
      assert n * step == (n - 1) * step + step;
    }
  }

  lemma HalvesWithin(r: int, n: nat)
    requires IsI32(r) && n == 100
    ensures Abs(Ticks(r, n)) <= Abs(r) / 2
  {
    var half := Abs(r) / 2;
    var step := if half / 50 > 1 then half / 50 else 1;
    TicksDescend(r, n, step, half);
  }

  /** Any score at least halves within 100 ticks. */
  lemma HalvesWithin100(r: int)
    requires IsI32(r)
    ensures Abs(Ticks(r, 100)) <= Abs(r) / 2
  {
    HalvesWithin(r, 100);
  }

  function Pow2(k: nat): nat {
    if k == 0 then 1 else 2 * Pow2(k - 1)
  }

  lemma HalfBelow(a: nat, b: nat)
    requires a < 2 * b
    ensures a / 2 < b
  {
  }

  lemma {:induction false} ZeroAfterHalvings(r: int, k: nat, n: nat, total: nat)
    requires IsI32(r) && Abs(r) < Pow2(k) && n == 100 && total == 100 * k
    ensures Ticks(r, total) == 0
    decreases k
  {
    if k > 0 {
      TicksShrink(r, n);
      HalvesWithin(r, n);
      HalfBelow(Abs(r), Pow2(k - 1));
      ZeroAfterHalvings(Ticks(r, n), k - 1, n, total - n);
      TicksAdd(r, n, total - n);
    }
  }

  /** Every 32-bit score is forgiven completely within 3200 ticks. */
  lemma ZeroWithin3200(r: int)
    requires IsI32(r)
    ensures Ticks(r, 3200) == 0
  {
    assert Pow2(8) == 0x100;
    assert Pow2(16) == 0x100 * Pow2(8);
    assert Pow2(24) == 0x100 * Pow2(16);
    assert Pow2(32) == 0x100 * Pow2(24);
    ZeroAfterHalvings(r, 32, 100, 3200);
  }

  lemma OneTick(r: int, n: nat, next: int)
    requires n > 0 && Tick(r) == next
    ensures Ticks(r, n) == Ticks(next, n - 1)
  {
  }

  lemma WorstDecays(n: nat)
    requires n >= 9
    ensures Ticks(I32_MIN, n) == Ticks(-1790459692, n - 9)
  {
    OneTick(I32_MIN, n, -2104533976);
    OneTick(-2104533976, n - 1, -2062443297);
    OneTick(-2062443297, n - 2, -2021194432);
    OneTick(-2021194432, n - 3, -1980770544);
    OneTick(-1980770544, n - 4, -1941155134);
    OneTick(-1941155134, n - 5, -1902332032);
    OneTick(-1902332032, n - 6, -1864285392);
    OneTick(-1864285392, n - 7, -1826999685);
    OneTick(-1826999685, n - 8, -1790459692);
  }

  /** The worst score needs exactly ten ticks to climb back to the ban threshold. */
  lemma WorstScoreUnbanned()
    ensures Ticks(I32_MIN, 10) >= BANNED_THRESHOLD > Ticks(I32_MIN, 9)
  {
    WorstDecays(9);
    WorstDecays(10);
    OneTick(-1790459692, 1, -1754650499);
  }

  lemma UnbannedWithin10(r: int)
    requires IsI32(r)
    ensures Ticks(r, 10) >= BANNED_THRESHOLD
  {
    WorstScoreUnbanned();
    TicksMonotone(I32_MIN, r, 10);
  }
}
