/**
 * The integer arithmetic of `kf::PwmPositionServo`: the duty range of an LEDC
 * channel, the pulse-to-duty conversion, the angle-to-pulse mapping and the
 * validity checks of the three settings records.
 */
module PwmPositionServo {
  import opened CInt

  datatype PwmSettings = PwmSettings(ledcFrequencyHz: U32, ledcResolutionBits: U8)
  {
    /** `check`: a positive frequency and a resolution of 8 to 16 bits. */
    predicate Valid()
    {
      ledcFrequencyHz > 0 && ledcResolutionBits >= 8 && ledcResolutionBits <= 16
    }
  }

  function Pow2(n: nat): (r: nat)
    ensures r >= 1
  {
    if n == 0 then 1 else 2 * Pow2(n - 1)
  }

  /** `maxDuty`: `(1u << bits) - 1u`; a shift by 32 or more is undefined, so the bits stay below 32. */
  function MaxDuty(s: PwmSettings): (r: U32)
    requires s.ledcResolutionBits < 32
    ensures r == Pow2(s.ledcResolutionBits) - 1
  {
    Pow2Below(s.ledcResolutionBits, 32);
    Pow2Constants();
    Pow2(s.ledcResolutionBits) - 1
  }

  lemma {:induction false} Pow2Below(n: nat, m: nat)
    requires n <= m
    ensures Pow2(n) <= Pow2(m)
  {
    if n < m {
      Pow2Below(n, m - 1);
    }
  }

  lemma Pow2Constants()
    ensures Pow2(8) == 0x100 && Pow2(16) == 0x1_0000 && Pow2(32) == U32_MODULUS
  {
    assert Pow2(4) == 16 by {
      assert Pow2(2) == 4;
    }
    Pow2Sum(4, 4);
    Pow2Sum(8, 8);
    Pow2Sum(16, 16);
  }

  lemma {:induction false} Pow2Sum(a: nat, b: nat)
    ensures Pow2(a + b) == Pow2(a) * Pow2(b)
  {
    if a > 0 {
      Pow2Sum(a - 1, b);
    }
  }

  /**
   * `dutyFromPulseWidth`: `pulse * frequency * maxDuty` in `u64`, divided by
   * one million, then truncated to `u16`.
   */
  function DutyFromPulseWidth(s: PwmSettings, pulseWidth: U32): (r: U16)
    requires s.ledcResolutionBits < 32
  {
    Duty(pulseWidth, s.ledcFrequencyHz, MaxDuty(s))
  }

  function Duty(pulseWidth: nat, frequency: nat, maxDuty: nat): U16
  {
    var t := ((pulseWidth * frequency) % U64_MODULUS * maxDuty) % U64_MODULUS;
    (t / 1_000_000) % U16_MODULUS
  }

  datatype DriverSettings = DriverSettings(signalPin: U8, ledcChannel: U8, minAngle: U16, maxAngle: U16)
  {
    /** `check`: one of the 16 LEDC channels and a nonempty angle range. */
    predicate Valid()
    {
      ledcChannel <= 15 && minAngle < maxAngle
    }
  }

  datatype Pulse = Pulse(pulse: U32, angle: U16)

  datatype PulseSettings = PulseSettings(minPosition: Pulse, maxPosition: Pulse)
  {
    /** `check`: both the pulse range and the angle range are nonempty. */
    predicate Valid()
    {
      minPosition.pulse < maxPosition.pulse && minPosition.angle < maxPosition.angle
    }
  }

  /**
   * Settings that pass the driver `check` name one of the 16 LEDC channels
   * and an angle range holding at least two angles.
   */
  lemma DriverSettingsMeaning(s: DriverSettings)
    ensures s.Valid() <==> s.ledcChannel < 16 && s.minAngle < s.maxAngle
    ensures s.Valid() ==> s.maxAngle - s.minAngle >= 1
  {
  }

  /** Arduino's `constrain(x, low, high)`. */
  function Constrain(x: int, low: int, high: int): (r: int)
    ensures low <= high ==> low <= r <= high
    ensures low <= x <= high ==> r == x
  {
    if x < low then low else if x > high then high else x
  }

  /** Arduino's `map`: a linear rescaling with truncating division. */
  function Map(x: int, inMin: int, inMax: int, outMin: int, outMax: int): int
    requires inMax != inMin
  {
    Div((x - inMin) * (outMax - outMin), inMax - inMin) + outMin
  }

  /** `pulseWidthFromAngle`: clamp the angle into its range, then map it onto the pulse range. */
  function PulseWidthFromAngle(s: PulseSettings, angle: U16): int
    requires s.minPosition.angle != s.maxPosition.angle
  {
    Map(Constrain(angle, s.minPosition.angle, s.maxPosition.angle),
        s.minPosition.angle, s.maxPosition.angle,
        s.minPosition.pulse, s.maxPosition.pulse)
  }

  /** For valid settings the maximum duty fits in 16 bits: 255 to 65535. */
  lemma {:induction false} MaxDutyFitsU16(s: PwmSettings)
    requires s.Valid()
    ensures 255 <= MaxDuty(s) < U16_MODULUS
  {
    Pow2Below(s.ledcResolutionBits, 16);
    Pow2Below(8, s.ledcResolutionBits);
    Pow2Constants();
  }

  /** Without overflow, the duty is the exact quotient, and it grows with the pulse width. */
  lemma DutyMonotone(s: PwmSettings, p: U32, q: U32)
    requires s.ledcResolutionBits < 32 && p <= q
    requires q * s.ledcFrequencyHz * MaxDuty(s) < 1_000_000 * U16_MODULUS
    ensures DutyFromPulseWidth(s, p) <= DutyFromPulseWidth(s, q)
    ensures DutyFromPulseWidth(s, q) == q * s.ledcFrequencyHz * MaxDuty(s) / 1_000_000
  {
    DutyMonotoneCore(p, q, s.ledcFrequencyHz, MaxDuty(s));
  }

  lemma DutyMonotoneCore(p: nat, q: nat, f: nat, m: nat)
    requires p <= q < U32_MODULUS && f < U32_MODULUS
    requires q * f * m < 1_000_000 * U16_MODULUS
    ensures Duty(p, f, m) <= Duty(q, f, m)
    ensures Duty(q, f, m) == q * f * m / 1_000_000
  {
    var pf, qf := p * f, q * f;
    MulLeq(p, q, f);
    MulLeq(pf, qf, m);
    Bound(qf * m);
    MulLeq(q, U32_MODULUS, f);
    MulLeq(f, U32_MODULUS, U32_MODULUS);
    assert qf < U64_MODULUS;
    assert pf % U64_MODULUS == pf && qf % U64_MODULUS == qf;
    assert (pf * m) % U64_MODULUS == pf * m && (qf * m) % U64_MODULUS == qf * m;
    DivMonotone(pf * m, qf * m, 1_000_000);
  }

  lemma MulLeq(p: nat, q: nat, k: nat)
    requires p <= q
    ensures p * k <= q * k
  {
  }

  lemma DivMonotone(a: nat, b: nat, d: nat)
    requires a <= b && d > 0
    ensures a / d <= b / d
  {
    if a / d > b / d {
      MulLeq(b / d + 1, a / d, d);
    }
  }

  lemma Bound(t: nat)
    requires t < 1_000_000 * U16_MODULUS
    ensures t < U64_MODULUS && t / 1_000_000 < U16_MODULUS
  {
  }

  /** The pulse width lies within the configured pulse range and hits both of its ends. */
  lemma PulseWithinRange(s: PulseSettings, angle: U16)
    requires s.Valid()
    ensures s.minPosition.pulse <= PulseWidthFromAngle(s, angle) <= s.maxPosition.pulse
    ensures angle <= s.minPosition.angle ==> PulseWidthFromAngle(s, angle) == s.minPosition.pulse
    ensures angle >= s.maxPosition.angle ==> PulseWidthFromAngle(s, angle) == s.maxPosition.pulse
  {
    var lo, hi := s.minPosition.angle, s.maxPosition.angle;
    var x := Constrain(angle, lo, hi);
    assert lo <= x <= hi;
    assert angle <= lo ==> x == lo;
    assert angle >= hi ==> x == hi;
    MapWithin(x, lo, hi, s.minPosition.pulse, s.maxPosition.pulse);
  }

  /** `map` sends `[inMin, inMax]` into `[outMin, outMax]`, the ends onto the ends. */
  lemma MapWithin(x: int, inMin: int, inMax: int, outMin: int, outMax: int)
    requires inMin <= x <= inMax && inMin < inMax && outMin < outMax
    ensures outMin <= Map(x, inMin, inMax, outMin, outMax) <= outMax
    ensures x == inMin ==> Map(x, inMin, inMax, outMin, outMax) == outMin
    ensures x == inMax ==> Map(x, inMin, inMax, outMin, outMax) == outMax
  {
    var rise := outMax - outMin;
    var run := inMax - inMin;
    ScaledFraction(x - inMin, rise, run);
    if x == inMax {
      ExactDivision(rise, run);
      assert (x - inMin) * rise == rise * run;
    } else if x == inMin {
      assert (x - inMin) * rise == 0;
    }
  }

  /** `k * rise / run` stays within `[0, rise]` for `0 <= k <= run`. */
  lemma ScaledFraction(k: nat, rise: nat, run: nat)
    requires 0 < run && k <= run
    ensures 0 <= Div(k * rise, run) <= rise
  {
    MulLeq(k, run, rise);
    DivMonotone(k * rise, run * rise, run);
    assert run * rise == rise * run;
    MulDiv(rise, run);
  }
}
