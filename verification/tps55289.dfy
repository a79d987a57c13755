/** TPS55289 buck-boost converter: conversion of an output voltage into the reference code that
    the converter expects, in the firmware's own 32-bit and 16-bit arithmetic. */
module Tps55289 {

  const U16: nat := 0x1_0000
  const U32: nat := 0x1_0000_0000

  /** Width of the `vref` field: 11 bits. */
  const VREF_CODES: nat := 2048

  /** Width of the current limit's `setting` field: 7 bits. */
  const LIMIT_CODES: nat := 128

  const BASE_NV: nat := 45_000_000
  const STEP_NV: nat := 564_500

  datatype IntFB = Ratio0_2256 | Ratio0_1128 | Ratio0_0752 | Ratio0_0564
  {
    /** The feedback ratio in units of 1/10000. */
    function Ratio(): nat {
      match this
      case Ratio0_2256 => 2256
      case Ratio0_1128 => 1128
      case Ratio0_0752 => 752
      case Ratio0_0564 => 564
    }
  }

  /** `IntFB::multiply`; `checked_mul` cannot fail for a 16-bit argument. */
  function Multiply(fb: IntFB, x: nat): (r: nat)
    requires x < U16
    ensures 10_000 * r <= x * fb.Ratio() < 10_000 * (r + 1) && x * fb.Ratio() < U32
  {
    x * fb.Ratio() / 10_000
  }

  /** `VRef::from_nanovolts`: subtraction wraps at 32 bits, the cast keeps 16 bits. */
  function FromNanovolts(nv: nat): (code: nat)
    requires nv < U32
    ensures code < U16
  {
    (nv - BASE_NV) % U32 / STEP_NV % U16
  }

  /** `VRef::into_nanovolts`, wrapping at 32 bits. */
  function IntoNanovolts(code: nat): (nv: nat)
    requires code < U16
    ensures nv < U32
  {
    (BASE_NV + STEP_NV * code) % U32
  }

  /** `VRef::from_feedback`; the product wraps at 32 bits. */
  function FromFeedback(mv: nat, fb: IntFB): (code: nat)
    requires mv < U16
    ensures code < U16
  {
    FromNanovolts(Multiply(fb, mv) * 1_000_000 % U32)
  }

  /** The converter regulates its output so that output times ratio equals the reference:
      the reference, in nanovolts, that a target in millivolts asks for, times 100. */
  function IdealTimes100(mv: nat, fb: IntFB): nat {
    mv * fb.Ratio() * 10_000
  }

  /** Targets that the converter can realise at a given feedback ratio. */
  predicate InRange(mv: nat, fb: IntFB)
    requires mv < U16
  {
    45 <= Multiply(fb, mv) <= 1201
  }

  /** The code fits the register, and the reference that it stands for is at most the wanted one. */
  ghost predicate Realises(mv: nat, fb: IntFB)
    requires mv < U16
  {
    var code := FromFeedback(mv, fb);
    code < VREF_CODES && BASE_NV + STEP_NV * code <= Multiply(fb, mv) * 1_000_000 < BASE_NV + STEP_NV * (code + 1)
  }

  /** The code for a reference in whole millivolts is the number of whole steps above the base. */
  lemma CodeBound(m: nat)
    requires 45 <= m <= 1201
    ensures var code := FromNanovolts(m * 1_000_000 % U32);
            && code < VREF_CODES
            && BASE_NV + STEP_NV * code <= m * 1_000_000 < BASE_NV + STEP_NV * (code + 1)
            && IntoNanovolts(code) == BASE_NV + STEP_NV * code
  {
  }

  /** For every ratio: no step wraps, the code fits 11 bits, and the realised reference is never
      above the wanted one and short of it by less than one millivolt plus one step. */
  lemma ConversionBound(mv: nat, fb: IntFB)
    requires mv < U16 && InRange(mv, fb)
    ensures var code := FromFeedback(mv, fb);
            && code < VREF_CODES
            && Realises(mv, fb)
            && IntoNanovolts(code) == BASE_NV + STEP_NV * code
            && 100 * IntoNanovolts(code) <= IdealTimes100(mv, fb) < 100 * IntoNanovolts(code) + 100 * (1_000_000 + STEP_NV)
  {
    var product := mv * fb.Ratio();
    var m := product / 10_000;
    CodeBound(m);
    assert 10_000 * m <= product < 10_000 * m + 10_000;
  }

  /** At the ratio this board uses, the output for a code is at most the target and less than 28 mV
      below. Output in nanovolts is reference over 0.0564, so both sides are scaled by 56400. */
  predicate Within28Millivolts(code: nat, mv: nat)
    requires code < U16
  {
    IntoNanovolts(code) <= mv * 56_400 < IntoNanovolts(code) + 28 * 56_400
  }

  /** With the ratio this board uses: an output between 798 and 21312 mV is realised with an
      error of less than 28 mV, never above the target. */
  lemma OutputWithin28Millivolts(mv: nat)
    requires 798 <= mv <= 21312
    ensures var code := FromFeedback(mv, Ratio0_0564);
            code < VREF_CODES && Within28Millivolts(code, mv)
  {
    ConversionBound(mv, Ratio0_0564);
  }

  /** Exactly the targets in range are realised: below, the subtraction wraps; above, the code no
      longer fits the register. On this board, with the last ratio, that is 798 to 21312 mV. */
  lemma RealisedIffInRange(mv: nat, fb: IntFB)
    requires mv < U16
    ensures Realises(mv, fb) <==> InRange(mv, fb)
    ensures InRange(mv, Ratio0_2256) <==> 200 <= mv <= 5328
    ensures InRange(mv, Ratio0_1128) <==> 399 <= mv <= 10656
    ensures InRange(mv, Ratio0_0752) <==> 599 <= mv <= 15984
    ensures InRange(mv, Ratio0_0564) <==> 798 <= mv <= 21312
  {
    var m := Multiply(fb, mv);
    if InRange(mv, fb) {
      ConversionBound(mv, fb);
    } else if m < 45 {
      assert m * 1_000_000 < BASE_NV;
    } else {
      assert m * 1_000_000 >= BASE_NV + STEP_NV * VREF_CODES;
    }
  }

  /** For every target, in range or not, the two 32-bit wraps amount to one: the code is that of the
      wanted reference less the base, modulo 2^32, in whole steps and cut to 16 bits. */
  lemma WrapsOnce(mv: nat, fb: IntFB)
    requires mv < U16
    ensures FromFeedback(mv, fb)
         == (mv * fb.Ratio() / 10_000 * 1_000_000 - 45_000_000) % 0x1_0000_0000 / 564_500 % 0x1_0000
  {
    var nv := Multiply(fb, mv) * 1_000_000;
    SubtractAfterWrap(nv, BASE_NV);
  }

  lemma SubtractAfterWrap(a: nat, b: nat)
    ensures (a % U32 - b) % U32 == (a - b) % U32
  {
  }

  /** A higher target never gets a lower code. */
  lemma Monotone(mv: nat, mv': nat, fb: IntFB)
    requires mv <= mv' < U16 && InRange(mv, fb) && InRange(mv', fb)
    ensures FromFeedback(mv, fb) <= FromFeedback(mv', fb)
  {
    var m, m' := Multiply(fb, mv), Multiply(fb, mv');
    assert mv * fb.Ratio() <= mv' * fb.Ratio();
    assert m <= m';
    CodeBound(m);
    CodeBound(m');
  }

  /** The two conversions are inverse exactly on the codes up to 7608, so on all 11-bit codes. Two
      wraps cancel: the voltage itself is right only up to code 7528. */
  lemma RoundTripIff(code: nat)
    requires code < U16
    ensures FromNanovolts(IntoNanovolts(code)) == code <==> code <= 7608
    ensures IntoNanovolts(code) == BASE_NV + STEP_NV * code <==> code <= 7528
  {
  }

  /** The current limit in units of 0.5 mV across the 20 milliohm sense resistor, cut to 8 bits. */
  function LimitValue(ma: nat): (r: nat)
    requires ma < U16
    ensures r < 256
  {
    ma * 20 / 500 % 256
  }

  /** The value written into the 7-bit field means the wanted limit exactly for 3199 mA and below. */
  lemma LimitFitsIff(ma: nat)
    requires ma < U16
    ensures (LimitValue(ma) < LIMIT_CODES && LimitValue(ma) * 25 <= ma < LimitValue(ma) * 25 + 25) <==> ma <= 3199
  {
  }

  /** What the two fields mean once the values are cut to their widths. */
  lemma FieldsMean(mv: nat, ma: nat)
    requires mv < U16 && ma < U16
    ensures 798 <= mv <= 21312 ==> Within28Millivolts(FromFeedback(mv, Ratio0_0564) % VREF_CODES, mv)
    ensures var limit := LimitValue(ma) % LIMIT_CODES;
            limit == ma / 25 % 128 && (ma <= 3199 ==> limit * 25 <= ma < limit * 25 + 25)
  {
    if 798 <= mv <= 21312 {
      OutputWithin28Millivolts(mv);
    }
    LimitFitsIff(ma);
  }
}
