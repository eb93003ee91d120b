/** The choice between the two widths of a frame, and what it does to a damaged one. */
module MessageRepair {
  import opened Crc
  import opened Repair
  import opened Protection
  import opened ShortRepair

  /** The first bit of the format says which width a frame claims. */
  predicate ClaimsLong(first: bv8) { (first >> 3) & 0x10 != 0 }

  /** The claimed width first, the other if that fails. */
  ghost predicate MessageOutcome(input: Frame, maxErrors: nat, k: int, out: Frame)
    requires |input| == LONG_BYTES
  {
    if ClaimsLong(input[0])
    then
      if k >= 0 && LongOutcome(input, maxErrors, k, out) then true
      else LongOutcome(input, maxErrors, -1, input) && ShortOutcome(input, maxErrors, k, out)
    else
      if ShortPasses(input[..SHORT_BYTES], maxErrors) then k >= 0 && ShortOutcome(input, maxErrors, k, out)
      else LongOutcome(input, maxErrors, k, out)
  }

  method CorrectMessage(input: Frame, maxErrors: nat, t: Tables) returns (k: int, out: Frame)
    requires |input| == LONG_BYTES && t.Valid()
    ensures MessageOutcome(input, maxErrors, k, out)
  {
    var suggestedShort := !ClaimsLong(input[0]);
    if suggestedShort {
      k, out := CorrectShort(input, maxErrors, t);
      PassesIffRepaired(input[..SHORT_BYTES], maxErrors, k, out[..SHORT_BYTES]);
    } else {
      k, out := CorrectLong(input, maxErrors, t);
    }
    if k >= 0 {
      return;
    }
    if suggestedShort {
      k, out := CorrectLong(input, maxErrors, t);
    } else {
      k, out := CorrectShort(input, maxErrors, t);
    }
  }

  lemma FormatBit(x: bv8, k: nat)
    requires k < 8
    ensures ClaimsLong(x ^ BITS[k]) == (ClaimsLong(x) != (k == 0))
  {
  }

  lemma ClaimsAfterFlip(frame: Frame, bit: nat, flipped: Frame)
    requires |frame| == LONG_BYTES && bit < LONG_BITS && flipped == Flip(frame, bit)
    ensures ClaimsLong(flipped[0]) == (ClaimsLong(frame[0]) != (bit == 0))
  {
    if bit < 8 {
      FormatBit(frame[0], bit);
    }
  }

  // ---------------------------------------------------------------------
  // When the first half of a frame passes for a reply
  // ---------------------------------------------------------------------

  /** The format byte after a flip. */
  function FormatAfter(first: bv8, bit: nat): bv8
  {
    if bit < 8 then first ^ BITS[bit] else first
  }

  /** What is left of a syndrome suits the format received and the format that a flip leaves. */
  predicate Suits(left: Poly, first: bv8, after: bv8)
  {
    Protected(left, Overlay(first)) && Protected(left, Overlay(after))
  }

  /** A syndrome that one flip explains. */
  predicate FlipFits(s: Poly, first: bv8, bit: nat)
    requires bit < SHORT_BITS
  {
    Suits(Plus(Power(55 - bit), s), first, FormatAfter(first, bit))
  }

  /** A syndrome that passes for that of a reply of this format. */
  ghost predicate FitsReply(s: Poly, first: bv8, maxErrors: nat)
  {
    Protected(s, Overlay(first)) || (maxErrors >= 1 && exists bit: nat :: bit < SHORT_BITS && FlipFits(s, first, bit))
  }

  lemma FirstByteAfter(reply: Frame, bit: nat, flipped: Frame)
    requires |reply| == SHORT_BYTES && bit < SHORT_BITS && flipped == Flip(reply, bit)
    ensures flipped[0] == FormatAfter(reply[0], bit)
  {
  }

  lemma FixIsSuited(reply: Frame, bit: nat, flipped: Frame)
    requires |reply| == SHORT_BYTES && bit < SHORT_BITS && flipped == Flip(reply, bit)
    ensures ShortFix(reply, bit) <==> Suits(Residue(flipped), reply[0], flipped[0])
  {
  }

  lemma SameSuits(left: Poly, left': Poly, first: bv8, after: bv8, after': bv8)
    requires left == left' && after == after'
    ensures Suits(left, first, after) == Suits(left', first, after')
  {
  }

  lemma SuitsAfterFlip(reply: Frame, bit: nat, flipped: Frame, d: nat, left: Poly, after: bv8)
    requires |reply| == SHORT_BYTES && bit < SHORT_BITS && flipped == Flip(reply, bit) && d == 55 - bit
    requires left == Plus(Power(d), Residue(reply)) && after == FormatAfter(reply[0], bit)
    ensures Residue(flipped) == left && flipped[0] == after
  {
    FirstByteAfter(reply, bit, flipped);
    AtDegree(reply, bit, flipped, d);
  }

  lemma FixBySyndrome(reply: Frame, bit: nat, flipped: Frame, left: Poly, after: bv8)
    requires |reply| == SHORT_BYTES && bit < SHORT_BITS && flipped == Flip(reply, bit)
    requires Residue(flipped) == left && flipped[0] == after
    ensures ShortFix(reply, bit) <==> Suits(left, reply[0], after)
  {
    FixIsSuited(reply, bit, flipped);
    SameSuits(Residue(flipped), left, reply[0], flipped[0], after);
  }

  lemma FixIffFits(reply: Frame, bit: nat, s: Poly, first: bv8)
    requires |reply| == SHORT_BYTES && bit < SHORT_BITS && s == Residue(reply) && first == reply[0]
    ensures ShortFix(reply, bit) <==> FlipFits(s, first, bit)
  {
    var left, after := Plus(Power(55 - bit), s), FormatAfter(first, bit);
    SuitsAfterFlip(reply, bit, Flip(reply, bit), 55 - bit, left, after);
    FixBySyndrome(reply, bit, Flip(reply, bit), left, after);
  }

  lemma PassesBySyndrome(reply: Frame, maxErrors: nat)
    requires |reply| == SHORT_BYTES
    ensures ShortPasses(reply, maxErrors) <==> FitsReply(Residue(reply), reply[0], maxErrors)
  {
    forall bit: nat | bit < SHORT_BITS ensures ShortFix(reply, bit) <==> FlipFits(Residue(reply), reply[0], bit) {
      FixIffFits(reply, bit, Residue(reply), reply[0]);
    }
    if bit: nat :| bit < SHORT_BITS && FlipFits(Residue(reply), reply[0], bit) {
      assert ShortFix(reply, bit);
    }
  }

  /** What a flip adds to the syndrome of the first half. */
  function HalfFlipped(s: Poly, bit: nat): Poly
  {
    if bit < SHORT_BITS then Plus(Power(55 - bit), s) else s
  }

  lemma HalfDamaged(frame: Frame, bit: nat, damaged: Frame)
    requires |frame| == LONG_BYTES && bit < LONG_BITS && damaged == Flip(frame, bit)
    ensures Residue(damaged[..SHORT_BYTES]) == HalfFlipped(Residue(frame[..SHORT_BYTES]), bit)
    ensures damaged[..SHORT_BYTES] == if bit < SHORT_BITS then Flip(frame[..SHORT_BYTES], bit) else frame[..SHORT_BYTES]
  {
    if bit < SHORT_BITS {
      assert damaged[..SHORT_BYTES] == Flip(frame[..SHORT_BYTES], bit);
      AtDegree(frame[..SHORT_BYTES], bit, damaged[..SHORT_BYTES], 55 - bit);
    } else {
      assert damaged[..SHORT_BYTES] == frame[..SHORT_BYTES];
    }
  }

  /** A valid frame whose second half is empty has a valid first half. */
  lemma EmptyHalf(frame: Frame)
    requires |frame| == LONG_BYTES && Residue(frame) == Zero() && frame[SHORT_BYTES..] == Zeros(SHORT_BYTES)
    ensures Residue(frame[..SHORT_BYTES]) == Zero()
  {
    assert frame == frame[..SHORT_BYTES] + Zeros(SHORT_BYTES);
    TrailingZeros(frame[..SHORT_BYTES], SHORT_BYTES, frame);
    TimesXnOfZero(8 * SHORT_BYTES);
    TimesXnInjective(Residue(frame[..SHORT_BYTES]), Zero(), 8 * SHORT_BYTES);
  }

  lemma AppendZero(data: Frame, more: Frame)
    requires more == data + [0]
    ensures Residue(more) == TimesXn(Residue(data), 8)
  {
    ZeroWord();
    ResidueAppends(data, 0, Zero());
    PlusFacts(TimesXn(Residue(data), 8), Zero(), Zero());
  }

  lemma {:induction false} TrailingZeros(data: Frame, n: nat, more: Frame)
    requires more == data + Zeros(n)
    ensures Residue(more) == TimesXn(Residue(data), 8 * n)
    decreases n
  {
    if n == 0 {
      assert more == data;
    } else {
      var less := data + Zeros(n - 1);
      TrailingZeros(data, n - 1, less);
      assert more == less + [0];
      AppendZero(less, more);
      ByteFurther(Residue(data), n, Residue(less));
    }
  }

  lemma ByteFurther(p: Poly, n: nat, r: Poly)
    requires n >= 1 && r == TimesXn(p, 8 * (n - 1))
    ensures TimesXn(r, 8) == TimesXn(p, 8 * n)
  {
    TimesXnAdds(p, 8 * (n - 1), 8);
  }

  // ---------------------------------------------------------------------
  // What repair achieves for a long frame
  // ---------------------------------------------------------------------

  lemma LongIsNotAllCall(first: bv8)
    requires ClaimsLong(first)
    ensures !AllCall(first)
  {
  }

  /** With an empty second half the first is repaired as a reply, and that is the whole frame. */
  lemma EmptyHalfRestored(frame: Frame, damaged: Frame, maxErrors: nat, k: int, out: Frame)
    requires |frame| == LONG_BYTES && Residue(frame) == Zero() && ClaimsLong(frame[0]) && |damaged| == LONG_BYTES
    requires frame[SHORT_BYTES..] == Zeros(SHORT_BYTES) && damaged[..SHORT_BYTES] == Flip(frame[..SHORT_BYTES], 0)
    requires maxErrors >= 1 && !ClaimsLong(damaged[0]) && MessageOutcome(damaged, maxErrors, k, out)
    ensures k == 1 && out == frame
  {
    var reply, half := frame[..SHORT_BYTES], damaged[..SHORT_BYTES];
    EmptyHalf(frame);
    LongIsNotAllCall(reply[0]);
    AllProtected(Residue(reply));
    FlipBack(reply, 0);
    FixesFirst(half, reply);
    ShortSingleRestored(reply, 0, half, maxErrors, k, out[..SHORT_BYTES]);
    assert out == out[..SHORT_BYTES] + out[SHORT_BYTES..] && frame == reply + frame[SHORT_BYTES..];
  }

  lemma FixesFirst(half: Frame, reply: Frame)
    requires |half| == SHORT_BYTES && reply == Flip(half, 0) && Residue(reply) == Zero()
    ensures ShortFix(half, 0) && !NoShortFix(half, SHORT_BITS)
  {
    AllProtected(Residue(reply));
  }

  /**
   One flipped bit of a valid long frame: unless it is the first, which says the
   width, it is undone exactly.  The first is undone exactly when the second half
   is empty or the first half, so damaged, does not pass for a reply, which its
   syndrome decides.
   */
  lemma MessageRestored(frame: Frame, bit: nat, damaged: Frame, maxErrors: nat, k: int, out: Frame)
    requires |frame| == LONG_BYTES && Residue(frame) == Zero() && ClaimsLong(frame[0])
    requires bit < LONG_BITS && maxErrors >= 1 && damaged == Flip(frame, bit)
    requires MessageOutcome(damaged, maxErrors, k, out)
    ensures ClaimsLong(damaged[0]) <==> bit != 0
    ensures bit != 0 ==> k == 1 && out == frame
    ensures out == frame ==> k == 1
    ensures bit == 0 ==>
      (out == frame <==>
         frame[SHORT_BYTES..] == Zeros(SHORT_BYTES)
         || !FitsReply(Plus(Power(55), Residue(frame[..SHORT_BYTES])), frame[0] ^ 0x80, maxErrors))
  {
    ClaimsAfterFlip(frame, bit, damaged);
    HalfDamaged(frame, bit, damaged);
    PassesBySyndrome(damaged[..SHORT_BYTES], maxErrors);
    if bit == 0 && frame[SHORT_BYTES..] == Zeros(SHORT_BYTES) {
      EmptyHalfRestored(frame, damaged, maxErrors, k, out);
    } else if k >= 0 && LongOutcome(damaged, maxErrors, k, out) {
      LongSingleRestored(frame, bit, damaged, maxErrors, k, out);
    } else if LongOutcome(damaged, maxErrors, -1, damaged) {
      LongSingleRestored(frame, bit, damaged, maxErrors, -1, damaged);
    }
  }

  /** Two flipped bits: the same, except that an empty second half helps only if the other flip lies in it. */
  lemma MessageDoubleRestored(frame: Frame, b1: nat, b2: nat, damaged: Frame, maxErrors: nat, k: int, out: Frame)
    requires |frame| == LONG_BYTES && Residue(frame) == Zero() && ClaimsLong(frame[0])
    requires b1 < b2 < LONG_BITS && maxErrors >= 2 && damaged == Flip(Flip(frame, b1), b2)
    requires MessageOutcome(damaged, maxErrors, k, out)
    ensures b1 != 0 ==> k == 2 && out == frame
    ensures b1 == 0 ==>
      (out == frame <==>
         (frame[SHORT_BYTES..] == Zeros(SHORT_BYTES) && b2 >= SHORT_BITS)
         || !FitsReply(HalfFlipped(Plus(Power(55), Residue(frame[..SHORT_BYTES])), b2), damaged[0], maxErrors))
  {
    var once := Flip(frame, b1);
    ClaimsAfterFlip(frame, b1, once);
    ClaimsAfterFlip(once, b2, damaged);
    HalfDamaged(frame, b1, once);
    HalfDamaged(once, b2, damaged);
    PassesBySyndrome(damaged[..SHORT_BYTES], maxErrors);
    if b1 == 0 && frame[SHORT_BYTES..] == Zeros(SHORT_BYTES) && b2 >= SHORT_BITS {
      EmptyHalfRestored(frame, damaged, maxErrors, k, out);
    } else if k >= 0 && LongOutcome(damaged, maxErrors, k, out) {
      LongDoubleRestored(frame, b1, b2, damaged, maxErrors, k, out);
    } else if LongOutcome(damaged, maxErrors, -1, damaged) {
      LongDoubleRestored(frame, b1, b2, damaged, maxErrors, -1, damaged);
    } else if b2 < SHORT_BITS {
      TwoAwayStays(frame[..SHORT_BYTES], b1, b2, damaged[..SHORT_BYTES], maxErrors, k, out[..SHORT_BYTES]);
    }
  }

  /** Repair of a reply flips at most one bit, so it never undoes two. */
  lemma TwoAwayStays(reply: Frame, b1: nat, b2: nat, half: Frame, maxErrors: nat, k: int, fixed: Frame)
    requires |reply| == SHORT_BYTES && b1 < b2 < SHORT_BITS && half == Flip(Flip(reply, b1), b2)
    requires k >= 0 && ReplyOutcome(half, maxErrors, k, fixed)
    ensures fixed != reply
  {
    PassesIffRepaired(half, maxErrors, k, fixed);
    TwiceFlippedDiffers(reply, b1, b2);
    SameDifference(reply, half);
    assert |{b1, b2}| == 2;
  }

  lemma SameDifference(a: Frame, b: Frame)
    requires |a| == |b|
    ensures Differing(a, b) == Differing(b, a)
  {
  }

  // ---------------------------------------------------------------------
  // A frame whose first half passes for a reply
  // ---------------------------------------------------------------------

  /** A valid long frame of aircraft 4840D6. */
  const FRAME: Frame := [0x8D, 0x48, 0x40, 0xD6, 0xB8, 0x85, 0x93, 0x20, 0x2C, 0xC3, 0x71, 0xCF, 0x04, 0x27]

  /** Its first half, the width flipped. */
  const HALF: Frame := [0x0D, 0x48, 0x40, 0xD6, 0xB8, 0x85, 0x93]

  lemma HalfPasses()
    ensures Residue(HALF) == Zero() && ShortValid(HALF)
  {
    ZeroWord();
    TwoBytesOn([], 0x0, 0x0D, 0x0D, 0x48, 0xD48, HALF[..2]);
    TwoBytesOn(HALF[..2], 0xD48, 0x40, 0xD4840, 0xD6, 0xB7FC85, HALF[..4]);
    TwoBytesOn(HALF[..4], 0xB7FC85, 0xB8, 0x57234, 0x85, 0x8DF8BA, HALF[..6]);
    OneByteOn(HALF[..6], 0x8DF8BA, 0x93, 0x0, HALF);
    AllProtected(Residue(HALF));
  }

  lemma FrameHead()
    ensures PolyOf(0x7A9329) == Residue(FRAME[..8])
  {
    ZeroWord();
    TwoBytesOn([], 0x0, 0x8D, 0x8D, 0x48, 0x8D48, FRAME[..2]);
    TwoBytesOn(FRAME[..2], 0x8D48, 0x40, 0x8D4840, 0xD6, 0xB0FA45, FRAME[..4]);
    TwoBytesOn(FRAME[..4], 0xB0FA45, 0xB8, 0xFC6210, 0x85, 0x67FC17, FRAME[..6]);
    TwoBytesOn(FRAME[..6], 0x67FC17, 0x93, 0x18567, 0x20, 0x7A9329, FRAME[..8]);
  }

  lemma FrameIsValid()
    ensures Residue(FRAME) == Zero() && ClaimsLong(FRAME[0])
  {
    ZeroWord();
    FrameHead();
    TwoBytesOn(FRAME[..8], 0x7A9329, 0x2C, 0x91E753, 0xC3, 0x1F41D2, FRAME[..10]);
    TwoBytesOn(FRAME[..10], 0x1F41D2, 0x71, 0xBE92E1, 0xCF, 0x949226, FRAME[..12]);
    TwoBytesOn(FRAME[..12], 0x949226, 0x04, 0x95F82A, 0x27, 0x0, FRAME);
  }

  /** With its first bit flipped that frame is taken for a short reply, without any repair. */
  lemma FrameTakenForReply(maxErrors: nat, k: int, out: Frame)
    requires MessageOutcome(Flip(FRAME, 0), maxErrors, k, out)
    ensures k == 0 && out == HALF + Zeros(SHORT_BYTES) && out != FRAME
  {
    FrameIsValid();
    HalfPasses();
    var damaged := Flip(FRAME, 0);
    assert damaged[..SHORT_BYTES] == HALF;
    ClaimsAfterFlip(FRAME, 0, damaged);
    assert out == out[..SHORT_BYTES] + out[SHORT_BYTES..];
    assert out[0] != FRAME[0];
  }
}
