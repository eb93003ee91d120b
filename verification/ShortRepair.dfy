/** Repair of 56-bit replies. */
module ShortRepair {
  import opened Crc
  import opened PowerTable
  import opened Powers
  import opened Repair
  import opened Protection

  /** The format field of an all-call reply, whose parity carries an interrogator overlay. */
  predicate AllCall(first: bv8) { first >> 3 == 11 }

  /** How many low coefficients of the syndrome a format leaves to the overlay. */
  function Overlay(first: bv8): (n: nat)
    ensures n == 0 || n == 7
  {
    if AllCall(first) then 7 else 0
  }

  method ParityMask(first: bv8) returns (mask: bv32)
    ensures Masks(mask, Overlay(first))
  {
    MaskTerms();
    mask := if first >> 3 == 11 then 0xFFFF80 else 0xFFFFFF;
  }

  predicate ShortValid(reply: Frame)
  {
    |reply| == SHORT_BYTES && Protected(Residue(reply), Overlay(reply[0]))
  }

  /** The flip explains the syndrome as received, and leaves a reply valid in its own format. */
  predicate ShortFix(reply: Frame, bit: nat)
    requires |reply| == SHORT_BYTES && bit < SHORT_BITS
  {
    Protected(Residue(Flip(reply, bit)), Overlay(reply[0])) && ShortValid(Flip(reply, bit))
  }

  predicate NoShortFix(reply: Frame, n: nat)
    requires |reply| == SHORT_BYTES && n <= SHORT_BITS
  {
    forall bit :: 0 <= bit < n ==> !ShortFix(reply, bit)
  }

  /** The first flip that fixes a reply, or none. */
  ghost predicate ReplyOutcome(reply: Frame, maxErrors: nat, k: int, fixed: Frame)
    requires |reply| == SHORT_BYTES
  {
    if k == 0 then ShortValid(reply) && fixed == reply
    else if k == 1 then
      && maxErrors >= 1 && !ShortValid(reply)
      && exists bit: nat :: bit < SHORT_BITS && ShortFix(reply, bit) && NoShortFix(reply, bit)
            && fixed == Flip(reply, bit)
    else k == -1 && !ShortValid(reply) && (maxErrors >= 1 ==> NoShortFix(reply, SHORT_BITS))
  }

  ghost predicate ShortOutcome(input: Frame, maxErrors: nat, k: int, out: Frame)
    requires |input| == LONG_BYTES
  {
    && |out| == LONG_BYTES
    && ReplyOutcome(input[..SHORT_BYTES], maxErrors, k, out[..SHORT_BYTES])
    && (if k >= 0 then out[SHORT_BYTES..] == Zeros(SHORT_BYTES) else out == input)
  }

  lemma ShortBit(reply: Frame, bit: nat, flipped: Frame)
    requires |reply| == SHORT_BYTES && bit < SHORT_BITS && flipped == Flip(reply, bit)
    ensures Residue(flipped) == Plus(BitPower(bit + SHORT_OFFSET), Residue(reply))
  {
    var d := 55 - bit;
    DegreeRepairs(reply, bit, flipped, d);
    PlusCommutes(Residue(reply), Power(d));
    assert BitPower(bit + SHORT_OFFSET) == Power(d);
  }

  lemma AtDegree(reply: Frame, bit: nat, flipped: Frame, d: nat)
    requires |reply| == SHORT_BYTES && bit < SHORT_BITS && flipped == Flip(reply, bit) && d == 55 - bit
    ensures Residue(flipped) == Plus(Power(d), Residue(reply))
  {
    ShortBit(reply, bit, flipped);
  }

  lemma PlusCommutes(p: Poly, q: Poly)
    ensures Plus(p, q) == Plus(q, p)
  {
  }

  method CorrectReply(reply: Frame, maxErrors: nat, t: Tables) returns (k: int, fixed: Frame)
    requires |reply| == SHORT_BYTES && t.Valid()
    ensures |fixed| == SHORT_BYTES && ReplyOutcome(reply, maxErrors, k, fixed)
  {
    var s := Crc24Parity(reply, t.bytes);
    var mask := ParityMask(reply[0]);
    var valid := Vanishes(s, mask, Overlay(reply[0]));
    if valid {
      return 0, reply;
    }
    if maxErrors >= 1 {
      var found, bit := FindFix(reply, s, mask, t);
      if found {
        return 1, Flip(reply, bit);
      }
    }
    return -1, reply;
  }

  method FindFix(reply: Frame, s: bv32, mask: bv32, t: Tables) returns (found: bool, bit: nat)
    requires |reply| == SHORT_BYTES && t.Valid()
    requires s <= LOW24 && PolyOf(s) == Residue(reply) && Masks(mask, Overlay(reply[0]))
    ensures if found then bit < SHORT_BITS && ShortFix(reply, bit) && NoShortFix(reply, bit)
        else NoShortFix(reply, SHORT_BITS)
  {
    found, bit := false, 0;
    while bit < SHORT_BITS && !found
      invariant bit <= SHORT_BITS && NoShortFix(reply, bit)
      invariant found ==> bit < SHORT_BITS && ShortFix(reply, bit)
      decreases SHORT_BITS - bit, !found
    {
      found := TryBit(reply, bit, s, mask, t);
      if !found {
        NoFixGrows(reply, bit);
        bit := bit + 1;
      }
    }
  }

  lemma NoFixGrows(reply: Frame, n: nat)
    requires |reply| == SHORT_BYTES && n < SHORT_BITS && NoShortFix(reply, n) && !ShortFix(reply, n)
    ensures NoShortFix(reply, n + 1)
  {
    forall bit | 0 <= bit < n + 1 ensures !ShortFix(reply, bit) {
    }
  }

  /**
   Repair at 56 bits.  Only the first seven bytes count; an all-call reply keeps
   its overlay.
   */
  method CorrectShort(input: Frame, maxErrors: nat, t: Tables) returns (k: int, out: Frame)
    requires |input| == LONG_BYTES && t.Valid()
    ensures ShortOutcome(input, maxErrors, k, out)
  {
    var fixed;
    k, fixed := CorrectReply(input[..SHORT_BYTES], maxErrors, t);
    out := if k >= 0 then fixed + Zeros(SHORT_BYTES) else input;
  }

  /** Whether flipping one bit fits the syndrome and the parity rules of the resulting format. */
  method TryBit(reply: Frame, bit: nat, s: bv32, mask: bv32, t: Tables) returns (fits: bool)
    requires |reply| == SHORT_BYTES && bit < SHORT_BITS && t.Valid()
    requires s <= LOW24 && PolyOf(s) == Residue(reply) && Masks(mask, Overlay(reply[0]))
    ensures fits == ShortFix(reply, bit)
  {
    var fixed := Flip(reply, bit);
    ShortBit(reply, bit, fixed);
    fits := Agree(t.single[bit + SHORT_OFFSET], s, mask, Overlay(reply[0]));
    if fits {
      var after := Crc24Parity(fixed, t.bytes);
      var finalMask := ParityMask(fixed[0]);
      fits := Vanishes(after, finalMask, Overlay(fixed[0]));
    }
  }

  // ---------------------------------------------------------------------
  // What repair at 56 bits achieves, and what it cannot
  // ---------------------------------------------------------------------

  /** A reply that repair at 56 bits accepts or fixes. */
  ghost predicate ShortPasses(reply: Frame, maxErrors: nat)
    requires |reply| == SHORT_BYTES
  {
    ShortValid(reply) || (maxErrors >= 1 && !NoShortFix(reply, SHORT_BITS))
  }

  /** The condition is exact. */
  lemma PassesIffRepaired(reply: Frame, maxErrors: nat, k: int, fixed: Frame)
    requires |reply| == SHORT_BYTES && ReplyOutcome(reply, maxErrors, k, fixed)
    ensures k >= 0 <==> ShortPasses(reply, maxErrors)
    ensures k >= 0 ==> ShortValid(fixed) && |Differing(reply, fixed)| == k
  {
    if k == 1 {
      var bit: nat :| bit < SHORT_BITS && ShortFix(reply, bit) && fixed == Flip(reply, bit);
      FlippedDiffers(reply, bit);
    } else if k == 0 {
      assert Differing(reply, fixed) == {};
    }
  }

  /** Damage beyond the format field leaves the format alone; within it an all-call reply stops being one. */
  lemma FormatDamaged(x: bv8, k: nat)
    requires k < 8
    ensures k >= 5 ==> AllCall(x ^ BITS[k]) == AllCall(x)
    ensures k < 5 && AllCall(x) ==> !AllCall(x ^ BITS[k])
  {
  }

  lemma DamagedFormat(reply: Frame, bit: nat, damaged: Frame)
    requires |reply| == SHORT_BYTES && bit < SHORT_BITS && damaged == Flip(reply, bit)
    ensures bit >= 5 ==> AllCall(damaged[0]) == AllCall(reply[0])
    ensures bit < 5 && AllCall(reply[0]) ==> !AllCall(damaged[0])
  {
    if bit < 8 {
      FormatDamaged(reply[0], bit);
    }
  }

  lemma AllProtected(p: Poly)
    ensures Protected(p, 0) <==> p == Zero()
  {
  }

  lemma ProtectedMore(p: Poly, overlay: nat)
    requires overlay <= 7 && Protected(p, overlay)
    ensures Protected(p, 7)
  {
  }

  /** The syndrome of a damaged reply is its overlay and the flipped bit. */
  lemma DamagedResidue(reply: Frame, bit: nat, damaged: Frame)
    requires ShortValid(reply) && bit < SHORT_BITS && damaged == Flip(reply, bit)
    ensures Residue(damaged) == Plus(Power(55 - bit), Residue(reply)) && Protected(Residue(reply), 7)
    ensures Protected(Residue(damaged), 7) <==> bit >= 49
  {
    var d := 55 - bit;
    AtDegree(reply, bit, damaged, d);
    ProtectedMore(Residue(reply), Overlay(reply[0]));
    HiddenPower(d, Residue(reply), Residue(damaged));
  }

  lemma HiddenPower(d: nat, o: Poly, sum: Poly)
    requires d <= 55 && Protected(o, 7) && sum == Plus(Power(d), o)
    ensures Protected(sum, 7) <==> d < 7
  {
    SumProtected(Power(d), o, 7);
    if d < 7 {
      LowPartOnly(d);
    } else {
      HighPartPresent(d);
    }
  }

  /** Whatever explains damage beyond the overlay is the damage itself. */
  lemma OnlyTheDamage(reply: Frame, bit: nat, damaged: Frame, j: nat, twice: Frame)
    requires ShortValid(reply) && bit < 49 && damaged == Flip(reply, bit)
    requires j < SHORT_BITS && twice == Flip(damaged, j) && Protected(Residue(twice), 7)
    ensures j == bit
  {
    var e, d := 55 - bit, 55 - j;
    assert Protected(Residue(reply), 7) by {
      ProtectedMore(Residue(reply), Overlay(reply[0]));
    }
    assert Residue(damaged) == Plus(Power(e), Residue(reply)) by {
      AtDegree(reply, bit, damaged, e);
    }
    assert Residue(twice) == Plus(Power(d), Residue(damaged)) by {
      AtDegree(damaged, j, twice, d);
    }
    TwiceDamaged(Residue(reply), Residue(damaged), Residue(twice), e, d);
  }

  lemma TwiceDamaged(o: Poly, once: Poly, twice: Poly, e: nat, d: nat)
    requires Protected(o, 7) && once == Plus(Power(e), o) && twice == Plus(Power(d), once) && Protected(twice, 7)
    requires d <= 55 && 7 <= e <= 55
    ensures d == e
  {
    UnderOverlay(Power(d), Power(e), o);
    SameHighBit(d, e);
  }

  lemma UnderOverlay(p: Poly, q: Poly, o: Poly)
    requires Protected(o, 7) && Protected(Plus(p, Plus(q, o)), 7)
    ensures Protected(Plus(p, q), 7)
  {
    PlusFacts(p, q, o);
    SumProtected(Plus(p, q), o, 7);
  }

  lemma SameHighBit(d: nat, e: nat)
    requires d <= 55 && 7 <= e <= 55 && Protected(Plus(Power(d), Power(e)), 7)
    ensures d == e
  {
    if d < 7 {
      LowPartOnly(d);
      SumProtected(Power(d), Power(e), 7);
      HighPartPresent(e);
    } else {
      HighPartsDiffer(d, e);
    }
  }

  /** Damage beyond the overlay is undone exactly when the damaged format, too, tolerates the overlay. */
  lemma DamageBeyondOverlay(reply: Frame, bit: nat, damaged: Frame, maxErrors: nat, k: int, fixed: Frame)
    requires ShortValid(reply) && bit < 49 && damaged == Flip(reply, bit) && maxErrors >= 1
    requires ReplyOutcome(damaged, maxErrors, k, fixed)
    ensures if Protected(Residue(reply), Overlay(damaged[0])) then k == 1 && fixed == reply else k == -1
  {
    DamagedResidue(reply, bit, damaged);
    FlipBack(reply, bit);
    if k == 0 {
      ProtectedMore(Residue(damaged), Overlay(damaged[0]));
    } else if k == 1 {
      var j: nat :| j < SHORT_BITS && ShortFix(damaged, j) && fixed == Flip(damaged, j);
      ProtectedMore(Residue(fixed), Overlay(damaged[0]));
      OnlyTheDamage(reply, bit, damaged, j, fixed);
    } else {
      assert !ShortFix(damaged, bit);
    }
  }

  /** Damage under the overlay is absorbed by an all-call reply, and undone in any other. */
  lemma DamageUnderOverlay(reply: Frame, bit: nat, damaged: Frame, maxErrors: nat, k: int, fixed: Frame)
    requires ShortValid(reply) && 49 <= bit < SHORT_BITS && damaged == Flip(reply, bit) && maxErrors >= 1
    requires ReplyOutcome(damaged, maxErrors, k, fixed)
    ensures AllCall(reply[0]) ==> k == 0 && fixed == damaged
    ensures !AllCall(reply[0]) ==> k == 1 && fixed == reply
  {
    DamagedResidue(reply, bit, damaged);
    DamagedFormat(reply, bit, damaged);
    if !AllCall(reply[0]) {
      PlainReply(reply, bit, damaged);
      FlipBack(reply, bit);
      if k == 1 {
        var j: nat :| j < SHORT_BITS && ShortFix(damaged, j) && fixed == Flip(damaged, j);
        OnlyThatBit(damaged, bit, j);
      } else {
        assert ShortFix(damaged, bit);
      }
    }
  }

  lemma PlainReply(reply: Frame, bit: nat, damaged: Frame)
    requires ShortValid(reply) && !AllCall(reply[0]) && bit < SHORT_BITS && damaged == Flip(reply, bit)
    requires !AllCall(damaged[0])
    ensures Residue(reply) == Zero() && Residue(damaged) == BitPower(bit + SHORT_OFFSET) && !ShortValid(damaged)
  {
    AllProtected(Residue(reply));
    AllProtected(Residue(damaged));
    ShortBit(reply, bit, damaged);
    PlusFacts(BitPower(bit + SHORT_OFFSET), Zero(), Zero());
    PowerIsNotZero(55 - bit);
  }

  lemma OnlyThatBit(damaged: Frame, bit: nat, j: nat)
    requires |damaged| == SHORT_BYTES && bit < SHORT_BITS && j < SHORT_BITS && !AllCall(damaged[0])
    requires Residue(damaged) == BitPower(bit + SHORT_OFFSET) && ShortFix(damaged, j)
    ensures j == bit
  {
    ShortBit(damaged, j, Flip(damaged, j));
    AllProtected(Residue(Flip(damaged, j)));
    PlusIsZero(BitPower(j + SHORT_OFFSET), Residue(damaged));
    BitPowersDistinct(bit + SHORT_OFFSET, j + SHORT_OFFSET);
  }

  /**
   One flipped bit of a valid reply, of any format: it is undone exactly, unless
   the reply is an all-call reply and either the flip lies under the overlay,
   which absorbs it, or it damages the format while the overlay is not zero, and
   then no repair is made at all.
   */
  lemma ShortSingleRestored(reply: Frame, bit: nat, damaged: Frame, maxErrors: nat, k: int, fixed: Frame)
    requires ShortValid(reply) && bit < SHORT_BITS && damaged == Flip(reply, bit) && maxErrors >= 1
    requires ReplyOutcome(damaged, maxErrors, k, fixed)
    ensures (k == 1 && fixed == reply) <==> !(AllCall(reply[0]) && (bit >= 49 || (bit < 5 && Residue(reply) != Zero())))
    ensures AllCall(reply[0]) && bit >= 49 ==> k == 0 && fixed == damaged
    ensures AllCall(reply[0]) && bit < 5 && Residue(reply) != Zero() ==> k == -1
  {
    if bit >= 49 {
      DamageUnderOverlay(reply, bit, damaged, maxErrors, k, fixed);
    } else {
      DamageBeyondOverlay(reply, bit, damaged, maxErrors, k, fixed);
      DamagedFormat(reply, bit, damaged);
      AllProtected(Residue(reply));
    }
  }

  /** For an all-call reply with a damaged format, repair succeeds if and only if the reply carries no overlay. */
  lemma OverlayRestoredIffZero(reply: Frame, bit: nat, damaged: Frame, maxErrors: nat, k: int, fixed: Frame)
    requires ShortValid(reply) && AllCall(reply[0]) && bit < 5 && damaged == Flip(reply, bit) && maxErrors >= 1
    requires ReplyOutcome(damaged, maxErrors, k, fixed)
    ensures (k == 1 && fixed == reply) <==> Residue(reply) == Zero()
    ensures Residue(reply) != Zero() ==> k == -1
  {
    ShortSingleRestored(reply, bit, damaged, maxErrors, k, fixed);
  }

  // ---------------------------------------------------------------------
  // A reply with an overlay, byte by byte
  // ---------------------------------------------------------------------

  /** An all-call reply of aircraft 4840D6 to interrogator 1. */
  const EXAMPLE: Frame := [0x5D, 0x48, 0x40, 0xD6, 0xF8, 0x74, 0x0E]

  function Steps(w: bv32, n: nat): bv32
  {
    if n == 0 then w else NextWord(Steps(w, n - 1))
  }

  lemma {:induction false} StepsTimesX(w: bv32, n: nat)
    ensures PolyOf(Steps(w, n)) == TimesXn(PolyOf(w), n)
  {
    if n > 0 {
      StepsTimesX(w, n - 1);
      NextWordTimesX(Steps(w, n - 1));
    }
  }

  /** The word of a residue after one more byte. */
  predicate ByteOn(w: bv32, b: bv8, next: bv32) { next == Steps(w, 8) ^ (b as bv32) }

  lemma OneByteOn(data: Frame, w: bv32, b: bv8, next: bv32, more: Frame)
    requires PolyOf(w) == Residue(data) && ByteOn(w, b, next) && more == data + [b]
    ensures PolyOf(next) == Residue(more)
  {
    StepsTimesX(w, 8);
    PolyOfXor(Steps(w, 8), b as bv32);
    ResidueAppends(data, b, PolyOf(b as bv32));
  }

  lemma TwoBytesOn(data: Frame, w: bv32, b0: bv8, w0: bv32, b1: bv8, w1: bv32, more: Frame)
    requires PolyOf(w) == Residue(data) && ByteOn(w, b0, w0) && ByteOn(w0, b1, w1) && more == data + [b0, b1]
    ensures PolyOf(w1) == Residue(more)
  {
    OneByteOn(data, w, b0, w0, data + [b0]);
    OneByteOn(data + [b0], w0, b1, w1, more);
  }

  lemma ExampleOverlay()
    ensures ShortValid(EXAMPLE) && AllCall(EXAMPLE[0]) && Residue(EXAMPLE) == Unit(0)
  {
    ZeroWord();
    TwoBytesOn([], 0x0, 0x5D, 0x5D, 0x48, 0x5D48, EXAMPLE[..2]);
    TwoBytesOn(EXAMPLE[..2], 0x5D48, 0x40, 0x5D4840, 0xD6, 0xB49F3D, EXAMPLE[..4]);
    TwoBytesOn(EXAMPLE[..4], 0xB49F3D, 0xF8, 0x992266, 0x74, 0xDA0409, EXAMPLE[..6]);
    OneByteOn(EXAMPLE[..6], 0xDA0409, 0x0E, 0x1, EXAMPLE);
    OneWord();
  }

  /** Its format damaged in the third bit, that reply is given up. */
  lemma ExampleGivenUp(maxErrors: nat, k: int, fixed: Frame)
    requires maxErrors >= 1 && ReplyOutcome(Flip(EXAMPLE, 2), maxErrors, k, fixed)
    ensures k == -1
  {
    ExampleOverlay();
    assert Unit(0)[0] && !Zero()[0];
    ShortSingleRestored(EXAMPLE, 2, Flip(EXAMPLE, 2), maxErrors, k, fixed);
  }
}
