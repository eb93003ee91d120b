/** Downlink formats reachable from one another by damage to their five bits. */
module Formats {
  type Format = f: seq<bool> | |f| == 5 witness seq(5, i => false)

  function FlipBit(f: Format, bit: nat): Format
    requires bit < 5
  {
    f[bit := !f[bit]]
  }

  /** The number of the first `n` bits in which two formats differ. */
  function Distance(f: Format, g: Format, n: nat): nat
    requires n <= 5
  {
    if n == 0 then 0 else Distance(f, g, n - 1) + if f[n - 1] == g[n - 1] then 0 else 1
  }

  /** Everything reached from the first `bits` single flips of `f`, each damaged further. */
  function Damaged(f: Format, damage: nat, bits: nat): set<Format>
    requires damage >= 1 && bits <= 5
    decreases damage, 1, bits
  {
    if bits == 0 then {} else Damaged(f, damage, bits - 1) + DamageSet(FlipBit(f, bits - 1), damage - 1)
  }

  function DamageSet(f: Format, damage: nat): set<Format>
    decreases damage, 2
  {
    if damage == 0 then {f} else {f} + Damaged(f, damage, 5)
  }

  lemma {:induction false} FlipMoves(f: Format, g: Format, bit: nat, n: nat)
    requires bit < 5 && n <= 5
    ensures Distance(FlipBit(f, bit), g, n)
         == if n <= bit then Distance(f, g, n)
            else if f[bit] == g[bit] then Distance(f, g, n) + 1
            else Distance(f, g, n) - 1
  {
    if n > 0 {
      FlipMoves(f, g, bit, n - 1);
    }
  }

  lemma {:induction false} ZeroDistance(f: Format, g: Format, n: nat)
    requires n <= 5
    ensures Distance(f, g, n) == 0 <==> f[..n] == g[..n]
  {
    if n > 0 {
      ZeroDistance(f, g, n - 1);
      assert f[..n] == f[..n - 1] + [f[n - 1]] && g[..n] == g[..n - 1] + [g[n - 1]];
    }
  }

  lemma {:induction false} DifferingBit(f: Format, g: Format, n: nat) returns (bit: nat)
    requires n <= 5 && Distance(f, g, n) > 0
    ensures bit < n && f[bit] != g[bit]
  {
    if f[n - 1] != g[n - 1] {
      bit := n - 1;
    } else {
      bit := DifferingBit(f, g, n - 1);
    }
  }

  lemma {:induction false} InDamaged(f: Format, damage: nat, bits: nat, g: Format)
    requires damage >= 1 && bits <= 5
    ensures g in Damaged(f, damage, bits)
       <==> exists bit: nat :: bit < bits && g in DamageSet(FlipBit(f, bit), damage - 1)
  {
    if bits > 0 {
      InDamaged(f, damage, bits - 1, g);
    }
  }

  /** The damage set is exactly the formats within that many flips. */
  lemma {:induction false} DamageSetIsBall(f: Format, damage: nat, g: Format)
    ensures g in DamageSet(f, damage) <==> Distance(f, g, 5) <= damage
    decreases damage
  {
    ZeroDistance(f, g, 5);
    assert f[..5] == f && g[..5] == g;
    if damage > 0 {
      InDamaged(f, damage, 5, g);
      forall bit: nat | bit < 5 ensures g in DamageSet(FlipBit(f, bit), damage - 1)
          <==> Distance(FlipBit(f, bit), g, 5) <= damage - 1 {
        DamageSetIsBall(FlipBit(f, bit), damage - 1, g);
      }
      forall bit: nat | bit < 5 ensures Distance(f, g, 5) <= Distance(FlipBit(f, bit), g, 5) + 1 {
        FlipMoves(f, g, bit, 5);
      }
      if 0 < Distance(f, g, 5) <= damage {
        var bit := DifferingBit(f, g, 5);
        FlipMoves(f, g, bit, 5);
      }
    }
  }
}
