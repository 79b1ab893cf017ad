/** The collision-group bitmask of a rigid body: Blender's per-group
    checkboxes folded into one integer, bit `i` set iff group `i` is on. */
module Physics {

  function Pow2(i: nat): (p: nat)
    ensures p >= 1
  {
    if i == 0 then 1 else 2 * Pow2(i - 1)
  }

  /** Bitwise or on non-negative integers, bit by bit from the lowest. */
  function BitOr(a: nat, b: nat): nat
    decreases a + b
  {
    if a == 0 then b
    else if b == 0 then a
    else (if a % 2 == 1 || b % 2 == 1 then 1 else 0) + 2 * BitOr(a / 2, b / 2)
  }

  /** The mask the checkboxes stand for: group 0 is the lowest bit. */
  function Encode(groups: seq<bool>): nat
  {
    if groups == [] then 0
    else (if groups[0] then 1 else 0) + 2 * Encode(groups[1..])
  }

  /** The first `n` bits of `mask`, lowest first. */
  function Decode(mask: nat, n: nat): (gs: seq<bool>)
    ensures |gs| == n
  {
    if n == 0 then [] else [mask % 2 == 1] + Decode(mask / 2, n - 1)
  }

  /** Or-ing in a bit above every bit already set is addition. */
  lemma {:induction false} BitOrHighBit(m: nat, i: nat)
    requires m < Pow2(i)
    ensures BitOr(m, Pow2(i)) == m + Pow2(i)
  {
    if i > 0 && m > 0 {
      BitOrHighBit(m / 2, i - 1);
    }
  }

  /** A mask of `n` groups fits in `n` bits. */
  lemma {:induction false} EncodeBound(groups: seq<bool>)
    ensures Encode(groups) < Pow2(|groups|)
  {
    if groups != [] {
      EncodeBound(groups[1..]);
    }
  }

  /** Appending a group adds its bit at position `|groups|`. */
  lemma {:induction false} EncodeSnoc(groups: seq<bool>, b: bool)
    ensures Encode(groups + [b]) == Encode(groups) + (if b then Pow2(|groups|) else 0)
  {
    if groups != [] {
      assert (groups + [b])[1..] == groups[1..] + [b];
      EncodeSnoc(groups[1..], b);
    }
  }

  /** Decoding the mask gives back exactly the checkboxes. */
  lemma {:induction false} DecodeEncode(groups: seq<bool>)
    ensures Decode(Encode(groups), |groups|) == groups
  {
    if groups != [] {
      DecodeEncode(groups[1..]);
    }
  }

  /** Two checkbox rows of one length give the same mask only if they agree. */
  lemma EncodeInjective(g1: seq<bool>, g2: seq<bool>)
    requires |g1| == |g2| && Encode(g1) == Encode(g2)
    ensures g1 == g2
  {
    DecodeEncode(g1);
    DecodeEncode(g2);
  }

  /** The loop of `export_rb` that sets `collisionGroup` (and `collisionMask`,
      which gets the same value): or in `1 << i` for every group `i` that is on. */
  method CollisionGroup(groups: seq<bool>) returns (mask: nat)
    ensures mask == Encode(groups)
    ensures mask < Pow2(|groups|)
  {
    mask := 0;
    var i := 0;
    while i < |groups|
      invariant 0 <= i <= |groups|
      invariant mask == Encode(groups[..i])
    {
      EncodeBound(groups[..i]);
      EncodeSnoc(groups[..i], groups[i]);
      assert groups[..i + 1] == groups[..i] + [groups[i]];
      if groups[i] {
        BitOrHighBit(mask, i);
        mask := BitOr(mask, Pow2(i));
      }
      i := i + 1;
    }
    assert groups[..i] == groups;
    EncodeBound(groups);
  }
}
