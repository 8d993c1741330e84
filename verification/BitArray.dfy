/**
 The packed bit array: bit i lives in byte i / 8 at position i % 8. Its abstract value is the sequence
 of its bits.
 */
module BitArray {

  // ---------- one byte ----------

  function Mask(k: nat): bv8
    requires k < 8
  {
    1 << k
  }

  function BitOf(b: bv8, k: nat): bool
    requires k < 8
  {
    (b >> k) & 1 == 1
  }

  lemma MaskTable()
    ensures Mask(0) == 1 && Mask(1) == 2 && Mask(2) == 4 && Mask(3) == 8
    ensures Mask(4) == 16 && Mask(5) == 32 && Mask(6) == 64 && Mask(7) == 128
  {
  }

  lemma BitTable(b: bv8)
    ensures BitOf(b, 0) == (b & 1 == 1) && BitOf(b, 1) == (b & 2 == 2)
    ensures BitOf(b, 2) == (b & 4 == 4) && BitOf(b, 3) == (b & 8 == 8)
    ensures BitOf(b, 4) == (b & 16 == 16) && BitOf(b, 5) == (b & 32 == 32)
    ensures BitOf(b, 6) == (b & 64 == 64) && BitOf(b, 7) == (b & 128 == 128)
  {
  }

  // What the operations make of a byte.

  function With(b: bv8, m: bv8): bv8 {
    b | m
  }

  function Without(b: bv8, m: bv8): bv8 {
    b & !m
  }

  function Flipped(b: bv8, m: bv8): bv8 {
    b ^ m
  }

  /** All of the mask is in the byte. */
  predicate Has(b: bv8, m: bv8) {
    b & m == m
  }

  predicate Apart(m: bv8, n: bv8) {
    m & n == 0
  }

  predicate OneBit(m: bv8) {
    m == 1 || m == 2 || m == 4 || m == 8 || m == 16 || m == 32 || m == 64 || m == 128
  }

  lemma BitByMask(b: bv8, k: nat)
    requires k < 8
    ensures BitOf(b, k) == Has(b, Mask(k))
  {
    hide Mask, BitOf;
    MaskTable();
    BitTable(b);
  }

  lemma MasksApart(i: nat, k: nat)
    requires i < 8 && k < 8
    ensures OneBit(Mask(i)) && (i != k ==> Apart(Mask(i), Mask(k)))
  {
    hide Mask;
    MaskTable();
  }

  lemma OtherBit(b: bv8, m: bv8, n: bv8)
    requires Apart(m, n)
    ensures Has(With(b, m), n) == Has(b, n)
    ensures Has(Without(b, m), n) == Has(b, n)
    ensures Has(Flipped(b, m), n) == Has(b, n)
  {
    OtherMask(b, m, n);
  }

  lemma OtherMask(b: bv8, m: bv8, n: bv8)
    requires m & n == 0
    ensures (b | m) & n == b & n && (b & !m) & n == b & n && (b ^ m) & n == b & n
  {
  }

  lemma SameBit(b: bv8, m: bv8)
    requires OneBit(m)
    ensures Has(With(b, m), m) && !Has(Without(b, m), m) && (Has(Flipped(b, m), m) <==> !Has(b, m))
  {
  }

  // The powers of two that fit a byte.
  const PLACES: seq<bv8> := [1, 2, 4, 8, 16, 32, 64, 128]

  /** Bit k of a byte is that of value 2 to the k. */
  lemma BitAtPlace(b: bv8, k: nat)
    requires k < 8
    ensures BitOf(b, k) <==> b & PLACES[k] != 0
  {
    hide BitOf;
    BitTable(b);
    assert b & 1 != 0 <==> b & 1 == 1;
    assert b & 2 != 0 <==> b & 2 == 2;
    assert b & 4 != 0 <==> b & 4 == 4;
    assert b & 8 != 0 <==> b & 8 == 8;
    assert b & 16 != 0 <==> b & 16 == 16;
    assert b & 32 != 0 <==> b & 32 == 32;
    assert b & 64 != 0 <==> b & 64 == 64;
    assert b & 128 != 0 <==> b & 128 == 128;
  }

  /** Or-ing a mask in sets its own bit and touches no other. */
  lemma SetBit(b: bv8, i: nat, k: nat)
    requires i < 8 && k < 8
    ensures BitOf(With(b, Mask(i)), k) == (k == i || BitOf(b, k))
  {
    hide Mask, BitOf, Has, Apart, OneBit, With, Without, Flipped;
    BitByMask(b, k);
    BitByMask(With(b, Mask(i)), k);
    MasksApart(i, k);
    if i == k {
      SameBit(b, Mask(i));
    } else {
      OtherBit(b, Mask(i), Mask(k));
    }
  }

  /** And-ing its complement clears its own bit and touches no other. */
  lemma ClearBit(b: bv8, i: nat, k: nat)
    requires i < 8 && k < 8
    ensures BitOf(Without(b, Mask(i)), k) == (k != i && BitOf(b, k))
  {
    hide Mask, BitOf, Has, Apart, OneBit, With, Without, Flipped;
    BitByMask(b, k);
    BitByMask(Without(b, Mask(i)), k);
    MasksApart(i, k);
    if i == k {
      SameBit(b, Mask(i));
    } else {
      OtherBit(b, Mask(i), Mask(k));
    }
  }

  /** Xor-ing it flips its own bit and touches no other. */
  lemma ToggleBit(b: bv8, i: nat, k: nat)
    requires i < 8 && k < 8
    ensures BitOf(Flipped(b, Mask(i)), k) == ((k == i) != BitOf(b, k))
  {
    hide Mask, BitOf, Has, Apart, OneBit, With, Without, Flipped;
    BitByMask(b, k);
    BitByMask(Flipped(b, Mask(i)), k);
    MasksApart(i, k);
    if i == k {
      SameBit(b, Mask(i));
    } else {
      OtherBit(b, Mask(i), Mask(k));
    }
  }

  // ---------- the array ----------

  class BitArray {
    const size: nat
    const bytes: array<bv8>

    ghost predicate Valid() {
      size <= 8 * bytes.Length
    }

    /** The bits, in order. */
    ghost function Bits(): (s: seq<bool>)
      requires Valid()
      reads bytes
      ensures |s| == size
    {
      seq(size, i requires 0 <= i < size reads bytes => BitOf(bytes[i / 8], i % 8))
    }

    /** The memory is not cleared: the bits are whatever the fresh bytes happen to hold. */
    constructor (size: nat, memory: seq<bv8>)
      requires |memory| == (size + 7) / 8
      ensures Valid() && fresh(bytes) && this.size == size && bytes[..] == memory
    {
      this.size := size;
      bytes := new bv8[|memory|](i requires 0 <= i < |memory| => memory[i]);
    }

    method Set(index: nat)
      requires Valid() && index < size
      modifies bytes
      ensures Bits() == old(Bits())[index := true]
    {
      hide Mask, BitOf, With, Without, Flipped;
      ghost var was := bytes[index / 8];
      bytes[index / 8] := With(bytes[index / 8], Mask(index % 8));
      forall i | 0 <= i < size ensures Bits()[i] == old(Bits())[index := true][i] {
        SetBit(was, index % 8, i % 8);
      }
    }

    method Clear(index: nat)
      requires Valid() && index < size
      modifies bytes
      ensures Bits() == old(Bits())[index := false]
    {
      hide Mask, BitOf, With, Without, Flipped;
      ghost var was := bytes[index / 8];
      bytes[index / 8] := Without(bytes[index / 8], Mask(index % 8));
      forall i | 0 <= i < size ensures Bits()[i] == old(Bits())[index := false][i] {
        ClearBit(was, index % 8, i % 8);
      }
    }

    method Toggle(index: nat)
      requires Valid() && index < size
      modifies bytes
      ensures Bits() == old(Bits())[index := !old(Bits())[index]]
    {
      hide Mask, BitOf, With, Without, Flipped;
      ghost var was := bytes[index / 8];
      bytes[index / 8] := Flipped(bytes[index / 8], Mask(index % 8));
      forall i | 0 <= i < size ensures Bits()[i] == old(Bits())[index := !old(Bits())[index]][i] {
        ToggleBit(was, index % 8, i % 8);
      }
    }

    method Get(index: nat) returns (b: bool)
      requires Valid() && index < size
      ensures b == Bits()[index]
    {
      b := (bytes[index / 8] >> (index % 8)) & 1 == 1;
    }
  }
}
