/**
 The pool allocator: which slots are out is recorded in a bit array; a block is addressed by where it
 starts in memory.
 */
module PoolAllocator {
  import opened Wrappers
  import opened BitArray

  // ---------- the intended behaviour ----------

  /** The first slot whose bit is clear; |bits| if there is none. */
  function LowestFree(bits: seq<bool>): (i: nat)
    ensures i <= |bits|
    ensures i < |bits| ==> !bits[i]
    ensures forall j :: 0 <= j < i ==> bits[j]
  {
    if bits == [] || !bits[0] then 0 else 1 + LowestFree(bits[1..])
  }

  datatype Op = Alloc | Free(slot: nat)

  // What the owner of the blocks sees: the slots handed out and not yet given back, oldest first, and
  // the answer to the last operation.
  datatype View = View(out: seq<nat>, bits: seq<bool>)

  function AllClear(size: nat): (bits: seq<bool>)
    ensures |bits| == size && forall i :: 0 <= i < size ==> !bits[i]
  {
    seq(size, _ => false)
  }

  function Without(out: seq<nat>, slot: nat): (r: seq<nat>)
    ensures forall i :: i in r <==> i in out && i != slot
  {
    if out == [] then []
    else (if out[0] == slot then [] else [out[0]]) + Without(out[1..], slot)
  }

  /** The bits follow the code; `out` follows what the caller has been given. */
  function Step(v: View, op: Op): View {
    match op
    case Alloc =>
      var i := LowestFree(v.bits);
      if i < |v.bits| then View(v.out + [i], v.bits[i := true]) else v
    case Free(slot) =>
      if slot < |v.bits| then View(Without(v.out, slot), v.bits[slot := false]) else v
  }

  function Run(size: nat, ops: seq<Op>): View {
    if ops == [] then View([], AllClear(size)) else Step(Run(size, ops[..|ops| - 1]), ops[|ops| - 1])
  }

  predicate Distinct(out: seq<nat>) {
    forall i, j :: 0 <= i < j < |out| ==> out[i] != out[j]
  }

  lemma {:induction false} WithoutDistinct(out: seq<nat>, slot: nat)
    requires Distinct(out)
    ensures Distinct(Without(out, slot))
  {
    if out != [] {
      WithoutDistinct(out[1..], slot);
      assert out[0] !in out[1..];
    }
  }

  /** From a cleared bit array, over every run: the bits are exactly the slots handed out, no slot is
      handed out twice. */
  lemma {:induction false} RunRight(size: nat, ops: seq<Op>)
    ensures var v := Run(size, ops);
            && |v.bits| == size && Distinct(v.out)
            && (forall i :: i in v.out ==> i < size)
            && (forall i :: 0 <= i < size ==> (v.bits[i] <==> i in v.out))
  {
    if ops != [] {
      RunRight(size, ops[..|ops| - 1]);
      var v, op := Run(size, ops[..|ops| - 1]), ops[|ops| - 1];
      if op.Free? {
        WithoutDistinct(v.out, op.slot);
      }
    }
  }

  /** An alloc hands out a slot that is not out, and the lowest such; it hands out none exactly when all
      are out. */
  lemma AllocAfterRun(size: nat, ops: seq<Op>)
    ensures var out := Run(size, ops).out;
            var next := Run(size, ops + [Alloc]).out;
            if forall i :: 0 <= i < size ==> i in out then next == out
            else exists i :: i < size && i !in out && next == out + [i] && forall j :: 0 <= j < i ==> j in out
  {
    RunRight(size, ops);
    assert (ops + [Alloc])[..|ops|] == ops;
    var bits := Run(size, ops).bits;
    var i := LowestFree(bits);
    if i < size {
      assert i !in Run(size, ops).out;
    }
  }

  // ---------- blocks ----------

  function Address(base: nat, stride: nat, slot: nat): nat {
    base + stride * slot
  }

  /** The block of the slot contains the address. */
  ghost predicate Holds(base: nat, stride: nat, slot: nat, address: int) {
    Address(base, stride, slot) <= address < Address(base, stride, slot) + stride
  }

  lemma Spread(stride: nat, a: nat, b: nat)
    requires a < b
    ensures stride * a + stride <= stride * b
  {
    assert stride * b == stride * (a + 1) + stride * (b - a - 1);
  }

  /** Blocks of different slots do not overlap, and all lie within the pool. */
  lemma BlocksApart(base: nat, stride: nat, size: nat, a: nat, b: nat)
    requires a < size && b < size
    ensures base <= Address(base, stride, a) && Address(base, stride, a) + stride <= base + stride * size
    ensures a < b ==> Address(base, stride, a) + stride <= Address(base, stride, b)
  {
    Spread(stride, a, size);
    if a < b {
      Spread(stride, a, b);
    }
  }

  /** The blocks that are out after any run lie within the pool and do not overlap. */
  lemma OutstandingApart(base: nat, stride: nat, size: nat, ops: seq<Op>, i: nat, j: nat)
    requires i < |Run(size, ops).out| && j < |Run(size, ops).out| && i != j
    ensures var a, b := Address(base, stride, Run(size, ops).out[i]), Address(base, stride, Run(size, ops).out[j]);
            && base <= a && a + stride <= base + stride * size
            && (a + stride <= b || b + stride <= a)
  {
    hide Run, Address;
    RunRight(size, ops);
    var out := Run(size, ops).out;
    assert out[i] in out && out[j] in out;
    assert out[i] != out[j];
    BlocksApart(base, stride, size, out[i], out[j]);
    BlocksApart(base, stride, size, out[j], out[i]);
  }

  /** The slot of an address inside the pool: the one whose block contains it. */
  lemma SlotOfAddress(stride: nat, offset: nat, slot: nat)
    requires stride >= 1
    ensures offset / stride == slot <==> stride * slot <= offset < stride * slot + stride
  {
    var q := offset / stride;
    assert stride * q <= offset < stride * q + stride;
    if q < slot {
      Spread(stride, q, slot);
    } else if slot < q {
      Spread(stride, slot, q);
    }
  }

  // ---------- the code ----------

  class PoolAllocator {
    const stride: nat
    const base: nat
    const availability: BitArray
    const data: array<bv8>

    ghost predicate Valid()
      reads availability
    {
      stride >= 1 && availability.Valid() && data != availability.bytes && data.Length == availability.size * stride
    }

    ghost function Bits(): seq<bool>
      requires Valid()
      reads availability, availability.bytes
    {
      availability.Bits()
    }

    /** `memory` is what the bytes of the bit array happen to hold. */
    constructor (stride: nat, size: nat, base: nat, memory: seq<bv8>)
      requires stride >= 1 && |memory| == (size + 7) / 8
      ensures Valid() && fresh(availability) && fresh(availability.bytes) && fresh(data)
      ensures availability.size == size && availability.bytes[..] == memory
      ensures this.stride == stride && this.base == base
    {
      this.stride, this.base := stride, base;
      availability := new BitArray(size, memory);
      data := new bv8[size * stride];
    }

    method Alloc() returns (block: Option<nat>)
      requires Valid()
      modifies availability.bytes
      ensures var i := LowestFree(old(Bits()));
              if i < availability.size then block == Some(Address(base, stride, i)) && Bits() == old(Bits())[i := true]
              else block == None && Bits() == old(Bits())
    {
      var i := 0;
      while i < availability.size
        invariant 0 <= i <= availability.size && Bits() == old(Bits())
        invariant i <= LowestFree(Bits())
      {
        var taken := availability.Get(i);
        if !taken {
          availability.Set(i);
          return Some(base + stride * i);
        }
        i := i + 1;
      }
      return None;
    }

    /** A block is taken back if it starts between the first and the last slot. */
    ghost predicate Returnable(block: int)
      reads availability
    {
      base <= block <= base + stride * (availability.size - 1)
    }

    method Free(block: int)
      requires Valid()
      modifies data, availability.bytes
      ensures !Returnable(block) ==> data[..] == old(data[..]) && Bits() == old(Bits())
      ensures Returnable(block) ==>
                exists slot: nat :: slot < availability.size && Holds(base, stride, slot, block)
                               && Bits() == old(Bits())[slot := false]
      ensures Returnable(block) ==>
                forall k :: 0 <= k < data.Length ==>
                              data[k] == if block - base <= k < block - base + stride then 0 else old(data[k])
    {
      if block < base || block > base + stride * (availability.size - 1) {
        return;
      }
      FirstByte(stride, availability.size, block - base);
      forall k | block - base <= k < block - base + stride {
        data[k] := 0;
      }
      var index := (block - base) / stride;
      SlotOfAddress(stride, block - base, index);
      assert Holds(base, stride, index, block);
      availability.Clear(index);
    }
  }

  lemma FirstByte(stride: nat, size: nat, offset: nat)
    requires stride >= 1 && offset <= stride * (size - 1)
    ensures offset + stride <= size * stride && offset / stride < size
  {
    assert size >= 1;
    var q := offset / stride;
    SlotOfAddress(stride, offset, q);
    if q >= size {
      Spread(stride, size - 1, q);
    }
  }

  /** What the caller gets for an operation. */
  function Answer(base: nat, stride: nat, bits: seq<bool>, op: Op): Option<nat> {
    if op.Alloc? && LowestFree(bits) < |bits| then Some(Address(base, stride, LowestFree(bits))) else None
  }

  function Answers(base: nat, stride: nat, size: nat, ops: seq<Op>): seq<Option<nat>> {
    if ops == [] then []
    else
      var before := ops[..|ops| - 1];
      Answers(base, stride, size, before) + [Answer(base, stride, Run(size, before).bits, ops[|ops| - 1])]
  }

  lemma RunStep(base: nat, stride: nat, size: nat, ops: seq<Op>, i: nat)
    requires i < |ops|
    ensures Run(size, ops[..i + 1]) == Step(Run(size, ops[..i]), ops[i])
    ensures Answers(base, stride, size, ops[..i + 1])
            == Answers(base, stride, size, ops[..i]) + [Answer(base, stride, Run(size, ops[..i]).bits, ops[i])]
  {
    assert ops[..i + 1][..i] == ops[..i];
  }

  /** The allocator, started on a cleared bit array, goes through every run as intended. */
  method RunPool(size: nat, stride: nat, base: nat, ops: seq<Op>) returns (blocks: seq<Option<nat>>)
    requires stride >= 1
    ensures blocks == Answers(base, stride, size, ops)
  {
    hide Run, Answers, Address, BitOf, Holds, LowestFree;
    var pool := Cleared(stride, size, base);
    blocks := [];
    EmptyRun(base, stride, size);
    var i := 0;
    while i < |ops|
      invariant 0 <= i <= |ops|
      invariant fresh(pool.data) && fresh(pool.availability.bytes) && pool.Valid() && pool.availability.size == size
      invariant pool.base == base && pool.stride == stride
      invariant pool.Bits() == Run(size, ops[..i]).bits
      invariant blocks == Answers(base, stride, size, ops[..i])
    {
      RunStep(base, stride, size, ops, i);
      match ops[i] {
        case Alloc =>
          var block := pool.Alloc();
          blocks := blocks + [block];
        case Free(slot) =>
          FreedSlot(base, stride, size, slot);
          pool.Free(Address(base, stride, slot));
          blocks := blocks + [None];
      }
      i := i + 1;
    }
    assert ops[..i] == ops;
  }

  lemma EmptyRun(base: nat, stride: nat, size: nat)
    ensures Run(size, [][..0]).bits == AllClear(size) && Answers(base, stride, size, [][..0]) == []
  {
  }

  method Cleared(stride: nat, size: nat, base: nat) returns (pool: PoolAllocator)
    requires stride >= 1
    ensures fresh(pool.data) && fresh(pool.availability.bytes) && pool.Valid()
    ensures pool.availability.size == size && pool.base == base && pool.stride == stride
    ensures pool.Bits() == AllClear(size)
  {
    pool := new PoolAllocator(stride, size, base, seq((size + 7) / 8, _ => 0));
    forall i | 0 <= i < size ensures !pool.Bits()[i] {
      NoBits(i % 8);
    }
  }

  lemma NoBits(k: nat)
    requires k < 8
    ensures !BitOf(0, k)
  {
    hide BitOf;
    BitTable(0);
  }

  /** The address of a slot is returnable exactly when the slot exists, and lies in no other block. */
  lemma FreedSlot(base: nat, stride: nat, size: nat, slot: nat)
    requires stride >= 1
    ensures base <= Address(base, stride, slot) <= base + stride * (size - 1) <==> slot < size
    ensures forall s :: Holds(base, stride, s, Address(base, stride, slot)) ==> s == slot
  {
    if slot < size - 1 {
      Spread(stride, slot, size - 1);
    }
    if size - 1 < slot && size >= 1 {
      Spread(stride, size - 1, slot);
    }
    forall s | Holds(base, stride, s, Address(base, stride, slot)) ensures s == slot {
      SlotOfAddress(stride, stride * slot, s);
      SlotOfAddress(stride, stride * slot, slot);
    }
  }
}
