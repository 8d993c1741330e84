/**
 The growable array. Growing copies every element; how often that happens over a run of adds is a
 function of the initial size and the number of adds.
 */
module DArray {

  datatype Growth = Growth(size: nat, resizes: nat, copied: nat)

  /** Capacity, number of resizes and elements copied by them, after n adds. */
  function Grown(initial: nat, n: nat): Growth {
    if n == 0 then Growth(initial, 0, 0)
    else
      var g := Grown(initial, n - 1);
      if n >= g.size then Growth(2 * g.size, g.resizes + 1, g.copied + (n - 1)) else g
  }

  lemma {:induction false} GrowthAccounts(initial: nat, n: nat)
    requires initial >= 1
    ensures var g := Grown(initial, n);
            n < g.size == initial + g.resizes + g.copied && (g.size == initial || g.size <= 2 * n)
  {
    if n > 0 {
      GrowthAccounts(initial, n - 1);
    }
  }

  /** n adds copy fewer than 2n elements in total, whatever the initial size. */
  lemma AmortisedCopies(initial: nat, n: nat)
    requires initial >= 1 && n >= 1
    ensures Grown(initial, n).copied < 2 * n
  {
    GrowthAccounts(initial, n);
  }

  lemma {:induction false} NeverGrows(n: nat)
    ensures Grown(0, n).size == 0
  {
    if n > 0 {
      NeverGrows(n - 1);
    }
  }

  /** An element has room exactly when the array was not created with size zero. */
  lemma RoomExactly(initial: nat, n: nat)
    requires n >= 1
    ensures n <= Grown(initial, n).size <==> initial >= 1
  {
    if initial >= 1 {
      GrowthAccounts(initial, n);
    } else {
      NeverGrows(n);
    }
  }

  class DArray<T(0)> {
    var data: array<T>
    var length: nat
    ghost const initial: nat
    ghost var copied: nat

    ghost predicate Valid()
      reads this, data
    {
      && initial >= 1 && length < data.Length
      && data.Length == Grown(initial, length).size && copied == Grown(initial, length).copied
    }

    ghost function Contents(): (s: seq<T>)
      reads this, data
      requires Valid()
    {
      data[..length]
    }

    constructor (size: nat)
      requires size >= 1
      ensures Valid() && fresh(data) && Contents() == [] && initial == size
    {
      data, length, initial, copied := new T[size], 0, size, 0;
    }

    method Resize(newSize: nat)
      requires length <= data.Length && length <= newSize
      modifies `data, `copied
      ensures fresh(data) && data.Length == newSize
      ensures data[..length] == old(data[..length]) && copied == old(copied) + length
    {
      var bigger := new T[newSize];
      var i := 0;
      while i < length
        invariant 0 <= i <= length && data == old(data)
        invariant bigger[..i] == data[..i] && copied == old(copied) + i
        modifies bigger, `copied
      {
        bigger[i] := data[i];
        copied := copied + 1;
        i := i + 1;
      }
      data := bigger;
    }

    method Add(element: T)
      requires Valid()
      modifies this, data
      ensures Valid() && (data == old(data) || fresh(data))
      ensures Contents() == old(Contents()) + [element]
    {
      GrowthAccounts(initial, length + 1);
      if length + 1 >= data.Length {
        Resize(data.Length * 2);
      }
      data[length] := element;
      length := length + 1;
    }
  }

  /** Appending a list, one element at a time. */
  method AddAll<T(0)>(xs: seq<T>, size: nat) returns (d: DArray<T>)
    requires size >= 1
    ensures d.Valid() && d.Contents() == xs
    ensures xs != [] ==> d.copied < 2 * |xs|
  {
    d := new DArray<T>(size);
    var i := 0;
    while i < |xs|
      invariant 0 <= i <= |xs| && fresh(d) && fresh(d.data) && d.initial == size
      invariant d.Valid() && d.Contents() == xs[..i]
    {
      d.Add(xs[i]);
      i := i + 1;
    }
    assert xs[..i] == xs;
    if xs != [] {
      AmortisedCopies(size, |xs|);
    }
  }
}
