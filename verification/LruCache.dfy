/**
 What an LRU cache is meant to be: a list of at most `size` (key, value) pairs, most recent first.
 */
module RecencyList {
  import opened Wrappers
  import opened Probing
  import opened DoublyLinkedList

  datatype Op<V> = GetOp(key: Key) | AddOp(key: Key, value: V)
  datatype Out<V> = Got(result: Option<V>) | Added(evicted: Option<(Key, V)>)

  /** The position of the first pair with this key; |s| if there is none. */
  function Find<V>(s: seq<(Key, V)>, k: Key): (i: nat)
    ensures i <= |s|
    ensures i < |s| ==> s[i].0 == k
    ensures forall j :: 0 <= j < i ==> s[j].0 != k
  {
    if s == [] || s[0].0 == k then 0 else 1 + Find(s[1..], k)
  }

  function Step<V>(s: seq<(Key, V)>, size: nat, op: Op<V>): (seq<(Key, V)>, Out<V>) {
    match op
    case GetOp(k) =>
      var i := Find(s, k);
      if i < |s| then (Moved(s, i), Got(Some(s[i].1))) else (s, Got(None))
    case AddOp(k, v) =>
      if Find(s, k) < |s| then (s, Added(None))
      else if 1 <= size <= |s| then ([(k, v)] + s[..size - 1], Added(Some(s[|s| - 1])))
      else ([(k, v)] + s, Added(None))
  }

  function Run<V>(size: nat, ops: seq<Op<V>>): (seq<(Key, V)>, seq<Out<V>>) {
    if ops == [] then ([], [])
    else
      var (s, outs) := Run(size, ops[..|ops| - 1]);
      var (s', out) := Step(s, size, ops[|ops| - 1]);
      (s', outs + [out])
  }

  /** Over every run the list has no key twice and never exceeds the size. */
  lemma {:induction false} RunInvariant<V>(size: nat, ops: seq<Op<V>>)
    requires size >= 1
    ensures |Run(size, ops).0| <= size
    ensures forall i, j :: 0 <= i < j < |Run(size, ops).0| ==> Run(size, ops).0[i].0 != Run(size, ops).0[j].0
  {
    if ops != [] {
      RunInvariant(size, ops[..|ops| - 1]);
      var s := Run(size, ops[..|ops| - 1]).0;
      var op := ops[|ops| - 1];
      if op.GetOp? && Find(s, op.key) < |s| {
        MovedAt(s, Find(s, op.key));
      }
    }
  }

  // ---------- least recently used ----------

  /** A get that finds its key, or an add of a key that is absent. */
  ghost predicate Uses<V>(size: nat, before: seq<Op<V>>, op: Op<V>, k: Key) {
    op.key == k && (op.GetOp? <==> exists i :: 0 <= i < |Run(size, before).0| && Run(size, before).0[i].0 == k)
  }

  /** The number of the latest operation that used this key, counted from 1; 0 if none has. */
  ghost function LastUse<V>(size: nat, ops: seq<Op<V>>, k: Key): nat {
    if ops == [] then 0
    else if Uses(size, ops[..|ops| - 1], ops[|ops| - 1], k) then |ops|
    else LastUse(size, ops[..|ops| - 1], k)
  }

  /** The value of the latest add of this key while absent. */
  ghost function Stored<V>(size: nat, ops: seq<Op<V>>, k: Key): Option<V> {
    if ops == [] then None
    else if ops[|ops| - 1].AddOp? && Uses(size, ops[..|ops| - 1], ops[|ops| - 1], k) then Some(ops[|ops| - 1].value)
    else Stored(size, ops[..|ops| - 1], k)
  }

  lemma {:induction false} LastUseBound<V>(size: nat, ops: seq<Op<V>>, k: Key)
    ensures LastUse(size, ops, k) <= |ops|
  {
    hide Uses;
    if ops != [] {
      LastUseBound(size, ops[..|ops| - 1], k);
    }
  }

  lemma UsesIs<V>(size: nat, before: seq<Op<V>>, op: Op<V>, k: Key)
    ensures var s := Run(size, before).0;
            Uses(size, before, op, k) <==> op.key == k && (op.GetOp? <==> Find(s, k) < |s|)
  {
    hide Run;
    var s := Run(size, before).0;
    assert Find(s, k) < |s| ==> s[Find(s, k)].0 == k;
  }

  /** Over every run the list is in order of use, the latest first, and holds the values stored last. */
  lemma {:induction false} RecentFirst<V>(size: nat, ops: seq<Op<V>>)
    requires size >= 1
    ensures InOrderOfUse(size, ops) && ValuesStored(size, ops)
  {
    hide InOrderOfUse, ValuesStored;
    if ops == [] {
      NothingUsed<V>(size);
    } else {
      RecentFirst(size, ops[..|ops| - 1]);
      OrderStep(size, ops);
      ValuesStep(size, ops);
    }
  }

  lemma NothingUsed<V>(size: nat)
    ensures InOrderOfUse<V>(size, []) && ValuesStored<V>(size, [])
  {
  }

  ghost predicate InOrderOfUse<V>(size: nat, ops: seq<Op<V>>) {
    var s := Run(size, ops).0;
    forall i, j :: 0 <= i < j < |s| ==> LastUse(size, ops, s[i].0) > LastUse(size, ops, s[j].0)
  }

  ghost predicate ValuesStored<V>(size: nat, ops: seq<Op<V>>) {
    var s := Run(size, ops).0;
    forall i :: 0 <= i < |s| ==> LastUse(size, ops, s[i].0) >= 1 && Stored(size, ops, s[i].0) == Some(s[i].1)
  }

  lemma OrderStep<V>(size: nat, ops: seq<Op<V>>)
    requires size >= 1 && ops != [] && InOrderOfUse(size, ops[..|ops| - 1])
    ensures InOrderOfUse(size, ops)
  {
    hide Moved, LastUse, Stored, Find;
    var before, op := ops[..|ops| - 1], ops[|ops| - 1];
    var s := Run(size, before).0;
    RunInvariant(size, before);
    forall k: Key
      ensures LastUse(size, before, k) < |ops|
      ensures LastUse(size, ops, k)
              == if op.key == k && (op.GetOp? <==> Find(s, op.key) < |s|) then |ops| else LastUse(size, before, k)
    {
      UseSnoc(size, ops, k);
      LastUseBound(size, before, k);
    }
    if op.GetOp? && Find(s, op.key) < |s| {
      MovedAt(s, Find(s, op.key));
    }
  }

  lemma ValuesStep<V>(size: nat, ops: seq<Op<V>>)
    requires size >= 1 && ops != [] && ValuesStored(size, ops[..|ops| - 1])
    ensures ValuesStored(size, ops)
  {
    hide Moved, LastUse, Stored, Find;
    var before, op := ops[..|ops| - 1], ops[|ops| - 1];
    var s, s' := Run(size, before).0, Run(size, ops).0;
    var f := Find(s, op.key);
    if op.GetOp? && f < |s| {
      MovedAt(s, f);
    }
    forall i | 0 <= i < |s'| ensures LastUse(size, ops, s'[i].0) >= 1 && Stored(size, ops, s'[i].0) == Some(s'[i].1) {
      UseSnoc(size, ops, s'[i].0);
      assert s'[i] in s || (op.AddOp? && f == |s| && s'[i] == (op.key, op.value));
    }
  }

  lemma UseSnoc<V>(size: nat, ops: seq<Op<V>>, k: Key)
    requires ops != []
    ensures var before, op := ops[..|ops| - 1], ops[|ops| - 1];
            var s := Run(size, before).0;
            var used := op.key == k && (op.GetOp? <==> Find(s, k) < |s|);
            && LastUse(size, ops, k) == (if used then |ops| else LastUse(size, before, k))
            && Stored(size, ops, k) == (if used && op.AddOp? then Some(op.value) else Stored(size, before, k))
  {
    hide Uses, Run, Find;
    UsesIs(size, ops[..|ops| - 1], ops[|ops| - 1], k);
  }

  lemma FullStep<V>(s: seq<(Key, V)>, size: nat, op: Op<V>)
    requires |s| <= size && Step(s, size, op).1.Added? && Step(s, size, op).1.evicted.Some?
    ensures |s| == size >= 1 && op.AddOp? && forall i :: 0 <= i < |s| ==> s[i].0 != op.key
    ensures Step(s, size, op) == ([(op.key, op.value)] + s[..size - 1], Added(Some(s[size - 1])))
  {
  }

  /** What an add to a full list evicts has been used longest ago of all that is listed. */
  lemma EvictsLeastRecent<V>(size: nat, ops: seq<Op<V>>, op: Op<V>)
    requires size >= 1 && Step(Run(size, ops).0, size, op).1.Added? && Step(Run(size, ops).0, size, op).1.evicted.Some?
    ensures var s := Run(size, ops).0;
            var out := Step(s, size, op).1.evicted.value;
            && |s| == size && out in s && out !in Step(s, size, op).0
            && forall p :: p in s && p != out ==> LastUse(size, ops, p.0) > LastUse(size, ops, out.0) && p in Step(s, size, op).0
  {
    hide LastUse, Step, Run, ValuesStored;
    RunInvariant(size, ops);
    RecentFirst(size, ops);
    var s := Run(size, ops).0;
    FullStep(s, size, op);
    forall p | p in s && p != s[size - 1]
      ensures LastUse(size, ops, p.0) > LastUse(size, ops, s[size - 1].0) && p in s[..size - 1]
    {
      var i :| 0 <= i < |s| && s[i] == p;
      assert p == s[..size - 1][i];
    }
  }

  lemma ListedStored<V>(size: nat, ops: seq<Op<V>>, i: nat)
    requires size >= 1 && i < |Run(size, ops).0|
    ensures Stored(size, ops, Run(size, ops).0[i].0) == Some(Run(size, ops).0[i].1)
  {
    hide Run, Stored, LastUse, InOrderOfUse;
    RecentFirst(size, ops);
  }

  /** After any run a get answers with the value stored last, if the key is listed, and loses nothing; an add of
      an absent key lists it and evicts exactly when the list is full; an add of a listed key does nothing. */
  lemma AnswersStored<V>(size: nat, ops: seq<Op<V>>, op: Op<V>)
    requires size >= 1
    ensures var s := Run(size, ops).0;
            var (s', out) := Step(s, size, op);
            var listed := exists i :: 0 <= i < |s| && s[i].0 == op.key;
            if op.GetOp? then
              && out == Got(if listed then Stored(size, ops, op.key) else None)
              && (listed ==> s'[0].0 == op.key) && forall p :: p in s' <==> p in s
            else if listed then s' == s && out == Added(None)
            else && out.Added? && (out.evicted.Some? <==> |s| == size) && s'[0] == (op.key, op.value)
                 && forall p :: p in s' <==> p == (op.key, op.value) || (p in s && out.evicted != Some(p))
  {
    hide Run, Stored, Moved;
    RunInvariant(size, ops);
    var s := Run(size, ops).0;
    var i := Find(s, op.key);
    if i < |s| {
      ListedStored(size, ops, i);
      MovedAt(s, i);
      MovedSame(s, i);
    } else if op.AddOp? && |s| == size {
      LastGone(s);
    }
  }

  lemma MovedSame<V>(s: seq<(Key, V)>, i: nat)
    requires i < |s|
    ensures forall p :: p in Moved(s, i) <==> p in s
  {
  }

  lemma LastGone<V>(s: seq<(Key, V)>)
    requires s != [] && forall i, j :: 0 <= i < j < |s| ==> s[i].0 != s[j].0
    ensures forall p :: p in s[..|s| - 1] <==> p in s && p != s[|s| - 1]
  {
    assert s == s[..|s| - 1] + [s[|s| - 1]];
  }

  function Adds<V>(ops: seq<Op<V>>): nat {
    if ops == [] then 0 else Adds(ops[..|ops| - 1]) + if ops[|ops| - 1].AddOp? then 1 else 0
  }

  /** The operations on which the code as shown does what is meant: no add of a key that is present,
      no get of the last of two or more pairs. */
  predicate Harmless<V>(s: seq<(Key, V)>, op: Op<V>) {
    var i := Find(s, op.key);
    match op
    case GetOp(_) => i == 0 || i != |s| - 1
    case AddOp(_, _) => i == |s|
  }

  /** No add finds its key present. */
  ghost predicate AddsAbsent<V>(size: nat, ops: seq<Op<V>>) {
    forall i :: 0 <= i < |ops| && ops[i].AddOp? ==>
                  Find(Run(size, ops[..i]).0, ops[i].key) == |Run(size, ops[..i]).0|
  }

  // ---------- the cache as shown ----------

  // The pairs in order, the position the tail pointer is at, the keys in the index and the slots the index
  // has left. Evicting another pair than the last loses the pairs behind it while the index goes on
  // pointing at them: nothing is said of what happens from then on.
  datatype Shown<V> = Running(list: seq<(Key, V)>, tail: nat, keys: set<Key>, left: nat) | Broken

  /** Where position t ends up when position i is moved to the front. */
  function MovedTo(t: nat, i: nat): nat {
    if t == i then 0 else if t < i then t + 1 else t
  }

  /** A get finds what the index has; an add to a full list evicts where the tail pointer is, forgets the
      label, which frees no slot, and labels the new pair if the label is in the index or a slot is left. */
  function ShownStep<V>(st: Shown<V>, size: nat, op: Op<V>): (Shown<V>, Out<V>)
    requires st.Running?
  {
    var Running(s, tail, keys, left) := st;
    match op
    case GetOp(k) =>
      var i := Find(s, k);
      if k in keys && i < |s| then (Running(Moved(s, i), MovedTo(tail, i), keys, left), Got(Some(s[i].1)))
      else (st, Got(None))
    case AddOp(k, v) =>
      if |s| < size || tail >= |s| then
        (Running([(k, v)] + s, if s == [] then 0 else tail + 1, Labelled(keys, left, k), Unused(keys, left, k)), Added(None))
      else
        var base := keys - {s[tail].0};
        (if tail == |s| - 1 then Running([(k, v)] + s[..tail], tail, Labelled(base, left, k), Unused(base, left, k))
         else Broken,
         Added(Some(s[tail])))
  }

  function Labelled(keys: set<Key>, left: nat, k: Key): set<Key> {
    if k in keys || left > 0 then keys + {k} else keys
  }

  function Unused(keys: set<Key>, left: nat, k: Key): nat {
    if k in keys || left == 0 then left else left - 1
  }

  function ShownRun<V>(size: nat, slots: nat, ops: seq<Op<V>>): (Shown<V>, seq<Out<V>>) {
    if ops == [] then (Running([], 0, {}, slots), [])
    else
      var (st, outs) := ShownRun(size, slots, ops[..|ops| - 1]);
      if st.Broken? then (st, outs)
      else
        var (st', out) := ShownStep(st, size, ops[|ops| - 1]);
        (st', outs + [out])
  }

  // ---------- when it does what is intended ----------

  /** The pair that is to be evicted next if gets are disregarded: the first one added, and after each
      eviction the one that has become the last. */
  function Designated<V>(size: nat, ops: seq<Op<V>>): Option<Key> {
    if ops == [] then None
    else
      var s, op := Run(size, ops[..|ops| - 1]).0, ops[|ops| - 1];
      if op.GetOp? then Designated(size, ops[..|ops| - 1])
      else if s == [] then Some(op.key)
      else if |s| < size then Designated(size, ops[..|ops| - 1])
      else Some(Run(size, ops).0[|Run(size, ops).0| - 1].0)
  }

  /** The number of the latest add of this key among all adds, counted from 1; 0 if there is none. */
  function LatestAdd<V>(ops: seq<Op<V>>, k: Key): nat {
    if ops == [] then 0
    else if ops[|ops| - 1].AddOp? && ops[|ops| - 1].key == k then Adds(ops)
    else LatestAdd(ops[..|ops| - 1], k)
  }

  /** If this is an add to a full list, the designated pair is the last one. */
  ghost predicate TailRightAt<V>(size: nat, before: seq<Op<V>>, op: Op<V>) {
    var s := Run(size, before).0;
    op.AddOp? && |s| == size && s != [] ==> Designated(size, before) == Some(s[|s| - 1].0)
  }

  /** If this is a get of a listed key, the key's latest add was among the first `slots` adds. */
  ghost predicate LabelLeftAt<V>(size: nat, slots: nat, before: seq<Op<V>>, op: Op<V>) {
    op.GetOp? && Find(Run(size, before).0, op.key) < |Run(size, before).0| ==> LatestAdd(before, op.key) <= slots
  }

  ghost predicate ServesAt<V>(size: nat, slots: nat, before: seq<Op<V>>, op: Op<V>) {
    TailRightAt(size, before, op) && LabelLeftAt(size, slots, before, op)
  }

  ghost predicate Serves<V>(size: nat, slots: nat, ops: seq<Op<V>>) {
    forall i :: 0 <= i < |ops| ==> ServesAt(size, slots, ops[..i], ops[i])
  }

  lemma ServesEmpty<V>(size: nat, slots: nat)
    ensures Serves<V>(size, slots, [])
  {
  }

  lemma ServesSnoc<V>(size: nat, slots: nat, ops: seq<Op<V>>)
    requires ops != []
    ensures Serves(size, slots, ops)
            <==> Serves(size, slots, ops[..|ops| - 1]) && ServesAt(size, slots, ops[..|ops| - 1], ops[|ops| - 1])
    ensures AddsAbsent(size, ops) ==> AddsAbsent(size, ops[..|ops| - 1])
  {
    hide ServesAt;
    var before := ops[..|ops| - 1];
    assert forall i :: 0 <= i < |before| ==> before[..i] == ops[..i] && before[i] == ops[i];
  }

  /** The tail pointer is at a pair of the list, if there is one. */
  predicate Marks<V>(s: seq<(Key, V)>, tail: Option<Key>) {
    if s == [] then tail == None else tail.Some? && Find(s, tail.value) < |s|
  }

  function Place<V>(s: seq<(Key, V)>, tail: Option<Key>): nat {
    if tail == None then 0 else Find(s, tail.value)
  }

  ghost predicate KeysDiffer<V>(s: seq<(Key, V)>) {
    forall i, j :: 0 <= i < j < |s| ==> s[i].0 != s[j].0
  }

  /** The listed keys that are in the index. */
  ghost function Labels<V>(size: nat, slots: nat, ops: seq<Op<V>>): set<Key> {
    set p | p in Run(size, ops).0 && LatestAdd(ops, p.0) <= slots :: p.0
  }

  function Minus(slots: nat, n: nat): nat {
    if n <= slots then slots - n else 0
  }

  /** One operation that finds its label and whose eviction, if any, takes the last pair. */
  lemma RightStep<V>(s: seq<(Key, V)>, tail: Option<Key>, keys: set<Key>, left: nat, size: nat, op: Op<V>)
    requires size >= 1 && |s| <= size && Marks(s, tail) && KeysDiffer(s)
    requires op.AddOp? ==> Find(s, op.key) == |s| && op.key !in keys
    requires op.AddOp? && |s| == size ==> tail == Some(s[|s| - 1].0)
    requires op.GetOp? && Find(s, op.key) < |s| ==> op.key in keys
    ensures var s' := Step(s, size, op).0;
            var tail' := if op.GetOp? then tail else if s == [] then Some(op.key)
                         else if |s| < size then tail else Some(s'[|s'| - 1].0);
            var base := if op.AddOp? && |s| == size then keys - {s[|s| - 1].0} else keys;
            && (op.AddOp? ==> s' != []) && Marks(s', tail')
            && ShownStep(Running(s, Place(s, tail), keys, left), size, op)
               == (Running(s', Place(s', tail'), if op.AddOp? && left > 0 then base + {op.key} else base,
                           if op.AddOp? then Minus(left, 1) else left),
                   Step(s, size, op).1)
  {
    hide Find, Moved, Marks, Place, KeysDiffer;
    match op
    case GetOp(k) => RightGet(s, tail, k);
    case AddOp(k, v) =>
      RightAdd(s, tail, size, k, v);
      assert s != [] ==> ([(k, v)] + s[..|s| - 1])[|s| - 1].0 == if |s| == 1 then k else s[|s| - 2].0;
  }

  lemma RightGet<V>(s: seq<(Key, V)>, tail: Option<Key>, k: Key)
    requires Marks(s, tail) && KeysDiffer(s)
    ensures var i := Find(s, k);
            i < |s| ==> Marks(Moved(s, i), tail) && Place(Moved(s, i), tail) == MovedTo(Place(s, tail), i)
  {
    hide Find, Moved;
    if Find(s, k) < |s| {
      MovedPlace(s, Find(s, k), tail.value);
    }
  }

  lemma RightAdd<V>(s: seq<(Key, V)>, tail: Option<Key>, size: nat, k: Key, v: V)
    requires size >= 1 && |s| <= size && Marks(s, tail) && KeysDiffer(s) && Find(s, k) == |s|
    requires |s| == size ==> tail == Some(s[|s| - 1].0)
    ensures |s| < size ==>
              var tail' := if s == [] then Some(k) else tail;
              Marks([(k, v)] + s, tail') && Place([(k, v)] + s, tail') == if s == [] then 0 else Place(s, tail) + 1
    ensures |s| == size ==>
              var s' := [(k, v)] + s[..size - 1];
              Place(s, tail) == size - 1 && Marks(s', Some(s'[size - 1].0)) && Place(s', Some(s'[size - 1].0)) == size - 1
  {
    hide Find;
    if |s| < size {
      if s == [] {
        FirstIs([(k, v)] + s, k, 0);
      } else {
        Pushed(s, (k, v), tail.value);
      }
    } else {
      FirstIs(s, tail.value, size - 1);
      LastIsFirst(s, size, k, v);
    }
  }

  lemma LastIsFirst<V>(s: seq<(Key, V)>, size: nat, k: Key, v: V)
    requires 1 <= size == |s| && KeysDiffer(s) && Find(s, k) == |s|
    ensures var s' := [(k, v)] + s[..size - 1];
            Find(s', s'[size - 1].0) == size - 1
  {
    hide Find;
    var s' := [(k, v)] + s[..size - 1];
    forall n | 0 <= n < size - 1 ensures s'[n].0 != s'[size - 1].0 {
      assert s'[n] == if n > 0 then s[n - 1] else (k, v);
    }
    FirstIs(s', s'[size - 1].0, size - 1);
  }

  lemma Pushed<V>(s: seq<(Key, V)>, p: (Key, V), k: Key)
    requires p.0 != k
    ensures Find([p] + s, k) == Find(s, k) + 1
  {
    assert ([p] + s)[1..] == s;
  }

  lemma FirstIs<V>(s: seq<(Key, V)>, k: Key, j: nat)
    requires j < |s| && s[j].0 == k && forall n :: 0 <= n < j ==> s[n].0 != k
    ensures Find(s, k) == j
  {
  }

  lemma MovedPlace<V>(s: seq<(Key, V)>, i: nat, k: Key)
    requires i < |s| && Find(s, s[i].0) == i && Find(s, k) < |s|
    ensures Find(Moved(s, i), k) == MovedTo(Find(s, k), i)
  {
    hide Find, Moved;
    MovedAt(s, i);
    var j, m := Find(s, k), Moved(s, i);
    var j' := MovedTo(j, i);
    assert m[j'] == s[j];
    forall n | 0 <= n < j' ensures m[n].0 != k {
      assert m[n] == if n == 0 then s[i] else if n <= i then s[n - 1] else s[n];
    }
    FirstIs(m, k, j');
  }

  /** How the labels change. */
  lemma LabelsStep<V>(size: nat, slots: nat, ops: seq<Op<V>>)
    requires size >= 1 && ops != [] && AddsAbsent(size, ops)
    ensures var before, op := ops[..|ops| - 1], ops[|ops| - 1];
            var s, keys := Run(size, before).0, Labels(size, slots, before);
            var base := if op.AddOp? && |s| == size then keys - {s[|s| - 1].0} else keys;
            && Labels(size, slots, ops) == (if op.AddOp? && Adds(before) < slots then base + {op.key} else base)
            && (op.AddOp? ==> Find(s, op.key) == |s| && op.key !in keys)
            && Minus(slots, Adds(ops)) == (if op.AddOp? then Minus(Minus(slots, Adds(before)), 1) else Minus(slots, Adds(before)))
  {
    hide Labels;
    var before, op := ops[..|ops| - 1], ops[|ops| - 1];
    assert op.AddOp? ==> Find(Run(size, before).0, op.key) == |Run(size, before).0|;
    ListedLabels(size, slots, before, op.key);
    if op.GetOp? {
      LabelsGet(size, slots, ops);
    } else {
      LabelsAdd(size, slots, ops);
    }
  }

  lemma LabelsGet<V>(size: nat, slots: nat, ops: seq<Op<V>>)
    requires ops != [] && ops[|ops| - 1].GetOp?
    ensures Labels(size, slots, ops) == Labels(size, slots, ops[..|ops| - 1])
  {
    hide Moved, Find, Labels;
    var before := ops[..|ops| - 1];
    var s, i := Run(size, before).0, Find(Run(size, before).0, ops[|ops| - 1].key);
    forall k ensures k in Labels(size, slots, ops) <==> k in Labels(size, slots, before) {
      ListedLabels(size, slots, ops, k);
      ListedLabels(size, slots, before, k);
      if i < |s| {
        ListedStill(s, i, k);
      }
      assert LatestAdd(ops, k) == LatestAdd(before, k);
    }
  }

  lemma ListedStill<V>(s: seq<(Key, V)>, i: nat, k: Key)
    requires i < |s| && Find(s, s[i].0) == i
    ensures Find(Moved(s, i), k) < |s| <==> Find(s, k) < |s|
  {
    hide Moved, Find;
    if Find(s, k) < |s| {
      MovedPlace(s, i, k);
    } else {
      MovedAt(s, i);
      assert forall n :: 0 <= n < |s| ==> Moved(s, i)[n].0 != k;
    }
  }

  lemma LabelsAdd<V>(size: nat, slots: nat, ops: seq<Op<V>>)
    requires size >= 1 && ops != [] && ops[|ops| - 1].AddOp?
    requires Find(Run(size, ops[..|ops| - 1]).0, ops[|ops| - 1].key) == |Run(size, ops[..|ops| - 1]).0|
    ensures var before, k := ops[..|ops| - 1], ops[|ops| - 1].key;
            var s, keys := Run(size, before).0, Labels(size, slots, before);
            var base := if |s| == size then keys - {s[|s| - 1].0} else keys;
            Labels(size, slots, ops) == (if Adds(before) < slots then base + {k} else base)
  {
    hide Find;
    RunInvariant(size, ops[..|ops| - 1]);
  }

  lemma ListedLabels<V>(size: nat, slots: nat, ops: seq<Op<V>>, k: Key)
    ensures k in Labels(size, slots, ops) <==> Find(Run(size, ops).0, k) < |Run(size, ops).0| && LatestAdd(ops, k) <= slots
  {
    var s := Run(size, ops).0;
    if Find(s, k) < |s| {
      assert s[Find(s, k)] in s;
    }
    if k in Labels(size, slots, ops) {
      var p :| p in s && LatestAdd(ops, p.0) <= slots && p.0 == k;
      var j :| 0 <= j < |s| && s[j] == p;
    }
  }

  /** What the cache as shown comes to as long as it serves. */
  ghost function Intended<V>(size: nat, slots: nat, ops: seq<Op<V>>): Shown<V> {
    var s := Run(size, ops).0;
    Running(s, Place(s, Designated(size, ops)), Labels(size, slots, ops), Minus(slots, Adds(ops)))
  }

  /** As long as it serves, the cache as shown is the intended one, with its tail pointer at the designated
      pair and the labels of the first adds in its index. */
  lemma {:induction false} ShownIsIntended<V>(size: nat, slots: nat, ops: seq<Op<V>>)
    requires size >= 1 && AddsAbsent(size, ops) && Serves(size, slots, ops)
    ensures ShownRun(size, slots, ops) == (Intended(size, slots, ops), Run(size, ops).1)
    ensures Marks(Run(size, ops).0, Designated(size, ops))
  {
    hide Step, ShownStep, Find, Serves, Marks, Labels, LatestAdd, Place, Minus;
    if ops == [] {
      NothingMarked<V>(size, slots);
    } else {
      var before, op := ops[..|ops| - 1], ops[|ops| - 1];
      ServesSnoc(size, slots, ops);
      ShownIsIntended(size, slots, before);
      RunInvariant(size, before);
      LabelsStep(size, slots, ops);
      ListedLabels(size, slots, before, op.key);
      MinusIs(slots, Adds(before));
      RightStep(Run(size, before).0, Designated(size, before), Labels(size, slots, before), Minus(slots, Adds(before)), size, op);
    }
  }

  lemma MinusIs(slots: nat, n: nat)
    ensures Minus(slots, n) > 0 <==> n < slots
  {
  }

  lemma NothingMarked<V>(size: nat, slots: nat)
    ensures Marks<V>([], None) && Place<V>([], None) == 0 && Labels<V>(size, slots, []) == {} && Minus(slots, 0) == slots
  {
  }

  /** The run of the cache as shown, evicted pairs included, is as intended exactly when at each add to a
      full list the designated pair is the last, and each get of a listed key is of one whose latest add
      was among the first `slots` adds. */
  lemma {:induction false} ShownExactly<V>(size: nat, slots: nat, ops: seq<Op<V>>)
    requires size >= 1 && AddsAbsent(size, ops)
    ensures ShownRun(size, slots, ops).1 == Run(size, ops).1 <==> Serves(size, slots, ops)
  {
    if Serves(size, slots, ops) {
      ShownIsIntended(size, slots, ops);
    } else {
      var _ := ShownDiffers(size, slots, ops);
    }
  }

  ghost predicate DifferAt<V>(a: seq<Out<V>>, b: seq<Out<V>>, i: nat) {
    i < |a| && i < |b| && a[i] != b[i]
  }

  /** Otherwise some answer that it does give is another than the intended one. */
  lemma {:induction false} ShownDiffers<V>(size: nat, slots: nat, ops: seq<Op<V>>) returns (i: nat)
    requires size >= 1 && AddsAbsent(size, ops) && !Serves(size, slots, ops)
    ensures DifferAt(ShownRun(size, slots, ops).1, Run(size, ops).1, i)
  {
    hide Step, ShownStep, Find, Serves, ServesAt, Designated, Labels, LatestAdd;
    ServesEmpty<V>(size, slots);
    var before, op := ops[..|ops| - 1], ops[|ops| - 1];
    ServesSnoc(size, slots, ops);
    if Serves(size, slots, before) {
      ShownIsIntended(size, slots, before);
      RunInvariant(size, before);
      i := |Run(size, before).1|;
      WrongAnswer(size, slots, before, op);
    } else {
      i := ShownDiffers(size, slots, before);
    }
  }

  lemma WrongAnswer<V>(size: nat, slots: nat, before: seq<Op<V>>, op: Op<V>)
    requires size >= 1 && !ServesAt(size, slots, before, op)
    requires |Run(size, before).0| <= size && KeysDiffer(Run(size, before).0)
    requires op.AddOp? ==> Find(Run(size, before).0, op.key) == |Run(size, before).0|
    requires Marks(Run(size, before).0, Designated(size, before))
    ensures ShownStep(Intended(size, slots, before), size, op).1 != Step(Run(size, before).0, size, op).1
  {
    hide Designated, LatestAdd, Labels;
    ListedLabels(size, slots, before, op.key);
  }

  lemma ShownPrefix<V>(size: nat, slots: nat, ops: seq<Op<V>>, i: nat)
    requires i < |ops| && ShownRun(size, slots, ops[..i]).0.Running?
    ensures ShownRun(size, slots, ops[..i + 1])
            == (var (st, outs) := ShownRun(size, slots, ops[..i]);
                var (st', out) := ShownStep(st, size, ops[i]);
                (st', outs + [out]))
  {
    assert ops[..i + 1][..i] == ops[..i];
  }

  lemma {:induction false} BrokenForGood<V>(size: nat, slots: nat, ops: seq<Op<V>>, i: nat)
    requires i <= |ops| && ShownRun(size, slots, ops[..i]).0.Broken?
    ensures ShownRun(size, slots, ops) == ShownRun(size, slots, ops[..i])
    decreases |ops|
  {
    if i == |ops| {
      assert ops[..i] == ops;
    } else {
      assert ops[..|ops| - 1][..i] == ops[..i];
      BrokenForGood(size, slots, ops[..|ops| - 1], i);
    }
  }

  // ---------- the two ways to fail ----------

  /** Both caches, one operation further. */
  lemma RunSnoc<V>(size: nat, slots: nat, before: seq<Op<V>>, op: Op<V>, s: seq<(Key, V)>, st: Shown<V>)
    requires Run(size, before).0 == s && ShownRun(size, slots, before).0 == st && st.Running?
    ensures var (s', out) := Step(s, size, op);
            Run(size, before + [op]) == (s', Run(size, before).1 + [out])
    ensures var (st', out) := ShownStep(st, size, op);
            ShownRun(size, slots, before + [op]) == (st', ShownRun(size, slots, before).1 + [out])
  {
    hide Step, ShownStep;
    assert (before + [op])[..|before|] == before;
  }

  lemma NothingRun<V>(size: nat, slots: nat)
    ensures Run<V>(size, []) == ([], []) && ShownRun<V>(size, slots, []) == (Running([], 0, {}, slots), [])
  {
  }

  /** A list of one and an index of one slot: the second key is listed, but a get of it finds nothing. */
  lemma LostLabelWitness<V>(a: Key, b: Key, x: V, y: V)
    requires a != b
    ensures var ops := [AddOp(a, x)] + [AddOp(b, y)] + [GetOp(b)];
            && AddsAbsent(1, ops)
            && Run(1, ops).1 == [Added(None)] + [Added(Some((a, x)))] + [Got(Some(y))]
            && ShownRun(1, 1, ops).1 == [Added(None)] + [Added(Some((a, x)))] + [Got(None)]
  {
    hide Run, ShownRun, AddsAbsent;
    var one := [AddOp(a, x)];
    var two := one + [AddOp(b, y)];
    NothingRun<V>(1, 1);
    assert [] + one == one;
    RunSnoc(1, 1, [], AddOp(a, x), [], Running([], 0, {}, 1));
    RunSnoc(1, 1, one, AddOp(b, y), [(a, x)], Running([(a, x)], 0, {a}, 0));
    RunSnoc(1, 1, two, GetOp(b), [(b, y)], Running([(b, y)], 0, {}, 0));
    assert (two + [GetOp(b)])[..0] == [] && (two + [GetOp(b)])[..1] == one;
    TwoAbsent(1, two + [GetOp(b)]);
  }

  lemma TwoAbsent<V>(size: nat, ops: seq<Op<V>>)
    requires |ops| == 3 && ops[2].GetOp?
    requires Find(Run(size, ops[..0]).0, ops[0].key) == |Run(size, ops[..0]).0|
    requires Find(Run(size, ops[..1]).0, ops[1].key) == |Run(size, ops[..1]).0|
    ensures AddsAbsent(size, ops)
  {
    hide Run, Find;
  }

  /** A list of two: a get of the last pair, and the next add evicts that pair instead of the other. */
  lemma WrongPairWitness<V>(a: Key, b: Key, c: Key, x: V, y: V, z: V, slots: nat)
    requires a != b && a != c && b != c && slots >= 3
    ensures var ops := [AddOp(a, x)] + [AddOp(b, y)] + [GetOp(a)] + [AddOp(c, z)];
            && Run(2, ops).1 == [Added(None)] + [Added(None)] + [Got(Some(x))] + [Added(Some((b, y)))]
            && ShownRun(2, slots, ops).1 == [Added(None)] + [Added(None)] + [Got(Some(x))] + [Added(Some((a, x)))]
  {
    hide Run, ShownRun;
    var one := [AddOp(a, x)];
    var two := one + [AddOp(b, y)];
    var three := two + [GetOp(a)];
    assert [] + one == one;
    NothingRun<V>(2, slots);
    var p, q := (a, x), (b, y);
    assert Moved([q, p], 1) == [p, q];
    RunSnoc(2, slots, [], AddOp(a, x), [], Running([], 0, {}, slots));
    RunSnoc(2, slots, one, AddOp(b, y), [p], Running([p], 0, {a}, slots - 1));
    RunSnoc(2, slots, two, GetOp(a), [q, p], Running([q, p], 1, {a, b}, slots - 2));
    RunSnoc(2, slots, three, AddOp(c, z), [p, q], Running([p, q], 0, {a, b}, slots - 2));
  }
}

/**
 The LRU cache over the linked list and the hash map from labels to list nodes.
 */
module LruCaching {
  import opened Wrappers
  import opened Probing
  import opened HashTable
  import opened DoublyLinkedList
  import RecencyList

  /** The index maps exactly the listed keys, each to its own node. */
  ghost predicate Indexed<V>(m: map<Key, Node<(Key, V)>>, nodes: seq<Node<(Key, V)>>) {
    && (forall n :: n in nodes ==> n.data.0 in m && m[n.data.0] == n)
    && (forall k :: k in m ==> m[k] in nodes && m[k].data.0 == k)
  }

  /** Every label leads to a listed node with that label; listed keys may be missing from the index. */
  ghost predicate Pointing<V>(m: map<Key, Node<(Key, V)>>, nodes: seq<Node<(Key, V)>>) {
    forall k :: k in m ==> m[k] in nodes && m[k].data.0 == k
  }

  /** Every label leads to the first listed node with that label: should a key be listed twice, the label
      is that of the node pushed later. */
  ghost predicate Leading<V>(m: map<Key, Node<(Key, V)>>, nodes: seq<Node<(Key, V)>>) {
    forall k :: k in m ==> LeadsFirst(m, nodes, k)
  }

  ghost predicate LeadsFirst<V>(m: map<Key, Node<(Key, V)>>, nodes: seq<Node<(Key, V)>>, k: Key)
    requires k in m
  {
    var i := RecencyList.Find(DataOf(nodes), k);
    i < |nodes| && nodes[i] == m[k]
  }

  /** The index after an add: the victim's label is gone, and the new one is set if it is there or a slot is left. */
  ghost function Relabelled<V>(m: map<Key, Node<(Key, V)>>, victim: Option<Key>, key: Key, node: Node<(Key, V)>, left: nat)
    : map<Key, Node<(Key, V)>>
  {
    var base := if victim.Some? then m - {victim.value} else m;
    if key in base || left > 0 then base[key := node] else base
  }

  ghost function LeftOver<V>(m: map<Key, Node<(Key, V)>>, victim: Option<Key>, key: Key, left: nat): nat {
    left - (if (key !in m || victim == Some(key)) && left > 0 then 1 else 0)
  }

  function KeyOf<V>(pair: Option<(Key, V)>): Option<Key> {
    if pair == None then None else Some(pair.value.0)
  }

  class LruCache<V> {
    const size: nat
    const list: LinkedList<(Key, V)>
    var index: HashMap<Node<(Key, V)>>

    ghost predicate IndexRight()
      reads this, list, index, index.entries
    {
      index.Valid() && Indexed(index.Contents(), list.nodes)
    }

    /** What the code as shown needs: the tail pointer may be at any node, and labels may be missing from
        the index. */
    ghost predicate Runs()
      reads this, list, list.nodes, index, index.entries
    {
      && 1 <= size && |list.nodes| <= size && list.Linked() && list.TailListed()
      && index.Valid() && Pointing(index.Contents(), list.nodes)
    }

    ghost predicate Valid()
      reads this, list, list.nodes, index, index.entries
    {
      1 <= size && |list.nodes| <= size && list.Valid() && IndexRight()
    }

    ghost function Contents(): seq<(Key, V)>
      reads this, list
    {
      list.Contents()
    }

    /** `slots` is the slot count of the index, size / 0.67 in the source; `evic_handler` is not a
        field here: what it would be called with is an output of Add. */
    constructor (size: nat, slots: nat, hash: Key -> nat)
      requires size >= 1 && slots >= 1
      ensures Valid() && fresh(list) && fresh(index) && fresh(index.entries)
      ensures Contents() == [] && Members(list.nodes) == {}
      ensures this.size == size && index.entries.Length == slots && index.Contents() == map[] && index.Budget() == slots
    {
      this.size := size;
      list := new LinkedList();
      index := new HashMap(slots, hash);
    }

    lemma FindByIndex(key: Key)
      requires IndexRight()
      ensures var i := RecencyList.Find(Contents(), key);
              && (i < |list.nodes| <==> key in index.Contents())
              && (i < |list.nodes| ==> list.nodes[i] == index.Contents()[key])
    {
      var i := RecencyList.Find(Contents(), key);
      if key in index.Contents() {
        var n := index.Contents()[key];
        var j :| 0 <= j < |list.nodes| && list.nodes[j] == n;
        assert Contents()[j].0 == key;
      }
      assert i < |list.nodes| ==> list.nodes[i] in list.nodes;
    }

    lemma ValidRuns()
      requires Valid()
      ensures Runs()
    {
    }

    lemma ValidIs()
      requires Runs()
      ensures Valid() <==> IndexRight() && list.TailRight()
    {
      hide View, WellFormed, DataOf;
    }

    /** Moving a listed node to the front disturbs nothing but, possibly, which node is the last. */
    method Touch(node: Node<(Key, V)>) returns (ghost i: nat)
      requires Runs() && node in list.nodes
      modifies list, Members(list.nodes)`prev, Members(list.nodes)`next
      ensures Runs() && list.tail == old(list.tail)
      ensures i < |old(list.nodes)| && old(list.nodes)[i] == node && list.nodes == Moved(old(list.nodes), i)
      ensures Contents() == Moved(old(Contents()), i)
      ensures Members(list.nodes) == old(Members(list.nodes))
      ensures IndexRight() <==> old(IndexRight())
      ensures old(list.TailRight()) ==> (list.TailRight() <==> i == 0 || i != |list.nodes| - 1)
    {
      hide LinkedList.Links, Indexed, Pointing, View, WellFormed, Moved, Members, DataOf;
      LinkedFacts(list);
      ghost var m, entries, ns := index.Contents(), index.entries[..], list.nodes;
      i := list.MoveToFront(node);
      MovedMembers(ns, i);
      MemberMeans(ns);
      MemberMeans(list.nodes);
      SameIndexed(m, ns, Moved(ns, i));
      assert index.entries[..] == entries;
      LastAfterMoveAny(ns, i);
    }

    /** LRU_cache_get as shown, wherever the tail pointer is and whatever the index has lost: a label in
        the index is answered and its node moved to the front. With every label in the index that is the
        intended get; starting from a valid cache the result is valid exactly when the pair was not the
        last of two or more. */
    method Get(key: Key) returns (r: Option<V>)
      requires Runs()
      modifies list, Members(list.nodes)`prev, Members(list.nodes)`next
      ensures Runs() && list.tail == old(list.tail)
      ensures Members(list.nodes) == old(Members(list.nodes))
      ensures if key !in old(index.Contents()) then r == None && list.nodes == old(list.nodes)
              else r == Some(old(index.Contents())[key].data.1)
                   && exists i :: 0 <= i < |old(list.nodes)| && old(list.nodes)[i] == old(index.Contents())[key]
                                  && list.nodes == Moved(old(list.nodes), i)
      ensures IndexRight() <==> old(IndexRight())
      ensures old(IndexRight()) ==>
                var (s', out) := RecencyList.Step(old(Contents()), size, RecencyList.GetOp(key));
                Contents() == s' && out == RecencyList.Got(r)
      ensures old(Valid()) ==> (Valid() <==> RecencyList.Harmless(old(Contents()), RecencyList.GetOp(key)))
    {
      hide IndexRight, LinkedList.Links, Moved, DataOf, View, WellFormed, RecencyList.Find;
      LinkedFacts(list);
      ghost var m := index.Contents();
      if IndexRight() {
        FindByIndex(key);
      }
      ValidIs();
      var slot := index.Get(key);
      if slot == None {
        r := None;
      } else {
        var item := slot.value;
        ghost var i := Touch(item);
        DistinctAt(old(list.nodes), i, RecencyList.Find(old(Contents()), key));
        r := Some(item.data.1);
        ValidIs();
      }
    }

    /** The list part of LRU_cache_add: push in front; if that is one too many, pop where the tail pointer
        is, with whatever is behind it. */
    method PushAndTrim(key: Key, item: V) returns (node: Node<(Key, V)>, victim: Option<(Key, V)>)
      requires 1 <= size && |list.nodes| <= size && list.Linked() && list.TailListed()
      modifies list, Members(list.nodes)`prev, Members(list.nodes)`next
      ensures fresh(node) && node.data == (key, item)
      ensures list.Links() && list.length == if old(|list.nodes|) < size then old(|list.nodes|) + 1 else size
      ensures list.nodes == [node] + Left(old(list.nodes), old(list.tail), size)
      ensures Members(list.nodes) <= old(Members(list.nodes)) + {node}
      ensures if old(|list.nodes|) < size then list.tail == if old(list.nodes) == [] then node else old(list.tail)
              else list.TailRight()
      ensures list.TailListed() && (old(list.TailRight()) ==> list.TailRight())
      ensures victim == if old(|list.nodes|) < size then None
                        else Some(old(list.nodes)[Spot(old(list.nodes), old(list.tail))].data)
    {
      hide LinkedList.Links, View, WellFormed, Indexed, Pointing, HashMap.Valid, DataOf;
      LinkedFacts(list);
      ghost var ns := list.nodes;
      victim := None;
      node := list.PushFront((key, item));
      LinkedFacts(list);
      SpotPushed(node, ns, list.tail);
      PushedMembers(node, ns);
      if list.length > size {
        ghost var t := Spot(ns, list.tail);
        victim := list.PopTail();
        PushedTake(node, ns, t);
      }
    }

    /** The index part of LRU_cache_add: forget the victim's label, then point the label at the node;
        the result of the set is ignored. */
    method Reindex(key: Key, node: Node<(Key, V)>, victim: Option<Key>)
      requires index.Valid()
      modifies index.entries
      ensures index.Valid()
      ensures index.Contents() == Relabelled(old(index.Contents()), victim, key, node, old(index.Budget()))
      ensures index.Budget() == LeftOver(old(index.Contents()), victim, key, old(index.Budget()))
    {
      hide View, WellFormed;
      if victim.Some? {
        var _ := index.Delete(victim.value);
      }
      var _ := index.Set(key, node);
    }

    /** LRU_cache_add as shown, wherever the tail pointer is and whatever the index has lost. It never
        stops on a key that is present, never looks at the result of setting the index, and when the list
        is full it evicts the pair the tail pointer is at, losing all pairs behind it. The cache goes on
        running exactly when that was the last pair; starting from a valid one, it is valid again exactly
        when a slot of the index was still unused and the key was absent or that of the evicted pair. */
    method Add(key: Key, item: V) returns (evicted: Option<(Key, V)>)
      requires Runs()
      modifies list, Members(list.nodes)`prev, Members(list.nodes)`next, index.entries
      ensures forall n :: n in Members(list.nodes) ==> n in old(Members(list.nodes)) || fresh(n)
      ensures list.nodes != [] && fresh(list.nodes[0]) && list.nodes[1..] == Left(old(list.nodes), old(list.tail), size)
      ensures Contents() == [(key, item)] + DataOf(Left(old(list.nodes), old(list.tail), size))
      ensures evicted == if old(|list.nodes|) < size then None
                         else Some(old(list.nodes)[Spot(old(list.nodes), old(list.tail))].data)
      ensures if old(|list.nodes|) < size then list.tail == if old(list.nodes) == [] then list.nodes[0] else old(list.tail)
              else list.TailRight()
      ensures Runs() <==> old(|list.nodes|) < size || old(list.TailRight())
      ensures index.Valid()
      ensures index.Contents()
              == Relabelled(old(index.Contents()), KeyOf(evicted), key, list.nodes[0], old(index.Budget()))
      ensures index.Budget() == LeftOver(old(index.Contents()), KeyOf(evicted), key, old(index.Budget()))
      ensures old(IndexRight()) && Runs() ==>
                (IndexRight() <==> old(index.Budget()) > 0
                                   && (RecencyList.Harmless(old(Contents()), RecencyList.AddOp(key, item))
                                       || (|old(Contents())| == size && old(Contents())[size - 1].0 == key)))
      ensures old(Valid()) ==> (Valid() <==> IndexRight())
      ensures old(IndexRight()) && Runs() && RecencyList.Harmless(old(Contents()), RecencyList.AddOp(key, item)) ==>
                && (var (s', out) := RecencyList.Step(old(Contents()), size, RecencyList.AddOp(key, item));
                    Contents() == s' && out == RecencyList.Added(evicted))
                && (IndexRight() ==> index.Budget() == old(index.Budget()) - 1)
    {
      hide LinkedList.Links, LinkedList.Linked, LinkedList.TailRight, LinkedList.TailListed, LinkedList.Contents, View,
           WellFormed, Indexed, Pointing, HashMap.Valid, HashMap.Contents, HashMap.Budget, Kept, Members, DataOf, Left,
           Runs, IndexRight, Valid, RecencyList.Step, RecencyList.Find, Spot, Base, Relabelled, LeftOver;
      ghost var m, ns, tail, budget := index.Contents(), list.nodes, list.tail, index.Budget();
      RunsFacts();
      var present := index.Get(key); // only reported in a debug message
      var node;
      node, evicted := PushAndReindex(key, item);
      AddFacts(m, ns, tail, budget, node, evicted, key, item);
    }

    lemma RunsFacts()
      requires Runs()
      ensures 1 <= size && |list.nodes| <= size && Distinct(list.nodes) && list.TailListed() && index.Valid()
      ensures Pointing(index.Contents(), list.nodes) && |Contents()| == |list.nodes| && Contents() == DataOf(list.nodes)
      ensures IndexRight() <==> Indexed(index.Contents(), list.nodes)
      ensures Valid() <==> IndexRight() && list.TailRight()
      ensures if list.nodes == [] then list.tail == null else list.tail != null && list.tail in list.nodes
      ensures list.TailRight() <==> list.nodes == [] || list.nodes[|list.nodes| - 1] == list.tail
      ensures forall i :: 0 <= i < |list.nodes| ==> list.nodes[i].data == Contents()[i]
    {
      hide View, WellFormed, Pointing, Indexed;
    }

    /** What the parts of an add make of the whole. */
    lemma AddFacts(m: map<Key, Node<(Key, V)>>, ns: seq<Node<(Key, V)>>, tail: Node?<(Key, V)>, budget: nat,
                   node: Node<(Key, V)>, evicted: Option<(Key, V)>, key: Key, item: V)
      requires 1 <= size && |ns| <= size && Distinct(ns) && Pointing(m, ns) && node !in ns && node.data == (key, item)
      requires if ns == [] then tail == null else tail != null && tail in ns
      requires list.Links() && list.length == (if |ns| < size then |ns| + 1 else size) && list.TailListed()
      requires list.nodes == [node] + Left(ns, tail, size)
      requires ns == [] || ns[|ns| - 1] == tail ==> list.TailRight()
      requires evicted == if |ns| < size then None else Some(ns[Spot(ns, tail)].data)
      requires index.Valid()
      requires index.Contents() == Relabelled(m, KeyOf(evicted), key, node, budget)
      requires index.Budget() == LeftOver(m, KeyOf(evicted), key, budget)
      ensures list.nodes[1..] == Left(ns, tail, size) && Contents() == [(key, item)] + DataOf(Left(ns, tail, size))
      ensures Runs() <==> |ns| < size || ns[size - 1] == tail
      ensures Runs() && Indexed(m, ns) ==>
                (IndexRight() <==> budget > 0 && (RecencyList.Find(DataOf(ns), key) == |ns|
                                                  || (|ns| == size && ns[size - 1].data.0 == key)))
      ensures Runs() && (ns == [] || ns[|ns| - 1] == tail) ==> (Valid() <==> IndexRight())
      ensures Runs() && Indexed(m, ns) && RecencyList.Find(DataOf(ns), key) == |ns| ==>
                && RecencyList.Step(DataOf(ns), size, RecencyList.AddOp(key, item)) == (Contents(), RecencyList.Added(evicted))
                && (IndexRight() ==> index.Budget() == budget - 1)
    {
      hide LinkedList.Links, View, WellFormed, Indexed, Pointing, HashMap.Valid, HashMap.Contents, HashMap.Budget, Kept,
           DataOf, Left, RecencyList.Step, RecencyList.Find;
      LeftIs(node, ns, tail, size);
      if |ns| < size || ns[size - 1] == tail {
        if |ns| == size {
          DistinctAt(ns, Spot(ns, tail), size - 1);
        }
        PointingAfterAdd(m, ns, node, size, budget > 0, index.Contents());
        if Indexed(m, ns) {
          AfterIndexedAdd(m, ns, node, size, budget > 0, key, item);
        }
      }
    }

    /** What an add does, said of the list and of the index separately. */
    method PushAndReindex(key: Key, item: V) returns (node: Node<(Key, V)>, evicted: Option<(Key, V)>)
      requires Runs()
      modifies list, Members(list.nodes)`prev, Members(list.nodes)`next, index.entries
      ensures fresh(node) && node.data == (key, item)
      ensures list.Links() && list.length == if old(|list.nodes|) < size then old(|list.nodes|) + 1 else size
      ensures list.nodes == [node] + Left(old(list.nodes), old(list.tail), size)
      ensures Members(list.nodes) <= old(Members(list.nodes)) + {node}
      ensures if old(|list.nodes|) < size then list.tail == if old(list.nodes) == [] then node else old(list.tail)
              else list.TailRight()
      ensures list.TailListed() && (old(list.TailRight()) ==> list.TailRight())
      ensures evicted == if old(|list.nodes|) < size then None
                         else Some(old(list.nodes)[Spot(old(list.nodes), old(list.tail))].data)
      ensures index.Valid()
      ensures index.Contents() == Relabelled(old(index.Contents()), KeyOf(evicted), key, node, old(index.Budget()))
      ensures index.Budget() == LeftOver(old(index.Contents()), KeyOf(evicted), key, old(index.Budget()))
    {
      hide LinkedList.Links, View, WellFormed, Indexed, Pointing, HashMap.Valid, HashMap.Contents, HashMap.Budget,
           DataOf, Left;
      ghost var entries := index.entries[..];
      node, evicted := PushAndTrim(key, item);
      assert index.entries[..] == entries;
      Reindex(key, node, KeyOf(evicted));
    }

    lemma TailIsLast()
      requires list.Linked() && list.TailListed()
      ensures list.tail != null ==> (list.tail.next == null <==> list.TailRight())
    {
      ghost var t := Spot(list.nodes, list.tail);
    }

    /** The list, where its tail pointer is, what the index has and the slots it has left. */
    ghost function AsShown(): RecencyList.Shown<V>
      requires index.Valid()
      reads this, list, index, index.entries
    {
      RecencyList.Running(Contents(), Position(list.nodes, list.tail), index.Contents().Keys, index.Budget())
    }

    /** LRU_cache_get, whatever state the code may have come to. */
    method GetShown(key: Key) returns (r: Option<V>)
      requires Runs() && Leading(index.Contents(), list.nodes)
      modifies list, Members(list.nodes)`prev, Members(list.nodes)`next
      ensures Runs() && Leading(index.Contents(), list.nodes) && Members(list.nodes) == old(Members(list.nodes))
      ensures RecencyList.ShownStep(old(AsShown()), size, RecencyList.GetOp(key)) == (AsShown(), RecencyList.Got(r))
    {
      hide LinkedList.Links, Members, Pointing, Indexed, View, WellFormed, DataOf, Moved, Leading, RecencyList.ShownStep,
           RecencyList.Find, RecencyList.Step;
      LinkedFacts(list);
      ghost var m, tail, ns := index.Contents(), list.tail, list.nodes;
      r := Get(key);
      ShownGet(m, ns, tail, key, size, index.Budget());
    }

    /** LRU_cache_add, whatever state the code may have come to. */
    method AddShown(key: Key, item: V) returns (evicted: Option<(Key, V)>, broken: bool)
      requires Runs() && Leading(index.Contents(), list.nodes)
      modifies list, Members(list.nodes)`prev, Members(list.nodes)`next, index.entries
      ensures forall n :: n in Members(list.nodes) ==> n in old(Members(list.nodes)) || fresh(n)
      ensures !broken ==> Runs() && Leading(index.Contents(), list.nodes)
      ensures var (st, out) := RecencyList.ShownStep(old(AsShown()), size, RecencyList.AddOp(key, item));
              && out == RecencyList.Added(evicted)
              && if broken then st.Broken? else index.Valid() && st == AsShown()
    {
      hide LinkedList.Links, LinkedList.Linked, LinkedList.TailRight, LinkedList.TailListed, Members, Pointing, Indexed, View,
           WellFormed, HashMap.Valid, HashMap.Contents, HashMap.Budget, DataOf, Left, Leading, Seen, AsShown, Runs,
           IndexRight, Valid, RecencyList.ShownStep, RecencyList.Find, RecencyList.Step, Relabelled, LeftOver;
      RunsFacts();
      BreaksIf();
      SeenIs();
      ghost var m, tail, ns, left := index.Contents(), list.tail, list.nodes, index.Budget();
      broken := list.length == size && list.tail != null && list.tail.next != null;
      evicted := Add(key, item);
      assert list.nodes == [list.nodes[0]] + list.nodes[1..];
      SeenIs();
      if !broken {
        RunsFacts();
      }
      ShownAdd(m, ns, list.nodes[0], tail, size, left);
    }

    lemma BreaksIf()
      requires Runs()
      ensures list.length == size && list.tail != null && list.tail.next != null
              <==> |list.nodes| == size && list.nodes[size - 1] != list.tail
    {
      hide Pointing, View, WellFormed;
      TailIsLast();
    }

    lemma SeenIs()
      requires index.Valid()
      ensures AsShown() == Seen(index.Contents(), list.nodes, list.tail, index.Budget())
    {
    }

    // ---------- the repaired twin ----------

    /** LRU_cache_get with a move that also looks after the tail pointer. */
    method GetRepaired(key: Key) returns (r: Option<V>)
      requires Valid()
      modifies list, Members(list.nodes)`prev, Members(list.nodes)`next
      ensures Valid()
      ensures var (s', out) := RecencyList.Step(old(Contents()), size, RecencyList.GetOp(key));
              Contents() == s' && out == RecencyList.Got(r)
      ensures Members(list.nodes) == old(Members(list.nodes))
    {
      hide LinkedList.Linked, Indexed, View, WellFormed, Moved, Members, DataOf;
      LinkedFacts(list);
      FindByIndex(key);
      var slot := index.Get(key);
      var item := if slot == None then null else slot.value;
      if item == null {
        r := None;
      } else {
        ghost var m, entries, ns := index.Contents(), index.entries[..], list.nodes;
        ghost var i := list.MoveToFrontRepaired(item);
        MovedMembers(ns, i);
        IndexedMoved(m, ns, i);
        assert index.entries[..] == entries;
        assert i == RecencyList.Find(old(Contents()), key);
        r := Some(item.data.1);
      }
    }

    /** LRU_cache_add that stops on a key that is present, looks at the result of setting the index,
        and rehashes the index when no slot is left. */
    method AddRepaired(key: Key, item: V) returns (evicted: Option<(Key, V)>)
      requires Valid() && index.entries.Length >= size
      modifies this`index, list, Members(list.nodes)`prev, Members(list.nodes)`next, index.entries
      ensures Valid() && index.entries.Length >= size
      ensures var (s', out) := RecencyList.Step(old(Contents()), size, RecencyList.AddOp(key, item));
              Contents() == s' && out == RecencyList.Added(evicted)
      ensures forall n :: n in Members(list.nodes) ==> n in old(Members(list.nodes)) || fresh(n)
      ensures index == old(index) || (fresh(index) && fresh(index.entries))
    {
      hide LinkedList.Links, LinkedList.Linked, LinkedList.TailRight, LinkedList.TailListed, LinkedList.Contents, View,
           WellFormed, Indexed, Pointing, HashMap.Valid, HashMap.Contents, HashMap.Budget, Kept, Members, DataOf, Left,
           Runs, IndexRight, Valid, RecencyList.Step, RecencyList.Find, Spot;
      ghost var m, ns, tail, entries := index.Contents(), list.nodes, list.tail, index.entries[..];
      ValidRuns();
      RunsFacts();
      FindByIndex(key);
      if RecencyList.Find(Contents(), key) < |Contents()| {
        AddPresent(Contents(), size, key, item);
      }
      var present := index.Get(key);
      if present.Some? {
        return None;
      }
      var node, victim := PushAndTrim(key, item);
      assert index.entries[..] == entries;
      LeftIs(node, ns, tail, size);
      LastSpot(ns, tail, size);
      assert index.Contents() == m;
      ReindexRepaired(key, node, if victim.Some? then Some(victim.value.0) else None, m, ns);
      evicted := victim;
      RepairedFacts(ns, node, evicted, key, item);
    }

    lemma RepairedFacts(ns: seq<Node<(Key, V)>>, node: Node<(Key, V)>, evicted: Option<(Key, V)>, key: Key, item: V)
      requires 1 <= size && |ns| <= size && node.data == (key, item) && RecencyList.Find(DataOf(ns), key) == |ns|
      requires list.nodes == [node] + Kept(ns, size) && list.Links() && list.TailRight()
      requires list.length == if |ns| < size then |ns| + 1 else size
      requires index.Valid() && Indexed(index.Contents(), [node] + Kept(ns, size))
      requires evicted == if |ns| < size then None else Some(ns[size - 1].data)
      ensures Valid()
      ensures RecencyList.Step(DataOf(ns), size, RecencyList.AddOp(key, item)) == (Contents(), RecencyList.Added(evicted))
    {
      hide LinkedList.Links, View, WellFormed, Indexed;
      StepIsPush(DataOf(ns), size, key, item);
      KeptContents(node, ns, size);
    }

    /** The index part of the repaired add. */
    method ReindexRepaired(key: Key, node: Node<(Key, V)>, victim: Option<Key>,
                           ghost m: map<Key, Node<(Key, V)>>, ghost ns: seq<Node<(Key, V)>>)
      requires index.Valid() && index.Contents() == m && 1 <= size <= index.entries.Length
      requires Indexed(m, ns) && Distinct(ns) && |ns| <= size
      requires node !in ns && node.data.0 == key && key !in m
      requires victim == if |ns| == size then Some(ns[size - 1].data.0) else None
      modifies this`index, index.entries
      ensures index.Valid() && index.entries.Length == old(index.entries.Length)
      ensures Indexed(index.Contents(), [node] + Kept(ns, size))
      ensures index == old(index) || (fresh(index) && fresh(index.entries))
    {
      hide View, WellFormed, Indexed;
      BaseIndexes(m, ns, size);
      IndexSize(Base(m, ns, size), Kept(ns, size));
      IndexAfterPut(Base(m, ns, size), Kept(ns, size), node);
      if victim.Some? {
        var _ := index.Delete(victim.value);
      }
      assert index.Contents() == Base(m, ns, size);
      var ok := index.Set(key, node);
      if !ok {
        index := index.Rehash();
        ok := index.Set(key, node);
      }
    }
  }

  lemma OneMore<T>(a: set<T>, b: set<T>, x: T)
    requires b == a - {x}
    ensures |a| <= |b| + 1
  {
    if x in a {
      assert a == b + {x};
    } else {
      assert a == b;
    }
  }

  lemma {:induction false} IndexSize<V>(m: map<Key, Node<(Key, V)>>, ns: seq<Node<(Key, V)>>)
    requires forall k :: k in m ==> m[k] in ns && m[k].data.0 == k
    ensures |m| <= |ns|
  {
    if ns == [] {
      assert m.Keys == {};
    } else {
      var last, init := ns[|ns| - 1], ns[..|ns| - 1];
      assert ns == init + [last];
      var m' := m - {last.data.0};
      forall k | k in m' ensures m'[k] in init {
        assert m[k] in ns && m[k] != last;
      }
      IndexSize(m', init);
      OneMore(m.Keys, m'.Keys, last.data.0);
    }
  }

  /** What is left of a full list after the push: everything but its last element. */
  function Kept<T>(s: seq<T>, size: nat): seq<T>
    requires size >= 1
  {
    if |s| == size then s[..size - 1] else s
  }

  lemma StepIsPush<V>(s: seq<(Key, V)>, size: nat, key: Key, item: V)
    requires 1 <= size && |s| <= size && RecencyList.Find(s, key) == |s|
    ensures RecencyList.Step(s, size, RecencyList.AddOp(key, item))
            == ([(key, item)] + Kept(s, size), RecencyList.Added(if |s| == size then Some(s[size - 1]) else None))
  {
  }

  /** What an add leaves of the list as shown: all of it, or what is before the tail pointer. */
  ghost function Left<T>(ns: seq<Node<T>>, tail: Node?<T>, size: nat): seq<Node<T>> {
    if |ns| < size then ns else ns[..Spot(ns, tail)]
  }

  /** With the tail pointer at the last node that is what it should be. */
  lemma LeftIs<T>(node: Node<T>, ns: seq<Node<T>>, tail: Node?<T>, size: nat)
    requires Distinct(ns) && 1 <= size && |ns| <= size && (ns != [] ==> tail in ns)
    ensures |Left(ns, tail, size)| <= |ns|
    ensures ([node] + Left(ns, tail, size))[1..] == Left(ns, tail, size)
    ensures DataOf([node] + Left(ns, tail, size)) == [node.data] + DataOf(Left(ns, tail, size))
    ensures |ns| < size || ns[size - 1] == tail ==>
              Left(ns, tail, size) == Kept(ns, size) && |Left(ns, tail, size)| == if |ns| < size then |ns| else size - 1
    ensures |ns| == size && ns[size - 1] != tail ==> |Left(ns, tail, size)| < size - 1
  {
    hide Spot, DataOf;
    LastSpot(ns, tail, size);
    PushedData(node, Left(ns, tail, size));
  }

  lemma LastSpot<T>(ns: seq<Node<T>>, tail: Node?<T>, size: nat)
    requires Distinct(ns) && 1 <= size && |ns| <= size
    ensures |ns| == size && ns[size - 1] == tail ==> Spot(ns, tail) == size - 1
  {
    hide Spot;
    if |ns| == size && ns[size - 1] == tail {
      DistinctAt(ns, Spot(ns, tail), size - 1);
    }
  }

  lemma AddPresent<V>(s: seq<(Key, V)>, size: nat, key: Key, item: V)
    requires RecencyList.Find(s, key) < |s|
    ensures RecencyList.Step(s, size, RecencyList.AddOp(key, item)) == (s, RecencyList.Added(None))
  {
  }

  ghost function Position<T>(ns: seq<Node<T>>, tail: Node?<T>): nat {
    if ns == [] then 0 else Spot(ns, tail)
  }

  /** The state as shown, in terms of the nodes. */
  ghost function Seen<V>(m: map<Key, Node<(Key, V)>>, ns: seq<Node<(Key, V)>>, tail: Node?<(Key, V)>, left: nat)
    : RecencyList.Shown<V>
  {
    RecencyList.Running(DataOf(ns), Position(ns, tail), m.Keys, left)
  }

  lemma ShownGet<V>(m: map<Key, Node<(Key, V)>>, ns: seq<Node<(Key, V)>>, tail: Node?<(Key, V)>, key: Key, size: nat,
                    left: nat)
    requires Leading(m, ns) && Distinct(ns) && (ns != [] ==> tail in ns)
    ensures var step := RecencyList.ShownStep(Seen(m, ns, tail, left), size, RecencyList.GetOp(key));
            if key !in m then step == (Seen(m, ns, tail, left), RecencyList.Got(None))
            else forall i :: 0 <= i < |ns| && ns[i] == m[key] ==>
                   Leading(m, Moved(ns, i)) && step == (Seen(m, Moved(ns, i), tail, left), RecencyList.Got(Some(m[key].data.1)))
  {
    hide Moved, DataOf, Leading;
    if key in m {
      LeadsOf(m, ns, key);
      var i := RecencyList.Find(DataOf(ns), key);
      MovedData(ns, i);
      SpotMoved(ns, i, tail);
      LeadingMoved(m, ns, i, key);
      forall j | 0 <= j < |ns| && ns[j] == m[key] ensures j == i {
        DistinctAt(ns, i, j);
      }
    }
  }

  lemma LeadsOf<V>(m: map<Key, Node<(Key, V)>>, ns: seq<Node<(Key, V)>>, key: Key)
    requires Leading(m, ns) && key in m
    ensures LeadsFirst(m, ns, key)
  {
  }

  lemma MovedData<T>(ns: seq<Node<T>>, i: nat)
    requires i < |ns|
    ensures DataOf(Moved(ns, i)) == Moved(DataOf(ns), i)
  {
  }

  lemma SpotMoved<T>(ns: seq<Node<T>>, i: nat, tail: Node?<T>)
    requires Distinct(ns) && i < |ns| && tail in ns
    ensures Spot(Moved(ns, i), tail) == RecencyList.MovedTo(Spot(ns, tail), i)
  {
    MovedAt(ns, i);
    var t := Spot(ns, tail);
    assert Moved(ns, i)[RecencyList.MovedTo(t, i)] == ns[t];
    DistinctAt(Moved(ns, i), RecencyList.MovedTo(t, i), Spot(Moved(ns, i), tail));
  }

  lemma LeadingMoved<V>(m: map<Key, Node<(Key, V)>>, ns: seq<Node<(Key, V)>>, i: nat, key: Key)
    requires Leading(m, ns) && key in m && i == RecencyList.Find(DataOf(ns), key) < |ns|
    ensures Leading(m, Moved(ns, i))
  {
    hide Moved, DataOf, RecencyList.Find;
    MovedAt(ns, i);
    MovedData(ns, i);
    forall k | k in m ensures LeadsFirst(m, Moved(ns, i), k) {
      assert LeadsFirst(m, ns, k);
      RecencyList.MovedPlace(DataOf(ns), i, k);
    }
  }

  lemma ShownAdd<V>(m: map<Key, Node<(Key, V)>>, ns: seq<Node<(Key, V)>>, node: Node<(Key, V)>, tail: Node?<(Key, V)>,
                    size: nat, left: nat)
    requires Leading(m, ns) && Distinct(ns) && 1 <= size && |ns| <= size && node !in ns
    requires if ns == [] then tail == null else tail != null && tail in ns
    ensures var rest := Left(ns, tail, size);
            var out := if |ns| < size then None else Some(ns[Spot(ns, tail)].data);
            var key := node.data.0;
            var tail' := if |ns| < size then (if ns == [] then node else tail) else ([node] + rest)[|rest|];
            var step := RecencyList.ShownStep(Seen(m, ns, tail, left), size, RecencyList.AddOp(key, node.data.1));
            && step.1 == RecencyList.Added(out)
            && if |ns| == size && ns[size - 1] != tail then step.0.Broken?
               else && Leading(Relabelled(m, KeyOf(out), key, node, left), [node] + rest)
                    && step.0 == Seen(Relabelled(m, KeyOf(out), key, node, left), [node] + rest, tail',
                                      LeftOver(m, KeyOf(out), key, left))
  {
    hide Leading, DataOf, Spot, Seen, Relabelled, LeftOver, RecencyList.ShownStep, RecencyList.Find;
    LastSpot(ns, tail, size);
    if |ns| < size {
      LeadingPushed(m, ns, node, left);
      ShownPush(m, ns, node, tail, size, left);
    } else {
      ShownEvict(m, ns, node, tail, size, left);
      if ns[size - 1] == tail {
        LeadingKept(m, ns, node, left);
      }
    }
  }

  lemma ShownPush<V>(m: map<Key, Node<(Key, V)>>, ns: seq<Node<(Key, V)>>, node: Node<(Key, V)>, tail: Node?<(Key, V)>,
                     size: nat, left: nat)
    requires Distinct(ns) && |ns| < size && node !in ns
    requires if ns == [] then tail == null else tail != null && tail in ns
    ensures var key := node.data.0;
            RecencyList.ShownStep(Seen(m, ns, tail, left), size, RecencyList.AddOp(key, node.data.1))
            == (Seen(Relabelled(m, None, key, node, left), [node] + ns, if ns == [] then node else tail,
                     LeftOver(m, None, key, left)),
                RecencyList.Added(None))
  {
    hide DataOf, Spot;
    PushedData(node, ns);
    if ns == [] {
      SpotAt([node] + ns, 0);
    } else {
      PlacePushed(ns, node, tail);
    }
    assert m[node.data.0 := node].Keys == m.Keys + {node.data.0};
  }

  lemma PushedData<T>(node: Node<T>, ns: seq<Node<T>>)
    ensures DataOf([node] + ns) == [node.data] + DataOf(ns)
  {
  }

  lemma ShownEvict<V>(m: map<Key, Node<(Key, V)>>, ns: seq<Node<(Key, V)>>, node: Node<(Key, V)>, tail: Node<(Key, V)>,
                      size: nat, left: nat)
    requires Distinct(ns) && 1 <= size == |ns| && node !in ns && tail in ns
    ensures var spot := Spot(ns, tail);
            var victim := Some(ns[spot].data.0);
            var key := node.data.0;
            var nodes := [node] + ns[..size - 1];
            var step := RecencyList.ShownStep(Seen(m, ns, tail, left), size, RecencyList.AddOp(key, node.data.1));
            && step.1 == RecencyList.Added(Some(ns[spot].data))
            && if ns[size - 1] != tail then step.0.Broken?
               else step.0 == Seen(Relabelled(m, victim, key, node, left), nodes, nodes[size - 1],
                                   LeftOver(m, victim, key, left))
  {
    hide DataOf, Spot;
    LastSpot(ns, tail, size);
    PlaceKept(ns, node);
  }

  lemma PlacePushed<T>(ns: seq<Node<T>>, node: Node<T>, tail: Node?<T>)
    requires node !in ns && ns != [] && tail in ns
    ensures Spot([node] + ns, tail) == Spot(ns, tail) + 1
  {
    SpotPushed(node, ns, tail);
  }

  lemma PlaceKept<T>(ns: seq<Node<T>>, node: Node<T>)
    requires Distinct(ns) && ns != [] && node !in ns
    ensures var kept := [node] + ns[..|ns| - 1];
            DataOf(kept) == [node.data] + DataOf(ns)[..|ns| - 1] && Spot(kept, kept[|ns| - 1]) == |ns| - 1
  {
    hide Spot;
    var kept := [node] + ns[..|ns| - 1];
    assert forall i :: 1 <= i < |ns| ==> kept[i] == ns[i - 1];
    SpotAt(kept, |ns| - 1);
  }

  lemma SpotAt<T>(ns: seq<Node<T>>, i: nat)
    requires Distinct(ns) && i < |ns|
    ensures Spot(ns, ns[i]) == i
  {
    DistinctAt(ns, i, Spot(ns, ns[i]));
  }

  lemma LeadingPushed<V>(m: map<Key, Node<(Key, V)>>, ns: seq<Node<(Key, V)>>, node: Node<(Key, V)>, left: nat)
    requires Leading(m, ns)
    ensures Leading(Relabelled(m, None, node.data.0, node, left), [node] + ns)
  {
    hide RecencyList.Find, DataOf;
    var m' := Relabelled(m, None, node.data.0, node, left);
    PushedData(node, ns);
    forall k | k in m' ensures LeadsFirst(m', [node] + ns, k) {
      if k == node.data.0 {
        RecencyList.FirstIs(DataOf([node] + ns), k, 0);
      } else {
        assert LeadsFirst(m, ns, k);
        RecencyList.Pushed(DataOf(ns), node.data, k);
      }
    }
  }

  /** The last node's label, if it is still that node's, goes with it. */
  lemma LeadingKept<V>(m: map<Key, Node<(Key, V)>>, ns: seq<Node<(Key, V)>>, node: Node<(Key, V)>, left: nat)
    requires Leading(m, ns) && ns != []
    ensures Leading(Relabelled(m, Some(ns[|ns| - 1].data.0), node.data.0, node, left), [node] + ns[..|ns| - 1])
  {
    hide DataOf;
    var last, kept := ns[|ns| - 1], ns[..|ns| - 1];
    forall k | k in m - {last.data.0} ensures LeadsFirst(m - {last.data.0}, kept, k) {
      assert LeadsFirst(m, ns, k);
      InFront(ns, k);
    }
    LeadingPushed(m - {last.data.0}, kept, node, left);
  }

  lemma InFront<V>(ns: seq<Node<(Key, V)>>, k: Key)
    requires ns != [] && RecencyList.Find(DataOf(ns), k) < |ns| && k != ns[|ns| - 1].data.0
    ensures var i := RecencyList.Find(DataOf(ns), k);
            i < |ns| - 1 && RecencyList.Find(DataOf(ns[..|ns| - 1]), k) == i
  {
    hide RecencyList.Find;
    var i := RecencyList.Find(DataOf(ns), k);
    assert DataOf(ns)[i] == ns[i].data;
    assert forall n :: 0 <= n < |ns| - 1 ==> DataOf(ns[..|ns| - 1])[n] == DataOf(ns)[n];
    RecencyList.FirstIs(DataOf(ns[..|ns| - 1]), k, i);
  }

  lemma SpotPushed<T>(node: Node<T>, ns: seq<Node<T>>, tail: Node?<T>)
    ensures node != tail ==> Spot([node] + ns, tail) == Spot(ns, tail) + 1
  {
    assert ([node] + ns)[1..] == ns;
  }

  lemma PushedTake<T>(node: Node<T>, ns: seq<Node<T>>, t: nat)
    requires t <= |ns|
    ensures ([node] + ns)[..t + 1] == [node] + ns[..t]
    ensures Members([node] + ns[..t]) <= Members(ns) + {node}
    ensures t < |ns| ==> DataOf([node] + ns)[t + 1] == ns[t].data
  {
  }

  lemma PushedMembers<T>(node: Node<T>, ns: seq<Node<T>>)
    ensures Members([node] + ns) == Members(ns) + {node}
  {
  }

  lemma KeptContents<T>(node: Node<T>, ns: seq<Node<T>>, size: nat)
    requires size >= 1
    ensures DataOf([node] + Kept(ns, size)) == [node.data] + Kept(DataOf(ns), size)
    ensures Members([node] + Kept(ns, size)) <= Members(ns) + {node}
  {
  }

  /** The index without the label of the pair that is trimmed off. */
  ghost function Base<V>(m: map<Key, Node<(Key, V)>>, ns: seq<Node<(Key, V)>>, size: nat): map<Key, Node<(Key, V)>>
    requires size >= 1
  {
    if |ns| == size then m - {ns[size - 1].data.0} else m
  }

  lemma BaseIndexes<V>(m: map<Key, Node<(Key, V)>>, ns: seq<Node<(Key, V)>>, size: nat)
    requires Indexed(m, ns) && Distinct(ns) && 1 <= size && |ns| <= size
    ensures Indexed(Base(m, ns, size), Kept(ns, size))
  {
    var kept := Kept(ns, size);
    assert forall n :: n in kept ==> n in ns;
    if |ns| == size {
      var last := ns[size - 1];
      assert forall n :: n in ns ==> n == last || n in kept;
      assert last in ns && last !in kept;
    }
  }

  lemma IndexAfterPut<V>(m: map<Key, Node<(Key, V)>>, ns: seq<Node<(Key, V)>>, node: Node<(Key, V)>)
    requires Indexed(m, ns) && node !in ns
    ensures Indexed(m[node.data.0 := node], [node] + ns) <==> node.data.0 !in m
  {
    var key := node.data.0;
    var nodes := [node] + ns;
    assert nodes[0] == node;
    assert forall n :: n in nodes <==> n == node || n in ns;
    if key in m {
      assert m[key] in nodes;
      assert m[key := node][key] == node != m[key];
    }
  }

  lemma IndexAfterAdd<V>(m: map<Key, Node<(Key, V)>>, ns: seq<Node<(Key, V)>>, node: Node<(Key, V)>, size: nat,
                         room: bool, m': map<Key, Node<(Key, V)>>)
    requires Indexed(m, ns) && Distinct(ns) && node !in ns && 1 <= size && |ns| <= size
    requires var base := Base(m, ns, size);
             m' == if node.data.0 in base || room then base[node.data.0 := node] else base
    ensures Indexed(m', [node] + Kept(ns, size))
            <==> room && (node.data.0 !in m || (|ns| == size && ns[size - 1].data.0 == node.data.0))
  {
    hide Indexed;
    var base := Base(m, ns, size);
    BaseIndexes(m, ns, size);
    if node.data.0 in base || room {
      IndexAfterPut(base, Kept(ns, size), node);
    } else {
      NotIndexed(base, [node] + Kept(ns, size), node);
    }
  }

  /** An add to a cache whose index is right, and whose last pair is evicted if one is. */
  lemma AfterIndexedAdd<V>(m: map<Key, Node<(Key, V)>>, ns: seq<Node<(Key, V)>>, node: Node<(Key, V)>, size: nat,
                           room: bool, key: Key, item: V)
    requires Indexed(m, ns) && Distinct(ns) && node !in ns && 1 <= size && |ns| <= size && node.data == (key, item)
    ensures var base := Base(m, ns, size);
            Indexed(if key in base || room then base[key := node] else base, [node] + Kept(ns, size))
            <==> room && (RecencyList.Find(DataOf(ns), key) == |ns| || (|ns| == size && ns[size - 1].data.0 == key))
    ensures RecencyList.Find(DataOf(ns), key) == |ns| ==>
              && key !in Base(m, ns, size)
              && RecencyList.Step(DataOf(ns), size, RecencyList.AddOp(key, item))
                 == (DataOf([node] + Kept(ns, size)),
                     RecencyList.Added(if |ns| == size then Some(ns[size - 1].data) else None))
  {
    hide Indexed, DataOf;
    var base := Base(m, ns, size);
    IndexAfterAdd(m, ns, node, size, room, if key in base || room then base[key := node] else base);
    FoundIsIndexed(m, ns, key);
    KeptContents(node, ns, size);
    if RecencyList.Find(DataOf(ns), key) == |ns| {
      StepIsPush(DataOf(ns), size, key, item);
    }
  }

  lemma FoundIsIndexed<V>(m: map<Key, Node<(Key, V)>>, ns: seq<Node<(Key, V)>>, key: Key)
    requires Indexed(m, ns)
    ensures key in m <==> RecencyList.Find(DataOf(ns), key) < |ns|
  {
    var i := RecencyList.Find(DataOf(ns), key);
    if key in m {
      var j :| 0 <= j < |ns| && ns[j] == m[key];
      assert DataOf(ns)[j].0 == key;
    }
    assert i < |ns| ==> ns[i] in ns;
  }

  lemma PointingAfterAdd<V>(m: map<Key, Node<(Key, V)>>, ns: seq<Node<(Key, V)>>, node: Node<(Key, V)>, size: nat,
                            room: bool, m': map<Key, Node<(Key, V)>>)
    requires Pointing(m, ns) && Distinct(ns) && 1 <= size && |ns| <= size
    requires var base := Base(m, ns, size);
             m' == if node.data.0 in base || room then base[node.data.0 := node] else base
    ensures Pointing(m', [node] + Kept(ns, size))
  {
    var kept := [node] + Kept(ns, size);
    assert kept[0] == node;
    forall k | k in m' ensures m'[k] in kept && m'[k].data.0 == k {
      if m'[k] != node {
        var j :| 0 <= j < |ns| && ns[j] == m[k];
        assert kept[j + 1] == m[k];
      }
    }
  }

  lemma NotIndexed<V>(m: map<Key, Node<(Key, V)>>, ns: seq<Node<(Key, V)>>, node: Node<(Key, V)>)
    requires node in ns && node.data.0 !in m
    ensures !Indexed(m, ns)
  {
  }

  lemma MemberMeans<T>(s: seq<T>)
    ensures forall x :: x in s <==> x in Members(s)
  {
  }

  lemma SameIndexed<V>(m: map<Key, Node<(Key, V)>>, ns: seq<Node<(Key, V)>>, ns': seq<Node<(Key, V)>>)
    requires forall n :: n in ns <==> n in ns'
    ensures Indexed(m, ns) <==> Indexed(m, ns')
    ensures Pointing(m, ns) <==> Pointing(m, ns')
  {
  }

  lemma DistinctAt<T>(s: seq<T>, i: nat, j: nat)
    requires Distinct(s) && i < |s|
    ensures j < |s| && s[i] == s[j] ==> i == j
  {
  }

  lemma LastAfterMoveAny<T>(s: seq<T>, i: nat)
    requires Distinct(s) && i < |s|
    ensures Moved(s, i)[|s| - 1] == s[|s| - 1] <==> i == 0 || i != |s| - 1
  {
    if i == 0 {
      MovedHead(s);
    } else {
      LastAfterMove(s, i);
      DistinctAt(s, i, |s| - 1);
    }
  }

  lemma IndexedMoved<V>(m: map<Key, Node<(Key, V)>>, nodes: seq<Node<(Key, V)>>, i: nat)
    requires Indexed(m, nodes) && i < |nodes|
    ensures Indexed(m, Moved(nodes, i))
  {
    MovedMembers(nodes, i);
    assert forall n :: n in nodes <==> n in Members(nodes);
    assert forall n :: n in Moved(nodes, i) <==> n in Members(Moved(nodes, i));
  }

  lemma MovedMembers<T>(s: seq<T>, i: nat)
    requires i < |s|
    ensures Members(Moved(s, i)) == Members(s)
  {
    forall x | x in s ensures x in Moved(s, i) {
      var j :| 0 <= j < |s| && s[j] == x;
      assert Moved(s, i)[if j == i then 0 else if j < i then j + 1 else j] == x;
    }
  }

  // ---------- whole runs ----------

  lemma RunStep<V>(size: nat, ops: seq<RecencyList.Op<V>>, i: nat)
    requires i < |ops|
    ensures RecencyList.Run(size, ops[..i + 1])
            == (var (s, outs) := RecencyList.Run(size, ops[..i]);
                var (s', out) := RecencyList.Step(s, size, ops[i]);
                (s', outs + [out]))
    ensures RecencyList.Adds(ops[..i + 1]) == RecencyList.Adds(ops[..i]) + if ops[i].AddOp? then 1 else 0
  {
    assert ops[..i + 1][..i] == ops[..i];
  }

  /** The code as shown over any operations at all: it answers as ShownRun says, up to and including the
      add that breaks it, if there is one. So, when no key is added while present, its answers are the
      intended ones, evicted pairs included, if and only if at each add to a full list the designated pair
      is the last one and each get of a listed key is of one whose latest add found a slot. */
  method RunAsShown<V>(size: nat, slots: nat, hash: Key -> nat, ops: seq<RecencyList.Op<V>>)
    returns (outs: seq<RecencyList.Out<V>>)
    requires size >= 1 && slots >= 1
    ensures outs == RecencyList.ShownRun(size, slots, ops).1
    ensures RecencyList.AddsAbsent(size, ops) ==>
              (outs == RecencyList.Run(size, ops).1 <==> RecencyList.Serves(size, slots, ops))
  {
    hide LinkedList.Links, Members, Pointing, Indexed, RecencyList.Step, RecencyList.ShownStep, RecencyList.AddsAbsent,
         RecencyList.Serves, HashMap.Budget, HashMap.Contents, DataOf, Leading, RecencyList.Run;
    if RecencyList.AddsAbsent(size, ops) {
      RecencyList.ShownExactly(size, slots, ops);
    }
    var c := new LruCache<V>(size, slots, hash);
    c.ValidRuns();
    NothingLeads(c.index.Contents(), c.list.nodes);
    outs := [];
    var i := 0;
    var broken := false;
    while i < |ops| && !broken
      invariant i <= |ops|
      invariant fresh(c) && fresh(c.list) && c.size == size
      invariant fresh(c.index) && fresh(c.index.entries) && forall n :: n in Members(c.list.nodes) ==> fresh(n)
      invariant RecencyList.ShownRun(size, slots, ops[..i]).1 == outs
      invariant broken ==> RecencyList.ShownRun(size, slots, ops[..i]).0.Broken?
      invariant !broken ==>
                  && c.Runs() && Leading(c.index.Contents(), c.list.nodes)
                  && RecencyList.ShownRun(size, slots, ops[..i]).0 == c.AsShown()
    {
      RecencyList.ShownPrefix(size, slots, ops, i);
      match ops[i] {
        case GetOp(k) =>
          var r := c.GetShown(k);
          outs := outs + [RecencyList.Got(r)];
        case AddOp(k, v) =>
          var evicted;
          evicted, broken := c.AddShown(k, v);
          outs := outs + [RecencyList.Added(evicted)];
      }
      i := i + 1;
    }
    if broken {
      RecencyList.BrokenForGood(size, slots, ops, i);
    } else {
      assert ops[..i] == ops;
    }
  }

  lemma NothingLeads<V>(m: map<Key, Node<(Key, V)>>, nodes: seq<Node<(Key, V)>>)
    requires m == map[]
    ensures Leading(m, nodes)
  {
  }

  /** The repaired twin answers every run as the intended cache does. */
  method RunRepaired<V>(size: nat, slots: nat, hash: Key -> nat, ops: seq<RecencyList.Op<V>>)
    returns (outs: seq<RecencyList.Out<V>>)
    requires 1 <= size <= slots
    ensures outs == RecencyList.Run(size, ops).1
  {
    hide LinkedList.Linked, Members, LruCache.IndexRight, RecencyList.Step, RecencyList.Harmless,
         HashMap.Budget, DataOf;
    var c := new LruCache<V>(size, slots, hash);
    outs := [];
    var i := 0;
    while i < |ops|
      invariant i <= |ops|
      invariant c.Valid() && c.size == size && fresh(c) && fresh(c.list)
      invariant fresh(c.index) && fresh(c.index.entries) && forall n :: n in Members(c.list.nodes) ==> fresh(n)
      invariant c.index.entries.Length >= size
      invariant (c.Contents(), outs) == RecencyList.Run(size, ops[..i])
    {
      RunStep(size, ops, i);
      match ops[i] {
        case GetOp(k) =>
          var r := c.GetRepaired(k);
          outs := outs + [RecencyList.Got(r)];
        case AddOp(k, v) =>
          var evicted := c.AddRepaired(k, v);
          outs := outs + [RecencyList.Added(evicted)];
      }
      i := i + 1;
    }
    assert ops[..i] == ops;
  }
}
