/**
 The slot table behind the hash map: linear probing over a circular table with tombstones.
 Everything here is about the value of the slot array; HashMap.dfy has the class that
 updates the array in place and equates each of its methods with a function of this module.
 The hash function is arbitrary.
 */
module Probing {
  import opened Wrappers

  type Key = string

  // The flags `exists` and `is_tombstone` of the source are never both set, so an entry is
  // in one of three conditions. Key and data are only meaningful while it exists.
  datatype Entry<V> = Virgin | Tombstone | Live(key: Key, data: V)

  // ---------- the circular probe path ----------

  function Home(hash: Key -> nat, key: Key, n: nat): nat
    requires n > 0
  {
    hash(key) % n
  }

  /** The slot inspected in round i when probing starts at `start`: (start + i) mod n. */
  function ProbeAt(start: nat, i: nat, n: nat): (p: nat)
    requires start < n && i < n
    ensures p < n
  {
    if start + i < n then start + i else start + i - n
  }

  lemma ProbeAtIsModular(start: nat, i: nat, n: nat)
    requires start < n && i < n
    ensures ProbeAt(start, i, n) == (start + i) % n
  {
    var q, r := (start + i) / n, (start + i) % n;
    assert start + i == q * n + r;
    assert q >= 2 ==> q * n >= 2 * n;
  }

  /** The round in which slot p is inspected. */
  function Dist(start: nat, p: nat, n: nat): (d: nat)
    requires start < n && p < n
    ensures d < n
  {
    if start <= p then p - start else p - start + n
  }

  lemma ProbeAtDist(start: nat, p: nat, n: nat)
    requires start < n && p < n
    ensures ProbeAt(start, Dist(start, p, n), n) == p
  {
  }

  lemma DistProbeAt(start: nat, i: nat, n: nat)
    requires start < n && i < n
    ensures Dist(start, ProbeAt(start, i, n), n) == i
  {
  }

  // ---------- probing ----------

  predicate Stops<V>(e: Entry<V>, key: Key) {
    e.Virgin? || (e.Live? && e.key == key)
  }

  /** The first round at or after i in which probing for `key` stops; |es| if there is none. */
  function Probe<V>(es: seq<Entry<V>>, start: nat, key: Key, i: nat): (r: nat)
    requires start < |es| && i <= |es|
    ensures i <= r <= |es|
    ensures forall j :: i <= j < r ==> !Stops(es[ProbeAt(start, j, |es|)], key)
    ensures r < |es| ==> Stops(es[ProbeAt(start, r, |es|)], key)
    decreases |es| - i
  {
    if i == |es| || Stops(es[ProbeAt(start, i, |es|)], key) then i
    else Probe(es, start, key, i + 1)
  }

  function Lookup<V>(es: seq<Entry<V>>, hash: Key -> nat, key: Key): Option<V>
    requires |es| > 0
  {
    var start := Home(hash, key, |es|);
    var r := Probe(es, start, key, 0);
    if r < |es| && es[ProbeAt(start, r, |es|)].Live? then Some(es[ProbeAt(start, r, |es|)].data)
    else None
  }

  function Store<V>(es: seq<Entry<V>>, hash: Key -> nat, key: Key, v: V): (r: (seq<Entry<V>>, bool))
    requires |es| > 0
    ensures |r.0| == |es|
  {
    var start := Home(hash, key, |es|);
    var r := Probe(es, start, key, 0);
    if r < |es| then (es[ProbeAt(start, r, |es|) := Live(key, v)], true) else (es, false)
  }

  function Remove<V>(es: seq<Entry<V>>, hash: Key -> nat, key: Key): (r: (seq<Entry<V>>, bool))
    requires |es| > 0
    ensures |r.0| == |es|
  {
    var start := Home(hash, key, |es|);
    var r := Probe(es, start, key, 0);
    if r < |es| && es[ProbeAt(start, r, |es|)].Live? then
      (es[ProbeAt(start, r, |es|) := Tombstone], true)
    else (es, false)
  }

  // ---------- the abstract map ----------

  ghost predicate HoldsAt<V>(es: seq<Entry<V>>, k: Key, i: int) {
    0 <= i < |es| && es[i].Live? && es[i].key == k
  }

  ghost function Keys<V>(es: seq<Entry<V>>): set<Key> {
    set i | 0 <= i < |es| && es[i].Live? :: es[i].key
  }

  ghost function SlotOf<V>(es: seq<Entry<V>>, k: Key): (i: int)
    requires k in Keys(es)
    ensures HoldsAt(es, k, i)
  {
    assert exists i :: HoldsAt(es, k, i) by {
      var i :| 0 <= i < |es| && es[i].Live? && es[i].key == k;
      assert HoldsAt(es, k, i);
    }
    var i :| HoldsAt(es, k, i);
    i
  }

  ghost function View<V>(es: seq<Entry<V>>): map<Key, V> {
    map k | k in Keys(es) :: es[SlotOf(es, k)].data
  }

  ghost function Virgins<V>(es: seq<Entry<V>>): set<int> {
    set i | 0 <= i < |es| && es[i].Virgin?
  }

  ghost predicate UniqueKeys<V>(es: seq<Entry<V>>) {
    forall i, j :: 0 <= i < |es| && 0 <= j < |es| && es[i].Live? && es[j].Live? && es[i].key == es[j].key
                   ==> i == j
  }

  /** No virgin slot on the circular path that leads from a live key's home slot to the key. */
  ghost predicate NoGap<V>(es: seq<Entry<V>>, hash: Key -> nat) {
    forall p, q :: 0 <= p < |es| && 0 <= q < |es| && es[p].Live?
                   && Dist(Home(hash, es[p].key, |es|), q, |es|) < Dist(Home(hash, es[p].key, |es|), p, |es|)
                   ==> !es[q].Virgin?
  }

  ghost predicate WellFormed<V>(es: seq<Entry<V>>, hash: Key -> nat) {
    |es| > 0 && UniqueKeys(es) && NoGap(es, hash)
  }

  lemma ViewAt<V>(es: seq<Entry<V>>, i: int)
    requires UniqueKeys(es)
    requires 0 <= i < |es| && es[i].Live?
    ensures es[i].key in View(es) && View(es)[es[i].key] == es[i].data
  {
    assert HoldsAt(es, es[i].key, i);
    assert HoldsAt(es, es[i].key, SlotOf(es, es[i].key));
  }

  /** Where probing ends: at the key's own slot if the key is live; otherwise at a virgin slot,
      or nowhere when no slot of the whole table is virgin. */
  lemma ProbeEnds<V>(es: seq<Entry<V>>, hash: Key -> nat, key: Key)
    requires WellFormed(es, hash)
    ensures var start := Home(hash, key, |es|); var r := Probe(es, start, key, 0);
            if key in View(es) then r < |es| && HoldsAt(es, key, ProbeAt(start, r, |es|))
            else if r < |es| then es[ProbeAt(start, r, |es|)].Virgin?
            else Virgins(es) == {}
  {
    var n := |es|;
    var start := Home(hash, key, n);
    var r := Probe(es, start, key, 0);
    if key in View(es) {
      var p := SlotOf(es, key);
      var d := Dist(start, p, n);
      ProbeAtDist(start, p, n);
      assert r <= d && Home(hash, es[p].key, n) == start;
      var q := ProbeAt(start, r, n);
      DistProbeAt(start, r, n);
      assert es[q].Virgin? ==> r != d;
    } else if r < n {
      var q := ProbeAt(start, r, n);
      DistProbeAt(start, r, n);
      if es[q].Live? {
        ViewAt(es, q);
      }
    } else {
      forall p | 0 <= p < n ensures !es[p].Virgin? {
        ProbeAtDist(start, p, n);
        assert !Stops(es[ProbeAt(start, Dist(start, p, n), n)], key);
      }
    }
  }

  // ---------- what the three operations do to the abstract map ----------

  /** hashmap_get is map lookup. */
  lemma LookupIsMapLookup<V>(es: seq<Entry<V>>, hash: Key -> nat, key: Key)
    requires WellFormed(es, hash)
    ensures Lookup(es, hash, key) == if key in View(es) then Some(View(es)[key]) else None
  {
    ProbeEnds(es, hash, key);
    var start := Home(hash, key, |es|);
    var r := Probe(es, start, key, 0);
    if key in View(es) {
      ViewAt(es, ProbeAt(start, r, |es|));
    }
  }

  /** Writing one slot, when it is the key's own slot or a reachable virgin one. */
  lemma WriteSlot<V>(es: seq<Entry<V>>, hash: Key -> nat, key: Key, v: V, q: nat)
    requires WellFormed(es, hash) && q < |es|
    requires HoldsAt(es, key, q) || (es[q].Virgin? && key !in View(es))
    requires forall p :: 0 <= p < |es| && Dist(Home(hash, key, |es|), p, |es|) < Dist(Home(hash, key, |es|), q, |es|)
                         ==> !es[p].Virgin?
    ensures WellFormed(es[q := Live(key, v)], hash)
    ensures View(es[q := Live(key, v)]) == View(es)[key := v]
    ensures Virgins(es[q := Live(key, v)]) == Virgins(es) - {q}
  {
    var es' := es[q := Live(key, v)];
    forall i | 0 <= i < |es| && i != q && es'[i].Live? ensures es'[i].key != key {
      assert es[i] == es'[i];
      if es'[i].key == key {
        ViewAt(es, i);
      }
    }
    assert UniqueKeys(es');
    SameBindings(es, es', key, q);
  }

  lemma SameBindings<V>(es: seq<Entry<V>>, es': seq<Entry<V>>, key: Key, q: nat)
    requires UniqueKeys(es) && UniqueKeys(es') && q < |es|
    requires |es'| == |es| && es' == es[q := es'[q]]
    requires es[q].Live? ==> es[q].key == key
    requires es'[q].Live? ==> es'[q].key == key
    requires forall i :: 0 <= i < |es| && i != q && es[i].Live? ==> es[i].key != key
    ensures View(es') == if es'[q].Live? then View(es)[key := es'[q].data] else View(es) - {key}
  {
    assert forall i :: 0 <= i < |es| && i != q ==> es'[i] == es[i];
    var target := if es'[q].Live? then View(es)[key := es'[q].data] else View(es) - {key};
    forall k ensures k in View(es') <==> k in target {
      if k in View(es') {
        var i := SlotOf(es', k);
        if i != q { ViewAt(es, i); }
      }
      if k in target && k != key {
        var i := SlotOf(es, k);
        ViewAt(es', i);
      }
      if k == key && es'[q].Live? { ViewAt(es', q); }
    }
    forall k | k in View(es') ensures View(es')[k] == target[k] {
      var i := SlotOf(es', k);
      if i != q { ViewAt(es, i); }
    }
  }

  /** hashmap_set: it succeeds exactly when the key is present or a virgin slot is left. On success
      the map is updated at the key, and a virgin slot is consumed exactly if the key was absent. */
  lemma StoreIsMapUpdate<V>(es: seq<Entry<V>>, hash: Key -> nat, key: Key, v: V)
    requires WellFormed(es, hash)
    ensures var (es', ok) := Store(es, hash, key, v);
            && WellFormed(es', hash)
            && (ok <==> key in View(es) || Virgins(es) != {})
            && (ok ==> View(es') == View(es)[key := v])
            && (!ok ==> es' == es)
            && |Virgins(es')| == |Virgins(es)| - (if ok && key !in View(es) then 1 else 0)
            && Virgins(es') <= Virgins(es)
  {
    ProbeEnds(es, hash, key);
    var n := |es|;
    var start := Home(hash, key, n);
    var r := Probe(es, start, key, 0);
    if r < n {
      var q := ProbeAt(start, r, n);
      DistProbeAt(start, r, n);
      forall p | 0 <= p < n && Dist(start, p, n) < Dist(start, q, n) ensures !es[p].Virgin? {
        ProbeAtDist(start, p, n);
        assert !Stops(es[ProbeAt(start, Dist(start, p, n), n)], key);
      }
      WriteSlot(es, hash, key, v, q);
      if key !in View(es) {
        assert q in Virgins(es);
      }
    }
  }

  /** Turning a live slot into a tombstone. */
  lemma BurySlot<V>(es: seq<Entry<V>>, hash: Key -> nat, key: Key, q: nat)
    requires WellFormed(es, hash) && HoldsAt(es, key, q)
    ensures WellFormed(es[q := Tombstone], hash)
    ensures View(es[q := Tombstone]) == View(es) - {key}
    ensures Virgins(es[q := Tombstone]) == Virgins(es)
  {
    SameBindings(es, es[q := Tombstone], key, q);
  }

  lemma RemoveAbsent<K, V>(m: map<K, V>, k: K)
    requires k !in m
    ensures m - {k} == m
  {
  }

  /** hashmap_delete: it succeeds exactly when the key is present, forgets that key only, and never
      gives a virgin slot back. */
  lemma RemoveIsMapRemoval<V>(es: seq<Entry<V>>, hash: Key -> nat, key: Key)
    requires WellFormed(es, hash)
    ensures var (es', ok) := Remove(es, hash, key);
            && WellFormed(es', hash)
            && (ok <==> key in View(es))
            && View(es') == View(es) - {key}
            && Virgins(es') == Virgins(es)
  {
    hide WellFormed, View, Virgins;
    ProbeEnds(es, hash, key);
    if key in View(es) {
      BurySlot(es, hash, key, ProbeAt(Home(hash, key, |es|), Probe(es, Home(hash, key, |es|), key, 0), |es|));
    } else {
      RemoveAbsent(View(es), key);
    }
  }

  // ---------- whole histories ----------

  datatype Op<V> = Set(key: Key, value: V) | Delete(key: Key)

  function Empty<V>(n: nat): seq<Entry<V>> {
    seq(n, _ => Virgin)
  }

  function Step<V>(es: seq<Entry<V>>, hash: Key -> nat, op: Op<V>): (r: (seq<Entry<V>>, bool))
    requires |es| > 0
    ensures |r.0| == |es|
  {
    match op
    case Set(k, v) => Store(es, hash, k, v)
    case Delete(k) => Remove(es, hash, k)
  }

  /** The slots after running `ops` on a new table of n slots. */
  function Run<V>(n: nat, hash: Key -> nat, ops: seq<Op<V>>): (es: seq<Entry<V>>)
    requires n > 0
    ensures |es| == n
  {
    if ops == [] then Empty(n)
    else Step(Run(n, hash, ops[..|ops| - 1]), hash, ops[|ops| - 1]).0
  }

  /** Whether the last operation of the history reported success. */
  predicate LastOk<V>(n: nat, hash: Key -> nat, ops: seq<Op<V>>)
    requires n > 0 && ops != []
  {
    Step(Run(n, hash, ops[..|ops| - 1]), hash, ops[|ops| - 1]).1
  }

  /** The value `key` was last given by a successful set and has not been deleted since. */
  function LastWritten<V>(n: nat, hash: Key -> nat, ops: seq<Op<V>>, key: Key): Option<V>
    requires n > 0
  {
    if ops == [] then None
    else
      var last := ops[|ops| - 1];
      if last.key == key && LastOk(n, hash, ops) then
        (match last case Set(_, v) => Some(v) case Delete(_) => None)
      else LastWritten(n, hash, ops[..|ops| - 1], key)
  }

  /** How many sets of the history succeeded on a key that was absent at the time. */
  function FreshSets<V>(n: nat, hash: Key -> nat, ops: seq<Op<V>>): nat
    requires n > 0
  {
    if ops == [] then 0
    else
      var before := ops[..|ops| - 1];
      var last := ops[|ops| - 1];
      FreshSets(n, hash, before)
      + if last.Set? && LastOk(n, hash, ops) && LastWritten(n, hash, before, last.key).None? then 1 else 0
  }

  lemma EmptyTable<V>(n: nat, hash: Key -> nat)
    requires n > 0
    ensures WellFormed(Empty<V>(n), hash) && View(Empty<V>(n)) == map[] && |Virgins(Empty<V>(n))| == n
  {
    AllVirgin<V>(n);
  }

  lemma {:induction false} AllVirgin<V>(n: nat)
    ensures |Virgins(Empty<V>(n))| == n
  {
    if n > 0 {
      AllVirgin<V>(n - 1);
      assert Virgins(Empty<V>(n)) == Virgins(Empty<V>(n - 1)) + {n - 1};
    }
  }

  ghost function Get<K, V>(m: map<K, V>, k: K): Option<V> {
    if k in m then Some(m[k]) else None
  }

  /** After any history of sets and deletes, under any hash function: the table is well formed, its
      map gives each key the value last written and not deleted since, and exactly one slot was
      used up by each successful set of an absent key, whatever was deleted in between. */
  lemma {:induction false} HistoryInvariant<V>(n: nat, hash: Key -> nat, ops: seq<Op<V>>)
    requires n > 0
    ensures WellFormed(Run(n, hash, ops), hash)
    ensures forall k :: Get(View(Run(n, hash, ops)), k) == LastWritten(n, hash, ops, k)
    ensures |Virgins(Run(n, hash, ops))| == n - FreshSets(n, hash, ops)
  {
    if ops == [] {
      EmptyTable<V>(n, hash);
    } else {
      var before, last := ops[..|ops| - 1], ops[|ops| - 1];
      HistoryInvariant(n, hash, before);
      var es, es' := Run(n, hash, before), Run(n, hash, ops);
      assert Get(View(es), last.key) == LastWritten(n, hash, before, last.key);
      StepOnView(es, hash, last);
      forall k ensures Get(View(es'), k) == LastWritten(n, hash, ops, k) {
        assert Get(View(es), k) == LastWritten(n, hash, before, k);
      }
    }
  }

  lemma StepOnView<V>(es: seq<Entry<V>>, hash: Key -> nat, op: Op<V>)
    requires WellFormed(es, hash)
    ensures var (es', ok) := Step(es, hash, op);
            && WellFormed(es', hash)
            && (forall k :: Get(View(es'), k)
                            == if ok && k == op.key then if op.Set? then Some(op.value) else None
                               else Get(View(es), k))
            && |Virgins(es')| == |Virgins(es)| - (if op.Set? && ok && Get(View(es), op.key).None? then 1 else 0)
  {
    hide WellFormed, View, Virgins, Store, Remove;
    match op {
      case Set(k, v) =>
        StoreIsMapUpdate(es, hash, k, v);
        GetAfterUpdate(View(es), k, v);
      case Delete(k) =>
        RemoveIsMapRemoval(es, hash, k);
        GetAfterRemoval(View(es), k);
    }
  }

  lemma GetAfterUpdate<K, V>(m: map<K, V>, key: K, v: V)
    ensures forall k :: Get(m[key := v], k) == if k == key then Some(v) else Get(m, k)
  {
    forall k ensures Get(m[key := v], k) == if k == key then Some(v) else Get(m, k) {
      if k == key {
        assert m[key := v][k] == v;
      }
    }
  }

  lemma GetAfterRemoval<K, V>(m: map<K, V>, key: K)
    ensures forall k :: Get(m - {key}, k) == if k == key then None else Get(m, k)
  {
  }

  /** hashmap_get after any history returns exactly the last value set and not since deleted. */
  lemma GetReturnsLastWritten<V>(n: nat, hash: Key -> nat, ops: seq<Op<V>>, key: Key)
    requires n > 0
    ensures Lookup(Run(n, hash, ops), hash, key) == LastWritten(n, hash, ops, key)
  {
    HistoryInvariant(n, hash, ops);
    LookupIsMapLookup(Run(n, hash, ops), hash, key);
  }

  /** The slot budget: after any history, setting an absent key succeeds if and only if fewer than n
      sets of absent keys have succeeded before, however many deletes there were. */
  lemma SlotBudget<V>(n: nat, hash: Key -> nat, ops: seq<Op<V>>, key: Key, v: V)
    requires n > 0
    requires Lookup(Run(n, hash, ops), hash, key) == None
    ensures Store(Run(n, hash, ops), hash, key, v).1 <==> FreshSets(n, hash, ops) < n
  {
    HistoryInvariant(n, hash, ops);
    LookupIsMapLookup(Run(n, hash, ops), hash, key);
    StoreIsMapUpdate(Run(n, hash, ops), hash, key, v);
  }

  // ---------- rehashing ----------

  /** The table that results from setting the live entries of `es` from slot i on, in slot order. */
  function Reinsert<V>(es: seq<Entry<V>>, hash: Key -> nat, into: seq<Entry<V>>, i: nat): (r: seq<Entry<V>>)
    requires |into| > 0 && i <= |es|
    ensures |r| == |into|
    decreases |es| - i
  {
    if i == |es| then into
    else Reinsert(es, hash, if es[i].Live? then Store(into, hash, es[i].key, es[i].data).0 else into, i + 1)
  }

  function Rehashed<V>(es: seq<Entry<V>>, hash: Key -> nat): (r: seq<Entry<V>>)
    requires |es| > 0
    ensures |r| == |es|
  {
    Reinsert(es, hash, Empty(|es|), 0)
  }

  ghost predicate NoTombstones<V>(es: seq<Entry<V>>) {
    forall i :: 0 <= i < |es| ==> !es[i].Tombstone?
  }

  /** The bindings of the slots below i. */
  ghost function ViewBelow<V>(es: seq<Entry<V>>, i: nat): map<Key, V>
    requires i <= |es|
  {
    View(es[..i])
  }

  lemma ViewBelowStep<V>(es: seq<Entry<V>>, i: nat)
    requires UniqueKeys(es) && i < |es|
    ensures es[i].Live? ==> es[i].key !in ViewBelow(es, i)
    ensures ViewBelow(es, i + 1) == if es[i].Live? then ViewBelow(es, i)[es[i].key := es[i].data] else ViewBelow(es, i)
  {
    var lo, hi := es[..i], es[..i + 1];
    var target := if es[i].Live? then View(lo)[es[i].key := es[i].data] else View(lo);
    assert es[i].Live? ==> es[i].key !in Keys(lo);
    if es[i].Live? {
      ViewAt(hi, i);
    }
    forall k | k in View(hi) ensures k in target && View(hi)[k] == target[k] {
      var j := SlotOf(hi, k);
      if j != i { ViewAt(lo, j); }
    }
    forall k | k in View(lo) ensures k in View(hi) {
      ViewAt(hi, SlotOf(lo, k));
    }
  }

  ghost predicate Reinserted<V>(es: seq<Entry<V>>, hash: Key -> nat, into: seq<Entry<V>>, i: nat) {
    && UniqueKeys(es) && i <= |es| == |into|
    && WellFormed(into, hash) && NoTombstones(into)
    && View(into) == ViewBelow(es, i)
    && |Virgins(into)| == |es| - |ViewBelow(es, i)| && |ViewBelow(es, i)| <= i
  }

  lemma ReinsertOne<V>(es: seq<Entry<V>>, hash: Key -> nat, into: seq<Entry<V>>, i: nat)
    requires Reinserted(es, hash, into, i) && i < |es| && es[i].Live?
    ensures Store(into, hash, es[i].key, es[i].data).1
    ensures Reinserted(es, hash, Store(into, hash, es[i].key, es[i].data).0, i + 1)
  {
    ViewBelowStep(es, i);
    var before := ViewBelow(es, i);
    SizeAfterUpdate(before, es[i].key, es[i].data);
    assert Virgins(into) != {};
    StoreIsMapUpdate(into, hash, es[i].key, es[i].data);
    StoreMakesNoTombstone(into, hash, es[i].key, es[i].data);
  }

  lemma SizeAfterUpdate<K, V>(m: map<K, V>, k: K, v: V)
    ensures |m[k := v]| == |m| + (if k in m then 0 else 1)
  {
    assert m[k := v].Keys == m.Keys + {k};
  }

  lemma StoreMakesNoTombstone<V>(es: seq<Entry<V>>, hash: Key -> nat, key: Key, v: V)
    requires |es| > 0 && NoTombstones(es)
    ensures NoTombstones(Store(es, hash, key, v).0)
  {
  }

  /** Every set done while rehashing succeeds: there is room because at most one slot is used per
      entry moved so far. */
  lemma {:induction false} ReinsertInvariant<V>(es: seq<Entry<V>>, hash: Key -> nat, into: seq<Entry<V>>, i: nat)
    requires Reinserted(es, hash, into, i)
    ensures var r := Reinsert(es, hash, into, i);
            && WellFormed(r, hash) && NoTombstones(r) && View(r) == View(es)
            && |Virgins(r)| == |es| - |View(es)|
    decreases |es| - i
  {
    if i == |es| {
      assert es[..i] == es;
    } else {
      ViewBelowStep(es, i);
      if es[i].Live? {
        ReinsertOne(es, hash, into, i);
        ReinsertInvariant(es, hash, Store(into, hash, es[i].key, es[i].data).0, i + 1);
      } else {
        ReinsertInvariant(es, hash, into, i + 1);
      }
    }
  }

  /** hashmap_rehash keeps the whole map, drops every tombstone and leaves exactly the slots that no
      live entry needs; no entry is lost although the result of each internal set is ignored. */
  lemma RehashKeepsMap<V>(es: seq<Entry<V>>, hash: Key -> nat)
    requires WellFormed(es, hash)
    ensures var r := Rehashed(es, hash);
            && WellFormed(r, hash) && NoTombstones(r) && View(r) == View(es)
            && |Virgins(r)| == |es| - |View(es)|
  {
    EmptyTable<V>(|es|, hash);
    ReinsertInvariant(es, hash, Empty(|es|), 0);
  }
}
