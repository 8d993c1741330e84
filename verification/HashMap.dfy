/**
 The open-addressing hash map, updated in place. Every method is equated with a function of module
 Probing, so whatever is proved there about those functions holds of this class.
 */
module HashTable {
  import opened Wrappers
  import opened Probing

  class HashMap<V> {
    const hash: Key -> nat
    const entries: array<Entry<V>>

    ghost predicate Valid()
      reads this, entries
    {
      WellFormed(entries[..], hash)
    }

    /** The finite map this table stands for. */
    ghost function Contents(): map<Key, V>
      reads this, entries
    {
      View(entries[..])
    }

    /** How many slots have never been used: what is left of the slot budget. */
    ghost function Budget(): nat
      reads this, entries
    {
      |Virgins(entries[..])|
    }

    constructor (size: nat, hash: Key -> nat)
      requires size > 0
      ensures Valid() && fresh(entries) && entries.Length == size && this.hash == hash
      ensures entries[..] == Empty(size)
      ensures Contents() == map[] && Budget() == size
    {
      this.hash := hash;
      entries := new Entry<V>[size](_ => Virgin);
      new;
      EmptyTable<V>(size, hash);
      assert entries[..] == Empty(size);
    }

    method Set(key: Key, v: V) returns (ok: bool)
      requires Valid()
      modifies entries
      ensures Valid()
      ensures (entries[..], ok) == Store(old(entries[..]), hash, key, v)
      ensures ok <==> key in old(Contents()) || old(Budget()) > 0
      ensures Contents() == if ok then old(Contents())[key := v] else old(Contents())
      ensures Budget() == old(Budget()) - (if ok && key !in old(Contents()) then 1 else 0)
    {
      StoreIsMapUpdate(entries[..], hash, key, v);
      ghost var es := entries[..];
      var n := entries.Length;
      var start := hash(key) % n;
      var i := 0;
      while i < n
        invariant i <= n
        invariant entries[..] == es
        invariant Probe(es, start, key, 0) == Probe(es, start, key, i)
      {
        ProbeAtIsModular(start, i, n);
        var p := (start + i) % n;
        if !entries[p].Virgin? {
          if entries[p].Live? && entries[p].key == key {
            entries[p] := Live(key, v);
            return true;
          }
          i := i + 1;
          continue;
        }
        entries[p] := Live(key, v);
        return true;
      }
      return false;
    }

    method Get(key: Key) returns (r: Option<V>)
      requires Valid()
      ensures r == Lookup(entries[..], hash, key)
      ensures r == if key in Contents() then Some(Contents()[key]) else None
    {
      LookupIsMapLookup(entries[..], hash, key);
      ghost var es := entries[..];
      var n := entries.Length;
      var start := hash(key) % n;
      var i := 0;
      while i < n
        invariant i <= n
        invariant Probe(es, start, key, 0) == Probe(es, start, key, i)
      {
        ProbeAtIsModular(start, i, n);
        var p := (start + i) % n;
        if !entries[p].Virgin? {
          if entries[p].Live? && entries[p].key == key {
            return Some(entries[p].data);
          }
          i := i + 1;
          continue;
        }
        return None;
      }
      return None;
    }

    method Delete(key: Key) returns (ok: bool)
      requires Valid()
      modifies entries
      ensures Valid()
      ensures (entries[..], ok) == Remove(old(entries[..]), hash, key)
      ensures ok <==> key in old(Contents())
      ensures Contents() == old(Contents()) - {key}
      ensures Budget() == old(Budget())
    {
      RemoveIsMapRemoval(entries[..], hash, key);
      ghost var es := entries[..];
      var n := entries.Length;
      var start := hash(key) % n;
      var i := 0;
      while i < n
        invariant i <= n
        invariant entries[..] == es
        invariant Probe(es, start, key, 0) == Probe(es, start, key, i)
      {
        ProbeAtIsModular(start, i, n);
        var p := (start + i) % n;
        if !entries[p].Virgin? {
          if entries[p].Live? && entries[p].key == key {
            entries[p] := Tombstone;
            return true;
          }
          i := i + 1;
          continue;
        }
        return false;
      }
      return false;
    }

    /** The cleaned-up copy that replaces this table; the source then destroys the original. */
    method Rehash() returns (m: HashMap<V>)
      requires Valid()
      ensures fresh(m) && fresh(m.entries) && m.Valid()
      ensures m.hash == hash && m.entries.Length == entries.Length
      ensures m.entries[..] == Rehashed(entries[..], hash)
      ensures m.Contents() == Contents() && NoTombstones(m.entries[..])
      ensures m.Budget() == entries.Length - |Contents()|
    {
      ghost var es := entries[..];
      RehashKeepsMap(es, hash);
      m := new HashMap(entries.Length, hash);
      var i := 0;
      while i < entries.Length
        invariant i <= entries.Length
        invariant fresh(m) && fresh(m.entries) && m.Valid() && m.hash == hash
        invariant m.entries.Length == entries.Length && entries[..] == es
        invariant Reinsert(es, hash, m.entries[..], i) == Rehashed(es, hash)
      {
        var e := entries[i];
        if e.Live? {
          var _ := m.Set(e.key, e.data);
        }
        i := i + 1;
      }
    }
  }
}
