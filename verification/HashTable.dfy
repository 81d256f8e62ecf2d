/** The growable hash table and the set built on it: `hash_table` and `hash_set`. */
module HashTable {
  import opened Arith
  import opened LinearProbing

  const DEFAULT_SCALE_FACTOR: nat := 4
  const MAX_SCAN_SCALE_FACTOR: nat := 16

  datatype StoreState = Skipped | StoredNew | StoredOverwrite

  datatype StorePolicy = OverwritePrevEntry | KeepPrevEntry

  /** `HASH_TABLE_MAX_SIZES`: three quarters of the capacity, rounded down. */
  function MaxSize(scalingFactor: nat): nat {
    3 * Pow2(scalingFactor) / 4
  }

  lemma {:induction false} Pow2AtLeast16(n: nat)
    requires n >= DEFAULT_SCALE_FACTOR
    ensures Pow2(n) >= 16
  {
    if n == 4 {
      assert Pow2(4) == 2 * Pow2(3) && Pow2(3) == 2 * Pow2(2) && Pow2(2) == 2 * Pow2(1);
    } else {
      Pow2AtLeast16(n - 1);
    }
  }

  class Table<K(==, !new), V(==)> {
    const defaultKey: K
    const defaultValue: V
    const hash: K -> nat
    var slots: array<Entry<K, V>>
    var numEntries: nat
    var scalingFactor: nat
    var growing: bool

    ghost predicate SlotsValid()
      reads this, slots
    {
      && scalingFactor >= DEFAULT_SCALE_FACTOR && slots.Length == Pow2(scalingFactor)
      && WellFormed(slots[..], defaultKey, hash)
    }

    /** The map that the table stands for. */
    ghost function View(): map<K, V>
      requires SlotsValid()
      reads this, slots
    {
      Contents(slots[..], defaultKey)
    }

    ghost function Used(): nat
      reads this, slots
    {
      Count(slots[..], defaultKey)
    }

    /** Between operations the count is right and at most one over the load limit. */
    ghost predicate Valid()
      reads this, slots
    {
      && SlotsValid() && !growing
      && numEntries == Used() <= MaxSize(scalingFactor) + 1
    }

    constructor (defaultKey: K, defaultValue: V, hash: K -> nat)
      ensures Valid() && View() == map[] && fresh(slots)
      ensures this.defaultKey == defaultKey && this.defaultValue == defaultValue && this.hash == hash
    {
      this.defaultKey, this.defaultValue, this.hash := defaultKey, defaultValue, hash;
      numEntries, scalingFactor, growing := 0, DEFAULT_SCALE_FACTOR, false;
      slots := new Entry<K, V>[Pow2(DEFAULT_SCALE_FACTOR)](_ => Entry(defaultKey, defaultValue));
      new;
      EmptyIsWellFormed(slots[..], defaultKey, hash);
    }

    /** The probe loop of `insert`. */
    method Place(key: K, value: V, update: bool) returns (state: StoreState, scan: nat)
      requires SlotsValid() && key != defaultKey && Used() < slots.Length
      modifies slots
      ensures SlotsValid()
      ensures state == StoredNew <==> key !in old(View())
      ensures state == Skipped <==> key in old(View()) && !update
      ensures View() == if state == Skipped then old(View()) else old(View())[key := value]
      ensures Used() == old(Used()) + if state == StoredNew then 1 else 0
    {
      ghost var s := slots[..];
      var size := slots.Length;
      CountBound(s, defaultKey);
      ghost var hole :| 0 <= hole < size && s[hole].key == defaultKey;
      ghost var limit := Distance(hash(key), hole, size);
      DistanceReaches(hash(key), hole, size);
      var entryBase := hash(key);
      scan := 0;
      while true
        invariant scan <= limit && slots[..] == s
        invariant entryBase % size == Slot(hash(key), scan, size)
        invariant Passed(s, defaultKey, hash, key, scan)
        decreases limit - scan
      {
        entryBase := entryBase % size;
        var entry := slots[entryBase];
        if entry.key == defaultKey {
          EmptyMeansAbsent(s, defaultKey, hash, key, scan);
          InsertKeepsWellFormed(s, defaultKey, hash, key, value, scan);
          slots[entryBase] := Entry(key, value);
          assert slots[..] == s[entryBase := Entry(key, value)];
          return StoredNew, scan;
        }
        if entry.key == key {
          ContentsAt(s, defaultKey, entryBase);
          if update {
            UpdateKeepsWellFormed(s, defaultKey, hash, entryBase, value);
            slots[entryBase] := Entry(key, value);
            assert slots[..] == s[entryBase := Entry(key, value)];
            return StoredOverwrite, scan;
          }
          return Skipped, scan;
        }
        NextSlot(hash(key), scan, size);
        scan, entryBase := scan + 1, entryBase + 1;
      }
    }

    /** `insert`: place the entry, and grow if that took too long a scan. */
    method Insert(key: K, value: V, update: bool) returns (state: StoreState)
      requires SlotsValid() && key != defaultKey && Used() < slots.Length
      modifies this, slots
      ensures SlotsValid() && (slots == old(slots) || fresh(slots))
      ensures growing == old(growing) && numEntries == old(numEntries)
      ensures growing ==> slots == old(slots) && scalingFactor == old(scalingFactor)
      ensures scalingFactor >= old(scalingFactor)
      ensures state == StoredNew <==> key !in old(View())
      ensures state == Skipped <==> key in old(View()) && !update
      ensures View() == if state == Skipped then old(View()) else old(View())[key := value]
      ensures Used() == old(Used()) + if state == StoredNew then 1 else 0
      decreases if growing then 0 else 2
    {
      var scan;
      state, scan := Place(key, value, update);
      if MAX_SCAN_SCALE_FACTOR < scan && !growing {
        growing := true;
        Grow();
        growing := false;
      }
    }

    /** `grow`: twice the slots, the same map. */
    method Grow()
      requires SlotsValid() && growing
      modifies this
      ensures SlotsValid() && growing && fresh(slots)
      ensures scalingFactor == old(scalingFactor) + 1 && numEntries == old(numEntries)
      ensures View() == old(View()) && Used() == old(Used())
      decreases 1
    {
      hide Contents, Reachable, Count;
      var oldSlots := slots;
      ghost var s := oldSlots[..];
      slots := new Entry<K, V>[2 * oldSlots.Length](_ => Entry(defaultKey, defaultValue));
      scalingFactor := scalingFactor + 1;
      EmptyIsWellFormed(slots[..], defaultKey, hash);
      PrefixOfNothing(s, defaultKey);
      for i := 0 to oldSlots.Length
        invariant SlotsValid() && growing && fresh(slots)
        invariant scalingFactor == old(scalingFactor) + 1 && numEntries == old(numEntries)
        invariant oldSlots[..] == s && Unique(s[..i], defaultKey)
        invariant View() == Contents(s[..i], defaultKey) && Used() == Count(s[..i], defaultKey)
      {
        ContentsExtend(s, defaultKey, i);
        CountBound(s[..i], defaultKey);
        if oldSlots[i].key != defaultKey {
          var _ := Insert(oldSlots[i].key, oldSlots[i].value, true);
        }
      }
      assert s[..oldSlots.Length] == s;
    }

    /** `find` */
    method Find(key: K) returns (value: V)
      requires Valid()
      ensures value == if key in View() then View()[key] else defaultValue
    {
      ghost var s := slots[..];
      var size := slots.Length;
      Pow2AtLeast16(scalingFactor);
      CountBound(s, defaultKey);
      ghost var hole :| 0 <= hole < size && s[hole].key == defaultKey;
      ghost var limit := Distance(hash(key), hole, size);
      DistanceReaches(hash(key), hole, size);
      var entryBase := hash(key);
      ghost var scan := 0;
      while true
        invariant scan <= limit && entryBase % size == Slot(hash(key), scan, size)
        invariant Passed(s, defaultKey, hash, key, scan)
        decreases limit - scan
      {
        entryBase := entryBase % size;
        var entry := slots[entryBase];
        if entry.key == defaultKey {
          if key != defaultKey {
            EmptyMeansAbsent(s, defaultKey, hash, key, scan);
          }
          return defaultValue;
        } else if entry.key == key {
          ContentsAt(s, defaultKey, entryBase);
          return entry.value;
        }
        NextSlot(hash(key), scan, size);
        scan, entryBase := scan + 1, entryBase + 1;
      }
    }

    /** `load`: a key that is absent, or stored with the default value, is not found. */
    method Load(key: K) returns (found: bool, value: V)
      requires Valid()
      ensures found <==> key in View() && View()[key] != defaultValue
      ensures value == if key in View() then View()[key] else defaultValue
    {
      value := Find(key);
      found := value != defaultValue;
    }

    /** `store`: grow if the load limit is passed, then insert. */
    method Store(key: K, value: V, policy: StorePolicy := OverwritePrevEntry) returns (written: bool)
      requires Valid() && key != defaultKey
      modifies this, slots
      ensures Valid() && (slots == old(slots) || fresh(slots))
      ensures written <==> policy == OverwritePrevEntry || key !in old(View())
      ensures View() == if written then old(View())[key := value] else old(View())
      ensures numEntries == old(numEntries) + if key in old(View()) then 0 else 1
    {
      var maxNumEntries := MaxSize(scalingFactor);
      Pow2AtLeast16(scalingFactor);
      if numEntries > maxNumEntries {
        growing := true;
        Grow();
        growing := false;
      }
      ghost var roomy := scalingFactor;
      Pow2AtLeast16(scalingFactor);
      var state := Insert(key, value, policy == OverwritePrevEntry);
      Pow2Monotone(roomy, scalingFactor);
      if state == StoredNew {
        numEntries := numEntries + 1;
        return true;
      }
      return state != Skipped;
    }
  }

  lemma PrefixOfNothing<K, V>(s: seq<Entry<K, V>>, empty: K)
    ensures Unique(s[..0], empty) && Contents(s[..0], empty) == map[] && Count(s[..0], empty) == 0
  {
  }

  /** `hash_set`: a table of flags, where removal stores `false`. */
  class Set<K(==, !new)> {
    const table: Table<K, bool>

    ghost predicate Valid()
      reads this, table, table.slots
    {
      table.Valid() && !table.defaultValue
    }

    ghost function Members(): set<K>
      requires Valid()
      reads this, table, table.slots
    {
      set k | k in table.View() && table.View()[k]
    }

    constructor (defaultKey: K, hash: K -> nat)
      ensures Valid() && Members() == {} && table.defaultKey == defaultKey
      ensures fresh(table) && fresh(table.slots)
    {
      table := new Table(defaultKey, false, hash);
    }

    method Add(key: K)
      requires Valid() && key != table.defaultKey
      modifies table, table.slots
      ensures Valid() && Members() == old(Members()) + {key}
      ensures table.slots == old(table.slots) || fresh(table.slots)
    {
      var _ := table.Store(key, true);
    }

    method Remove(key: K)
      requires Valid() && key != table.defaultKey
      modifies table, table.slots
      ensures Valid() && Members() == old(Members()) - {key}
      ensures table.slots == old(table.slots) || fresh(table.slots)
    {
      var _ := table.Store(key, false);
    }

    method Contains(key: K) returns (found: bool)
      requires Valid()
      ensures found <==> key in Members()
    {
      found := table.Find(key);
    }
  }
}
