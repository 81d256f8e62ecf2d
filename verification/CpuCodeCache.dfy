/** The per-CPU mirror of the code cache: `cpu_private_code_cache`.

    Insertion probes until it meets the key or an empty slot; lookup gives up after
    `MAX_SCAN` slots.  There is no load limit: only a long scan makes the table grow. */
module CpuCodeCache {
  import opened LinearProbing
  import opened HT = HashTable

  const MAX_SCAN: nat := 8
  const MIN_DEFAULT_ENTRIES: nat := 128

  type Address = nat
  const NULL: Address := 0

  type Slots = seq<Entry<Address, Address>>

  /** Probing for `key` ends. */
  ghost predicate ProbeEnds(s: Slots, hash: Address -> nat, key: Address)
    requires |s| > 0
  {
    exists step: nat :: s[Slot(hash(key), step, |s|)].key in {NULL, key}
  }

  /** The loop of `insert` ends exactly when some slot is empty or the key is there. */
  lemma ProbeEndsExactly(s: Slots, hash: Address -> nat, key: Address)
    requires |s| > 0 && key != NULL
    ensures ProbeEnds(s, hash, key) <==>
            (exists i :: 0 <= i < |s| && s[i].key == NULL) || (exists i :: 0 <= i < |s| && s[i].key == key)
  {
    if i :| 0 <= i < |s| && s[i].key in {NULL, key} {
      DistanceReaches(hash(key), i, |s|);
      assert s[Slot(hash(key), Distance(hash(key), i, |s|), |s|)].key in {NULL, key};
    }
  }

  /** Where a stored key sits, as a number of probes. */
  ghost function Displacement(s: Slots, hash: Address -> nat, key: Address): (d: nat)
    requires Unique(s, NULL) && key in Contents(s, NULL)
    ensures d < |s| && s[Slot(hash(key), d, |s|)].key == key
  {
    var i :| 0 <= i < |s| && s[i].key == key;
    DistanceReaches(hash(key), i, |s|);
    Distance(hash(key), i, |s|)
  }

  /** Probing that has passed `steps` other keys has not yet come to the key's place. */
  lemma PassedIsBefore(s: Slots, hash: Address -> nat, key: Address, steps: nat)
    requires WellFormed(s, NULL, hash) && key in Contents(s, NULL) && Passed(s, NULL, hash, key, steps)
    ensures steps <= Displacement(s, hash, key)
  {
  }

  /** The probe that meets the key is the one at its displacement. */
  lemma MetAtDisplacement(s: Slots, hash: Address -> nat, key: Address, step: nat)
    requires WellFormed(s, NULL, hash) && key != NULL && step < |s|
    requires s[Slot(hash(key), step, |s|)].key == key
    ensures key in Contents(s, NULL) && Displacement(s, hash, key) == step
    ensures Contents(s, NULL)[key] == s[Slot(hash(key), step, |s|)].value
  {
    ContentsAt(s, NULL, Slot(hash(key), step, |s|));
    var d := Displacement(s, hash, key);
    assert Slot(hash(key), d, |s|) == Slot(hash(key), step, |s|);
    DistanceOfSlot(hash(key), step, |s|);
    DistanceOfSlot(hash(key), d, |s|);
  }

  /** What one call of `insert` does to the slots when it stops after `scan` probes. */
  ghost predicate Placement(s: Slots, hash: Address -> nat, key: Address, value: Address, update: bool,
                            scan: nat, s': Slots)
  {
    && scan < |s| && Passed(s, NULL, hash, key, scan)
    && var i := Slot(hash(key), scan, |s|);
       && (s[i].key == NULL || s[i].key == key)
       && s' == (if s[i].key == key && !update then s else s[i := Entry(key, value)])
  }

  lemma PlacementOnce(s: Slots, hash: Address -> nat, key: Address, value: Address, update: bool,
                      scan: nat, s': Slots, scan': nat, s'': Slots)
    requires Placement(s, hash, key, value, update, scan, s') && Placement(s, hash, key, value, update, scan', s'')
    ensures scan == scan' && s' == s''
  {
  }

  lemma Unchanged(s: Slots, hash: Address -> nat, key: Address, value: Address, update: bool, scan: nat, s': Slots)
    requires Placement(s, hash, key, value, update, scan, s')
    ensures forall t :: WithoutGrowth(s, hash, key, value, update, t) ==> scan <= MAX_SCAN && t == s'
  {
    forall t | WithoutGrowth(s, hash, key, value, update, t) ensures scan <= MAX_SCAN && t == s' {
      var scan' : nat :| scan' <= MAX_SCAN && Placement(s, hash, key, value, update, scan', t);
      PlacementOnce(s, hash, key, value, update, scan, s', scan', t);
    }
  }

  /** The slots that the first store allocates. */
  ghost function EmptyTable(): Slots { seq(MIN_DEFAULT_ENTRIES, _ => Entry(NULL, NULL)) }

  predicate Overwrites(policy: StorePolicy) { policy == OverwritePrevEntry }

  /** A call that does not grow the table leaves the slots as `insert` does. */
  ghost predicate WithoutGrowth(s: Slots, hash: Address -> nat, key: Address, value: Address, update: bool, s': Slots) {
    exists scan: nat :: scan <= MAX_SCAN && Placement(s, hash, key, value, update, scan, s')
  }

  class Cache {
    const hash: Address -> nat
    var entries: array?<Entry<Address, Address>>
    var growing: bool

    ghost predicate EntriesValid()
      reads this, entries
    {
      entries != null && entries.Length >= MIN_DEFAULT_ENTRIES && WellFormed(entries[..], NULL, hash)
    }

    ghost predicate Valid()
      reads this, entries
    {
      !growing && (entries != null ==> EntriesValid())
    }

    ghost function View(): map<Address, Address>
      requires entries != null ==> EntriesValid()
      reads this, entries
    {
      if entries == null then map[] else Contents(entries[..], NULL)
    }

    /** The slots that a store starts from. */
    ghost function Table(): Slots
      reads this, entries
    {
      if entries == null then EmptyTable() else entries[..]
    }

    /** What insertion of `key` needs, or it probes forever. */
    ghost predicate HasRoom(key: Address)
      requires entries != null ==> EntriesValid()
      reads this, entries
    {
      entries == null || key in View() || exists i :: 0 <= i < entries.Length && entries[i].key == NULL
    }

    constructor (hash: Address -> nat)
      ensures Valid() && View() == map[] && this.hash == hash && entries == null
    {
      this.hash, entries, growing := hash, null, false;
    }

    /** `find`: the stored destination, exactly when the key lies within `MAX_SCAN` probes. */
    method Find(key: Address) returns (dest: Address)
      requires Valid() && key != NULL
      ensures dest == if key in View() && Displacement(entries[..], hash, key) < MAX_SCAN
                      then View()[key] else NULL
    {
      if entries == null {
        return NULL;
      }
      ghost var s := entries[..];
      var index := hash(key);
      for m := 0 to MAX_SCAN
        invariant index % entries.Length == Slot(hash(key), m, entries.Length)
        invariant Passed(s, NULL, hash, key, m)
      {
        index := index % entries.Length;
        var entry := entries[index];
        if entry.key == NULL {
          EmptyMeansAbsent(s, NULL, hash, key, m);
          return NULL;
        }
        if key == entry.key {
          MetAtDisplacement(s, hash, key, m);
          return entry.value;
        }
        NextSlot(hash(key), m, entries.Length);
        index := index + 1;
      }
      if key in View() {
        PassedIsBefore(s, hash, key, MAX_SCAN);
      }
      return NULL;
    }

    /** The probe loop of `insert`: it stops at the key, or at the first free slot. */
    method Probe(key: Address) returns (scan: nat, index: nat)
      requires EntriesValid() && key != NULL && HasRoom(key)
      ensures scan < entries.Length && index == Slot(hash(key), scan, entries.Length)
      ensures Passed(entries[..], NULL, hash, key, scan) && entries[index].key in {NULL, key}
    {
      ghost var s := entries[..];
      ghost var stop :| 0 <= stop < |s| && s[stop].key in {NULL, key};
      ghost var limit := Distance(hash(key), stop, |s|);
      DistanceReaches(hash(key), stop, |s|);
      scan, index := 0, hash(key);
      while true
        invariant scan <= limit
        invariant index % entries.Length == Slot(hash(key), scan, entries.Length)
        invariant Passed(s, NULL, hash, key, scan)
        decreases limit - scan
      {
        index := index % entries.Length;
        if entries[index].key == NULL || entries[index].key == key {
          return;
        }
        NextSlot(hash(key), scan, entries.Length);
        scan, index := scan + 1, index + 1;
      }
    }

    /** The writes of `insert`. */
    method Place(key: Address, value: Address, update: bool) returns (state: StoreState, scan: nat)
      requires EntriesValid() && key != NULL && HasRoom(key)
      modifies entries
      ensures EntriesValid()
      ensures state == StoredNew <==> key !in old(View())
      ensures state == Skipped <==> key in old(View()) && !update
      ensures View() == if state == Skipped then old(View()) else old(View())[key := value]
      ensures Count(entries[..], NULL) == old(Count(entries[..], NULL)) + if state == StoredNew then 1 else 0
      ensures scan < entries.Length && entries[Slot(hash(key), scan, entries.Length)].key == key
      ensures Placement(old(entries[..]), hash, key, value, update, scan, entries[..])
    {
      ghost var s := entries[..];
      var index;
      scan, index := Probe(key);
      if entries[index].key == NULL {
        EmptyMeansAbsent(s, NULL, hash, key, scan);
        InsertKeepsWellFormed(s, NULL, hash, key, value, scan);
        entries[index] := Entry(key, value);
        assert entries[..] == s[index := Entry(key, value)];
        return StoredNew, scan;
      }
      ContentsAt(s, NULL, index);
      if update {
        UpdateKeepsWellFormed(s, NULL, hash, index, value);
        entries[index] := Entry(key, value);
        assert entries[..] == s[index := Entry(key, value)];
        return StoredOverwrite, scan;
      }
      state := Skipped;
    }

    /** `insert`: a key that ends up more than `MAX_SCAN` probes from home makes the table grow. */
    method Insert(key: Address, value: Address, update: bool) returns (state: StoreState)
      requires EntriesValid() && key != NULL && HasRoom(key)
      modifies this, entries
      ensures EntriesValid() && (entries == old(entries) || fresh(entries)) && growing == old(growing)
      ensures growing ==> entries == old(entries)
      ensures state == StoredNew <==> key !in old(View())
      ensures state == Skipped <==> key in old(View()) && !update
      ensures View() == if state == Skipped then old(View()) else old(View())[key := value]
      ensures Count(entries[..], NULL) == old(Count(entries[..], NULL)) + if state == StoredNew then 1 else 0
      ensures entries == old(entries) && !growing ==> Displacement(entries[..], hash, key) <= MAX_SCAN
      ensures forall s' :: WithoutGrowth(old(entries[..]), hash, key, value, update, s') ==> entries[..] == s'
      decreases if growing then 0 else 2
    {
      var scan;
      state, scan := Place(key, value, update);
      MetAtDisplacement(entries[..], hash, key, scan);
      Unchanged(old(entries[..]), hash, key, value, update, scan, entries[..]);
      if MAX_SCAN < scan && !growing {
        growing := true;
        Grow();
        growing := false;
      }
    }

    /** `grow`: twice the slots, the same map. */
    method Grow()
      requires EntriesValid() && growing
      modifies this
      ensures EntriesValid() && growing && fresh(entries) && entries.Length == 2 * old(entries.Length)
      ensures View() == old(View()) && Count(entries[..], NULL) == old(Count(entries[..], NULL))
      decreases 1
    {
      hide Contents, Reachable, Count;
      var oldEntries := entries;
      ghost var s := oldEntries[..];
      entries := new Entry<Address, Address>[2 * oldEntries.Length](_ => Entry(NULL, NULL));
      EmptyIsWellFormed(entries[..], NULL, hash);
      PrefixOfNothing(s, NULL);
      for i := 0 to oldEntries.Length
        invariant EntriesValid() && growing && fresh(entries) && entries.Length == 2 * |s|
        invariant oldEntries[..] == s && Unique(s[..i], NULL)
        invariant View() == Contents(s[..i], NULL) && Count(entries[..], NULL) == Count(s[..i], NULL)
      {
        ContentsExtend(s, NULL, i);
        CountBound(s[..i], NULL);
        CountBound(entries[..], NULL);
        if oldEntries[i].key != NULL {
          var _ := Insert(oldEntries[i].key, oldEntries[i].value, true);
        }
      }
      assert s[..oldEntries.Length] == s;
    }

    /** The slots that the first store allocates. */
    method AllocateEntries()
      requires Valid() && entries == null
      modifies this`entries
      ensures Valid() && entries != null && fresh(entries) && View() == map[] && Table() == old(Table())
      ensures forall key :: HasRoom(key)
    {
      entries := new Entry<Address, Address>[MIN_DEFAULT_ENTRIES](_ => Entry(NULL, NULL));
      EmptyIsWellFormed(entries[..], NULL, hash);
      assert entries[..] == EmptyTable();
      assert entries[0].key == NULL;
    }

    /** `store`, under the condition that insertion ends. */
    method Store(key: Address, value: Address, policy: StorePolicy) returns (written: bool)
      requires Valid() && key != NULL && HasRoom(key)
      modifies this, entries
      ensures Valid() && entries != null && (entries == old(entries) || fresh(entries))
      ensures written <==> policy == OverwritePrevEntry || key !in old(View())
      ensures View() == if written then old(View())[key := value] else old(View())
      ensures forall s' :: WithoutGrowth(old(Table()), hash, key, value, Overwrites(policy), s') ==> Table() == s'
    {
      hide Contents, Unique, Reachable, WithoutGrowth, Count;
      if entries == null {
        AllocateEntries();
      }
      assert Table() == old(Table());
      var state := Insert(key, value, Overwrites(policy));
      written := state != Skipped;
    }
  }

  // ----- where the cache falls short -----

  predicate DistinctKeys(keys: seq<Address>) {
    && (forall i :: 0 <= i < |keys| ==> keys[i] != NULL)
    && (forall i, j :: 0 <= i < j < |keys| ==> keys[i] != keys[j])
  }

  /** The tables that storing `keys` one after the other in an empty cache goes through, none
      of them by growing. */
  ghost predicate StoreRun(hash: Address -> nat, keys: seq<Address>, values: seq<Address>, tables: seq<Slots>) {
    && |keys| == |values| && |tables| == |keys| + 1 && tables[0] == EmptyTable()
    && forall i :: 0 <= i < |keys| ==> WithoutGrowth(tables[i], hash, keys[i], values[i], true, tables[i + 1])
  }

  lemma RunExtends(hash: Address -> nat, keys: seq<Address>, values: seq<Address>, tables: seq<Slots>,
                   key: Address, value: Address, s: Slots)
    requires StoreRun(hash, keys, values, tables) && WithoutGrowth(tables[|keys|], hash, key, value, true, s)
    ensures StoreRun(hash, keys + [key], values + [value], tables + [s])
  {
    hide WithoutGrowth;
    var keys', values', tables' := keys + [key], values + [value], tables + [s];
    forall i | 0 <= i < |keys'| ensures WithoutGrowth(tables'[i], hash, keys'[i], values'[i], true, tables'[i + 1]) {
      if i < |keys| {
        assert WithoutGrowth(tables[i], hash, keys[i], values[i], true, tables[i + 1]);
      }
    }
  }

  lemma EmptyTableIsWellFormed(hash: Address -> nat)
    ensures WellFormed(EmptyTable(), NULL, hash) && Count(EmptyTable(), NULL) == 0
  {
    EmptyIsWellFormed(EmptyTable(), NULL, hash);
  }

  /** A store that meets a free slot within the bound. */
  lemma FreeSlotFound(s: Slots, hash: Address -> nat, key: Address, value: Address, scan: nat)
    requires WellFormed(s, NULL, hash) && key != NULL && scan < |s| && scan <= MAX_SCAN
    requires Passed(s, NULL, hash, key, scan) && s[Slot(hash(key), scan, |s|)].key == NULL
    ensures var s' := s[Slot(hash(key), scan, |s|) := Entry(key, value)];
            && WithoutGrowth(s, hash, key, value, true, s')
            && WellFormed(s', NULL, hash) && Count(s', NULL) == Count(s, NULL) + 1
  {
    var s' := s[Slot(hash(key), scan, |s|) := Entry(key, value)];
    assert Placement(s, hash, key, value, true, scan, s');
    InsertKeepsWellFormed(s, NULL, hash, key, value, scan);
  }

  // ----- a key that is stored and not found -----

  predicate SameHome(hash: Address -> nat, keys: seq<Address>, home: nat) {
    forall i :: 0 <= i < |keys| ==> hash(keys[i]) % MIN_DEFAULT_ENTRIES == home % MIN_DEFAULT_ENTRIES
  }

  /** The keys stand in a row from their home on, and all else is free. */
  ghost predicate InARow(s: Slots, home: nat, keys: seq<Address>) {
    && |s| == MIN_DEFAULT_ENTRIES
    && forall d :: 0 <= d < MIN_DEFAULT_ENTRIES ==>
         s[Slot(home, d, MIN_DEFAULT_ENTRIES)].key == if d < |keys| then keys[d] else NULL
  }

  lemma SlotOfHome(a: nat, b: nat, d: nat)
    requires a % MIN_DEFAULT_ENTRIES == b % MIN_DEFAULT_ENTRIES
    ensures Slot(a, d, MIN_DEFAULT_ENTRIES) == Slot(b, d, MIN_DEFAULT_ENTRIES)
  {
  }

  lemma RowExtends(s: Slots, hash: Address -> nat, home: nat, keys: seq<Address>, key: Address, value: Address)
    requires InARow(s, home, keys) && WellFormed(s, NULL, hash) && DistinctKeys(keys + [key])
    requires |keys| <= MAX_SCAN && hash(key) % MIN_DEFAULT_ENTRIES == home % MIN_DEFAULT_ENTRIES
    ensures var s' := s[Slot(home, |keys|, MIN_DEFAULT_ENTRIES) := Entry(key, value)];
            && WithoutGrowth(s, hash, key, value, true, s')
            && WellFormed(s', NULL, hash) && InARow(s', home, keys + [key])
  {
    var n := |keys|;
    var s' := s[Slot(home, n, MIN_DEFAULT_ENTRIES) := Entry(key, value)];
    forall d | 0 <= d < n ensures s[Slot(hash(key), d, |s|)].key == keys[d] && keys[d] != NULL && keys[d] != key {
      SlotOfHome(hash(key), home, d);
      assert (keys + [key])[d] == keys[d] && (keys + [key])[n] == key;
    }
    SlotOfHome(hash(key), home, n);
    assert (keys + [key])[n] == key;
    FreeSlotFound(s, hash, key, value, n);
    forall d | 0 <= d < MIN_DEFAULT_ENTRIES
      ensures s'[Slot(home, d, MIN_DEFAULT_ENTRIES)].key == if d < n + 1 then (keys + [key])[d] else NULL
    {
      DistanceOfSlot(home, d, MIN_DEFAULT_ENTRIES);
      DistanceOfSlot(home, n, MIN_DEFAULT_ENTRIES);
    }
  }

  /** For any hash, up to nine keys with one home are stored without growing. */
  lemma {:induction false} RowRun(hash: Address -> nat, home: nat, keys: seq<Address>, values: seq<Address>)
      returns (tables: seq<Slots>)
    requires DistinctKeys(keys) && SameHome(hash, keys, home) && |keys| == |values| <= MAX_SCAN + 1
    ensures StoreRun(hash, keys, values, tables)
    ensures InARow(tables[|keys|], home, keys) && WellFormed(tables[|keys|], NULL, hash)
    decreases |keys|
  {
    if keys == [] {
      EmptyTableIsWellFormed(hash);
      tables := [EmptyTable()];
    } else {
      var n := |keys| - 1;
      assert keys == keys[..n] + [keys[n]] && values == values[..n] + [values[n]];
      var before := RowRun(hash, home, keys[..n], values[..n]);
      var s := before[n];
      RowExtends(s, hash, home, keys[..n], keys[n], values[n]);
      var s' := s[Slot(home, n, MIN_DEFAULT_ENTRIES) := Entry(keys[n], values[n])];
      RunExtends(hash, keys[..n], values[..n], before, keys[n], values[n], s');
      tables := before + [s'];
    }
  }

  /** For any hash and any nine keys with one home, the ninth store succeeds without growing
      the table, eight probes from home, where `find` does not look. */
  lemma StoredButNotFound(hash: Address -> nat, home: nat, keys: seq<Address>, values: seq<Address>)
      returns (tables: seq<Slots>)
    requires DistinctKeys(keys) && SameHome(hash, keys, home) && |keys| == |values| == MAX_SCAN + 1
    ensures StoreRun(hash, keys, values, tables)
    ensures var s, key := tables[|keys|], keys[MAX_SCAN];
            WellFormed(s, NULL, hash) && key in Contents(s, NULL) && Displacement(s, hash, key) == MAX_SCAN
  {
    tables := RowRun(hash, home, keys, values);
    var s, key := tables[|keys|], keys[MAX_SCAN];
    SlotOfHome(hash(key), home, MAX_SCAN);
    MetAtDisplacement(s, hash, key, MAX_SCAN);
  }

  // ----- a table in which no probe ends -----

  predicate DistinctHomes(hash: Address -> nat, keys: seq<Address>) {
    forall i, j :: 0 <= i < j < |keys| ==> hash(keys[i]) % MIN_DEFAULT_ENTRIES != hash(keys[j]) % MIN_DEFAULT_ENTRIES
  }

  /** Every full slot is the home of one of the keys. */
  ghost predicate AtHome(s: Slots, hash: Address -> nat, keys: seq<Address>) {
    && |s| == MIN_DEFAULT_ENTRIES
    && forall p :: 0 <= p < |s| && s[p].key != NULL ==>
         exists i :: 0 <= i < |keys| && hash(keys[i]) % MIN_DEFAULT_ENTRIES == p && s[p].key == keys[i]
  }

  lemma HomeExtends(s: Slots, hash: Address -> nat, keys: seq<Address>, key: Address, value: Address)
    requires AtHome(s, hash, keys) && WellFormed(s, NULL, hash) && key != NULL && DistinctHomes(hash, keys + [key])
    ensures var s' := s[Slot(hash(key), 0, MIN_DEFAULT_ENTRIES) := Entry(key, value)];
            && WithoutGrowth(s, hash, key, value, true, s')
            && WellFormed(s', NULL, hash) && AtHome(s', hash, keys + [key]) && Count(s', NULL) == Count(s, NULL) + 1
  {
    var at := Slot(hash(key), 0, MIN_DEFAULT_ENTRIES);
    var keys' := keys + [key];
    assert keys'[|keys|] == key;
    forall i | 0 <= i < |keys| ensures hash(keys[i]) % MIN_DEFAULT_ENTRIES != at {
      assert keys'[i] == keys[i];
    }
    assert s[at].key == NULL;
    FreeSlotFound(s, hash, key, value, 0);
    var s' := s[at := Entry(key, value)];
    forall p | 0 <= p < |s'| && s'[p].key != NULL
      ensures exists i :: 0 <= i < |keys'| && hash(keys'[i]) % MIN_DEFAULT_ENTRIES == p && s'[p].key == keys'[i]
    {
      if p == at {
        assert hash(keys'[|keys|]) % MIN_DEFAULT_ENTRIES == p;
      } else {
        var i :| 0 <= i < |keys| && hash(keys[i]) % MIN_DEFAULT_ENTRIES == p && s[p].key == keys[i];
        assert keys'[i] == keys[i];
      }
    }
  }

  lemma {:induction false} HomeRun(hash: Address -> nat, keys: seq<Address>, values: seq<Address>)
      returns (tables: seq<Slots>)
    requires DistinctKeys(keys) && DistinctHomes(hash, keys) && |keys| == |values|
    ensures StoreRun(hash, keys, values, tables)
    ensures AtHome(tables[|keys|], hash, keys) && WellFormed(tables[|keys|], NULL, hash)
    ensures Count(tables[|keys|], NULL) == |keys|
    decreases |keys|
  {
    if keys == [] {
      EmptyTableIsWellFormed(hash);
      tables := [EmptyTable()];
    } else {
      var n := |keys| - 1;
      assert keys == keys[..n] + [keys[n]] && values == values[..n] + [values[n]];
      var before := HomeRun(hash, keys[..n], values[..n]);
      var s := before[n];
      HomeExtends(s, hash, keys[..n], keys[n], values[n]);
      var s' := s[Slot(hash(keys[n]), 0, MIN_DEFAULT_ENTRIES) := Entry(keys[n], values[n])];
      RunExtends(hash, keys[..n], values[..n], before, keys[n], values[n], s');
      tables := before + [s'];
    }
  }

  /** For any hash and any 128 keys with different homes, storing them fills the table without
      growing it, and then the store of any further key never ends. */
  lemma FullTableIsReachable(hash: Address -> nat, keys: seq<Address>, values: seq<Address>, key: Address)
      returns (tables: seq<Slots>)
    requires DistinctKeys(keys) && DistinctHomes(hash, keys) && |keys| == |values| == MIN_DEFAULT_ENTRIES
    requires key != NULL && key !in keys
    ensures StoreRun(hash, keys, values, tables) && |tables[|keys|]| > 0 && !ProbeEnds(tables[|keys|], hash, key)
  {
    tables := HomeRun(hash, keys, values);
    var s := tables[|keys|];
    ProbeEndsExactly(s, hash, key);
    FullHasNoHole(s);
    forall p | 0 <= p < |s| ensures s[p].key != key {
      assert s[p].key != NULL;
      var i :| 0 <= i < |keys| && hash(keys[i]) % MIN_DEFAULT_ENTRIES == p && s[p].key == keys[i];
    }
  }

  lemma {:induction false} FullHasNoHole(s: Slots)
    requires Count(s, NULL) == |s|
    ensures forall p :: 0 <= p < |s| ==> s[p].key != NULL
    decreases |s|
  {
    if s != [] {
      CountBound(s[..|s| - 1], NULL);
      FullHasNoHole(s[..|s| - 1]);
      forall p | 0 <= p < |s| ensures s[p].key != NULL {
        assert p < |s| - 1 ==> s[p] == s[..|s| - 1][p];
      }
    }
  }

  // ----- the same on the cache itself -----

  /** Storing keys in turn goes through the tables of their run. */
  method StoreAll(cache: Cache, keys: seq<Address>, values: seq<Address>, ghost tables: seq<Slots>)
    requires cache.Valid() && cache.entries == null && DistinctKeys(keys)
    requires StoreRun(cache.hash, keys, values, tables)
    modifies cache
    ensures cache.Valid() && cache.Table() == tables[|keys|]
    ensures forall i :: 0 <= i < |keys| ==> keys[i] in cache.View() && cache.View()[keys[i]] == values[i]
  {
    hide WellFormed, Contents, WithoutGrowth;
    for n := 0 to |keys|
      invariant cache.Valid() && cache.Table() == tables[n]
      invariant cache.entries == null || fresh(cache.entries)
      invariant forall i :: 0 <= i < n ==> keys[i] in cache.View() && cache.View()[keys[i]] == values[i]
    {
      assert WithoutGrowth(tables[n], cache.hash, keys[n], values[n], true, tables[n + 1]);
      RoomInRun(cache, keys[n], values[n], tables[n + 1]);
      assert Overwrites(OverwritePrevEntry) == true;
      assert WithoutGrowth(tables[n], cache.hash, keys[n], values[n], Overwrites(OverwritePrevEntry), tables[n + 1]);
      var _ := cache.Store(keys[n], values[n], OverwritePrevEntry);
    }
  }

  lemma RoomInRun(cache: Cache, key: Address, value: Address, s: Slots)
    requires cache.Valid() && key != NULL && WithoutGrowth(cache.Table(), cache.hash, key, value, true, s)
    ensures cache.HasRoom(key)
  {
    if cache.entries != null {
      var t := cache.entries[..];
      var scan: nat :| scan <= MAX_SCAN && Placement(t, cache.hash, key, value, true, scan, s);
      var i := Slot(cache.hash(key), scan, |t|);
      if t[i].key == key {
        ContentsAt(t, NULL, i);
      } else {
        assert cache.entries[i].key == NULL;
      }
    }
  }

  /** Nine stores and a lookup: the last key is in the cache and is not found. */
  method NinthIsMissed(hash: Address -> nat, ghost home: nat, keys: seq<Address>, values: seq<Address>)
      returns (cache: Cache, dest: Address)
    requires DistinctKeys(keys) && SameHome(hash, keys, home) && |keys| == |values| == MAX_SCAN + 1
    ensures cache.Valid() && keys[MAX_SCAN] in cache.View() && cache.View()[keys[MAX_SCAN]] == values[MAX_SCAN]
    ensures dest == NULL
  {
    assert keys[MAX_SCAN] != NULL;
    hide WellFormed, Contents, StoreRun, DistinctKeys, SameHome, Displacement;
    cache := new Cache(hash);
    ghost var tables := StoredButNotFound(hash, home, keys, values);
    StoreAll(cache, keys, values, tables);
    dest := cache.Find(keys[MAX_SCAN]);
  }

  /** After 128 stores to different homes there is no room for any other key. */
  method FillTable(hash: Address -> nat, keys: seq<Address>, values: seq<Address>, ghost key: Address)
      returns (cache: Cache)
    requires DistinctKeys(keys) && DistinctHomes(hash, keys) && |keys| == |values| == MIN_DEFAULT_ENTRIES
    requires key != NULL && key !in keys
    ensures cache.Valid() && cache.entries != null && !cache.HasRoom(key)
    ensures !ProbeEnds(cache.entries[..], hash, key)
  {
    hide WellFormed, Contents, StoreRun, DistinctKeys, DistinctHomes, ProbeEnds;
    cache := new Cache(hash);
    ghost var tables := FullTableIsReachable(hash, keys, values, key);
    StoreAll(cache, keys, values, tables);
    RoomExactly(cache, key);
  }

  /** A store has room exactly when its probe ends. */
  lemma RoomExactly(cache: Cache, key: Address)
    requires cache.Valid() && key != NULL
    ensures cache.HasRoom(key) <==> ProbeEnds(cache.Table(), cache.hash, key)
  {
    var s := cache.Table();
    ProbeEndsExactly(s, cache.hash, key);
    if cache.entries != null {
      if i :| 0 <= i < |s| && s[i].key == key {
        ContentsAt(s, NULL, i);
      }
    } else {
      assert s[0].key == NULL;
    }
  }
}
