/** Open addressing with linear probing, as the shared hash table and the per-CPU code
    cache both use it: what a slot array stands for, and what probing it finds. */
module LinearProbing {
  import opened Arith

  /** A slot; a slot that holds the default key is empty. */
  datatype Entry<K, V> = Entry(key: K, value: V)

  /** The slot `step` places after `home`, wrapping: `(base + step) & mask`. */
  function Slot(home: nat, step: nat, size: nat): (i: nat)
    requires size > 0
    ensures i < size
  {
    (home + step) % size
  }

  /** How many steps lead from `home` to slot `i`. */
  function Distance(home: nat, i: nat, size: nat): (d: nat)
    requires i < size
    ensures d < size
  {
    var h := home % size;
    if h <= i then i - h else i + size - h
  }

  lemma DistanceReaches(home: nat, i: nat, size: nat)
    requires i < size
    ensures Slot(home, Distance(home, i, size), size) == i
  {
    var q, h := home / size, home % size;
    if h <= i {
      QuotientUnique(home + (i - h), size, q, i);
    } else {
      assert home + (i + size - h) == (q + 1) * size + i;
      QuotientUnique(home + (i + size - h), size, q + 1, i);
    }
  }

  lemma DistanceOfSlot(home: nat, step: nat, size: nat)
    requires step < size
    ensures Distance(home, Slot(home, step, size), size) == step
  {
    var q, h := home / size, home % size;
    if h + step < size {
      QuotientUnique(home + step, size, q, h + step);
    } else {
      assert home + step == (q + 1) * size + (h + step - size);
      QuotientUnique(home + step, size, q + 1, h + step - size);
    }
  }

  // ----- what a slot array stands for -----

  predicate Unique<K(==), V>(s: seq<Entry<K, V>>, empty: K) {
    forall i, j :: 0 <= i < |s| && 0 <= j < |s| && s[i].key != empty && s[i].key == s[j].key ==> i == j
  }

  /** Every slot that probing passes on the way to an entry is full. */
  ghost predicate Reachable<K(!new), V>(s: seq<Entry<K, V>>, empty: K, hash: K -> nat) {
    forall i, step ::
      0 <= i < |s| && s[i].key != empty && 0 <= step < Distance(hash(s[i].key), i, |s|) ==>
        s[Slot(hash(s[i].key), step, |s|)].key != empty
  }

  ghost predicate WellFormed<K(!new), V>(s: seq<Entry<K, V>>, empty: K, hash: K -> nat) {
    |s| > 0 && Unique(s, empty) && Reachable(s, empty, hash)
  }

  /** The map that a slot array stands for. */
  ghost function Contents<K, V>(s: seq<Entry<K, V>>, empty: K): map<K, V>
    requires Unique(s, empty)
  {
    map i | 0 <= i < |s| && s[i].key != empty :: s[i].key := s[i].value
  }

  function Count<K(==), V>(s: seq<Entry<K, V>>, empty: K): nat {
    if s == [] then 0
    else Count(s[..|s| - 1], empty) + if s[|s| - 1].key == empty then 0 else 1
  }

  // ----- counting -----

  lemma {:induction false} CountUpdate<K, V>(s: seq<Entry<K, V>>, empty: K, i: nat, e: Entry<K, V>)
    requires i < |s| && e.key != empty
    ensures Count(s[i := e], empty) == Count(s, empty) + if s[i].key == empty then 1 else 0
  {
    var n := |s| - 1;
    if i < n {
      assert s[i := e][..n] == s[..n][i := e];
      CountUpdate(s[..n], empty, i, e);
    } else {
      assert s[i := e][..n] == s[..n];
    }
  }

  lemma {:induction false} CountBound<K, V>(s: seq<Entry<K, V>>, empty: K)
    ensures Count(s, empty) <= |s|
    ensures Count(s, empty) < |s| ==> exists i :: 0 <= i < |s| && s[i].key == empty
  {
    if s != [] {
      var n := |s| - 1;
      CountBound(s[..n], empty);
      if s[n].key != empty && Count(s, empty) < |s| {
        var i :| 0 <= i < n && s[..n][i].key == empty;
        assert s[i].key == empty;
      }
    }
  }

  lemma {:induction false} CountOfEmpty<K, V>(s: seq<Entry<K, V>>, empty: K)
    requires forall i :: 0 <= i < |s| ==> s[i].key == empty
    ensures Count(s, empty) == 0
  {
    if s != [] {
      CountOfEmpty(s[..|s| - 1], empty);
    }
  }

  // ----- probing -----

  /** The first `steps` probes for `key` met only other keys. */
  ghost predicate Passed<K(!new), V>(s: seq<Entry<K, V>>, empty: K, hash: K -> nat, key: K, steps: nat)
    requires |s| > 0
  {
    forall j :: 0 <= j < steps ==>
      var e := s[Slot(hash(key), j, |s|)];
      e.key != empty && e.key != key
  }

  /** Probing that meets an empty slot has shown the key to be absent. */
  lemma EmptyMeansAbsent<K(!new), V>(s: seq<Entry<K, V>>, empty: K, hash: K -> nat, key: K, steps: nat)
    requires WellFormed(s, empty, hash) && key != empty && steps < |s|
    requires Passed(s, empty, hash, key, steps) && s[Slot(hash(key), steps, |s|)].key == empty
    ensures key !in Contents(s, empty)
  {
    forall i | 0 <= i < |s| ensures s[i].key != key {
      if s[i].key == key {
        var d := Distance(hash(key), i, |s|);
        DistanceReaches(hash(key), i, |s|);
        assert false;
      }
    }
  }

  /** A new entry in the empty slot that probing met keeps the table well formed. */
  lemma InsertKeepsWellFormed<K(!new), V>(s: seq<Entry<K, V>>, empty: K, hash: K -> nat, key: K, value: V, steps: nat)
    requires WellFormed(s, empty, hash) && key != empty && steps < |s|
    requires Passed(s, empty, hash, key, steps) && s[Slot(hash(key), steps, |s|)].key == empty
    ensures var s' := s[Slot(hash(key), steps, |s|) := Entry(key, value)];
            && WellFormed(s', empty, hash)
            && Contents(s', empty) == Contents(s, empty)[key := value]
            && Count(s', empty) == Count(s, empty) + 1
  {
    var at := Slot(hash(key), steps, |s|);
    var s' := s[at := Entry(key, value)];
    EmptyMeansAbsent(s, empty, hash, key, steps);
    forall i | 0 <= i < |s| && s[i].key != empty ensures s[i].key != key {
      ContentsAt(s, empty, i);
    }
    DistanceOfSlot(hash(key), steps, |s|);
    assert Reachable(s', empty, hash);
    ContentsUpdate(s, empty, at, key, value);
    CountUpdate(s, empty, at, Entry(key, value));
  }

  /** A new value under the key that probing met. */
  lemma UpdateKeepsWellFormed<K(!new), V>(s: seq<Entry<K, V>>, empty: K, hash: K -> nat, at: nat, value: V)
    requires WellFormed(s, empty, hash) && at < |s| && s[at].key != empty
    ensures var s' := s[at := Entry(s[at].key, value)];
            && WellFormed(s', empty, hash)
            && Contents(s', empty) == Contents(s, empty)[s[at].key := value]
            && Count(s', empty) == Count(s, empty)
  {
    ContentsUpdate(s, empty, at, s[at].key, value);
    CountUpdate(s, empty, at, Entry(s[at].key, value));
  }

  lemma ContentsUpdate<K, V>(s: seq<Entry<K, V>>, empty: K, at: nat, key: K, value: V)
    requires Unique(s, empty) && at < |s| && key != empty && (s[at].key == empty || s[at].key == key)
    requires Unique(s[at := Entry(key, value)], empty)
    ensures Contents(s[at := Entry(key, value)], empty) == Contents(s, empty)[key := value]
  {
    var s' := s[at := Entry(key, value)];
    var m, m' := Contents(s, empty), Contents(s', empty);
    forall k | k in m' ensures k in m[key := value] && m[key := value][k] == m'[k] {
      var i :| 0 <= i < |s'| && s'[i].key == k && s'[i].key != empty;
      ContentsAt(s', empty, i);
      if i != at {
        assert s'[at].key == key && k != key;
        ContentsAt(s, empty, i);
        assert m[k] == s[i].value == m'[k];
      } else {
        assert k == key && m'[k] == value;
      }
    }
    ContentsAt(s', empty, at);
    forall k | k in m && k != key ensures k in m' {
      var i :| 0 <= i < |s| && s[i].key == k && s[i].key != empty;
      ContentsAt(s', empty, i);
    }
  }

  lemma ContentsAt<K, V>(s: seq<Entry<K, V>>, empty: K, i: nat)
    requires Unique(s, empty) && i < |s| && s[i].key != empty
    ensures s[i].key in Contents(s, empty) && Contents(s, empty)[s[i].key] == s[i].value
  {
  }

  lemma PrefixIsKept<K, V>(s: seq<Entry<K, V>>, empty: K, i: nat, k: K)
    requires Unique(s, empty) && i < |s| && k in Contents(s[..i], empty)
    ensures k in Contents(s[..i + 1], empty) && k != s[i].key
    ensures Contents(s[..i + 1], empty)[k] == Contents(s[..i], empty)[k]
  {
    var j :| 0 <= j < i && s[..i][j].key == k && s[..i][j].key != empty;
    ContentsAt(s[..i], empty, j);
    ContentsAt(s[..i + 1], empty, j);
    assert s[j].key == k;
  }

  lemma NothingElseIsAdded<K, V>(s: seq<Entry<K, V>>, empty: K, i: nat, k: K)
    requires Unique(s, empty) && i < |s| && k in Contents(s[..i + 1], empty) && k != s[i].key
    ensures k in Contents(s[..i], empty)
  {
    var j :| 0 <= j < |s[..i + 1]| && s[..i + 1][j].key == k && s[..i + 1][j].key != empty;
    ContentsAt(s[..i], empty, j);
  }

  lemma CountExtend<K, V>(s: seq<Entry<K, V>>, empty: K, i: nat)
    requires i < |s|
    ensures Count(s[..i + 1], empty) == Count(s[..i], empty) + if s[i].key == empty then 0 else 1
  {
    assert s[..i + 1][..i] == s[..i];
  }

  /** Every key of one more slot is a key of the slots before it or of the slot. */
  lemma ContentsGrow<K, V>(s: seq<Entry<K, V>>, empty: K, i: nat, k: K)
    requires Unique(s, empty) && i < |s| && Unique(s[..i], empty) && Unique(s[..i + 1], empty)
    ensures var m, m' := Contents(s[..i], empty), Contents(s[..i + 1], empty);
            && (k in m ==> k in m' && m'[k] == m[k] && k != s[i].key)
            && (k in m' && k != s[i].key ==> k in m)
            && (k == s[i].key && k != empty ==> k in m' && m'[k] == s[i].value)
            && (k == empty ==> k !in m')
  {
    if k in Contents(s[..i], empty) { PrefixIsKept(s, empty, i, k); }
    if k in Contents(s[..i + 1], empty) && k != s[i].key { NothingElseIsAdded(s, empty, i, k); }
    if k == s[i].key && k != empty { ContentsAt(s[..i + 1], empty, i); }
  }

  /** One more slot of an old array, seen from the map of the slots before it. */
  lemma ContentsExtend<K, V>(s: seq<Entry<K, V>>, empty: K, i: nat)
    requires Unique(s, empty) && i < |s|
    ensures Unique(s[..i], empty) && Unique(s[..i + 1], empty)
    ensures s[i].key == empty ==> Contents(s[..i + 1], empty) == Contents(s[..i], empty)
    ensures s[i].key != empty ==>
              && s[i].key !in Contents(s[..i], empty)
              && Contents(s[..i + 1], empty) == Contents(s[..i], empty)[s[i].key := s[i].value]
    ensures Count(s[..i + 1], empty) == Count(s[..i], empty) + if s[i].key == empty then 0 else 1
  {
    UniquePrefix(s, empty, i);
    UniquePrefix(s, empty, i + 1);
    CountExtend(s, empty, i);
    if s[i].key == empty {
      ExtendEmpty(s, empty, i);
    } else {
      ExtendFull(s, empty, i);
    }
  }

  lemma ExtendEmpty<K, V>(s: seq<Entry<K, V>>, empty: K, i: nat)
    requires Unique(s, empty) && i < |s| && Unique(s[..i], empty) && Unique(s[..i + 1], empty) && s[i].key == empty
    ensures Contents(s[..i + 1], empty) == Contents(s[..i], empty)
  {
    hide Contents, Unique;
    var m, m' := Contents(s[..i], empty), Contents(s[..i + 1], empty);
    forall k | k in m ensures k in m' && m'[k] == m[k] { ContentsGrow(s, empty, i, k); }
    forall k | k in m' ensures k in m { ContentsGrow(s, empty, i, k); }
    assert m' == m;
  }

  lemma ExtendFull<K, V>(s: seq<Entry<K, V>>, empty: K, i: nat)
    requires Unique(s, empty) && i < |s| && Unique(s[..i], empty) && Unique(s[..i + 1], empty) && s[i].key != empty
    ensures s[i].key !in Contents(s[..i], empty)
    ensures Contents(s[..i + 1], empty) == Contents(s[..i], empty)[s[i].key := s[i].value]
  {
    hide Contents, Unique;
    var m, m' := Contents(s[..i], empty), Contents(s[..i + 1], empty);
    ContentsGrow(s, empty, i, s[i].key);
    forall k | k in m ensures k in m' && m'[k] == m[k] { ContentsGrow(s, empty, i, k); }
    forall k | k in m' && k != s[i].key ensures k in m { ContentsGrow(s, empty, i, k); }
  }

  lemma UniquePrefix<K, V>(s: seq<Entry<K, V>>, empty: K, i: nat)
    requires Unique(s, empty) && i <= |s|
    ensures Unique(s[..i], empty)
  {
  }

  lemma EmptyIsWellFormed<K(!new), V>(s: seq<Entry<K, V>>, empty: K, hash: K -> nat)
    requires |s| > 0 && forall i :: 0 <= i < |s| ==> s[i].key == empty
    ensures WellFormed(s, empty, hash) && Contents(s, empty) == map[] && Count(s, empty) == 0
  {
    CountOfEmpty(s, empty);
  }

  /** `entry_base += 1; entry_base &= mask` moves to the next slot. */
  lemma NextSlot(home: nat, step: nat, size: nat)
    requires size > 0
    ensures (Slot(home, step, size) + 1) % size == Slot(home, step + 1, size)
  {
    NextMod(home + step, size);
  }
}
