/** Building a trace: the fixpoint loop of `basic_block::translate`.

    A trace starts as one block.  Blocks that its jumps lead to are added; a branch into the
    middle of a block makes that block be decoded again, to end where the branch goes.  Both
    can make more branches resolve, so everything is repeated until nothing changes. */
module Trace {

  /** Where a block starts: an address, and a base policy. */
  datatype Key = Key(pc: nat, policy: int)

  /** The direct branches of a block.  A jump is `original` when it was decoded from the
      application, and `fallThrough` when it was added after a conditional branch. */
  datatype Kind = Call | Cond | Jump(original: bool, fallThrough: bool)

  /** `Known` targets are already translated, or left alone, and `ToBlock` ones are blocks of
      the trace; in either case the branch is marked as mangled. */
  datatype Link = Unlinked | Known | ToBlock(key: Key)

  datatype Cti = Cti(kind: Kind, target: Key, link: Link)
  {
    /** What `visit_branches` follows, when conditional branches are not followed. */
    predicate Followable() { link.Unlinked? && kind.Jump? && (kind.fallThrough || kind.original) }
  }

  /** A `block_translator`.  `end` and `split` are 0 when they are null. */
  datatype Block = Block(key: Key, end: nat, split: nat, canSplit: bool, translated: bool, ctis: seq<Cti>)
  {
    predicate Contains(k: Key) { k.policy == key.policy && key.pc <= k.pc < end }
    predicate Pending() { !translated || split != 0 }
  }

  function NewBlock(key: Key): Block { Block(key, 0, 0, true, false, []) }

  datatype Decoded = Decoded(end: nat, ctis: seq<Cti>)

  /** The program: what is decoded at a key when decoding should stop at a limit, or goes on as
      far as it can when that is 0; where the instructions of such a block start; which targets
      are known at a time; and the places where a block can start. */
  datatype World = World(
    decode: (Key, nat) -> Decoded, boundary: (Key, nat) -> bool, known: (nat, Key) -> bool, starts: set<Key>)
  {
    /** Blocks are not empty, and have at most one jump to follow. */
    ghost predicate Valid() {
      forall key, limit :: key in starts ==> DecodedOk(key, decode(key, limit)) && CutOk(key, limit)
    }
    /** Decoding stops at the limit if an instruction starts there, and the block then ends with
        a jump there that is not to be followed; otherwise a limit has no effect. */
    predicate CutOk(key: Key, limit: nat) {
      limit > key.pc ==>
        var d, all := decode(key, limit), decode(key, 0);
        if boundary(key, limit) && limit < all.end then d.end == limit && IsCut(d.ctis, all.ctis, limit) else d == all
    }
    predicate IsCut(ctis: seq<Cti>, all: seq<Cti>, limit: nat) {
      && |ctis| > 0 && ctis[..|ctis| - 1] <= all
      && var last := ctis[|ctis| - 1]; last.kind == Jump(false, false) && last.target.pc == limit && last.link.Unlinked?
    }
    predicate DecodedOk(key: Key, d: Decoded) {
      d.end > key.pc && CtisOk(d.ctis) && forall i :: 0 <= i < |d.ctis| ==> !d.ctis[i].link.ToBlock?
    }
    predicate CtisOk(ctis: seq<Cti>) {
      && (forall i :: 0 <= i < |ctis| && ctis[i].Followable() ==> ctis[i].target in starts)
      && (forall i, j :: 0 <= i < j < |ctis| ==> !(ctis[i].Followable() && ctis[j].Followable()))
    }
  }

  // ----- finding a block -----

  /** The result of `find_block_translator`: the last block of the first run of blocks that
      contain the key. */
  predicate IsFound(trace: seq<Block>, k: Key, r: int) {
    if r < 0 then forall i :: 0 <= i < |trace| ==> !trace[i].Contains(k)
    else
      && r < |trace| && trace[r].Contains(k)
      && (r + 1 < |trace| ==> !trace[r + 1].Contains(k))
      && forall i, j :: 0 <= i < j < r && trace[i].Contains(k) ==> trace[j].Contains(k)
  }

  /** `find_block_translator` */
  method FindBlock(trace: seq<Block>, k: Key) returns (r: int)
    ensures IsFound(trace, k, r)
  {
    r := -1;
    var i := 0;
    while i < |trace|
      invariant 0 <= i <= |trace| && r < i
      invariant r < 0 ==> forall j :: 0 <= j < i ==> !trace[j].Contains(k)
      invariant r >= 0 ==> r == i - 1 && trace[r].Contains(k)
      invariant r >= 0 ==> forall j, l :: 0 <= j < l < r && trace[j].Contains(k) ==> trace[l].Contains(k)
    {
      if trace[i].Contains(k) {
        r := i;
      } else if r >= 0 {
        break;
      }
      i := i + 1;
    }
  }

  lemma FoundOnce(trace: seq<Block>, k: Key, r: int, r': int)
    requires IsFound(trace, k, r) && IsFound(trace, k, r')
    ensures r == r' || (r < 0 && r' < 0)
  {
  }

  // ----- the measure -----

  datatype Metric = Splittables | Spans | Untranslated

  function Weight(w: World, m: Metric, b: Block): nat {
    match m
    case Splittables => if b.canSplit then 1 else 0
    case Spans =>
      var end := if b.translated then b.end else w.decode(b.key, 0).end;
      if b.canSplit && end > b.key.pc then end - b.key.pc else 0
    case Untranslated => if b.translated then 0 else 1
  }

  function Total(w: World, m: Metric, trace: seq<Block>): nat {
    if trace == [] then 0 else Weight(w, m, trace[0]) + Total(w, m, trace[1..])
  }

  lemma {:induction false} TotalUpdate(w: World, m: Metric, trace: seq<Block>, i: nat, b: Block)
    requires i < |trace|
    ensures Total(w, m, trace[i := b]) + Weight(w, m, trace[i]) == Total(w, m, trace) + Weight(w, m, b)
  {
    if i == 0 {
      assert trace[0 := b][1..] == trace[1..];
    } else {
      assert trace[i := b][1..] == trace[1..][i - 1 := b];
      TotalUpdate(w, m, trace[1..], i - 1, b);
    }
  }

  function Keys(trace: seq<Block>): set<Key> { set i | 0 <= i < |trace| :: trace[i].key }

  /** Places where no block of the trace starts yet. */
  function Unused(w: World, trace: seq<Block>): set<Key> { w.starts - Keys(trace) }

  /** The four components, compared in this order. */
  predicate Less(w: World, t': seq<Block>, t: seq<Block>) {
    var u', u := |Unused(w, t')|, |Unused(w, t)|;
    u' < u || (u' == u &&
      (Total(w, Splittables, t') < Total(w, Splittables, t) || (Total(w, Splittables, t') == Total(w, Splittables, t) &&
        (Total(w, Spans, t') < Total(w, Spans, t) || (Total(w, Spans, t') == Total(w, Spans, t) &&
          Total(w, Untranslated, t') < Total(w, Untranslated, t))))))
  }

  // ----- invariant -----

  predicate BlockOk(w: World, b: Block) {
    && b.key in w.starts && w.CtisOk(b.ctis)
    && (b.translated ==> b.end > b.key.pc)
    && (!b.translated ==> b == NewBlock(b.key))
    && (b.split != 0 ==> b.translated && b.canSplit && b.key.pc < b.split < b.end)
  }

  /** The block is what the program has at its key, with some of its branches linked. */
  ghost predicate FromProgram(w: World, b: Block) {
    exists limit :: IsDecode(w, b, limit)
  }

  /** It is decoded up to `limit`, and cannot be split if no instruction starts there. */
  ghost predicate IsDecode(w: World, b: Block, limit: nat) {
    var d := w.decode(b.key, limit);
    && b.end == d.end && RelinkedCtis(w, d.ctis, b.ctis)
    && (limit != 0 ==> b.key.pc < limit < w.decode(b.key, 0).end)
    && (b.canSplit <==> limit == 0 || w.boundary(b.key, limit))
  }

  /** The jump is to be followed, and leads to `k`. */
  predicate LeadsTo(c: Cti, k: Key) { c.Followable() && c.target == k }

  /** A block with one of the keys has a jump to follow to `k`. */
  ghost predicate Reached(w: World, keys: set<Key>, k: Key) {
    exists key, limit, j ::
      key in keys && 0 <= j < |w.decode(key, limit).ctis| && LeadsTo(w.decode(key, limit).ctis[j], k)
  }

  lemma ReachedGrows(w: World, keys: set<Key>, keys': set<Key>, k: Key)
    requires Reached(w, keys, k) && keys <= keys'
    ensures Reached(w, keys', k)
  {
    var key, limit, j :|
      key in keys && 0 <= j < |w.decode(key, limit).ctis| && LeadsTo(w.decode(key, limit).ctis[j], k);
  }

  /** All of the code at one of the keys, as far as it can be decoded, has `k` inside. */
  ghost predicate Overlaps(w: World, keys: set<Key>, k: Key) {
    exists key :: key in keys && key.policy == k.policy && key.pc < k.pc < w.decode(key, 0).end
  }

  lemma EndIsBounded(w: World, b: Block)
    requires w.Valid() && b.key in w.starts && FromProgram(w, b)
    ensures b.end <= w.decode(b.key, 0).end
  {
    var limit :| IsDecode(w, b, limit);
    assert w.CutOk(b.key, limit);
  }

  /** A branch into the trace goes to the block that starts at its target. */
  predicate LinkOk(keys: set<Key>, c: Cti) {
    c.link.ToBlock? ==> c.link.key == c.target && c.target in keys
  }

  predicate LinksOk(keys: set<Key>, ctis: seq<Cti>) {
    forall i :: 0 <= i < |ctis| ==> LinkOk(keys, ctis[i])
  }

  /** No two blocks start at the same place, all branches lead where they should, and all blocks
      but the first are there because a jump leads to them. */
  ghost predicate Inv(w: World, trace: seq<Block>) {
    && (forall i :: 0 <= i < |trace| ==> BlockOk(w, trace[i]) && LinksOk(Keys(trace), trace[i].ctis))
    && (forall i :: 0 <= i < |trace| && trace[i].translated ==> FromProgram(w, trace[i]))
    && (forall i, j :: 0 <= i < j < |trace| ==> trace[i].key != trace[j].key)
    && (forall i :: 1 <= i < |trace| ==> Reached(w, Keys(trace), trace[i].key))
  }

  /** Only block `p` still has something to be done, if any. */
  predicate OnlyPending(trace: seq<Block>, p: nat) {
    forall i :: 0 <= i < |trace| && trace[i].Pending() ==> i == p
  }

  /** Same block, but for the links of its branches. */
  ghost predicate Relinked(w: World, b: Block, b': Block) {
    b' == b.(ctis := b'.ctis) && RelinkedCtis(w, b.ctis, b'.ctis)
  }

  ghost predicate RelinkedCtis(w: World, ctis: seq<Cti>, ctis': seq<Cti>) {
    |ctis'| == |ctis| && forall i :: 0 <= i < |ctis| ==> RelinkedCti(w, ctis[i], ctis'[i])
  }

  ghost predicate EverKnown(w: World, k: Key) { exists tick :: w.known(tick, k) }

  /** A branch that had no link may have one to a block now; and a jump to follow may be one whose
      target was known. */
  ghost predicate RelinkedCti(w: World, c: Cti, c': Cti) {
    || c' == c
    || (c.link.Unlinked? && c' == c.(link := c'.link) &&
        (c'.link.ToBlock? || (c'.link.Known? && c.Followable() && EverKnown(w, c.target))))
  }

  lemma RelinkedOk(w: World, b: Block, b': Block)
    requires BlockOk(w, b) && b.translated && Relinked(w, b, b') && FromProgram(w, b)
    ensures BlockOk(w, b') && FromProgram(w, b')
  {
    forall i | 0 <= i < |b'.ctis| && b'.ctis[i].Followable() ensures b.ctis[i].Followable() {
      assert RelinkedCti(w, b.ctis[i], b'.ctis[i]);
    }
    assert forall i :: 0 <= i < |b.ctis| ==> RelinkedCti(w, b.ctis[i], b'.ctis[i]);
    var limit :| IsDecode(w, b, limit);
    RelinkedTransitive(w, w.decode(b.key, limit).ctis, b.ctis, b'.ctis);
    assert IsDecode(w, b', limit);
  }

  lemma RelinkedTransitive(w: World, a: seq<Cti>, b: seq<Cti>, c: seq<Cti>)
    requires RelinkedCtis(w, a, b) && RelinkedCtis(w, b, c)
    ensures RelinkedCtis(w, a, c)
  {
    forall i | 0 <= i < |a| ensures RelinkedCti(w, a[i], c[i]) {
      assert RelinkedCti(w, a[i], b[i]) && RelinkedCti(w, b[i], c[i]);
    }
  }

  lemma KeysUpdate(trace: seq<Block>, i: nat, b: Block)
    requires i < |trace| && b.key == trace[i].key
    ensures Keys(trace[i := b]) == Keys(trace)
  {
    var t := trace[i := b];
    forall k | k in Keys(trace) ensures k in Keys(t) {
      var j :| 0 <= j < |trace| && trace[j].key == k;
      assert t[j].key == k;
    }
  }

  function Inserted(trace: seq<Block>, at: nat, b: Block): seq<Block>
    requires at <= |trace|
  {
    trace[..at] + [b] + trace[at..]
  }

  lemma KeysInserted(trace: seq<Block>, at: nat, b: Block)
    requires at <= |trace|
    ensures Keys(Inserted(trace, at, b)) == Keys(trace) + {b.key}
  {
    var t := Inserted(trace, at, b);
    forall k | k in Keys(trace) + {b.key} ensures k in Keys(t) {
      if k == b.key {
        assert t[at].key == k;
      } else {
        var j :| 0 <= j < |trace| && trace[j].key == k;
        assert t[if j < at then j else j + 1].key == k;
      }
    }
  }

  lemma UnusedShrinks(w: World, trace: seq<Block>, at: nat, b: Block)
    requires at <= |trace| && b.key in w.starts && b.key !in Keys(trace)
    ensures |Unused(w, Inserted(trace, at, b))| < |Unused(w, trace)|
  {
    KeysInserted(trace, at, b);
    assert Unused(w, trace) == Unused(w, Inserted(trace, at, b)) + {b.key};
  }

  /** A key whose block is translated is contained in that block. */
  lemma NotContainedNotUsed(w: World, trace: seq<Block>, k: Key, r: int)
    requires Inv(w, trace) && IsFound(trace, k, r) && r < 0
    requires forall i :: 0 <= i < |trace| ==> trace[i].translated
    ensures k !in Keys(trace)
  {
    forall i | 0 <= i < |trace| ensures trace[i].key != k {
      assert BlockOk(w, trace[i]) && !trace[i].Contains(k);
    }
  }

  // ----- changes to a trace -----

  predicate NonePending(trace: seq<Block>) {
    forall i :: 0 <= i < |trace| ==> !trace[i].Pending()
  }

  lemma RelinkKeepsInv(w: World, t: seq<Block>, at: nat, b: Block)
    requires Inv(w, t) && at < |t| && t[at].translated && Relinked(w, t[at], b) && LinksOk(Keys(t), b.ctis)
    ensures Inv(w, t[at := b])
  {
    KeysUpdate(t, at, b);
    RelinkedOk(w, t[at], b);
  }

  lemma InsertKeepsInv(w: World, t: seq<Block>, at: nat, k: Key)
    requires Inv(w, t) && 0 < at <= |t| && k in w.starts && k !in Keys(t) && Reached(w, Keys(t), k)
    ensures Inv(w, Inserted(t, at, NewBlock(k)))
  {
    hide Reached;
    var b := NewBlock(k);
    var t' := Inserted(t, at, b);
    KeysInserted(t, at, b);
    forall i | 0 <= i < |t'| ensures BlockOk(w, t'[i]) && LinksOk(Keys(t'), t'[i].ctis) {
      if i != at {
        var j := if i < at then i else i - 1;
        assert BlockOk(w, t[j]) && LinksOk(Keys(t), t[j].ctis) && t'[i] == t[j];
        forall c | 0 <= c < |t[j].ctis| ensures LinkOk(Keys(t'), t'[i].ctis[c]) {
          assert LinkOk(Keys(t), t[j].ctis[c]);
        }
      }
    }
    forall i | 0 <= i < |t| ensures t[i].key != k {}
    assert forall i :: 1 <= i < |t| ==> Reached(w, Keys(t), t[i].key);
    InsertKeepsReached(w, t, at, k);
  }

  lemma InsertKeepsReached(w: World, t: seq<Block>, at: nat, k: Key)
    requires 0 < at <= |t| && Reached(w, Keys(t), k) && forall i :: 1 <= i < |t| ==> Reached(w, Keys(t), t[i].key)
    ensures var t' := Inserted(t, at, NewBlock(k)); forall i :: 1 <= i < |t'| ==> Reached(w, Keys(t'), t'[i].key)
  {
    hide Reached, Keys;
    var t' := Inserted(t, at, NewBlock(k));
    KeysInserted(t, at, NewBlock(k));
    forall i | 1 <= i < |t'| ensures Reached(w, Keys(t'), t'[i].key) {
      var j := if i <= at then i else i - 1;
      assert t'[i].key == if i == at then k else t[j].key;
      ReachedGrows(w, Keys(t), Keys(t'), t'[i].key);
    }
  }

  lemma SameWeights(w: World, t: seq<Block>, at: nat, b: Block)
    requires at < |t| && b.key == t[at].key && b.end == t[at].end && b.canSplit == t[at].canSplit
    requires b.translated == t[at].translated
    ensures Unused(w, t[at := b]) == Unused(w, t)
    ensures forall m :: Total(w, m, t[at := b]) == Total(w, m, t)
  {
    KeysUpdate(t, at, b);
    forall m ensures Total(w, m, t[at := b]) == Total(w, m, t) {
      TotalUpdate(w, m, t, at, b);
    }
  }

  /** Decoding a pending block makes the measure smaller. */
  lemma RerunIsLess(w: World, t: seq<Block>, at: nat, b: Block)
    requires at < |t| && BlockOk(w, t[at]) && t[at].Pending() && b.translated && b.key == t[at].key
    requires t[at].split == 0 ==> b.end == w.decode(b.key, 0).end && b.canSplit
    requires t[at].split != 0 ==> (b.end == t[at].split && b.canSplit) || !b.canSplit
    ensures Less(w, t[at := b], t) && Unused(w, t[at := b]) == Unused(w, t)
  {
    KeysUpdate(t, at, b);
    TotalUpdate(w, Splittables, t, at, b);
    TotalUpdate(w, Spans, t, at, b);
    TotalUpdate(w, Untranslated, t, at, b);
  }

  /** The block, decoded anew up to its split point if it has one. */
  function Redecoded(w: World, b: Block): Block {
    var d := w.decode(b.key, b.split);
    b.(translated := true, end := d.end, split := 0, ctis := d.ctis,
       canSplit := b.canSplit && (b.split == 0 || d.end == b.split))
  }

  lemma RedecodedIs(w: World, b: Block)
    requires w.Valid() && BlockOk(w, b) && b.Pending() && (b.translated ==> FromProgram(w, b))
    ensures var b' := Redecoded(w, b);
            && BlockOk(w, b') && IsDecode(w, b', b.split) && !b'.Pending()
            && forall i :: 0 <= i < |b'.ctis| ==> !b'.ctis[i].link.ToBlock?
  {
    assert w.DecodedOk(b.key, w.decode(b.key, b.split)) && w.CutOk(b.key, b.split);
    if b.split != 0 {
      EndIsBounded(w, b);
    }
  }

  /** A pending block that is decoded anew. */
  lemma PendingIs(w: World, t: seq<Block>, at: nat)
    requires w.Valid() && Inv(w, t) && at < |t| && t[at].Pending() && OnlyPending(t, at)
    ensures var b, t1 := t[at], t[at := Redecoded(w, t[at])];
            && b.canSplit && (b.split == 0 ==> b == NewBlock(b.key)) && NonePending(t1)
            && Less(w, t1, t) && Unused(w, t1) == Unused(w, t) && t1[0].key == t[0].key
  {
    hide Less;
    assert BlockOk(w, t[at]);
    RerunIsLess(w, t, at, Redecoded(w, t[at]));
  }

  lemma RerunKeepsInv(w: World, t: seq<Block>, at: nat)
    requires w.Valid() && Inv(w, t) && at < |t| && t[at].Pending()
    ensures Inv(w, t[at := Redecoded(w, t[at])])
  {
    var b := Redecoded(w, t[at]);
    KeysUpdate(t, at, b);
    RedecodedIs(w, t[at]);
    assert FromProgram(w, b);
    forall i | 0 <= i < |b.ctis| ensures LinkOk(Keys(t), b.ctis[i]) {}
  }

  /** The branch is linked, or leads out of the trace, or into the middle of a block that
      cannot be split. */
  ghost predicate Settled(trace: seq<Block>, minPc: nat, maxPc: nat, c: Cti) {
    c.link.Unlinked? && minPc <= c.target.pc < maxPc ==>
      forall r :: IsFound(trace, c.target, r) && r >= 0 ==> trace[r].key != c.target && !trace[r].canSplit
  }

  /** The same, without the range of the trace. */
  ghost predicate Resolved(trace: seq<Block>, c: Cti) {
    c.link.Unlinked? ==>
      forall r :: IsFound(trace, c.target, r) && r >= 0 ==> trace[r].key != c.target && !trace[r].canSplit
  }

  /** All decoded blocks lie in the range of the trace. */
  predicate Covered(trace: seq<Block>, minPc: nat, maxPc: nat) {
    forall i :: 0 <= i < |trace| && trace[i].end > 0 ==> minPc <= trace[i].key.pc && trace[i].end <= maxPc
  }

  /** Blocks other than `at` come from the trace before, or are new. */
  ghost predicate OthersKept(t: seq<Block>, t': seq<Block>, at: nat) {
    forall k :: 0 <= k < |t'| && k != at ==> t'[k].end == 0 || exists j :: 0 <= j < |t| && j != at && t'[k] == t[j]
  }

  lemma OthersUpdate(t: seq<Block>, at: nat, b: Block)
    requires at < |t|
    ensures OthersKept(t, t[at := b], at)
  {
    var t' := t[at := b];
    forall k | 0 <= k < |t'| && k != at ensures exists j :: 0 <= j < |t| && j != at && t'[k] == t[j] {
      assert t'[k] == t[k];
    }
  }

  lemma OthersInsert(t: seq<Block>, at: nat, k: Key, b: Block)
    requires at < |t|
    ensures OthersKept(t, Inserted(t, at + 1, NewBlock(k))[at := b], at)
  {
    var t' := Inserted(t, at + 1, NewBlock(k))[at := b];
    forall i | 0 <= i < |t'| && i != at ensures t'[i].end == 0 || exists j :: 0 <= j < |t| && j != at && t'[i] == t[j] {
      if i != at + 1 {
        assert t'[i] == t[if i < at then i else i - 1];
      }
    }
  }

  lemma OthersVia(t: seq<Block>, at: nat, b: Block, t': seq<Block>)
    requires at < |t| && OthersKept(t[at := b], t', at)
    ensures OthersKept(t, t', at)
  {
    forall k | 0 <= k < |t'| && k != at ensures t'[k].end == 0 || exists j :: 0 <= j < |t| && j != at && t'[k] == t[j] {
      if t'[k].end != 0 {
        var j :| 0 <= j < |t| && j != at && t'[k] == t[at := b][j];
        assert t'[k] == t[j];
      }
    }
  }

  lemma CoveredShape(t: seq<Block>, t': seq<Block>, minPc: nat, maxPc: nat)
    requires Covered(t, minPc, maxPc) && SameShape(t, t')
    ensures Covered(t', minPc, maxPc)
  {
  }

  lemma CoveredStays(t: seq<Block>, t': seq<Block>, at: nat, minPc: nat, maxPc: nat, minPc': nat, maxPc': nat)
    requires Covered(t, minPc, maxPc) && OthersKept(t, t', at) && at < |t'|
    requires minPc' <= minPc && maxPc <= maxPc' && minPc' <= t'[at].key.pc && t'[at].end <= maxPc'
    ensures Covered(t', minPc', maxPc')
  {
  }

  ghost predicate AllSettled(trace: seq<Block>, minPc: nat, maxPc: nat, ctis: seq<Cti>, n: int) {
    forall i :: 0 <= i < n && i < |ctis| ==> Settled(trace, minPc, maxPc, ctis[i])
  }

  predicate SameShape(t: seq<Block>, t': seq<Block>) {
    |t| == |t'| && forall i :: 0 <= i < |t| ==>
      t[i].key == t'[i].key && t[i].end == t'[i].end && t[i].canSplit == t'[i].canSplit
  }

  lemma SettledStays(t: seq<Block>, t': seq<Block>, minPc: nat, maxPc: nat, c: Cti)
    requires SameShape(t, t') && Settled(t, minPc, maxPc, c)
    ensures Settled(t', minPc, maxPc, c)
  {
    forall r | IsFound(t', c.target, r) && r >= 0 ensures IsFound(t, c.target, r) {
      assert forall i :: 0 <= i < |t| ==> t[i].Contains(c.target) == t'[i].Contains(c.target);
    }
  }

  // ----- the loops -----

  predicate NoneContains(t: seq<Block>, k: Key) { forall i :: 0 <= i < |t| ==> !t[i].Contains(k) }

  /** `k` was in no block of the trace, and is now a block of its own, after block `at`. */
  predicate IsAdded(w: World, t: seq<Block>, t': seq<Block>, at: nat, k: Key) {
    && at < |t| && k in w.starts && k !in Keys(t) && NoneContains(t, k) && t' == Inserted(t, at + 1, NewBlock(k))
    && exists j :: 0 <= j < |t[at].ctis| && LeadsTo(t[at].ctis[j], k)
  }

  /** A jump that was not followed: the fall-throughs are used up, or its target is inside the
      code of a block of the trace. */
  ghost predicate Deferred(w: World, keys: set<Key>, fallThroughs: nat, c: Cti) {
    c.Followable() ==> (c.kind.fallThrough && fallThroughs == 0) || Overlaps(w, keys, c.target)
  }

  ghost predicate AllDeferred(w: World, keys: set<Key>, fallThroughs: nat, ctis: seq<Cti>, n: int) {
    forall i :: 0 <= i < n && i < |ctis| ==> Deferred(w, keys, fallThroughs, ctis[i])
  }

  /** All jumps of the trace that are not followed are so for one of these reasons. */
  ghost predicate Followed(w: World, t: seq<Block>, fallThroughs: nat) {
    forall i :: 0 <= i < |t| ==> AllDeferred(w, Keys(t), fallThroughs, t[i].ctis, |t[i].ctis|)
  }

  lemma DeferredOne(w: World, keys: set<Key>, fallThroughs: nat, fallThroughs': nat, ctis: seq<Cti>, j: nat, c: Cti)
    requires AllDeferred(w, keys, fallThroughs, ctis, j) && j < |ctis| && fallThroughs' <= fallThroughs
    requires Deferred(w, keys, fallThroughs', c)
    ensures AllDeferred(w, keys, fallThroughs', ctis[j := c], j + 1)
  {
    forall i | 0 <= i < j ensures Deferred(w, keys, fallThroughs', ctis[i]) {
      assert Deferred(w, keys, fallThroughs, ctis[i]);
    }
  }

  /** Growing traces and fewer fall-throughs keep these reasons. */
  lemma DeferredGrows(w: World, keys: set<Key>, keys': set<Key>, n: nat, n': nat, ctis: seq<Cti>, m: int)
    requires AllDeferred(w, keys, n, ctis, m) && keys <= keys' && n' <= n
    ensures AllDeferred(w, keys', n', ctis, m)
  {
    forall i | 0 <= i < m && i < |ctis| ensures Deferred(w, keys', n', ctis[i]) {
      assert Deferred(w, keys, n, ctis[i]);
    }
  }

  /** So does linking. */
  lemma DeferredRelinked(w: World, keys: set<Key>, n: nat, ctis: seq<Cti>, ctis': seq<Cti>)
    requires AllDeferred(w, keys, n, ctis, |ctis|) && RelinkedCtis(w, ctis, ctis')
    ensures AllDeferred(w, keys, n, ctis', |ctis'|)
  {
    forall i | 0 <= i < |ctis'| ensures Deferred(w, keys, n, ctis'[i]) {
      assert Deferred(w, keys, n, ctis[i]) && RelinkedCti(w, ctis[i], ctis'[i]);
    }
  }

  /** What the loop of `visit_branches` does with a jump: it keeps the target if that is known,
      links it to the block that starts there, leaves it if it is inside of a block, and
      otherwise adds a block. */
  ghost predicate IsVisited(w: World, t: seq<Block>, at: nat, c: Cti, tick: nat,
                            t': seq<Block>, link: Link, added: bool)
  {
    at < |t| &&
    if w.known(tick, c.target) then t' == t && link == Known && !added
    else
      exists r :: IsFound(t, c.target, r) &&
        if r < 0 then t' == Inserted(t, at + 1, NewBlock(c.target)) && link == ToBlock(c.target) && added
        else t' == t && !added && link == if t[r].key == c.target then ToBlock(c.target) else Unlinked
  }

  /** One jump of `visit_branches`. */
  method VisitJump(w: World, t: seq<Block>, at: nat, c: Cti, tick: nat)
      returns (t': seq<Block>, link: Link, added: bool)
    requires w.Valid() && Inv(w, t) && NonePending(t) && at < |t| && c in t[at].ctis && c.Followable()
    ensures IsVisited(w, t, at, c, tick, t', link, added)
    ensures if added then IsAdded(w, t, t', at, c.target) else t' == t
    ensures link.ToBlock? ==> link.key == c.target && c.target in Keys(t')
    ensures added ==> link.ToBlock?
    ensures link.Known? ==> EverKnown(w, c.target)
    ensures link.Unlinked? ==> Overlaps(w, Keys(t), c.target)
  {
    assert BlockOk(w, t[at]);
    if w.known(tick, c.target) {
      return t, Known, false;
    }
    var r := FindBlock(t, c.target);
    if r >= 0 {
      assert r < |t| && t[r].key in Keys(t) && BlockOk(w, t[r]) && !t[r].Pending();
      EndIsBounded(w, t[r]);
      link := if t[r].key.pc != c.target.pc then Unlinked else ToBlock(c.target);
      return t, link, false;
    }
    NotContainedNotUsed(w, t, c.target, r);
    t' := Inserted(t, at + 1, NewBlock(c.target));
    KeysInserted(t, at + 1, NewBlock(c.target));
    link, added := ToBlock(c.target), true;
  }

  lemma LinksGrow(keys: set<Key>, keys': set<Key>, ctis: seq<Cti>)
    requires LinksOk(keys, ctis) && keys <= keys'
    ensures LinksOk(keys', ctis)
  {
    forall i | 0 <= i < |ctis| ensures LinkOk(keys', ctis[i]) {
      assert LinkOk(keys, ctis[i]);
    }
  }

  lemma LinkOne(w: World, ctis0: seq<Cti>, ctis: seq<Cti>, j: nat, link: Link, keys: set<Key>)
    requires RelinkedCtis(w, ctis0, ctis) && LinksOk(keys, ctis) && j < |ctis| && ctis[j].link.Unlinked?
    requires link.ToBlock? ==> link.key == ctis[j].target && link.key in keys
    requires link.Known? ==> ctis[j].Followable() && EverKnown(w, ctis[j].target)
    ensures var ctis' := ctis[j := ctis[j].(link := link)]; RelinkedCtis(w, ctis0, ctis') && LinksOk(keys, ctis')
  {
    assert RelinkedCti(w, ctis0[j], ctis[j]);
  }

  lemma AddedPending(w: World, t: seq<Block>, t': seq<Block>, at: nat, k: Key)
    requires NonePending(t) && IsAdded(w, t, t', at, k)
    ensures |t'| == |t| + 1 && OnlyPending(t', at + 1) && t'[at + 1].Pending() && t'[0] == t[0] && t'[at] == t[at]
    ensures Keys(t) <= Keys(t')
  {
    KeysInserted(t, at + 1, NewBlock(k));
    forall i | 0 <= i < |t'| && i != at + 1 ensures t'[i] == t[if i <= at then i else i - 1] {}
  }

  lemma AddedIsReached(w: World, t: seq<Block>, at: nat, k: Key)
    requires Inv(w, t) && at < |t| && t[at].translated
    requires exists j :: 0 <= j < |t[at].ctis| && LeadsTo(t[at].ctis[j], k)
    ensures Reached(w, Keys(t), k)
  {
    var j :| 0 <= j < |t[at].ctis| && LeadsTo(t[at].ctis[j], k);
    assert FromProgram(w, t[at]) && t[at].key in Keys(t);
    var limit :| IsDecode(w, t[at], limit);
    assert RelinkedCti(w, w.decode(t[at].key, limit).ctis[j], t[at].ctis[j]);
  }

  lemma AddedInv(w: World, t: seq<Block>, t': seq<Block>, at: nat, k: Key)
    requires Inv(w, t) && NonePending(t) && IsAdded(w, t, t', at, k)
    ensures Inv(w, t') && |Unused(w, t')| < |Unused(w, t)|
  {
    AddedIsReached(w, t, at, k);
    hide Inv, Keys;
    InsertKeepsInv(w, t, at + 1, k);
    UnusedShrinks(w, t, at + 1, NewBlock(k));
  }

  /** Writing the links back after an addition. */
  lemma AddedIsOk(w: World, t: seq<Block>, t': seq<Block>, at: nat, k: Key, b: Block, r: seq<Block>)
    requires Inv(w, t) && NonePending(t) && IsAdded(w, t, t', at, k) && at < |t'| && r == t'[at := b]
    requires Relinked(w, t[at], b) && LinksOk(Keys(t'), b.ctis)
    ensures Inv(w, r) && |Unused(w, r)| < |Unused(w, t)|
  {
    assert t[at].translated && !t[at].Pending();
    hide Inv, LinksOk, Keys, NonePending, IsAdded, RelinkedCtis, Unused, Total;
    AddedPending(w, t, t', at, k);
    AddedInv(w, t, t', at, k);
    RelinkKeepsInv(w, t', at, b);
    SameWeights(w, t', at, b);
  }

  lemma AddedOthers(w: World, t: seq<Block>, t': seq<Block>, at: nat, k: Key, b: Block)
    requires IsAdded(w, t, t', at, k)
    ensures at < |t'| && OthersKept(t, t'[at := b], at)
  {
    OthersInsert(t, at, k, b);
  }

  lemma RelinkedPending(w: World, t: seq<Block>, at: nat, b: Block)
    requires NonePending(t) && at < |t| && Relinked(w, t[at], b)
    ensures NonePending(t[at := b]) && SameShape(t, t[at := b]) && t[at].translated
  {
  }

  lemma FewerIsLess(w: World, t': seq<Block>, t: seq<Block>)
    requires |Unused(w, t')| < |Unused(w, t)|
    ensures Less(w, t', t)
  {
  }

  lemma LessSame(w: World, t'': seq<Block>, t': seq<Block>, t: seq<Block>)
    requires Less(w, t', t) && Unused(w, t'') == Unused(w, t') && forall m :: Total(w, m, t'') == Total(w, m, t')
    ensures Less(w, t'', t)
  {
  }

  lemma KeyOf(t: seq<Block>, r: nat)
    requires r < |t|
    ensures t[r].key in Keys(t)
  {
  }

  lemma AllSettledNone(t: seq<Block>, minPc: nat, maxPc: nat, ctis: seq<Cti>)
    ensures AllSettled(t, minPc, maxPc, ctis, 0)
  {
  }

  lemma AllSettledLink(t: seq<Block>, minPc: nat, maxPc: nat, ctis: seq<Cti>, j: nat, link: Link)
    requires AllSettled(t, minPc, maxPc, ctis, j) && j < |ctis| && !link.Unlinked?
    ensures AllSettled(t, minPc, maxPc, ctis[j := ctis[j].(link := link)], j + 1)
  {
  }

  lemma AllSettledOut(t: seq<Block>, minPc: nat, maxPc: nat, ctis: seq<Cti>, j: nat)
    requires AllSettled(t, minPc, maxPc, ctis, j) && j < |ctis|
    requires !(ctis[j].link.Unlinked? && minPc <= ctis[j].target.pc < maxPc)
    ensures AllSettled(t, minPc, maxPc, ctis, j + 1)
  {
  }

  lemma AllSettledStuck(t: seq<Block>, minPc: nat, maxPc: nat, ctis: seq<Cti>, j: nat, r: int)
    requires AllSettled(t, minPc, maxPc, ctis, j) && j < |ctis| && IsFound(t, ctis[j].target, r)
    requires r >= 0 ==> t[r].key.pc != ctis[j].target.pc && !t[r].canSplit
    ensures AllSettled(t, minPc, maxPc, ctis, j + 1)
  {
    var k := ctis[j].target;
    forall r' | IsFound(t, k, r') && r' >= 0 ensures t[r'].key != k && !t[r'].canSplit {
      FoundOnce(t, k, r, r');
    }
  }

  lemma AllSettledStays(t: seq<Block>, t': seq<Block>, minPc: nat, maxPc: nat, ctis: seq<Cti>, n: int)
    requires AllSettled(t, minPc, maxPc, ctis, n) && SameShape(t, t')
    ensures AllSettled(t', minPc, maxPc, ctis, n)
  {
    forall i | 0 <= i < n && i < |ctis| ensures Settled(t', minPc, maxPc, ctis[i]) {
      SettledStays(t, t', minPc, maxPc, ctis[i]);
    }
  }

  /** Marking a block where it is to be split. */
  lemma MarkIsOk(w: World, t: seq<Block>, r: nat, k: Key)
    requires Inv(w, t) && NonePending(t) && r < |t| && t[r].Contains(k) && t[r].key.pc != k.pc && t[r].canSplit
    ensures var t' := t[r := t[r].(split := k.pc)];
            Inv(w, t') && t'[r].Pending() && OnlyPending(t', r) && SameShape(t, t') &&
            Unused(w, t') == Unused(w, t) && forall m :: Total(w, m, t') == Total(w, m, t)
  {
    var b := t[r].(split := k.pc);
    KeysUpdate(t, r, b);
    SameWeights(w, t, r, b);
    MarkedBlock(w, t[r], k.pc);
    hide Total, Unused, Keys, BlockOk, FromProgram, Reached, LinksOk;
  }

  lemma MarkedBlock(w: World, b: Block, pc: nat)
    requires BlockOk(w, b) && FromProgram(w, b) && b.translated && b.key.pc < pc < b.end && b.canSplit
    ensures BlockOk(w, b.(split := pc)) && FromProgram(w, b.(split := pc))
  {
    var limit :| IsDecode(w, b, limit);
    assert IsDecode(w, b.(split := pc), limit);
  }

  lemma StartInv(w: World, start: Key)
    requires start in w.starts
    ensures Inv(w, [NewBlock(start)]) && OnlyPending([NewBlock(start)], 0) && Covered([NewBlock(start)], start.pc, 0)
  {
  }

  lemma SettledIsResolved(t: seq<Block>, minPc: nat, maxPc: nat, ctis: seq<Cti>, j: nat)
    requires Covered(t, minPc, maxPc) && j < |ctis| && AllSettled(t, minPc, maxPc, ctis, |ctis|)
    ensures Resolved(t, ctis[j])
  {
    assert Settled(t, minPc, maxPc, ctis[j]);
  }

  lemma KeyStays(t: seq<Block>, t': seq<Block>)
    requires SameShape(t, t') && t != []
    ensures t' != [] && t'[0].key == t[0].key
  {
  }

  /** A turn of the loop of `visit_branches`, for jump `j` of block `at`. */
  method VisitCti(w: World, t0: seq<Block>, at: nat, before: seq<Cti>, j: nat, budget: nat, tick: nat, ghost k0: Key)
      returns (t: seq<Block>, ctis: seq<Cti>, added: bool, fallThroughs: nat, ghost k: Key)
    requires w.Valid() && Inv(w, t0) && at < |t0| && NonePending(t0) && j < |before| == |t0[at].ctis|
    requires RelinkedCtis(w, t0[at].ctis, before) && LinksOk(Keys(t0), before) && before[j] == t0[at].ctis[j]
    requires before[j].Followable() && (before[j].kind.fallThrough ==> budget > 0)
    requires AllDeferred(w, Keys(t0), budget, before, j)
    ensures |ctis| == |before| && ctis == before[j := ctis[j]]
    ensures RelinkedCtis(w, t0[at].ctis, ctis) && LinksOk(Keys(t), ctis)
    ensures if added then IsAdded(w, t0, t, at, k) && IsCharged(t0[at].ctis, true, k, budget, fallThroughs)
            else t == t0 && fallThroughs == budget && k == k0
    ensures AllDeferred(w, Keys(t0), fallThroughs, ctis, j + 1)
  {
    hide Inv, LinksOk, IsAdded, Keys, NonePending, AllDeferred, Overlaps, IsVisited, World.Valid, EverKnown,
         Deferred, IsCharged, RelinkedCtis;
    var c, link := before[j], Unlinked;
    t, link, added := VisitJump(w, t0, at, c, tick);
    fallThroughs, k := budget, k0;
    if added {
      k := c.target;
      AddedPending(w, t0, t, at, k);
      LinksGrow(Keys(t0), Keys(t), before);
      ChargedOne(t0[at].ctis, j, budget);
      if c.kind.fallThrough { fallThroughs := fallThroughs - 1; }
    }
    LinkOne(w, t0[at].ctis, before, j, link, Keys(t));
    DeferredJump(w, Keys(t0), fallThroughs, c, link);
    DeferredOne(w, Keys(t0), budget, fallThroughs, before, j, c.(link := link));
    ctis := before[j := c.(link := link)];
  }

  /** The loop of `visit_branches`, over the branches of block `at`. */
  method VisitCtis(w: World, t0: seq<Block>, at: nat, budget: nat, time: nat)
      returns (t: seq<Block>, ctis: seq<Cti>, added: bool, fallThroughs: nat, tick: nat, ghost k: Key)
    requires w.Valid() && Inv(w, t0) && at < |t0| && NonePending(t0)
    ensures RelinkedCtis(w, t0[at].ctis, ctis) && LinksOk(Keys(t), ctis)
    ensures if added then IsAdded(w, t0, t, at, k) else t == t0
    ensures IsCharged(t0[at].ctis, added, k, budget, fallThroughs)
    ensures AllDeferred(w, Keys(t0), fallThroughs, ctis, |ctis|)
  {
    k, t, ctis, fallThroughs, tick, added := t0[at].key, t0, t0[at].ctis, budget, time, false;
    assert BlockOk(w, t0[at]) && LinksOk(Keys(t0), ctis) && AllDeferred(w, Keys(t0), fallThroughs, ctis, 0);
    assert w.CtisOk(t0[at].ctis) && RelinkedCtis(w, t0[at].ctis, ctis);
    hide Inv, LinksOk, BlockOk, IsAdded, Keys, NonePending, AllDeferred, Overlaps, IsVisited, World.Valid, EverKnown,
         Deferred, IsCharged, RelinkedCtis;
    var j := 0;
    while j < |ctis|
      invariant 0 <= j <= |ctis| == |t0[at].ctis|
      invariant RelinkedCtis(w, t0[at].ctis, ctis) && LinksOk(Keys(t), ctis)
      invariant forall i :: j <= i < |ctis| ==> ctis[i] == t0[at].ctis[i]
      invariant if added then IsAdded(w, t0, t, at, k) else t == t0
      invariant added ==> forall i :: j <= i < |ctis| ==> !ctis[i].Followable()
      invariant if added then IsCharged(t0[at].ctis, true, k, budget, fallThroughs) else fallThroughs == budget
      invariant AllDeferred(w, Keys(t0), fallThroughs, ctis, j)
    {
      if ctis[j].Followable() && (ctis[j].kind.fallThrough ==> fallThroughs > 0) {
        assert !added;
        t, ctis, added, fallThroughs, k := VisitCti(w, t0, at, ctis, j, fallThroughs, tick + 1, k);
      } else {
        DeferredJump(w, Keys(t0), fallThroughs, ctis[j], ctis[j].link);
        DeferredOne(w, Keys(t0), fallThroughs, fallThroughs, ctis, j, ctis[j]);
        assert ctis[j := ctis[j]] == ctis && ctis[j].(link := ctis[j].link) == ctis[j];
      }
      tick := tick + 1;
      j := j + 1;
    }
    if !added { ChargedNone(t0[at].ctis, k, budget); }
  }

  /** Adding a block for a fall-through costs one of them. */
  predicate IsCharged(ctis: seq<Cti>, added: bool, k: Key, n: nat, n': nat) {
    if !added then n' == n
    else exists j :: 0 <= j < |ctis| && LeadsTo(ctis[j], k) && n == n' + if ctis[j].kind.fallThrough then 1 else 0
  }

  lemma ChargedNone(ctis: seq<Cti>, k: Key, n: nat)
    ensures IsCharged(ctis, false, k, n, n)
  {
  }

  lemma ChargedOne(ctis: seq<Cti>, j: nat, n: nat)
    requires j < |ctis| && ctis[j].Followable() && (ctis[j].kind.fallThrough ==> n > 0)
    ensures IsCharged(ctis, true, ctis[j].target, n, if ctis[j].kind.fallThrough then n - 1 else n)
  {
    assert LeadsTo(ctis[j], ctis[j].target);
  }

  lemma DeferredJump(w: World, keys: set<Key>, n: nat, c: Cti, link: Link)
    requires link.Unlinked? ==> c.link.Unlinked?
    requires link.Unlinked? && c.Followable() ==> (c.kind.fallThrough && n == 0) || Overlaps(w, keys, c.target)
    ensures Deferred(w, keys, n, c.(link := link))
  {
  }

  /** What becomes of a trace when the jump of block `at` is followed. */
  ghost predicate Visited(w: World, t: seq<Block>, at: nat, n: nat, t': seq<Block>, n': nat, added: bool, k: Key) {
    && at < |t| && at < |t'| && Relinked(w, t[at], t'[at])
    && AllDeferred(w, Keys(t), n', t'[at].ctis, |t'[at].ctis|) && IsCharged(t[at].ctis, added, k, n, n')
    && if added then IsAdded(w, t, Inserted(t, at + 1, NewBlock(k)), at, k) &&
                     t' == Inserted(t, at + 1, NewBlock(k))[at := t'[at]]
       else t' == t[at := t'[at]]
  }

  /** ... after it is decoded, up to its split point if it has one. */
  ghost predicate Processed(w: World, t: seq<Block>, at: nat, n: nat, t': seq<Block>, n': nat, added: bool, k: Key) {
    at < |t| && Visited(w, t[at := Redecoded(w, t[at])], at, n, t', n', added, k)
  }

  lemma VisitedKeys(w: World, t: seq<Block>, at: nat, n: nat, t': seq<Block>, n': nat, added: bool, k: Key)
    requires Visited(w, t, at, n, t', n', added, k)
    ensures Keys(t) <= Keys(t') && n' <= n
  {
    var b := t'[at];
    if added {
      KeysInserted(t, at + 1, NewBlock(k));
      KeysUpdate(Inserted(t, at + 1, NewBlock(k)), at, b);
    } else {
      KeysUpdate(t, at, b);
    }
  }

  /** Every jump that is not followed has a reason, also after a visit. */
  lemma VisitedFollows(w: World, t: seq<Block>, at: nat, n: nat, t': seq<Block>, n': nat, added: bool, k: Key)
    requires Visited(w, t, at, n, t', n', added, k)
    requires forall i :: 0 <= i < |t| && i != at ==> AllDeferred(w, Keys(t), n, t[i].ctis, |t[i].ctis|)
    ensures Followed(w, t', n')
  {
    VisitedKeys(w, t, at, n, t', n', added, k);
    hide AllDeferred, Relinked, IsCharged, IsAdded, Keys;
    forall i | 0 <= i < |t'| ensures AllDeferred(w, Keys(t'), n', t'[i].ctis, |t'[i].ctis|) {
      if i == at {
        DeferredGrows(w, Keys(t), Keys(t'), n', n', t'[at].ctis, |t'[at].ctis|);
      } else if added && i == at + 1 {
        NoneDeferred(w, Keys(t'), n');
      } else {
        var j := if added && i > at then i - 1 else i;
        assert t'[i] == t[j];
        DeferredGrows(w, Keys(t), Keys(t'), n, n', t[j].ctis, |t[j].ctis|);
      }
    }
  }

  lemma NoneDeferred(w: World, keys: set<Key>, n: nat)
    ensures AllDeferred(w, keys, n, [], 0)
  {
  }

  lemma ProcessedFollows(w: World, t: seq<Block>, at: nat, n: nat, t': seq<Block>, n': nat, added: bool, k: Key)
    requires Processed(w, t, at, n, t', n', added, k) && Followed(w, t, n)
    ensures Followed(w, t', n')
  {
    KeysUpdate(t, at, Redecoded(w, t[at]));
    hide AllDeferred, Visited, Keys;
    VisitedFollows(w, t[at := Redecoded(w, t[at])], at, n, t', n', added, k);
  }

  // ----- fixing up -----

  /** Some more branches are linked. */
  ghost predicate RelinkedAll(w: World, t: seq<Block>, t': seq<Block>) {
    |t'| == |t| && forall i :: 0 <= i < |t| ==> Relinked(w, t[i], t'[i])
  }

  /** Some branch of the trace without a link leads to `k`. */
  ghost predicate Open(t: seq<Block>, k: Key) {
    exists i, j :: 0 <= i < |t| && 0 <= j < |t[i].ctis| && t[i].ctis[j].target == k && t[i].ctis[j].link.Unlinked?
  }

  /** ... and then block `q` is marked, to be split where such a branch leads. */
  ghost predicate Marked(w: World, t: seq<Block>, t': seq<Block>, q: nat, k: Key) {
    q < |t'| && t'[q].split == k.pc &&
    var t1 := t'[q := t'[q].(split := 0)];
    RelinkedAll(w, t, t1) && t1[q].Contains(k) && t1[q].key.pc != k.pc && t1[q].canSplit && Open(t1, k)
  }

  lemma RelinkedNone(w: World, t: seq<Block>)
    ensures RelinkedAll(w, t, t)
  {
  }

  lemma RelinkedMore(w: World, t: seq<Block>, t': seq<Block>, at: nat, b: Block)
    requires RelinkedAll(w, t, t') && at < |t'| && Relinked(w, t'[at], b)
    ensures RelinkedAll(w, t, t'[at := b])
  {
    RelinkedTransitive(w, t[at].ctis, t'[at].ctis, b.ctis);
  }

  lemma MarkedIs(w: World, t: seq<Block>, t1: seq<Block>, at: nat, j: nat, r: nat)
    requires at < |t| == |t1| && r < |t1| && NonePending(t) && t1 == t[at := t1[at]] && Relinked(w, t[at], t1[at])
    requires j < |t1[at].ctis| && t1[at].ctis[j].link.Unlinked?
    requires var k := t1[at].ctis[j].target; t1[r].Contains(k) && t1[r].key.pc != k.pc && t1[r].canSplit
    ensures Marked(w, t, t1[r := t1[r].(split := t1[at].ctis[j].target.pc)], r, t1[at].ctis[j].target)
  {
    RelinkedNone(w, t);
    RelinkedMore(w, t, t, at, t1[at]);
    var t' := t1[r := t1[r].(split := t1[at].ctis[j].target.pc)];
    assert !t[r].Pending();
    assert t'[r := t'[r].(split := 0)] == t1;
  }

  lemma MarkedVia(w: World, t: seq<Block>, t1: seq<Block>, t': seq<Block>, q: nat, k: Key)
    requires RelinkedAll(w, t, t1) && Marked(w, t1, t', q, k)
    ensures Marked(w, t, t', q, k)
  {
    var t2 := t'[q := t'[q].(split := 0)];
    forall i | 0 <= i < |t| ensures Relinked(w, t[i], t2[i]) {
      assert Relinked(w, t[i], t1[i]) && Relinked(w, t1[i], t2[i]);
      RelinkedTransitive(w, t[i].ctis, t1[i].ctis, t2[i].ctis);
    }
  }

  lemma RelinkedFollows(w: World, t: seq<Block>, t': seq<Block>, n: nat)
    requires RelinkedAll(w, t, t') && Followed(w, t, n)
    ensures Followed(w, t', n)
  {
    SameKeys(t, t');
    hide AllDeferred, Keys, RelinkedCtis;
    forall i | 0 <= i < |t'| ensures AllDeferred(w, Keys(t'), n, t'[i].ctis, |t'[i].ctis|) {
      assert Relinked(w, t[i], t'[i]);
      DeferredRelinked(w, Keys(t), n, t[i].ctis, t'[i].ctis);
    }
  }

  lemma SameKeys(t: seq<Block>, t': seq<Block>)
    requires |t| == |t'| && forall i :: 0 <= i < |t| ==> t'[i].key == t[i].key
    ensures Keys(t) == Keys(t')
  {
  }

  lemma MarkedFollows(w: World, t: seq<Block>, t': seq<Block>, q: nat, k: Key, n: nat)
    requires Marked(w, t, t', q, k) && Followed(w, t, n)
    ensures Followed(w, t', n)
  {
    var t1 := t'[q := t'[q].(split := 0)];
    RelinkedFollows(w, t, t1, n);
    SameKeys(t1, t');
    hide AllDeferred, Keys;
    forall i | 0 <= i < |t'| ensures AllDeferred(w, Keys(t'), n, t'[i].ctis, |t'[i].ctis|) {
      assert t'[i].ctis == t1[i].ctis && AllDeferred(w, Keys(t1), n, t1[i].ctis, |t1[i].ctis|);
    }
  }

  lemma StartFollows(w: World, start: Key, n: nat)
    ensures Followed(w, [NewBlock(start)], n)
  {
  }

  // ----- which jumps are left -----

  /** The target is inside of a block that cannot be split, because a branch leads between its
      instructions. */
  ghost predicate InUnsplittable(w: World, t: seq<Block>, k: Key) {
    exists r :: 0 <= r < |t| && t[r].Contains(k) && t[r].key != k && !t[r].canSplit && HasGap(w, t[r])
  }

  /** Some address inside of the block is not the start of an instruction. */
  ghost predicate HasGap(w: World, b: Block) { exists gap :: b.key.pc < gap < b.end && !w.boundary(b.key, gap) }

  /** The target is in no block, because the code around it was cut off a block that was split
      there or before. */
  ghost predicate CutOff(w: World, t: seq<Block>, k: Key) {
    && NoneContains(t, k)
    && exists r :: 0 <= r < |t| && t[r].key.policy == k.policy && IsCutOff(w, t[r], k.pc)
  }

  predicate IsCutOff(w: World, b: Block, pc: nat) { b.key.pc < b.end <= pc < w.decode(b.key, 0).end }

  /** Why a jump that is to be followed is not linked in the end. */
  ghost predicate LeftOut(w: World, t: seq<Block>, fallThroughs: nat, c: Cti) {
    || (c.kind.Jump? && c.kind.fallThrough && fallThroughs == 0)
    || InUnsplittable(w, t, c.target) || CutOff(w, t, c.target)
  }

  lemma {:induction false} FoundExists(t: seq<Block>, k: Key, i: nat) returns (r: int)
    requires i < |t| && t[i].Contains(k)
    ensures 0 <= r && IsFound(t, k, r)
  {
    var first := 0;
    while !t[first].Contains(k)
      decreases i - first
      invariant 0 <= first <= i && forall j :: 0 <= j < first ==> !t[j].Contains(k)
    {
      first := first + 1;
    }
    r := first;
    while r + 1 < |t| && t[r + 1].Contains(k)
      invariant first <= r < |t| && forall j :: first <= j <= r ==> t[j].Contains(k)
    {
      r := r + 1;
    }
  }

  lemma FollowedIsLeftOut(w: World, t: seq<Block>, n: nat, i: nat, j: nat)
    requires w.Valid() && Inv(w, t) && NonePending(t) && Followed(w, t, n) && i < |t| && j < |t[i].ctis|
    requires t[i].ctis[j].Followable() && Resolved(t, t[i].ctis[j])
    ensures LeftOut(w, t, n, t[i].ctis[j])
  {
    hide Inv, World.Valid, NonePending, InUnsplittable, CutOff, Overlaps, Resolved;
    var c := t[i].ctis[j];
    assert AllDeferred(w, Keys(t), n, t[i].ctis, |t[i].ctis|) && Deferred(w, Keys(t), n, c);
    if !(c.kind.fallThrough && n == 0) {
      if NoneContains(t, c.target) {
        OutsideIsCutOff(w, t, c.target);
      } else {
        InsideIsUnsplittable(w, t, c);
      }
    }
  }

  lemma InsideIsUnsplittable(w: World, t: seq<Block>, c: Cti)
    requires w.Valid() && Inv(w, t) && NonePending(t)
    requires c.link.Unlinked? && Resolved(t, c) && !NoneContains(t, c.target)
    ensures InUnsplittable(w, t, c.target)
  {
    var m :| 0 <= m < |t| && t[m].Contains(c.target);
    var r := FoundExists(t, c.target, m);
    assert BlockOk(w, t[r]) && !t[r].Pending() && FromProgram(w, t[r]);
    hide World.Valid, Inv, FromProgram, HasGap, BlockOk;
    UnsplittableHasGap(w, t[r]);
  }

  lemma OutsideIsCutOff(w: World, t: seq<Block>, k: Key)
    requires Inv(w, t) && NonePending(t) && Overlaps(w, Keys(t), k) && NoneContains(t, k)
    ensures CutOff(w, t, k)
  {
    var key :| key in Keys(t) && key.policy == k.policy && key.pc < k.pc < w.decode(key, 0).end;
    var r :| 0 <= r < |t| && t[r].key == key;
    assert BlockOk(w, t[r]) && !t[r].Pending() && !t[r].Contains(k);
    assert IsCutOff(w, t[r], k.pc);
  }

  lemma UnsplittableHasGap(w: World, b: Block)
    requires w.Valid() && b.key in w.starts && FromProgram(w, b) && !b.canSplit
    ensures HasGap(w, b)
  {
    var limit :| IsDecode(w, b, limit);
    assert w.CutOk(b.key, limit);
  }

  lemma VisitedIs(w: World, t: seq<Block>, t1: seq<Block>, at: nat, n: nat, n': nat, added: bool, k: Key, b: Block)
    requires at < |t| && b == t[at].(ctis := b.ctis) && RelinkedCtis(w, t[at].ctis, b.ctis)
    requires if added then IsAdded(w, t, t1, at, k) else t1 == t
    requires AllDeferred(w, Keys(t), n', b.ctis, |b.ctis|) && IsCharged(t[at].ctis, added, k, n, n')
    ensures at < |t1| && t1[at] == t[at] && Visited(w, t, at, n, t1[at := b], n', added, k)
  {
    hide AllDeferred, IsCharged, Keys, RelinkedCtis, NoneContains;
    assert t1[at := b][at] == b;
  }

  class Builder {
    const w: World
    var trace: seq<Block>
    var fallThroughs: nat
    var minPc: nat
    var maxPc: nat
    var tick: nat

    constructor (w: World, start: Key, fallThroughs: nat)
      ensures this.w == w && this.fallThroughs == fallThroughs && trace == [NewBlock(start)]
      ensures minPc == start.pc && maxPc == 0
    {
      this.w, this.fallThroughs := w, fallThroughs;
      trace := [NewBlock(start)];
      minPc, maxPc, tick := start.pc, 0, 0;
    }

    /** `visit_branches`: follows the jump of a block. */
    method VisitBranches(at: nat) returns (added: bool, ghost k: Key)
      requires w.Valid() && Inv(w, trace) && at < |trace| && NonePending(trace)
      modifies this`trace, this`fallThroughs, this`tick
      ensures Visited(w, old(trace), at, old(fallThroughs), trace, fallThroughs, added, k)
      ensures Inv(w, trace) && trace != [] && trace[0].key == old(trace)[0].key
      ensures OthersKept(old(trace), trace, at) && at < |trace|
      ensures !added ==> NonePending(trace) && |trace| == |old(trace)| && Relinked(w, old(trace)[at], trace[at]) &&
                         trace == old(trace)[at := trace[at]]
      ensures added ==> |trace| == |old(trace)| + 1 && trace[at + 1].Pending() && OnlyPending(trace, at + 1) &&
                        |Unused(w, trace)| < |Unused(w, old(trace))|
    {
      hide Inv, LinksOk, IsAdded, Keys, NonePending, OthersKept, AllDeferred, RelinkedCtis, IsCharged, Visited;
      ghost var t0, n0 := trace, fallThroughs;
      var t, ctis;
      t, ctis, added, fallThroughs, tick, k := VisitCtis(w, trace, at, fallThroughs, tick);
      ghost var b := t0[at].(ctis := ctis);
      if added {
        AddedPending(w, t0, t, at, k);
        AddedIsOk(w, t0, t, at, k, b, t[at := b]);
        AddedOthers(w, t0, t, at, k, b);
        assert !b.Pending() by { assert NonePending(t0) && !t0[at].Pending(); }
      } else {
        RelinkedPending(w, t0, at, b);
        RelinkKeepsInv(w, t0, at, b);
        OthersUpdate(t0, at, b);
      }
      trace := t[at := t[at].(ctis := ctis)];
      VisitedIs(w, t0, t, at, n0, fallThroughs, added, k, b);
    }

    /** Decodes block `at`, if that is pending, and follows its jump. */
    method Process(at: nat) returns (added: bool, ghost k: Key)
      requires w.Valid() && Inv(w, trace) && at < |trace| && (trace[at].Pending() ==> OnlyPending(trace, at))
      modifies this`trace, this`fallThroughs, this`tick
      ensures Inv(w, trace) && trace != [] && trace[0].key == old(trace)[0].key
      ensures if old(trace)[at].Pending() then
                Processed(w, old(trace), at, old(fallThroughs), trace, fallThroughs, added, k)
              else trace == old(trace) && fallThroughs == old(fallThroughs) && !added
      ensures !added ==> |trace| == |old(trace)|
      ensures OthersKept(old(trace), trace, at)
      ensures old(trace)[at].Pending() ==> Less(w, trace, old(trace))
      ensures old(trace)[at].Pending() && !added ==> NonePending(trace)
      ensures added ==> |trace| == |old(trace)| + 1 && trace[at + 1].Pending() && OnlyPending(trace, at + 1)
    {
      hide OthersKept, Visited, Inv, Less, BlockOk, RelinkedCtis;
      added := false;
      ghost var t0 := trace;
      k := t0[at].key;
      OthersUpdate(t0, at, t0[at]);
      assert t0[at := t0[at]] == t0;
      var b := trace[at];
      var oldSplit := b.split;
      if oldSplit != 0 {
        b := b.(translated := false, end := oldSplit, split := 0, ctis := []);
      }
      if !b.translated {
        PendingIs(w, t0, at);
        var d := w.decode(b.key, b.end);
        b := b.(translated := true, end := d.end, ctis := d.ctis);
        if oldSplit != 0 && b.end != oldSplit {
          b := b.(canSplit := false);
        }
        trace := trace[at := b];
        RerunKeepsInv(w, t0, at);
        hide NonePending;
        ghost var t1 := trace;
        added, k := VisitBranches(at);
        OthersVia(t0, at, b, trace);
        if added {
          FewerIsLess(w, trace, t0);
        } else {
          SameWeights(w, t1, at, trace[at]);
          LessSame(w, trace, t1, t0);
        }
      }
    }

    /** The first inner loop: it decodes the one pending block and follows its jump. */
    method Extend(ghost p: nat) returns (changed: bool, ghost q: nat, ghost k: Key)
      requires w.Valid() && Inv(w, trace) && p < |trace| && trace[p].Pending() && OnlyPending(trace, p)
      requires Covered(trace, minPc, maxPc)
      modifies this`trace, this`fallThroughs, this`tick, this`minPc, this`maxPc
      ensures Covered(trace, minPc, maxPc)
      ensures Processed(w, old(trace), p, old(fallThroughs), trace, fallThroughs, changed, k)
      ensures Inv(w, trace) && trace != [] && trace[0].key == old(trace)[0].key && Less(w, trace, old(trace))
      ensures if changed then q < |trace| && trace[q].Pending() && OnlyPending(trace, q) else NonePending(trace)
      ensures changed ==> q == p + 1
    {
      hide Inv, Less, Covered, OthersKept, Processed;
      changed := false;
      q, k := p, trace[p].key;
      var i := 0;
      while i < |trace|
        invariant 0 <= i && Inv(w, trace) && trace != [] && trace[0].key == old(trace)[0].key
        invariant i <= p ==> trace == old(trace) && !changed && fallThroughs == old(fallThroughs)
        invariant Covered(trace, minPc, maxPc)
        invariant i > p ==> Less(w, trace, old(trace))
        invariant i > p ==> Processed(w, old(trace), p, old(fallThroughs), trace, fallThroughs, changed, k)
        invariant i > p && changed ==> q == p + 1 < i && q < |trace| && trace[q].Pending() && OnlyPending(trace, q)
        invariant i > p && !changed ==> NonePending(trace)
        decreases |trace| - i
      {
        ghost var before, min, max := trace, minPc, maxPc;
        var added;
        ghost var k';
        added, k' := Process(i);
        var b := trace[i];
        if b.key.pc < minPc { minPc := b.key.pc; }
        if b.end > maxPc { maxPc := b.end; }
        CoveredStays(before, trace, i, min, max, minPc, maxPc);
        if i == p { k := k'; }
        if added {
          changed, q := true, i + 1;
          i := i + 2;
        } else {
          i := i + 1;
        }
      }
    }

    /** The links of block `at` so far are kept, and block `r` is marked, to be split where branch
        `j` leads. */
    method Mark(at: nat, ctis: seq<Cti>, j: nat, r: nat)
      requires Inv(w, trace) && NonePending(trace) && at < |trace| && r < |trace| && j < |ctis|
      requires RelinkedCtis(w, trace[at].ctis, ctis) && LinksOk(Keys(trace), ctis) && ctis[j].link.Unlinked?
      requires trace[r].Contains(ctis[j].target) && trace[r].key.pc != ctis[j].target.pc && trace[r].canSplit
      modifies this`trace
      ensures Inv(w, trace) && SameShape(old(trace), trace)
      ensures Unused(w, trace) == Unused(w, old(trace)) && forall m :: Total(w, m, trace) == Total(w, m, old(trace))
      ensures r < |trace| && trace[r].Pending() && OnlyPending(trace, r)
      ensures Marked(w, old(trace), trace, r, ctis[j].target)
    {
      hide Inv, LinksOk, Keys, Marked, EverKnown, Total, Unused, RelinkedCtis;
      ghost var t0 := trace;
      ghost var b := t0[at].(ctis := ctis);
      RelinkedPending(w, t0, at, b);
      RelinkKeepsInv(w, t0, at, b);
      SameWeights(w, t0, at, b);
      trace := trace[at := trace[at].(ctis := ctis)];
      MarkIsOk(w, trace, r, ctis[j].target);
      MarkedIs(w, t0, trace, at, j, r);
      trace := trace[r := trace[r].(split := ctis[j].target.pc)];
    }

    /** `fixup_branches`: links the branches of a block, up to the first one that goes into
        the middle of a block that can be split. */
    method FixupBranches(at: nat) returns (split: bool, ghost q: nat, ghost k: Key)
      requires Inv(w, trace) && at < |trace| && NonePending(trace)
      modifies this`trace
      ensures Inv(w, trace) && SameShape(old(trace), trace)
      ensures Unused(w, trace) == Unused(w, old(trace)) && forall m :: Total(w, m, trace) == Total(w, m, old(trace))
      ensures if split then q < |trace| && trace[q].Pending() && OnlyPending(trace, q) else NonePending(trace)
      ensures !split ==> AllSettled(trace, minPc, maxPc, trace[at].ctis, |trace[at].ctis|)
      ensures !split ==> trace == old(trace)[at := trace[at]] && Relinked(w, old(trace)[at], trace[at])
      ensures split ==> Marked(w, old(trace), trace, q, k)
    {
      ghost var t0 := trace;
      var ctis := trace[at].ctis;
      assert LinksOk(Keys(t0), ctis) && RelinkedCtis(w, ctis, ctis);
      hide Inv, LinksOk, NonePending, AllSettled, Settled, Keys, Marked, EverKnown;
      split, q, k := false, 0, t0[at].key;
      AllSettledNone(trace, minPc, maxPc, ctis);
      var j := 0;
      while j < |ctis|
        invariant 0 <= j <= |ctis| && trace == t0
        invariant RelinkedCtis(w, t0[at].ctis, ctis) && LinksOk(Keys(t0), ctis)
        invariant AllSettled(t0, minPc, maxPc, ctis, j)
      {
        var c := ctis[j];
        if c.link.Unlinked? && minPc <= c.target.pc < maxPc {
          var r := FindBlock(trace, c.target);
          if r >= 0 {
            if trace[r].key.pc == c.target.pc {
              KeyOf(trace, r);
              LinkOne(w, t0[at].ctis, ctis, j, ToBlock(c.target), Keys(t0));
              AllSettledLink(t0, minPc, maxPc, ctis, j, ToBlock(c.target));
              ctis := ctis[j := c.(link := ToBlock(c.target))];
            } else if trace[r].canSplit {
              Mark(at, ctis, j, r);
              split, q, k := true, r, c.target;
              return;
            } else {
              AllSettledStuck(t0, minPc, maxPc, ctis, j, r);
            }
          } else {
            AllSettledStuck(t0, minPc, maxPc, ctis, j, r);
          }
        } else {
          AllSettledOut(t0, minPc, maxPc, ctis, j);
        }
        j := j + 1;
      }
      ghost var b := t0[at].(ctis := ctis);
      RelinkKeepsInv(w, t0, at, b);
      RelinkedPending(w, t0, at, b);
      SameWeights(w, t0, at, b);
      trace := trace[at := trace[at].(ctis := ctis)];
      AllSettledStays(t0, trace, minPc, maxPc, ctis, |ctis|);
    }

    /** The second inner loop: it links branches until a block has to be split. */
    method Fixup() returns (split: bool, ghost q: nat, ghost k: Key)
      requires Inv(w, trace) && NonePending(trace)
      modifies this`trace
      ensures Inv(w, trace) && SameShape(old(trace), trace)
      ensures Unused(w, trace) == Unused(w, old(trace)) && forall m :: Total(w, m, trace) == Total(w, m, old(trace))
      ensures if split then q < |trace| && trace[q].Pending() && OnlyPending(trace, q) else NonePending(trace)
      ensures !split ==> forall i :: 0 <= i < |trace| ==>
                AllSettled(trace, minPc, maxPc, trace[i].ctis, |trace[i].ctis|)
      ensures if split then Marked(w, old(trace), trace, q, k) else RelinkedAll(w, old(trace), trace)
    {
      hide Inv, NonePending, AllSettled, Total, Unused, Marked, RelinkedAll;
      split, q, k := false, 0, Key(0, 0);
      RelinkedNone(w, trace);
      var i := 0;
      while i < |trace|
        invariant 0 <= i <= |trace| && Inv(w, trace) && NonePending(trace) && SameShape(old(trace), trace)
        invariant Unused(w, trace) == Unused(w, old(trace)) && forall m :: Total(w, m, trace) == Total(w, m, old(trace))
        invariant forall k :: 0 <= k < i ==> AllSettled(trace, minPc, maxPc, trace[k].ctis, |trace[k].ctis|)
        invariant RelinkedAll(w, old(trace), trace)
      {
        ghost var before := trace;
        split, q, k := FixupBranches(i);
        if split {
          MarkedVia(w, old(trace), before, trace, q, k);
          return;
        }
        RelinkedMore(w, old(trace), before, i, trace[i]);
        forall k | 0 <= k < i ensures AllSettled(trace, minPc, maxPc, trace[k].ctis, |trace[k].ctis|) {
          AllSettledStays(before, trace, minPc, maxPc, trace[k].ctis, |trace[k].ctis|);
        }
        i := i + 1;
      }
    }

    /** The fixpoint loop. */
    method Settle(start: Key)
      requires w.Valid() && Inv(w, trace) && Covered(trace, minPc, maxPc) && trace != [] && trace[0].key == start
      requires trace[0].Pending() && OnlyPending(trace, 0) && Followed(w, trace, fallThroughs)
      modifies this
      ensures Inv(w, trace) && NonePending(trace) && Covered(trace, minPc, maxPc)
      ensures trace != [] && trace[0].key == start
      ensures Followed(w, trace, fallThroughs)
      ensures forall i :: 0 <= i < |trace| ==> AllSettled(trace, minPc, maxPc, trace[i].ctis, |trace[i].ctis|)
    {
      hide AllSettled, Total, Unused, Inv, NonePending, Covered, SameShape, Followed, Processed, Marked, RelinkedAll;
      ghost var p: nat := 0;
      var changed := true;
      while changed
        invariant Inv(w, trace) && trace != [] && trace[0].key == start && Covered(trace, minPc, maxPc)
        invariant if changed then p < |trace| && trace[p].Pending() && OnlyPending(trace, p) else NonePending(trace)
        invariant Followed(w, trace, fallThroughs)
        invariant !changed ==> forall i :: 0 <= i < |trace| ==>
                    AllSettled(trace, minPc, maxPc, trace[i].ctis, |trace[i].ctis|)
        decreases |Unused(w, trace)|, Total(w, Splittables, trace), Total(w, Spans, trace),
                  Total(w, Untranslated, trace), changed
      {
        ghost var t0, n0, p0 := trace, fallThroughs, p;
        ghost var k;
        changed, p, k := Extend(p);
        assert Less(w, trace, t0);
        ProcessedFollows(w, t0, p0, n0, trace, fallThroughs, changed, k);
        if !changed {
          ghost var t1 := trace;
          changed, p, k := Fixup();
          CoveredShape(t1, trace, minPc, maxPc);
          KeyStays(t1, trace);
          if changed {
            MarkedFollows(w, t1, trace, p, k, fallThroughs);
          } else {
            RelinkedFollows(w, t1, trace, fallThroughs);
          }
        }
      }
    }

    /** Building a trace ends, and then every block is decoded, no two blocks start at the same
        place, and every branch is linked to the block that starts at its target, or leads out
        of the trace, or into the middle of a block that cannot be split.  Jumps to follow are
        left only for the reasons of `LeftOut`. */
    method Build(start: Key)
      requires w.Valid() && start in w.starts && trace == [NewBlock(start)] && minPc == start.pc && maxPc == 0
      modifies this
      ensures Inv(w, trace) && NonePending(trace) && trace != [] && trace[0].key == start
      ensures forall i, j :: 0 <= i < |trace| && 0 <= j < |trace[i].ctis| ==> Resolved(trace, trace[i].ctis[j])
      ensures forall i, j :: 0 <= i < |trace| && 0 <= j < |trace[i].ctis| && trace[i].ctis[j].Followable() ==>
                LeftOut(w, trace, fallThroughs, trace[i].ctis[j])
    {
      hide AllSettled, Inv, NonePending, Covered, Resolved, LeftOut, Followed;
      StartInv(w, start);
      StartFollows(w, start, fallThroughs);
      Settle(start);
      forall i, j | 0 <= i < |trace| && 0 <= j < |trace[i].ctis| ensures Resolved(trace, trace[i].ctis[j]) {
        SettledIsResolved(trace, minPc, maxPc, trace[i].ctis, j);
      }
      forall i, j | 0 <= i < |trace| && 0 <= j < |trace[i].ctis| && trace[i].ctis[j].Followable()
        ensures LeftOut(w, trace, fallThroughs, trace[i].ctis[j])
      {
        FollowedIsLeftOut(w, trace, fallThroughs, i, j);
      }
    }
  }
}
