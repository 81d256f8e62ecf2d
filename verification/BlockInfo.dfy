/** Finding the basic block that a code cache address belongs to: `store_trace_meta_info`,
    `find_basic_block_info` and `remove_basic_block_info`.

    The code cache is divided into pages.  Each page that holds code has a fragment locator,
    which a trace that crosses pages makes them share; a locator lists its fragments in the
    order in which they were stored, and is searched by bisection.  Addresses count from the
    start of the code cache. */
module BlockInfo {

  const PAGE: nat := 4096
  const BB_ALIGN: nat := 64
  const MAX_BBS_PER_SLAB: nat := PAGE / BB_ALIGN + 1

  datatype Block = Block(start: nat, bytes: nat, id: int)
  {
    predicate Has(pc: nat) { start <= pc < start + bytes }
  }

  datatype MaybeBlock = NoBlock | Found(block: Block)

  /** Blocks that tile `[from, to)`, in order.  A block may be empty. */
  predicate Tiles(blocks: seq<Block>, from: nat, to: nat) {
    if blocks == [] then from == to
    else blocks[0].start == from && Tiles(blocks[1..], from + blocks[0].bytes, to)
  }

  /** An emitted trace; a single block is a trace of one. */
  datatype Trace = Trace(start: nat, bytes: nat, blocks: seq<Block>)
  {
    function End(): nat { start + bytes }
    predicate Has(pc: nat) { start <= pc < End() }
    predicate WellFormed() { bytes > 0 && Tiles(blocks, start, End()) }
    function FirstPage(): nat { start / PAGE }
    function LastPage(): int { (End() - 1) / PAGE }
  }

  predicate Apart(t: Trace, u: Trace) { t.End() <= u.start || u.End() <= t.start }

  // ----- searching one locator -----

  predicate Sorted(traces: seq<Trace>) {
    && (forall i :: 0 <= i < |traces| ==> traces[i].WellFormed())
    && (forall i, j :: 0 <= i < j < |traces| ==> traces[i].End() <= traces[j].start)
  }

  lemma {:induction false} TileWithin(blocks: seq<Block>, from: nat, to: nat, k: nat)
    requires Tiles(blocks, from, to) && k < |blocks|
    ensures from <= blocks[k].start && blocks[k].start + blocks[k].bytes <= to
  {
    TilesForward(blocks[1..], from + blocks[0].bytes, to);
    if k > 0 {
      TileWithin(blocks[1..], from + blocks[0].bytes, to, k - 1);
    }
  }

  lemma {:induction false} TilesForward(blocks: seq<Block>, from: nat, to: nat)
    requires Tiles(blocks, from, to)
    ensures from <= to
  {
    if blocks != [] {
      TilesForward(blocks[1..], from + blocks[0].bytes, to);
    }
  }

  /** A tiled address is in exactly one block. */
  lemma {:induction false} TileExists(blocks: seq<Block>, from: nat, to: nat, pc: nat) returns (k: nat)
    requires Tiles(blocks, from, to) && from <= pc < to
    ensures k < |blocks| && blocks[k].Has(pc)
  {
    if blocks[0].Has(pc) {
      k := 0;
    } else {
      k := TileExists(blocks[1..], from + blocks[0].bytes, to, pc);
      k := k + 1;
    }
  }

  lemma {:induction false} TileUnique(blocks: seq<Block>, from: nat, to: nat, pc: nat, i: nat, k: nat)
    requires Tiles(blocks, from, to) && i <= k < |blocks| && blocks[i].Has(pc) && blocks[k].Has(pc)
    ensures i == k
  {
    if i > 0 {
      TileUnique(blocks[1..], from + blocks[0].bytes, to, pc, i - 1, k - 1);
    } else if k > 0 {
      TileWithin(blocks[1..], from + blocks[0].bytes, to, k - 1);
    }
  }

  /** `get_block`: a linear scan over the blocks of a trace. */
  method GetBlock(t: Trace, pc: nat) returns (b: Block)
    requires t.WellFormed() && t.Has(pc)
    ensures b in t.blocks && b.Has(pc)
  {
    ghost var k := TileExists(t.blocks, t.start, t.End(), pc);
    if |t.blocks| == 1 {
      return t.blocks[0];
    }
    var i := 0;
    while !t.blocks[i].Has(pc)
      invariant 0 <= i <= k
      decreases k - i
    {
      i := i + 1;
    }
    b := t.blocks[i];
  }

  /** Division of C, which truncates. */
  function Half(x: int): int { if x >= 0 then x / 2 else -(-x / 2) }

  /** Some fragment of the list has a block around `pc`. */
  ghost predicate ListHas(traces: seq<Trace>, pc: nat, b: Block) {
    exists i :: 0 <= i < |traces| && b in traces[i].blocks && b.Has(pc)
  }

  lemma BlockInTrace(t: Trace, pc: nat, b: Block)
    requires t.WellFormed() && b in t.blocks && b.Has(pc)
    ensures t.Has(pc)
  {
    var k :| 0 <= k < |t.blocks| && t.blocks[k] == b;
    TileWithin(t.blocks, t.start, t.End(), k);
  }

  /** `search_basic_block_info`: bisection over fragments in address order. */
  method Search(traces: seq<Trace>, pc: nat) returns (r: MaybeBlock)
    requires Sorted(traces)
    ensures r.Found? ==> ListHas(traces, pc, r.block)
    ensures r.NoBlock? ==> forall b :: !ListHas(traces, pc, b)
  {
    var first, last := 0, |traces| - 1;
    var middle := Half(first + last);
    while first <= middle && middle <= last
      invariant 0 <= first <= last + 1 <= |traces| && middle == Half(first + last)
      invariant forall i :: 0 <= i < first ==> !traces[i].Has(pc)
      invariant forall i :: last < i < |traces| ==> !traces[i].Has(pc)
      decreases last - first
    {
      var t := traces[middle];
      if t.start <= pc {
        if pc < t.End() {
          var b := GetBlock(t, pc);
          return Found(b);
        }
        first := middle + 1;
      } else {
        last := middle - 1;
      }
      middle := Half(first + last);
    }
    forall b ensures !ListHas(traces, pc, b) {
      if ListHas(traces, pc, b) {
        var i :| 0 <= i < |traces| && b in traces[i].blocks && b.Has(pc);
        BlockInTrace(traces[i], pc, b);
        assert false;
      }
    }
    r := NoBlock;
  }

  // ----- pages, locators and slabs -----

  /** A slab of a fragment allocator: whole pages, filled from the bottom up to `top`. */
  datatype Slab = Slab(first: nat, pages: nat, top: nat)
  {
    predicate HasPage(p: int) { first <= p < first + pages }
    predicate Valid() { first * PAGE <= top <= (first + pages) * PAGE }
  }

  /** The fragments of a locator, and the slab whose pages use it. */
  datatype Locator = Locator(slab: nat, traces: seq<Trace>)

  datatype State = State(slabs: seq<Slab>, page: map<nat, nat>, locators: seq<Locator>)

  predicate Init(s: State) { s.slabs == [] && s.page == map[] && s.locators == [] }

  datatype Step =
    | Grow(first: nat, pages: nat)    // the allocator obtains a slab
    | Store(slab: nat, trace: Trace)  // a trace is allocated, emitted and stored
    | Remove(slab: nat, at: nat)      // the last block of a slab is removed and freed

  predicate PagesFree(slabs: seq<Slab>, first: nat, pages: nat) {
    forall i :: 0 <= i < |slabs| ==> first + pages <= slabs[i].first || slabs[i].first + slabs[i].pages <= first
  }

  /** A trace goes above everything else in its slab. */
  predicate CanStore(s: State, slab: nat, t: Trace) {
    && slab < |s.slabs| && t.WellFormed() && t.start % BB_ALIGN == 0
    && s.slabs[slab].top <= t.start && t.End() <= (s.slabs[slab].first + s.slabs[slab].pages) * PAGE
  }

  /** What `remove_basic_block_info` demands: the address starts the last fragment of its
      slab, which is a single block. */
  predicate CanRemove(s: State, slab: nat, at: nat) {
    && slab < |s.slabs| && at / PAGE in s.page && s.page[at / PAGE] < |s.locators|
    && var l := s.locators[s.page[at / PAGE]];
       l.slab == slab && l.traces != [] &&
       var t := l.traces[|l.traces| - 1];
       t.start == at && |t.blocks| == 1 && t.End() == s.slabs[slab].top
  }

  /** `*slab_`, made if it is missing: the locator of the page a trace starts in. */
  function LocatorFor(s: State, slab: nat, t: Trace): (int, seq<Locator>) {
    if t.FirstPage() in s.page then (s.page[t.FirstPage()], s.locators)
    else (|s.locators|, s.locators + [Locator(slab, [])])
  }

  /** The pages of a trace, all with the same locator. */
  function Shared(page: map<nat, nat>, first: nat, last: int, l: nat): (r: map<nat, nat>)
    ensures forall p: nat :: p in r <==> p in page || first <= p <= last
    ensures forall p: nat :: p in r ==> r[p] == (if first <= p <= last then l else page[p])
    decreases last - first
  {
    if first > last then page else Shared(page[first := l], first + 1, last, l)
  }

  ghost predicate Next(s: State, s': State, step: Step) {
    match step
    case Grow(first, pages) =>
      PagesFree(s.slabs, first, pages) && s' == s.(slabs := s.slabs + [Slab(first, pages, first * PAGE)])
    case Store(slab, t) => CanStore(s, slab, t) && s' == Stored(s, slab, t)
    case Remove(slab, at) => CanRemove(s, slab, at) && s' == Removed(s, slab, at)
  }

  function Stored(s: State, slab: nat, t: Trace): State
    requires slab < |s.slabs|
  {
    var (l, locators) := LocatorFor(s, slab, t);
    if !(0 <= l < |locators|) then s
    else
      State(s.slabs[slab := s.slabs[slab].(top := t.End())],
            Shared(s.page, t.FirstPage(), t.LastPage(), l),
            locators[l := locators[l].(traces := locators[l].traces + [t])])
  }

  function Removed(s: State, slab: nat, at: nat): State
    requires CanRemove(s, slab, at)
  {
    var l := s.page[at / PAGE];
    var traces := s.locators[l].traces;
    s.(slabs := s.slabs[slab := s.slabs[slab].(top := at)],
       locators := s.locators[l := s.locators[l].(traces := traces[..|traces| - 1])])
  }

  ghost predicate Run(states: seq<State>, steps: seq<Step>) {
    && |states| == |steps| + 1 && Init(states[0])
    && forall i :: 0 <= i < |steps| ==> Next(states[i], states[i + 1], steps[i])
  }

  // ----- invariant -----

  predicate SlabsOk(slabs: seq<Slab>) {
    && (forall i :: 0 <= i < |slabs| ==> slabs[i].Valid())
    && (forall i, j :: 0 <= i < j < |slabs| ==>
          slabs[i].first + slabs[i].pages <= slabs[j].first || slabs[j].first + slabs[j].pages <= slabs[i].first)
  }

  /** A page only uses locators of its own slab. */
  predicate PageOk(s: State, p: nat) {
    p in s.page ==> s.page[p] < |s.locators| && s.locators[s.page[p]].slab < |s.slabs| &&
                    s.slabs[s.locators[s.page[p]].slab].HasPage(p)
  }

  /** A fragment lies in the filled part of its slab, and all of its pages lead to it. */
  predicate TraceOk(slabs: seq<Slab>, page: map<nat, nat>, l: nat, slab: nat, t: Trace) {
    && t.WellFormed() && t.start % BB_ALIGN == 0
    && slab < |slabs| && slabs[slab].first * PAGE <= t.start && t.End() <= slabs[slab].top
    && (forall p: nat :: t.FirstPage() <= p <= t.LastPage() ==> p in page && page[p] == l)
  }

  predicate LocatorOk(s: State, l: nat) {
    l < |s.locators| ==>
      && Sorted(s.locators[l].traces)
      && (forall i :: 0 <= i < |s.locators[l].traces| ==>
            TraceOk(s.slabs, s.page, l, s.locators[l].slab, s.locators[l].traces[i]))
  }

  /** Fragments of different locators do not overlap. */
  predicate LocatorsApart(s: State, l: nat, m: nat) {
    l < m < |s.locators| ==>
      forall i, j :: 0 <= i < |s.locators[l].traces| && 0 <= j < |s.locators[m].traces| ==>
        Apart(s.locators[l].traces[i], s.locators[m].traces[j])
  }

  ghost predicate Inv(s: State) {
    && SlabsOk(s.slabs) && (forall p: nat :: PageOk(s, p)) && (forall l: nat :: LocatorOk(s, l))
    && (forall l: nat, m: nat :: LocatorsApart(s, l, m))
  }

  lemma SamePageSameSlab(slabs: seq<Slab>, i: nat, j: nat, p: int)
    requires SlabsOk(slabs) && i < |slabs| && j < |slabs| && slabs[i].HasPage(p) && slabs[j].HasPage(p)
    ensures i == j
  {
  }

  /** The locator that a trace is stored in belongs to its slab. */
  lemma LocatorForIsOwn(s: State, slab: nat, t: Trace)
    requires Inv(s) && CanStore(s, slab, t)
    ensures var (l, locators) := LocatorFor(s, slab, t);
            0 <= l < |locators| && |s.locators| <= |locators| && locators[l].slab == slab
    ensures s.slabs[slab].HasPage(t.FirstPage()) && s.slabs[slab].HasPage(t.LastPage())
  {
    var p := t.FirstPage();
    assert PageOk(s, p);
    if p in s.page {
      SamePageSameSlab(s.slabs, slab, s.locators[s.page[p]].slab, p);
    }
  }

  /** Everything already in the slab of a new trace lies below it, and does not reach the
      pages after its first. */
  lemma BelowNew(s: State, slab: nat, t: Trace, l: nat, i: nat)
    requires Inv(s) && CanStore(s, slab, t) && l < |s.locators| && i < |s.locators[l].traces|
    ensures var u := s.locators[l].traces[i];
            Apart(u, t) && (s.locators[l].slab == slab ==> u.End() <= t.start) &&
            (u.LastPage() <= t.FirstPage() || t.LastPage() < u.FirstPage())
  {
    var u := s.locators[l].traces[i];
    var k := s.locators[l].slab;
    assert LocatorOk(s, l) && TraceOk(s.slabs, s.page, l, k, u);
    assert k != slab ==> s.slabs[k].first + s.slabs[k].pages <= s.slabs[slab].first ||
                         s.slabs[slab].first + s.slabs[slab].pages <= s.slabs[k].first;
  }

  lemma StoreKeepsPages(s: State, slab: nat, t: Trace, p: nat)
    requires Inv(s) && CanStore(s, slab, t)
    ensures PageOk(Stored(s, slab, t), p)
  {
    LocatorForIsOwn(s, slab, t);
    assert PageOk(s, p);
  }

  /** The fragments that were there keep their place and their pages. */
  lemma StoreKeepsTrace(s: State, slab: nat, t: Trace, l: nat, i: nat)
    requires Inv(s) && CanStore(s, slab, t) && l < |s.locators| && i < |s.locators[l].traces|
    ensures var s' := Stored(s, slab, t);
            TraceOk(s'.slabs, s'.page, l, s.locators[l].slab, s.locators[l].traces[i])
  {
    var s', u := Stored(s, slab, t), s.locators[l].traces[i];
    LocatorForIsOwn(s, slab, t);
    BelowNew(s, slab, t, l, i);
    assert LocatorOk(s, l) && TraceOk(s.slabs, s.page, l, s.locators[l].slab, u);
    forall p: nat | u.FirstPage() <= p <= u.LastPage() ensures p in s'.page && s'.page[p] == l {
      assert p in s.page && s.page[p] == l;
    }
  }

  lemma StoreKeepsLocator(s: State, slab: nat, t: Trace, l: nat)
    requires Inv(s) && CanStore(s, slab, t)
    ensures LocatorOk(Stored(s, slab, t), l)
  {
    hide TraceOk;
    var s' := Stored(s, slab, t);
    LocatorForIsOwn(s, slab, t);
    var (m, locators) := LocatorFor(s, slab, t);
    if l < |s'.locators| {
      forall i | 0 <= i < |s'.locators[l].traces|
        ensures TraceOk(s'.slabs, s'.page, l, s'.locators[l].slab, s'.locators[l].traces[i])
      {
        if l < |s.locators| && i < |s.locators[l].traces| {
          StoreKeepsTrace(s, slab, t, l, i);
        } else {
          NewTraceOk(s, slab, t);
        }
      }
      if l < |s.locators| {
        assert LocatorOk(s, l);
        forall i | 0 <= i < |s.locators[l].traces| ensures l == m ==> s.locators[l].traces[i].End() <= t.start {
          BelowNew(s, slab, t, l, i);
        }
      }
    }
  }

  lemma NewTraceOk(s: State, slab: nat, t: Trace)
    requires Inv(s) && CanStore(s, slab, t)
    ensures var (l, _) := LocatorFor(s, slab, t);
            var s' := Stored(s, slab, t);
            l >= 0 && TraceOk(s'.slabs, s'.page, l, slab, t)
  {
    LocatorForIsOwn(s, slab, t);
  }

  lemma StoreKeepsApart(s: State, slab: nat, t: Trace, l: nat, m: nat)
    requires Inv(s) && CanStore(s, slab, t)
    ensures LocatorsApart(Stored(s, slab, t), l, m)
  {
    hide Tiles;
    var s' := Stored(s, slab, t);
    LocatorForIsOwn(s, slab, t);
    assert LocatorsApart(s, l, m);
    if l < m < |s'.locators| {
      forall i, j | 0 <= i < |s'.locators[l].traces| && 0 <= j < |s'.locators[m].traces|
        ensures Apart(s'.locators[l].traces[i], s'.locators[m].traces[j])
      {
        if l < |s.locators| && i < |s.locators[l].traces| { BelowNew(s, slab, t, l, i); }
        if m < |s.locators| && j < |s.locators[m].traces| { BelowNew(s, slab, t, m, j); }
      }
    }
  }

  lemma StoreKeepsInv(s: State, slab: nat, t: Trace)
    requires Inv(s) && CanStore(s, slab, t)
    ensures Inv(Stored(s, slab, t))
  {
    hide PageOk, LocatorOk, LocatorsApart;
    var s' := Stored(s, slab, t);
    forall p: nat ensures PageOk(s', p) { StoreKeepsPages(s, slab, t, p); }
    forall l: nat ensures LocatorOk(s', l) { StoreKeepsLocator(s, slab, t, l); }
    forall l: nat, m: nat ensures LocatorsApart(s', l, m) { StoreKeepsApart(s, slab, t, l, m); }
  }

  /** Everything else in the slab of a removed block lies below it. */
  lemma BelowRemoved(s: State, slab: nat, at: nat, l: nat, i: nat)
    requires Inv(s) && CanRemove(s, slab, at) && l < |s.locators| && i < |s.locators[l].traces|
    requires s.locators[l].slab == slab
    requires l != s.page[at / PAGE] || i < |s.locators[l].traces| - 1
    ensures s.locators[l].traces[i].End() <= at
  {
    hide Tiles;
    var m := s.page[at / PAGE];
    var k := |s.locators[m].traces| - 1;
    assert LocatorOk(s, l) && LocatorOk(s, m) && LocatorsApart(s, l, m) && LocatorsApart(s, m, l);
    assert TraceOk(s.slabs, s.page, l, slab, s.locators[l].traces[i]);
    assert l != m ==> Apart(s.locators[m].traces[k], s.locators[l].traces[i])
                      || Apart(s.locators[l].traces[i], s.locators[m].traces[k]);
  }

  lemma RemoveKeepsLocator(s: State, slab: nat, at: nat, l: nat)
    requires Inv(s) && CanRemove(s, slab, at)
    ensures LocatorOk(Removed(s, slab, at), l)
  {
    hide Tiles;
    var s' := Removed(s, slab, at);
    assert LocatorOk(s, l);
    if l < |s.locators| {
      forall i | 0 <= i < |s'.locators[l].traces|
        ensures TraceOk(s'.slabs, s'.page, l, s'.locators[l].slab, s'.locators[l].traces[i])
      {
        assert TraceOk(s.slabs, s.page, l, s.locators[l].slab, s.locators[l].traces[i]);
        if s.locators[l].slab == slab { BelowRemoved(s, slab, at, l, i); }
      }
    }
  }

  lemma RemoveKeepsInv(s: State, slab: nat, at: nat)
    requires Inv(s) && CanRemove(s, slab, at)
    ensures Inv(Removed(s, slab, at))
  {
    hide LocatorOk;
    var s' := Removed(s, slab, at);
    var m := s.page[at / PAGE];
    assert s.slabs[slab].first * PAGE <= at <= s.slabs[slab].top by {
      assert LocatorOk(s, m);
      RemovedBounds(s, slab, at);
    }
    forall p: nat ensures PageOk(s', p) { assert PageOk(s, p); }
    forall l: nat ensures LocatorOk(s', l) { RemoveKeepsLocator(s, slab, at, l); }
    forall l: nat, k: nat ensures LocatorsApart(s', l, k) { assert LocatorsApart(s, l, k); }
  }

  lemma RemovedBounds(s: State, slab: nat, at: nat)
    requires CanRemove(s, slab, at) && LocatorOk(s, s.page[at / PAGE])
    ensures s.slabs[slab].first * PAGE <= at <= s.slabs[slab].top
  {
  }

  lemma GrowKeepsInv(s: State, s': State, first: nat, pages: nat)
    requires Inv(s) && Next(s, s', Grow(first, pages))
    ensures Inv(s')
  {
    hide Tiles;
    forall p: nat ensures PageOk(s', p) { assert PageOk(s, p); }
    forall l: nat ensures LocatorOk(s', l) {
      assert LocatorOk(s, l);
      if l < |s.locators| {
        forall i | 0 <= i < |s.locators[l].traces|
          ensures TraceOk(s'.slabs, s'.page, l, s.locators[l].slab, s.locators[l].traces[i])
        {
          assert TraceOk(s.slabs, s.page, l, s.locators[l].slab, s.locators[l].traces[i]);
        }
      }
    }
    forall l: nat, k: nat ensures LocatorsApart(s', l, k) { assert LocatorsApart(s, l, k); }
  }

  lemma {:induction false} RunKeepsInv(states: seq<State>, steps: seq<Step>, k: nat)
    requires Run(states, steps) && k < |states|
    ensures Inv(states[k])
  {
    if k == 0 {
      var s := states[0];
      forall l: nat, m: nat ensures LocatorOk(s, l) && LocatorsApart(s, l, m) {}
    } else {
      RunKeepsInv(states, steps, k - 1);
      assert Next(states[k - 1], states[k], steps[k - 1]);
      match steps[k - 1]
      case Grow(first, pages) => GrowKeepsInv(states[k - 1], states[k], first, pages);
      case Store(slab, t) => StoreKeepsInv(states[k - 1], slab, t);
      case Remove(slab, at) => RemoveKeepsInv(states[k - 1], slab, at);
    }
  }

  // ----- results -----

  /** A stored block, in any locator, around an address: what a scan of everything finds. */
  ghost predicate Holds(s: State, pc: nat, b: Block) {
    exists l :: 0 <= l < |s.locators| && ListHas(s.locators[l].traces, pc, b)
  }

  /** The address of a stored block leads to the locator that lists the block. */
  lemma RightLocator(s: State, pc: nat, b: Block, l: nat)
    requires Inv(s) && l < |s.locators| && ListHas(s.locators[l].traces, pc, b)
    ensures pc / PAGE in s.page && s.page[pc / PAGE] == l
  {
    var i :| 0 <= i < |s.locators[l].traces| && b in s.locators[l].traces[i].blocks && b.Has(pc);
    var t := s.locators[l].traces[i];
    assert LocatorOk(s, l);
    assert TraceOk(s.slabs, s.page, l, s.locators[l].slab, t);
    BlockInTrace(t, pc, b);
    assert t.FirstPage() <= pc / PAGE <= t.LastPage();
  }

  lemma UniqueInList(traces: seq<Trace>, pc: nat, b: Block, b': Block)
    requires Sorted(traces) && ListHas(traces, pc, b) && ListHas(traces, pc, b')
    ensures b == b'
  {
    var i :| 0 <= i < |traces| && b in traces[i].blocks && b.Has(pc);
    var j :| 0 <= j < |traces| && b' in traces[j].blocks && b'.Has(pc);
    BlockInTrace(traces[i], pc, b);
    BlockInTrace(traces[j], pc, b');
    var t := traces[i];
    var m :| 0 <= m < |t.blocks| && t.blocks[m] == b;
    var n :| 0 <= n < |t.blocks| && t.blocks[n] == b';
    if m <= n {
      TileUnique(t.blocks, t.start, t.End(), pc, m, n);
    } else {
      TileUnique(t.blocks, t.start, t.End(), pc, n, m);
    }
  }

  /** In every reachable state, an address is in at most one stored block. */
  lemma HoldsIsUnique(states: seq<State>, steps: seq<Step>, k: nat, pc: nat, b: Block, b': Block)
    requires Run(states, steps) && k < |states| && Holds(states[k], pc, b) && Holds(states[k], pc, b')
    ensures b == b'
  {
    var s := states[k];
    RunKeepsInv(states, steps, k);
    var l :| 0 <= l < |s.locators| && ListHas(s.locators[l].traces, pc, b);
    var l' :| 0 <= l' < |s.locators| && ListHas(s.locators[l'].traces, pc, b');
    RightLocator(s, pc, b, l);
    RightLocator(s, pc, b', l');
    assert LocatorOk(s, l);
    UniqueInList(s.locators[l].traces, pc, b, b');
  }

  // ----- what is stored -----

  /** A fragment at the end of a list. */
  lemma ListHasMore(traces: seq<Trace>, t: Trace, pc: nat, b: Block)
    ensures ListHas(traces + [t], pc, b) <==> ListHas(traces, pc, b) || (b in t.blocks && b.Has(pc))
  {
    var more := traces + [t];
    assert more[|traces|] == t;
    if ListHas(traces, pc, b) {
      var i :| 0 <= i < |traces| && b in traces[i].blocks && b.Has(pc);
      assert more[i] == traces[i];
    }
  }

  /** Storing a trace adds its blocks, all of them and no others. */
  lemma StoredHolds(s: State, slab: nat, t: Trace, pc: nat, b: Block)
    requires Inv(s) && CanStore(s, slab, t)
    ensures Holds(Stored(s, slab, t), pc, b) <==> Holds(s, pc, b) || (b in t.blocks && b.Has(pc))
  {
    LocatorForIsOwn(s, slab, t);
    hide Inv, ListHas;
    var s' := Stored(s, slab, t);
    var (l, locators) := LocatorFor(s, slab, t);
    assert s'.locators == locators[l := locators[l].(traces := locators[l].traces + [t])];
    ListHasMore(locators[l].traces, t, pc, b);
    NoneInEmpty(pc, b);
    if Holds(s, pc, b) {
      var m :| 0 <= m < |s.locators| && ListHas(s.locators[m].traces, pc, b);
      assert ListHas(s'.locators[m].traces, pc, b);
    }
    if b in t.blocks && b.Has(pc) {
      assert ListHas(s'.locators[l].traces, pc, b);
    }
    if Holds(s', pc, b) {
      var m :| 0 <= m < |s'.locators| && ListHas(s'.locators[m].traces, pc, b);
      if m < |s.locators| && m != l {
        assert ListHas(s.locators[m].traces, pc, b);
      }
    }
  }

  lemma NoneInEmpty(pc: nat, b: Block)
    ensures !ListHas([], pc, b)
  {
  }

  /** The block that is removed is the one that starts at the address. */
  lemma RemovedIsAt(s: State, slab: nat, at: nat, b: Block, pc: nat)
    requires Inv(s) && CanRemove(s, slab, at) && Holds(s, pc, b)
    ensures var traces := s.locators[s.page[at / PAGE]].traces;
            b.start == at <==> b in traces[|traces| - 1].blocks
  {
    var l := s.page[at / PAGE];
    var traces := s.locators[l].traces;
    var t := traces[|traces| - 1];
    assert LocatorOk(s, l);
    assert t.WellFormed() && t.blocks[1..] == [] && Tiles(t.blocks[1..], at + t.blocks[0].bytes, t.End());
    assert t.blocks[0].start == at && t.blocks[0].Has(at);
    if b.start == at {
      assert ListHas(traces, at, t.blocks[0]) by { assert t.blocks[0] in t.blocks; }
      var m :| 0 <= m < |s.locators| && ListHas(s.locators[m].traces, pc, b);
      HoldsAtStart(s.locators[m].traces, pc, b);
      RightLocator(s, at, b, m);
      RightLocator(s, at, t.blocks[0], l);
      UniqueInList(traces, at, b, t.blocks[0]);
    }
  }

  lemma HoldsAtStart(traces: seq<Trace>, pc: nat, b: Block)
    requires ListHas(traces, pc, b)
    ensures ListHas(traces, b.start, b)
  {
    var i :| 0 <= i < |traces| && b in traces[i].blocks && b.Has(pc);
    assert b.Has(b.start);
  }

  /** Removing a block removes this block and no other. */
  lemma RemovedHolds(s: State, slab: nat, at: nat, pc: nat, b: Block)
    requires Inv(s) && CanRemove(s, slab, at)
    ensures Holds(Removed(s, slab, at), pc, b) <==> Holds(s, pc, b) && b.start != at
  {
    var l := s.page[at / PAGE];
    var traces := s.locators[l].traces;
    var n := |traces| - 1;
    var s' := Removed(s, slab, at);
    assert LocatorOk(s, l);
    hide Inv, ListHas, CanRemove;
    assert traces == traces[..n] + [traces[n]];
    ListHasMore(traces[..n], traces[n], pc, b);
    if Holds(s', pc, b) {
      var m :| 0 <= m < |s'.locators| && ListHas(s'.locators[m].traces, pc, b);
      assert ListHas(s.locators[m].traces, pc, b);
      RemovedIsAt(s, slab, at, b, pc);
      if b in traces[n].blocks { NotTwice(s, slab, at, m, pc, b); }
    }
    if Holds(s, pc, b) && b.start != at {
      RemovedIsAt(s, slab, at, b, pc);
      var m :| 0 <= m < |s.locators| && ListHas(s.locators[m].traces, pc, b);
      assert ListHas(s'.locators[m].traces, pc, b);
    }
  }

  /** No other fragment has the block. */
  lemma NotTwice(s: State, slab: nat, at: nat, m: nat, pc: nat, b: Block)
    requires Inv(s) && CanRemove(s, slab, at) && m < |s.locators|
    requires var traces := s.locators[s.page[at / PAGE]].traces; b in traces[|traces| - 1].blocks
    ensures !ListHas(Removed(s, slab, at).locators[m].traces, pc, b)
  {
    hide Tiles;
    var l := s.page[at / PAGE];
    var n := |s.locators[l].traces| - 1;
    var t := s.locators[l].traces[n];
    var others := Removed(s, slab, at).locators[m].traces;
    assert LocatorOk(s, l) && LocatorOk(s, m) && LocatorsApart(s, l, m) && LocatorsApart(s, m, l);
    if ListHas(others, pc, b) {
      var i :| 0 <= i < |others| && b in others[i].blocks && b.Has(pc);
      assert others[i] == s.locators[m].traces[i];
      BlockInTrace(others[i], pc, b);
      BlockInTrace(t, pc, b);
      assert false;
    }
  }

  /** The blocks that the steps have stored and not removed since. */
  ghost function Kept(steps: seq<Step>): iset<Block> {
    if steps == [] then iset{}
    else
      var n := |steps| - 1;
      match steps[n]
      case Grow(_, _) => Kept(steps[..n])
      case Store(_, t) => Kept(steps[..n]) + iset b | b in t.blocks
      case Remove(_, at) => Kept(steps[..n]) - iset b: Block | b.start == at && b.bytes > 0
  }

  /** In every run, the stored blocks around an address are those that were stored there and not
      removed since. */
  lemma {:induction false} HoldsExactly(states: seq<State>, steps: seq<Step>, k: nat, pc: nat, b: Block)
    requires Run(states, steps) && k < |states|
    ensures Holds(states[k], pc, b) <==> b in Kept(steps[..k]) && b.Has(pc)
    decreases k
  {
    hide Inv, ListHas;
    if k > 0 {
      HoldsExactly(states, steps, k - 1, pc, b);
      RunKeepsInv(states, steps, k - 1);
      assert steps[..k][..k - 1] == steps[..k - 1];
      assert Next(states[k - 1], states[k], steps[k - 1]);
      StepHolds(states[k - 1], states[k], steps[k - 1], pc, b);
    }
  }

  lemma StepHolds(s: State, s': State, step: Step, pc: nat, b: Block)
    requires Inv(s) && Next(s, s', step)
    ensures Holds(s', pc, b) <==>
            match step
            case Grow(_, _) => Holds(s, pc, b)
            case Store(_, t) => Holds(s, pc, b) || (b in t.blocks && b.Has(pc))
            case Remove(_, at) => Holds(s, pc, b) && b.start != at
  {
    hide Inv, ListHas;
    match step
    case Grow(_, _) =>
    case Store(slab, t) => StoredHolds(s, slab, t, pc, b);
    case Remove(slab, at) => RemovedHolds(s, slab, at, pc, b);
  }

  // ----- capacity -----

  /** The `i`-th fragment of a locator starts at least `i` cache lines after the first. */
  lemma {:induction false} Spread(traces: seq<Trace>, i: nat)
    requires Sorted(traces) && i < |traces| && forall k :: 0 <= k < |traces| ==> traces[k].start % BB_ALIGN == 0
    ensures traces[i].start >= traces[0].start + i * BB_ALIGN
  {
    if i > 0 {
      Spread(traces, i - 1);
      assert traces[i - 1].End() <= traces[i].start && traces[i - 1].bytes > 0;
    }
  }

  /** A locator that only one page uses always has room for one fragment more. */
  lemma OnePageFits(states: seq<State>, steps: seq<Step>, k: nat, l: nat, p: nat)
    requires Run(states, steps) && k < |states| && l < |states[k].locators|
    requires forall q :: q in states[k].page && states[k].page[q] == l ==> q == p
    ensures |states[k].locators[l].traces| < MAX_BBS_PER_SLAB
  {
    hide Tiles;
    RunKeepsInv(states, steps, k);
    var s, traces := states[k], states[k].locators[l].traces;
    assert LocatorOk(s, l);
    if traces != [] {
      var n := |traces| - 1;
      assert TraceOk(s.slabs, s.page, l, s.locators[l].slab, traces[0]);
      assert TraceOk(s.slabs, s.page, l, s.locators[l].slab, traces[n]);
      assert traces[0].FirstPage() <= traces[0].LastPage() && traces[n].FirstPage() <= traces[n].LastPage();
      assert traces[0].FirstPage() in s.page && traces[n].FirstPage() in s.page;
      Spread(traces, n);
    }
  }

  /** Small fragments packed into a slab of two pages, one of them across the boundary. */
  function Small(i: nat): Trace {
    var start := if i < 64 then 64 * i else 64 * i + 64;
    var bytes := if i == 63 then 65 else 64;
    Trace(start, bytes, [Block(start, bytes, i)])
  }

  function Smalls(n: nat): (r: seq<Trace>)
    ensures |r| == n
  {
    if n == 0 then [] else Smalls(n - 1) + [Small(n - 1)]
  }

  function Packed(n: nat): State
    requires 0 < n
  {
    State([Slab(0, 2, Small(n - 1).End())], if n < 64 then map[0 := 0] else map[0 := 0, 1 := 0],
          [Locator(0, Smalls(n))])
  }

  lemma PackedGrows(n: nat)
    requires 0 < n < 100
    ensures Next(Packed(n), Packed(n + 1), Store(0, Small(n)))
  {
    var s, t := Packed(n), Small(n);
    assert t.blocks[1..] == [] && t.WellFormed();
    assert t.FirstPage() == (if n < 64 then 0 else 1) && t.LastPage() == (if n < 63 then 0 else 1);
    assert Shared(s.page, t.FirstPage(), t.LastPage(), 0) == Packed(n + 1).page;
  }

  lemma {:induction false} PackedRun(n: nat) returns (states: seq<State>, steps: seq<Step>)
    requires 0 < n <= 100
    ensures Run(states, steps) && states[|steps|] == Packed(n)
  {
    if n == 1 {
      var s0 := State([], map[], []);
      var s1 := s0.(slabs := [Slab(0, 2, 0)]);
      assert Small(0).blocks[1..] == [] && Small(0).WellFormed();
      assert Shared(map[], 0, 0, 0) == map[0 := 0];
      assert Packed(1) == Stored(s1, 0, Small(0));
      states, steps := [s0, s1, Packed(1)], [Grow(0, 2), Store(0, Small(0))];
    } else {
      hide Packed;
      states, steps := PackedRun(n - 1);
      PackedGrows(n - 1);
      states, steps := states + [Packed(n)], steps + [Store(0, Small(n - 1))];
    }
  }

  /** No slab has more than `n` pages. */
  predicate Narrow(s: State, n: nat) {
    forall i :: 0 <= i < |s.slabs| ==> s.slabs[i].pages <= n
  }

  predicate Fits(s: State) {
    forall l :: 0 <= l < |s.locators| ==> |s.locators[l].traces| < MAX_BBS_PER_SLAB
  }

  lemma NarrowFits(states: seq<State>, steps: seq<Step>, k: nat)
    requires Run(states, steps) && k < |states| && Narrow(states[k], 1)
    ensures Fits(states[k])
  {
    var s := states[k];
    RunKeepsInv(states, steps, k);
    forall l | 0 <= l < |s.locators| ensures |s.locators[l].traces| < MAX_BBS_PER_SLAB {
      var p := if s.locators[l].slab < |s.slabs| then s.slabs[s.locators[l].slab].first else 0;
      forall q | q in s.page && s.page[q] == l ensures q == p {
        assert PageOk(s, q);
      }
      OnePageFits(states, steps, k, l, p);
    }
  }

  /** The array of a locator is large enough in every run exactly when slabs have one page:
      pages that share a locator can overfill it. */
  lemma FitsExactly(n: nat)
    ensures n <= 1 <==> forall states: seq<State>, steps: seq<Step>, k: nat ::
                          Run(states, steps) && k < |states| && Narrow(states[k], n) ==> Fits(states[k])
  {
    if n <= 1 {
      forall states: seq<State>, steps: seq<Step>, k: nat | Run(states, steps) && k < |states| && Narrow(states[k], n)
        ensures Fits(states[k])
      {
        NarrowFits(states, steps, k);
      }
    } else {
      var states, steps := PackedRun(66);
      assert Narrow(states[|steps|], n) && !Fits(states[|steps|]) by {
        assert |states[|steps|].locators[0].traces| == 66;
      }
    }
  }

  // ----- the index -----

  class Index {
    var page: map<nat, nat>
    var locators: seq<Locator>
    ghost var slabs: seq<Slab>

    ghost function Snapshot(): State
      reads this
    {
      State(slabs, page, locators)
    }

    /** `find_basic_block_info`: the one stored block around an address, if there is one. */
    method Find(pc: nat) returns (r: MaybeBlock)
      requires Inv(Snapshot()) && pc / PAGE in page
      ensures r.Found? ==> Holds(Snapshot(), pc, r.block)
      ensures r.NoBlock? ==> forall b :: !Holds(Snapshot(), pc, b)
    {
      ghost var s := Snapshot();
      assert PageOk(s, pc / PAGE) && LocatorOk(s, page[pc / PAGE]);
      r := Search(locators[page[pc / PAGE]].traces, pc);
      if r.NoBlock? {
        forall b ensures !Holds(s, pc, b) {
          if Holds(s, pc, b) {
            var l :| 0 <= l < |s.locators| && ListHas(s.locators[l].traces, pc, b);
            RightLocator(s, pc, b, l);
            assert false;
          }
        }
      }
    }

    /** The pages of a trace after its first get the locator of its first. */
    method SharePages(first: nat, last: int, l: nat)
      modifies this`page
      ensures page == Shared(old(page), first, last, l)
    {
      var q := first;
      while q <= last
        invariant Shared(page, q, last, l) == Shared(old(page), first, last, l)
      {
        page := page[q := l];
        q := q + 1;
      }
    }

    /** `store_trace_meta_info` */
    method StoreTrace(slab: nat, t: Trace)
      requires Inv(Snapshot()) && CanStore(Snapshot(), slab, t)
      modifies this
      ensures Inv(Snapshot()) && Snapshot() == Stored(old(Snapshot()), slab, t)
    {
      StoreKeepsInv(Snapshot(), slab, t);
      LocatorForIsOwn(Snapshot(), slab, t);
      hide Inv;
      var p := t.FirstPage();
      if p !in page {
        page, locators := page[p := |locators|], locators + [Locator(slab, [])];
      }
      var l := page[p];
      assert page == old(page)[p := l];
      SharePages(p + 1, t.LastPage(), l);
      assert page == Shared(old(page), p, t.LastPage(), l) by {
        assert t.WellFormed() && p <= t.LastPage();
      }
      locators := locators[l := locators[l].(traces := locators[l].traces + [t])];
      slabs := slabs[slab := slabs[slab].(top := t.End())];
    }

    /** `remove_basic_block_info` */
    method RemoveBlock(slab: nat, at: nat)
      requires Inv(Snapshot()) && CanRemove(Snapshot(), slab, at)
      modifies this
      ensures Inv(Snapshot()) && Snapshot() == Removed(old(Snapshot()), slab, at)
    {
      RemoveKeepsInv(Snapshot(), slab, at);
      var l := page[at / PAGE];
      var traces := locators[l].traces;
      locators := locators[l := locators[l].(traces := traces[..|traces| - 1])];
      slabs := slabs[slab := slabs[slab].(top := at)];
    }
  }
}
