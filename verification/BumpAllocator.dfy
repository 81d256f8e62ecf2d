/** Bump-pointer slab allocation: `bump_pointer_allocator`.

    A slab is a block of memory with a bump index.  The allocator holds a chain of slabs
    in use (newest first), a private free list, and shares a global free list with its
    siblings; memory that no list can supply comes from a page-granular source. */
module BumpAllocator {
  import opened Arith

  const PAGE_SIZE: nat := 4096

  /** What never changes of a `bump_pointer_slab`: where its memory is.  This is also the
      slab's identity, so the linked lists of slabs are sequences of these. */
  datatype Slab = Slab(base: nat, size: nat)

  /** What bumping changes of a slab. */
  datatype Bump = Bump(index: nat, remaining: nat, memory: seq<int>)

  /** A range of addresses handed to a client. */
  datatype Block = Block(slab: Slab, offset: nat, size: nat) {
    function Start(): nat { slab.base + offset }
    function End(): nat { Start() + size }
  }

  /** The template parameters the allocator reads. */
  datatype Config = Config(slabSize: nat, minAlign: nat, shareDeadSlabs: bool, fill: int) {
    predicate Valid() {
      slabSize > 0 && slabSize % PAGE_SIZE == 0 && minAlign > 0 && PAGE_SIZE % minAlign == 0
    }
  }

  datatype FreeHint = KeepSlab | TryFreeSlab

  predicate SlabsApart(s: Slab, t: Slab) {
    s.base + s.size <= t.base || t.base + t.size <= s.base
  }

  predicate BlocksApart(a: Block, b: Block) {
    a.End() <= b.Start() || b.End() <= a.Start()
  }

  /** Each slab is there once, page aligned, below `top` and apart from the others. */
  ghost predicate SlabsValid(slabs: multiset<Slab>, top: nat) {
    && (forall s :: s in slabs ==>
          slabs[s] == 1 && s.size > 0 && s.base % PAGE_SIZE == 0 && s.base + s.size <= top)
    && (forall s, t :: s in slabs && t in slabs && s != t ==> SlabsApart(s, t))
  }

  lemma FreshSlabValid(slabs: multiset<Slab>, top: nat, s: Slab)
    requires SlabsValid(slabs, top) && s.base == top && top % PAGE_SIZE == 0 && s.size > 0
    ensures SlabsValid(slabs + multiset{s}, top + s.size)
  {
  }

  /** Index and remainder add up, and the bytes not handed out hold the fill value. */
  ghost predicate BumpValid(s: Slab, b: Bump, fill: int) {
    && b.index + b.remaining == s.size == |b.memory|
    && forall k :: b.index <= k < s.size ==> b.memory[k] == fill
  }

  /** The bytes of a block are in the slab, and hold the fill value. */
  ghost predicate Untouched(bumps: map<Slab, Bump>, block: Block, fill: int) {
    && block.slab in bumps && block.offset + block.size <= |bumps[block.slab].memory|
    && forall k :: block.offset <= k < block.offset + block.size ==> bumps[block.slab].memory[k] == fill
  }

  /** Live blocks lie below the index of a slab in use, and do not overlap. */
  ghost predicate LiveValid(live: set<Block>, curr: seq<Slab>, bumps: map<Slab, Bump>) {
    && (forall b :: b in live ==>
          && b.slab in curr && b.slab in bumps
          && b.size > 0 && b.offset + b.size <= bumps[b.slab].index)
    && (forall a, b :: a in live && b in live && a != b ==> BlocksApart(a, b))
  }

  /** `found` is the first of the smallest slabs of `list` that hold `size` bytes, at
      place `k`, and `rest` is the list without it. */
  ghost predicate BestFit(list: seq<Slab>, size: nat, k: nat, found: Slab, rest: seq<Slab>) {
    && k < |list| && list[k] == found && rest == list[..k] + list[k + 1..]
    && found.size >= size
    && (forall s :: s in list && s.size >= size ==> found.size <= s.size)
    && (forall j :: 0 <= j < k ==> list[j].size != found.size)
  }

  datatype SearchResult = NoneFits | Found(slab: Slab, rest: seq<Slab>)

  lemma Unlinked(list: seq<Slab>, k: nat)
    requires k < |list|
    ensures multiset(list) == multiset(list[..k] + list[k + 1..]) + multiset{list[k]}
  {
    assert list == list[..k] + [list[k]] + list[k + 1..];
  }

  /** `slab_search`: unlink a best fit, or find that nothing fits. */
  method SlabSearch(list: seq<Slab>, size: nat) returns (r: SearchResult)
    ensures r.NoneFits? <==> forall s :: s in list ==> s.size < size
    ensures r.Found? ==> exists k :: BestFit(list, size, k, r.slab, r.rest)
    ensures r.Found? ==> multiset(list) == multiset(r.rest) + multiset{r.slab}
  {
    var bigger: int := -1;
    for k := 0 to |list|
      invariant -1 <= bigger < k
      invariant bigger == -1 ==> forall j :: 0 <= j < k ==> list[j].size < size
      invariant bigger >= 0 ==> list[bigger].size > size
      invariant bigger >= 0 ==> forall j :: 0 <= j < bigger ==> list[j].size != list[bigger].size
      invariant bigger >= 0 ==>
                  forall j :: 0 <= j < k ==> list[j].size < size || list[bigger].size <= list[j].size
      invariant forall j :: 0 <= j < k ==> list[j].size != size
    {
      if list[k].size == size {
        r := Found(list[k], list[..k] + list[k + 1..]);
        assert BestFit(list, size, k, r.slab, r.rest);
        Unlinked(list, k);
        return;
      } else if list[k].size > size {
        if bigger == -1 || list[bigger].size > list[k].size {
          bigger := k;
        }
      }
    }
    if bigger >= 0 {
      r := Found(list[bigger], list[..bigger] + list[bigger + 1..]);
      assert BestFit(list, size, bigger, r.slab, r.rest);
      Unlinked(list, bigger);
      return;
    }
    r := NoneFits;
  }

  /** `global_free`, guarded by `global_free_lock`. */
  class GlobalFreeList {
    var slabs: seq<Slab>
    constructor () ensures slabs == [] { slabs := []; }

    /** `try_acquire`: whether the lock can be had is up to the siblings. */
    method TryAcquire() returns (held: bool) { held := *; }
  }

  /** Where fresh slabs come from: memory that nothing else has been given. */
  class MemorySource {
    var top: nat
    constructor () ensures top == 0 { top := 0; }

    method Obtain(size: nat) returns (base: nat)
      requires size % PAGE_SIZE == 0 && top % PAGE_SIZE == 0
      modifies this
      ensures base == old(top) && top == base + size && top % PAGE_SIZE == 0
    {
      ModAdd(top, size, PAGE_SIZE);
      base, top := top, top + size;
    }
  }

  datatype Link = Null | To(slab: Slab)

  /** A snapshot of an allocator and of what it shares. */
  datatype State = State(
    config: Config, curr: seq<Slab>, bumps: map<Slab, Bump>, first: Link, free: seq<Slab>,
    global: seq<Slab>, top: nat, live: set<Block>, last: nat, lastSize: nat)
  {
    ghost function Slabs(): multiset<Slab> { multiset(curr) + multiset(free) + multiset(global) }

    /** `last_allocation` is the block at the tip of the front slab. */
    ghost predicate LastValid() {
      lastSize > 0 ==>
        && curr != [] && last >= curr[0].base && curr[0] in bumps
        && Block(curr[0], last - curr[0].base, lastSize) in live
        && last + lastSize == curr[0].base + bumps[curr[0]].index
    }

    /** The discipline of allocators that use `free_all`. */
    ghost predicate FirstIsTail() {
      first == if curr == [] then Null else To(curr[|curr| - 1])
    }

    ghost predicate BumpsValid() {
      forall s :: s in curr ==> s in bumps && BumpValid(s, bumps[s], config.fill)
    }

    ghost predicate Valid() {
      && config.Valid() && top % PAGE_SIZE == 0
      && SlabsValid(Slabs(), top) && BumpsValid() && LiveValid(live, curr, bumps) && LastValid()
    }
  }

  /** The `initialise` tail of `allocate_slab`. */
  function Wiped(s: Slab, fill: int): Bump {
    Bump(0, s.size, seq(s.size, _ => fill))
  }

  /** `mid` is `before` with `s` taken out of a free list, or freshly obtained. */
  ghost predicate Supplied(before: State, mid: State, s: Slab) {
    && mid == before.(free := mid.free, global := mid.global, top := mid.top)
    && mid.top % PAGE_SIZE == 0 && SlabsValid(mid.Slabs() + multiset{s}, mid.top)
    && mid.top >= before.top
    && (|| mid.Slabs() + multiset{s} == before.Slabs()
        || (mid.Slabs() == before.Slabs() && s.base >= before.top))
  }

  /** No list has gained or lost a slab, except for one that is new. */
  ghost predicate Grown(before: State, after: State) {
    after.top >= before.top &&
    (|| after.Slabs() == before.Slabs()
    || exists s: Slab :: s.base >= before.top && after.Slabs() == before.Slabs() + multiset{s})
  }

  /** A wiped slab may go in front of the chain. */
  lemma PushKeepsValid(before: State, mid: State, after: State, s: Slab, slabSize: nat)
    requires before.Valid() && before.lastSize == 0 && Supplied(before, mid, s) && s.size >= slabSize
    requires after == mid.(curr := [s] + mid.curr, bumps := mid.bumps[s := Wiped(s, mid.config.fill)],
                           first := if mid.first == Null then To(s) else mid.first)
    ensures Pushed(before, after, slabSize)
  {
    hide SlabsValid, LiveValid, BumpValid, Untouched;
    assert s !in before.curr by { NewSlabNotInUse(mid, s); }
    assert multiset(after.curr) == multiset{s} + multiset(before.curr);
    assert after.Slabs() == mid.Slabs() + multiset{s};
    assert BumpValid(s, Wiped(s, mid.config.fill), mid.config.fill) by { WipedIsValid(s, mid.config.fill); }
    assert after.BumpsValid() by {
      forall t | t in after.curr ensures t in after.bumps && BumpValid(t, after.bumps[t], after.config.fill) {
        assert t == s || t in before.curr;
      }
    }
    LiveInLongerChain(before.live, before.curr, before.bumps, s, after.bumps);
  }

  lemma NewSlabNotInUse(mid: State, s: Slab)
    requires SlabsValid(mid.Slabs() + multiset{s}, mid.top)
    ensures s !in mid.curr
  {
    assert (mid.Slabs() + multiset{s})[s] == 1;
  }

  lemma WipedIsValid(s: Slab, fill: int)
    ensures BumpValid(s, Wiped(s, fill), fill)
  {
  }

  lemma LiveInLongerChain(live: set<Block>, curr: seq<Slab>, bumps: map<Slab, Bump>, s: Slab, bumps': map<Slab, Bump>)
    requires LiveValid(live, curr, bumps) && s !in curr
    requires forall t :: t in bumps && t != s ==> t in bumps' && bumps'[t] == bumps[t]
    ensures LiveValid(live, [s] + curr, bumps')
  {
  }

  /** The front slab may hand out the `size` bytes that follow `pad` bytes of padding. */
  lemma BumpKeepsValid(before: State, after: State, pad: nat, size: nat)
    requires before.Valid() && before.curr != [] && size > 0
    requires before.bumps[before.curr[0]].remaining >= pad + size
    requires var s := before.curr[0];
             var b := before.bumps[s];
             var block := Block(s, b.index + pad, size);
             after == before.(
               bumps := before.bumps[s := Bump(b.index + pad + size, b.remaining - pad - size, b.memory)],
               live := before.live + {block}, last := block.Start(), lastSize := size)
    ensures after.Valid()
    ensures var block := Block(before.curr[0], before.bumps[before.curr[0]].index + pad, size);
            block !in before.live && Untouched(after.bumps, block, before.config.fill)
  {
    hide SlabsValid;
    var block := Block(before.curr[0], before.bumps[before.curr[0]].index + pad, size);
    forall b | b in before.live ensures BlocksApart(b, block) {
      TipIsApart(before, block, b);
    }
    assert after.Slabs() == before.Slabs();
  }

  lemma TipIsApart(st: State, tip: Block, b: Block)
    requires st.Valid() && st.curr != [] && b in st.live
    requires tip.slab == st.curr[0] && tip.offset >= st.bumps[tip.slab].index
    requires tip.offset + tip.size <= tip.slab.size
    ensures BlocksApart(b, tip)
  {
    assert b.slab in st.Slabs() && tip.slab in st.Slabs();
    assert b.slab == tip.slab || SlabsApart(b.slab, tip.slab);
    assert BumpValid(b.slab, st.bumps[b.slab], st.config.fill);
  }

  /** The front slab may be made unusable. */
  lemma ExhaustKeepsValid(before: State, after: State)
    requires before.Valid() && before.curr != [] && before.lastSize == 0
    requires var s := before.curr[0];
             after == before.(bumps := before.bumps[s := Bump(s.size, 0, before.bumps[s].memory)])
    ensures after.Valid()
  {
    assert after.Slabs() == before.Slabs();
  }

  /** The block at the tip of the front slab may be given back; padding before it may not. */
  lemma RewindKeepsValid(before: State, after: State)
    requires before.Valid() && before.lastSize > 0
    requires var s := before.curr[0];
             var b := before.bumps[s];
             var block := Block(s, before.last - s.base, before.lastSize);
             b.index >= before.lastSize &&
             after == before.(
               bumps := before.bumps[s := Bump(block.offset, b.remaining + block.size,
                                               Filled(b.memory, block.offset, b.index, before.config.fill))],
               live := before.live - {block}, last := 0, lastSize := 0)
    ensures after.Valid()
  {
    hide SlabsValid;
    var s := before.curr[0];
    var block := Block(s, before.last - s.base, before.lastSize);
    forall b | b in after.live && b.slab == s ensures b.offset + b.size <= block.offset {
      assert BlocksApart(b, block);
    }
    assert after.Slabs() == before.Slabs();
  }

  function Filled(memory: seq<int>, from: nat, to: nat, fill: int): (r: seq<int>)
    requires from <= to <= |memory|
    ensures |r| == |memory|
    ensures forall k :: 0 <= k < |r| ==> r[k] == if from <= k < to then fill else memory[k]
  {
    memory[..from] + seq(to - from, _ => fill) + memory[to..]
  }

  /** A front slab with nothing in it may move to the free list. */
  lemma SurrenderKeepsValid(before: State, after: State)
    requires before.Valid() && before.curr != [] && before.lastSize == 0
    requires before.bumps[before.curr[0]].index == 0
    requires after == before.(curr := before.curr[1..], free := [before.curr[0]] + before.free)
    ensures after.Valid() && after.Slabs() == before.Slabs()
  {
    hide SlabsValid;
    var s := before.curr[0];
    assert before.curr == [s] + after.curr;
    assert after.Slabs() == before.Slabs();
    forall b | b in after.live ensures b.slab in after.curr {
      assert b.slab in before.curr && b.slab != s;
    }
  }

  class Allocator {
    const config: Config
    const global: GlobalFreeList
    const source: MemorySource
    var curr: seq<Slab>
    var bumps: map<Slab, Bump>
    var first: Link
    var free: seq<Slab>
    var lastSize: nat
    var last: nat
    /** The allocations not yet given back. */
    ghost var live: set<Block>

    ghost function Snapshot(): State
      reads this, global, source
    {
      State(config, curr, bumps, first, free, global.slabs, source.top, live, last, lastSize)
    }

    ghost predicate Valid()
      reads this, global, source
    {
      Snapshot().Valid()
    }

    constructor (config: Config, global: GlobalFreeList, source: MemorySource)
      requires config.Valid() && source.top % PAGE_SIZE == 0
      requires SlabsValid(multiset(global.slabs), source.top)
      ensures Valid() && Snapshot().FirstIsTail()
      ensures this.config == config && this.global == global && this.source == source
      ensures curr == [] && free == [] && live == {}
    {
      this.config, this.global, this.source := config, global, source;
      curr, bumps, first, free, lastSize, last, live := [], map[], Null, [], 0, 0, {};
      new;
      assert Snapshot().Slabs() == multiset(global.slabs);
    }

    /** The searches of `allocate_slab`: the private list, then the global one if its lock
        can be had. */
    method FindSlab(size: nat) returns (r: SearchResult)
      modifies this`free, global
      ensures r.NoneFits? ==> free == old(free) && global.slabs == old(global.slabs)
      ensures r.NoneFits? ==> forall t :: t in free ==> t.size < size
      ensures r.Found? ==> Snapshot().Slabs() + multiset{r.slab} == old(Snapshot().Slabs()) && r.slab.size >= size
      ensures r.Found? ==> r.slab in old(free) || (forall t :: t in free ==> t.size < size)
    {
      r := SlabSearch(free, size);
      if r.Found? {
        free := r.rest;
        return;
      }
      var held := global.TryAcquire();
      if config.shareDeadSlabs && held {
        r := SlabSearch(global.slabs, size);
        if r.Found? {
          global.slabs := r.rest;
        }
      }
    }

    /** `allocate_slab`: a slab that was found in a list or is fresh. */
    method AllocateSlab(size: nat) returns (s: Slab)
      requires Valid() && size > 0 && size % PAGE_SIZE == 0
      modifies this`free, global, source
      ensures Supplied(old(Snapshot()), Snapshot(), s) && s.size >= size
    {
      hide SlabsValid, LiveValid, BumpValid, Untouched;
      var r := FindSlab(size);
      if r.Found? {
        return r.slab;
      }
      var base := source.Obtain(size);
      s := Slab(base, size);
      FreshSlabValid(old(Snapshot().Slabs()), old(source.top), s);
    }

    /** The first half of a turn of the loop in `allocate_bare`: wipe a new slab and put it
        in front. */
    method PushSlab(slabSize: nat)
      requires Valid() && lastSize == 0 && slabSize > 0 && slabSize % PAGE_SIZE == 0
      modifies this`free, this`curr, this`first, this`bumps, global, source
      ensures Pushed(old(Snapshot()), Snapshot(), slabSize)
    {
      hide SlabsValid, LiveValid, BumpValid, Supplied, Grown, Pushed;
      ghost var before := Snapshot();
      var s := AllocateSlab(slabSize);
      ghost var mid := Snapshot();
      curr, bumps := [s] + curr, bumps[s := Wiped(s, config.fill)];
      if first == Null {
        first := To(s);
      }
      PushKeepsValid(before, mid, Snapshot(), s, slabSize);
    }

    /** The second half: bump the front slab past the padding and the request, or make the
        slab unusable. */
    method TryBump(align: nat, size: nat) returns (fits: bool)
      requires Valid() && curr != [] && lastSize == 0 && align > 0 && size > 0
      modifies this`live, this`last, this`lastSize, this`bumps
      ensures fits <==> FitsAt(old(bumps[curr[0]]), curr[0], align, size)
      ensures fits ==> Bumped(old(Snapshot()), Snapshot(), align, size)
      ensures !fits ==> Exhausted(old(Snapshot()), Snapshot())
    {
      hide SlabsValid, LiveValid, BumpValid, Untouched;
      ghost var before := Snapshot();
      var s := curr[0];
      var b := bumps[s];
      var alignOffset := AlignTo(s.base + b.index, align);
      AlignToReaches(s.base + b.index, align);
      fits := b.remaining >= size + alignOffset;
      if !fits {
        bumps := bumps[s := Bump(s.size, 0, b.memory)];
        ExhaustKeepsValid(before, Snapshot());
        return;
      }
      lastSize, last := size, s.base + b.index + alignOffset;
      bumps := bumps[s := Bump(b.index + alignOffset + size, b.remaining - alignOffset - size, b.memory)];
      live := live + {Block(s, b.index + alignOffset, size)};
      BumpKeepsValid(before, Snapshot(), alignOffset, size);
    }

    /** `allocate_bare`.  A request that does not fit the front slab costs at most one more
        slab and one more turn of the loop. */
    method AllocateBare(align: nat, size: nat) returns (at: nat)
      requires Valid() && align > 0 && PAGE_SIZE % align == 0
      modifies this, global, source
      ensures size > 0 ==> Allocated(old(Snapshot()), Snapshot(), align, size, at)
      ensures size == 0 ==> Staged(old(Snapshot()), Snapshot(), at)
    {
      hide SlabsValid, LiveValid, BumpValid, Grown, Allocated, Staged, Bumped, Exhausted, State.FirstIsTail;
      lastSize, last := 0, 0;
      ghost var start := Snapshot();
      ForgetLast(old(Snapshot()), start);
      var slabSize := size + AlignTo(size, config.slabSize);
      if slabSize == 0 {
        slabSize := config.slabSize;
      }
      SlabSizeIsPaged(size, config);
      var turn := 0;
      while true
        invariant 0 <= turn <= 1
        invariant turn == 0 ==> Snapshot() == start
        invariant turn == 1 ==> size > 0 && Exhausted(start, Snapshot())
        invariant turn == 1 ==> start.curr != [] && !FitsAt(start.bumps[start.curr[0]], start.curr[0], align, size)
        decreases 2 - turn
      {
        ghost var base := Snapshot();
        ExhaustedFacts(start, base);
        if curr == [] || bumps[curr[0]].remaining < size {
          PushSlab(slabSize);
          FrontFits(Snapshot(), align, size);
        }
        ghost var mid := Snapshot();
        if size == 0 {
          at := curr[0].base + bumps[curr[0]].index;
          StagedVia(old(Snapshot()), start, Snapshot());
          return;
        }
        var fits := TryBump(align, size);
        if fits {
          at := last;
          AllocatedVia(old(Snapshot()), start, base, mid, Snapshot(), align, size);
          return;
        }
        turn := turn + 1;
      }
    }

    /** `try_share_free`: splice the private free list onto the global one. */
    method TryShareFree()
      requires Valid()
      modifies this`free, global
      ensures Valid() && Snapshot().Slabs() == old(Snapshot().Slabs())
      ensures (free == [] && global.slabs == old(free) + old(global.slabs)) ||
              (free == old(free) && global.slabs == old(global.slabs))
    {
      hide SlabsValid, LiveValid, BumpValid, Untouched;
      var held := global.TryAcquire();
      if free != [] && held {
        global.slabs := free + global.slabs;
        free := [];
      }
      assert Snapshot().Slabs() == old(Snapshot().Slabs());
    }

    /** `try_free_curr` on a front slab that is empty, then `try_share_free`. */
    method Surrender()
      requires Valid() && curr != [] && lastSize == 0 && bumps[curr[0]].index == 0
      modifies this`curr, this`free, global
      ensures Valid() && Snapshot().Slabs() == old(Snapshot().Slabs())
      ensures curr == old(curr)[1..]
    {
      hide SlabsValid, LiveValid, BumpValid, Untouched;
      ghost var before := Snapshot();
      var dead := curr[0];
      curr, free := curr[1..], [dead] + free;
      SurrenderKeepsValid(before, Snapshot());
      TryShareFree();
    }

    /** `allocate_staged`: where the next block would start.  An allocator that shares dead
        slabs then gives up a front slab with nothing in it. */
    method AllocateStaged() returns (at: nat, surrendered: bool)
      requires Valid()
      modifies this, global, source
      ensures Probed(old(Snapshot()), Snapshot(), at, surrendered)
    {
      hide SlabsValid, LiveValid, BumpValid, Grown;
      var hadSlab := curr != [];
      at := AllocateBare(config.minAlign, 0);
      ghost var staged := Snapshot();
      surrendered := config.shareDeadSlabs && (!hadSlab || bumps[curr[0]].index == 0);
      if surrendered {
        assert at % PAGE_SIZE == 0 by { FrontIsPaged(staged); }
        Surrender();
        assert Grown(old(Snapshot()), Snapshot()) by { GrownThen(old(Snapshot()), staged, Snapshot()); }
      }
    }

    /** `allocate_array` of bytes. */
    method AllocateArray(length: nat) returns (at: nat)
      requires Valid()
      modifies this, global, source
      ensures length > 0 ==> Allocated(old(Snapshot()), Snapshot(), config.minAlign, length, at)
      ensures length == 0 ==> Staged(old(Snapshot()), Snapshot(), at)
    {
      hide SlabsValid, LiveValid, BumpValid, Grown, Allocated, Staged;
      at := AllocateBare(config.minAlign, length);
    }

    /** `free_last`: give back the last block, wiping it, but not the padding before it. */
    method FreeLast(hint: FreeHint)
      requires Valid()
      modifies this, global
      ensures Rewound(old(Snapshot()), Snapshot(), hint)
    {
      hide SlabsValid, LiveValid, BumpValid, Untouched;
      ghost var before := Snapshot();
      if curr != [] && lastSize > 0 {
        var s := curr[0];
        var b := bumps[s];
        TipFitsIndex(before);
        bumps := bumps[s := Bump(b.index - lastSize, b.remaining + lastSize,
                                 Filled(b.memory, b.index - lastSize, b.index, config.fill))];
        live := live - {Block(s, last - s.base, lastSize)};
        lastSize, last := 0, 0;
        RewindKeepsValid(before, Snapshot());
        assert Snapshot().Slabs() == before.Slabs();
        if hint == TryFreeSlab && config.shareDeadSlabs && bumps[s].index == 0 {
          Surrender();
        }
      } else {
        lastSize, last := 0, 0;
        ForgetLast(before, Snapshot());
      }
    }

    /** What a client does with its block. */
    method Write(ghost block: Block, slab: Slab, offset: nat, data: seq<int>)
      requires Valid() && block in live && block == Block(slab, offset, |data|)
      modifies this`bumps
      ensures Valid()
      ensures bumps[slab].memory[offset..offset + |data|] == data
    {
      hide SlabsValid;
      ghost var before := Snapshot();
      var b := bumps[slab];
      bumps := bumps[slab := b.(memory := b.memory[..offset] + data + b.memory[offset + |data|..])];
      assert Snapshot().Slabs() == before.Slabs();
    }

    /** `free_all`: every block is dead and every slab is free. */
    method FreeAll()
      requires Valid() && Snapshot().FirstIsTail()
      modifies this, global
      ensures Valid() && Snapshot().FirstIsTail() && Snapshot().Slabs() == old(Snapshot().Slabs())
      ensures curr == [] && live == {}
    {
      hide SlabsValid, LiveValid, BumpValid, Untouched;
      ghost var before := Snapshot();
      lastSize, last, live := 0, 0, {};
      first := Null;
      free, curr := curr + free, [];
      FreeAllKeepsValid(before, Snapshot());
      if config.shareDeadSlabs {
        TryShareFree();
      }
    }
  }

  // ----- what the steps do, as relations on snapshots -----

  /** Where the next block with this alignment starts in a slab. */
  function AlignedTip(b: Bump, s: Slab, align: nat): nat
    requires align > 0
  {
    s.base + b.index + AlignTo(s.base + b.index, align)
  }

  predicate FitsAt(b: Bump, s: Slab, align: nat, size: nat)
    requires align > 0
  {
    b.remaining >= size + AlignTo(s.base + b.index, align)
  }

  /** A clean slab has gone in front. */
  ghost predicate Pushed(before: State, after: State, slabSize: nat) {
    && after.Valid() && after.lastSize == 0 && Grown(before, after)
    && after.config == before.config && after.live == before.live
    && |after.curr| == |before.curr| + 1 && after.curr[1..] == before.curr
    && (before.FirstIsTail() ==> after.FirstIsTail())
    && after.curr[0].size >= slabSize && after.bumps[after.curr[0]].index == 0
  }

  ghost predicate Exhausted(before: State, after: State) {
    && after.Valid() && before.curr != [] && before.curr[0] in before.bumps && before.lastSize == 0
    && var s := before.curr[0];
       after == before.(bumps := before.bumps[s := Bump(s.size, 0, before.bumps[s].memory)])
  }

  /** The front slab has handed out an aligned block. */
  ghost predicate Bumped(before: State, after: State, align: nat, size: nat) {
    && after.Valid() && align > 0 && before.curr != [] && before.curr[0] in before.bumps
    && var s := before.curr[0];
       var block := Block(s, AlignedTip(before.bumps[s], s, align) - s.base, size);
       && FitsAt(before.bumps[s], s, align, size)
       && block.Start() % align == 0 && block !in before.live && Untouched(after.bumps, block, after.config.fill)
       && after == before.(bumps := after.bumps, live := before.live + {block},
                           last := block.Start(), lastSize := size)
  }

  /** What a client is promised: an aligned and clean block, apart from all others, taken from the
      front slab when it fits there and from at most one more slab otherwise. */
  ghost predicate Allocated(before: State, after: State, align: nat, size: nat, at: nat) {
    && after.Valid() && Grown(before, after) && after.config == before.config && align > 0
    && after.curr != [] && (after.curr == before.curr || after.curr[1..] == before.curr)
    && (before.FirstIsTail() ==> after.FirstIsTail())
    && at % align == 0 && at >= after.curr[0].base
    && var block := Block(after.curr[0], at - after.curr[0].base, size);
       && block !in before.live && after.live == before.live + {block}
       && after.lastSize == size && after.last == at && Untouched(after.bumps, block, after.config.fill)
       && (before.curr != [] && before.curr[0] in before.bumps
           && FitsAt(before.bumps[before.curr[0]], before.curr[0], align, size) ==>
             after.curr == before.curr && at == AlignedTip(before.bumps[before.curr[0]], before.curr[0], align))
  }

  /** A request for no bytes reports the tip of the front slab, which must exist. */
  ghost predicate Staged(before: State, after: State, at: nat) {
    && after.Valid() && Grown(before, after) && after.config == before.config
    && after.live == before.live && after.lastSize == 0
    && (before.FirstIsTail() ==> after.FirstIsTail())
    && after.curr != [] && at == after.curr[0].base + after.bumps[after.curr[0]].index
    && (before.curr != [] ==> after.curr == before.curr && after.bumps == before.bumps)
    && (before.curr == [] ==> |after.curr| == 1 && after.bumps[after.curr[0]].index == 0)
  }

  lemma ForgetLast(before: State, after: State)
    requires before.Valid() && after == before.(lastSize := 0, last := 0)
    ensures after.Valid() && Grown(before, after)
  {
    hide SlabsValid, LiveValid, BumpValid, Untouched;
    assert after.Slabs() == before.Slabs();
  }

  lemma ExhaustedFacts(before: State, after: State)
    ensures Exhausted(before, after) ==>
              && after.Valid() && after.lastSize == 0 && after.config == before.config
              && after.curr == before.curr && after.curr != [] && after.bumps[after.curr[0]].remaining == 0
  {
    hide SlabsValid, LiveValid, BumpValid, Untouched;
  }

  /** The three ways through the loop of `allocate_bare`. */
  lemma AllocatedVia(before: State, start: State, base: State, mid: State, after: State, align: nat, size: nat)
    requires before.Valid() && start == before.(lastSize := 0, last := 0) && start.Valid()
    requires size > 0 && align > 0
    requires base == start || Exhausted(start, base)
    requires mid == base || Pushed(base, mid, size)
    requires mid == base ==> base == start
    requires base != start ==> !FitsAt(start.bumps[start.curr[0]], start.curr[0], align, size)
    requires mid != base && base == start && start.curr != [] ==> start.bumps[start.curr[0]].remaining < size
    requires Bumped(mid, after, align, size)
    ensures Allocated(before, after, align, size, after.last)
  {
    hide SlabsValid, LiveValid, BumpValid, State.FirstIsTail;
    assert base.Slabs() == before.Slabs() && base.top == before.top && base.live == before.live;
    assert before.FirstIsTail() ==> mid.FirstIsTail() by { SameFirst(before, base); }
    assert mid.Slabs() == after.Slabs() && Grown(before, mid);
    SameFirst(mid, after);
  }

  lemma SameFirst(a: State, b: State)
    requires a.curr == b.curr && a.first == b.first
    ensures a.FirstIsTail() <==> b.FirstIsTail()
  {
  }

  lemma StagedVia(before: State, start: State, after: State)
    requires before.Valid() && start == before.(lastSize := 0, last := 0) && start.Valid()
    requires if start.curr == [] then Pushed(start, after, 0) else after == start
    ensures Staged(before, after, after.curr[0].base + after.bumps[after.curr[0]].index)
  {
    hide SlabsValid, LiveValid, BumpValid, Untouched;
    assert start.Slabs() == before.Slabs() && start.top == before.top;
    if start.curr == [] {
      assert after.curr == [after.curr[0]];
    }
  }

  /** An empty front slab that is big enough takes the request whatever the alignment. */
  lemma FrontFits(st: State, align: nat, size: nat)
    requires st.Valid() && st.curr != [] && align > 0 && PAGE_SIZE % align == 0
    requires st.bumps[st.curr[0]].index == 0 && st.curr[0].size >= size
    ensures FitsAt(st.bumps[st.curr[0]], st.curr[0], align, size)
  {
    hide LiveValid;
    assert st.curr[0] in st.Slabs();
    ModTransitive(st.curr[0].base, PAGE_SIZE, align);
  }

  lemma SlabSizeIsPaged(size: nat, config: Config)
    requires config.Valid()
    ensures var s := size + AlignTo(size, config.slabSize);
            s >= size && s % PAGE_SIZE == 0
  {
    AlignToReaches(size, config.slabSize);
    ModTransitive(size + AlignTo(size, config.slabSize), config.slabSize, PAGE_SIZE);
  }

  /** The result of a staged allocation, with or without the front slab given up. */
  ghost predicate Probed(before: State, after: State, at: nat, surrendered: bool)
    requires before.BumpsValid()
  {
    && after.Valid() && Grown(before, after) && after.config == before.config
    && after.live == before.live && after.lastSize == 0
    && (surrendered <==>
          before.config.shareDeadSlabs && (before.curr == [] || before.bumps[before.curr[0]].index == 0))
    && (!surrendered ==> Staged(before, after, at))
    && (surrendered ==>
          && at % PAGE_SIZE == 0
          && after.curr == (if before.curr == [] then [] else before.curr[1..])
          && (before.curr != [] ==>
                at == before.curr[0].base && after.bumps == before.bumps))
  }

  /** The last block has been given back, and with it perhaps an emptied front slab. */
  ghost predicate Rewound(before: State, after: State, hint: FreeHint)
    requires before.LastValid()
  {
    && after.Valid() && after.Slabs() == before.Slabs()
    && after.config == before.config && after.top == before.top && after.lastSize == 0
    && (before.lastSize == 0 ==> after == before.(lastSize := 0, last := 0))
    && (before.lastSize > 0 ==>
          var s := before.curr[0];
          && after.live == before.live - {Block(s, before.last - s.base, before.lastSize)}
          && s in after.bumps && after.bumps[s].index == before.last - s.base
          && after.bumps[s].remaining == before.bumps[s].remaining + before.lastSize
          && after.curr == (if hint == TryFreeSlab && before.config.shareDeadSlabs && before.last == s.base
                            then before.curr[1..] else before.curr))
  }

  /** Slabs `theirs` in the lists of a sibling, which shares the global list and the memory
      source, stay apart from whatever an operation of this allocator leaves in its lists. */
  lemma SiblingStaysApart(before: State, after: State, theirs: multiset<Slab>)
    requires SlabsValid(before.Slabs() + theirs, before.top)
    requires after.Valid() && Grown(before, after)
    ensures SlabsValid(after.Slabs() + theirs, after.top)
  {
    hide LiveValid, BumpValid;
    var all := before.Slabs() + theirs;
    forall s, t | s in after.Slabs() && t in theirs ensures s != t && SlabsApart(s, t) {
      assert t in all && all[t] == 1;
      assert s in before.Slabs() ==> s in all;
    }
    forall s | s in after.Slabs() + theirs ensures (after.Slabs() + theirs)[s] == 1 {
      assert s in theirs ==> s in all && all[s] == 1;
    }
  }

  lemma FrontIsPaged(st: State)
    requires st.Valid() && st.curr != []
    ensures st.curr[0].base % PAGE_SIZE == 0
  {
    hide LiveValid, BumpValid;
    assert st.curr[0] in st.Slabs();
  }

  lemma TipFitsIndex(st: State)
    requires st.Valid() && st.lastSize > 0
    ensures st.bumps[st.curr[0]].index >= st.lastSize
    ensures st.bumps[st.curr[0]].index <= |st.bumps[st.curr[0]].memory|
  {
    hide SlabsValid;
  }

  lemma GrownThen(before: State, mid: State, after: State)
    requires Grown(before, mid) && after.Slabs() == mid.Slabs() && after.top == mid.top
    ensures Grown(before, after)
  {
  }

  lemma FreeAllKeepsValid(before: State, after: State)
    requires before.Valid()
    requires after == before.(curr := [], first := Null, free := before.curr + before.free,
                              live := {}, last := 0, lastSize := 0)
    ensures after.Valid() && after.Slabs() == before.Slabs()
  {
    hide SlabsValid;
    assert after.Slabs() == before.Slabs();
  }
}
