/** Laying out a trace: the allocation dance at the end of `basic_block::translate`.

    Room for the worst case is reserved and given back, the address that this exposes is
    probed, the trace is aligned for that address, and only then is the exact size
    allocated.  The final allocation may come from another slab than the probe. */
module Emission {
  import opened Align
  import Bump = BumpAllocator

  /** The address of each patchable rel32, and that it does not cross a cache line. */
  lemma {:induction false} NoSplitAt(ls: seq<Instr>, at: nat, k: nat)
    requires NoSplitRel32(ls, at) && k < |ls| && ls[k].Patchable()
    ensures var end := at + TotalSize(ls[..k + 1]);
            end >= REL32_OFFSET_SIZE && InOneLine(end - REL32_OFFSET_SIZE, REL32_OFFSET_SIZE)
  {
    assert ls[..k + 1][1..] == ls[1..][..k];
    if k == 0 {
      assert ls[..1][1..] == [];
    } else {
      NoSplitAt(ls[1..], at + ls[0].EncodedSize(), k - 1);
    }
  }

  /** A list without bytes has no patchable branch to split. */
  lemma {:induction false} NothingToSplit(ls: seq<Instr>, at: nat)
    requires AllWellFormed(ls) && TotalSize(ls) == 0
    ensures NoSplitRel32(ls, at)
  {
    if ls != [] {
      NothingToSplit(ls[1..], at);
    }
  }

  /** Some slab starts at an address. */
  ghost predicate AtBase(slabs: multiset<Bump.Slab>, at: nat) {
    exists s :: s in slabs && s.base == at
  }

  /** What the reservation and the probe establish: a line-aligned address where the worst
      case fits, unless the slab that holds it was given up.  That happens exactly when slabs
      are shared and the address is the start of a slab. */
  ghost predicate Reserved(before: Bump.State, after: Bump.State, most: nat, probe: nat, surrendered: bool) {
    && after.Valid() && after.config == before.config && after.live == before.live
    && (surrendered ==> after.config.shareDeadSlabs)
    && (most > 0 ==>
          && probe % CACHE_LINE_SIZE == 0 && probe < after.top
          && (surrendered <==> after.config.shareDeadSlabs && AtBase(after.Slabs(), probe)))
    && (most > 0 && !surrendered ==>
          && after.curr != [] && after.curr[0] in after.bumps
          && probe == after.curr[0].base + after.bumps[after.curr[0]].index
          && after.bumps[after.curr[0]].remaining >= most)
  }

  /** An address inside a slab is the start of a slab only if it is the start of that one. */
  lemma BaseIsOwn(slabs: multiset<Bump.Slab>, top: nat, s: Bump.Slab, offset: nat)
    requires Bump.SlabsValid(slabs, top) && s in slabs && offset < s.size
    ensures AtBase(slabs, s.base + offset) <==> offset == 0
    ensures s.base + offset < top
  {
    if AtBase(slabs, s.base + offset) {
      var t :| t in slabs && t.base == s.base + offset;
      assert t == s || Bump.SlabsApart(s, t);
    }
  }

  lemma GrownKeepsSlab(before: Bump.State, after: Bump.State, s: Bump.Slab)
    requires Bump.Grown(before, after) && s in before.Slabs()
    ensures s in after.Slabs()
  {
  }

  /** Allocating further adds no slab below the top. */
  lemma GrownKeepsBases(before: Bump.State, after: Bump.State, at: nat)
    requires Bump.Grown(before, after) && at < before.top
    ensures AtBase(after.Slabs(), at) <==> AtBase(before.Slabs(), at)
  {
    if AtBase(after.Slabs(), at) {
      var s :| s in after.Slabs() && s.base == at;
      assert s in before.Slabs();
    }
    if AtBase(before.Slabs(), at) {
      var s :| s in before.Slabs() && s.base == at;
      GrownKeepsSlab(before, after, s);
    }
  }

  /** The slab of the reservation, after it was given back and after the probe. */
  lemma ProbeAtBase(reserved: Bump.State, rewound: Bump.State, after: Bump.State, most: nat, probe: nat)
    requires reserved.Valid() && reserved.curr != [] && reserved.lastSize == most > 0
    requires Bump.Rewound(reserved, rewound, Bump.KeepSlab) && Bump.Grown(rewound, after) && after.Valid()
    requires probe == reserved.last
    ensures AtBase(after.Slabs(), probe) <==> rewound.bumps[reserved.curr[0]].index == 0
    ensures probe < after.top
  {
    hide Bump.SlabsValid, Bump.LiveValid, Bump.Grown;
    var s := reserved.curr[0];
    assert s in rewound.curr && s in rewound.Slabs();
    assert Bump.BumpValid(s, rewound.bumps[s], rewound.config.fill);
    GrownKeepsSlab(rewound, after, s);
    BaseIsOwn(after.Slabs(), after.top, s, rewound.bumps[s].index);
  }

  lemma ReservedVia(before: Bump.State, reserved: Bump.State, rewound: Bump.State, after: Bump.State,
                    most: nat, first: nat, probe: nat, surrendered: bool)
    requires before.Valid() && before.config.minAlign == CACHE_LINE_SIZE
    requires if most > 0 then Bump.Allocated(before, reserved, CACHE_LINE_SIZE, most, first)
             else Bump.Staged(before, reserved, first)
    requires reserved.Valid() && Bump.Rewound(reserved, rewound, Bump.KeepSlab)
    requires Bump.Probed(rewound, after, probe, surrendered)
    ensures Reserved(before, after, most, probe, surrendered)
  {
    hide Bump.SlabsValid, Bump.LiveValid, Bump.BumpValid, Bump.Grown, Bump.Untouched;
    if most > 0 {
      var s := reserved.curr[0];
      assert s.base + rewound.bumps[s].index == first == probe;
      ProbeAtBase(reserved, rewound, after, most, probe);
    }
  }

  /** Reserve, give back and probe. */
  method Probe(fragments: Bump.Allocator, most: nat)
    returns (probe: nat, surrendered: bool)
    requires fragments.Valid() && fragments.config.minAlign == CACHE_LINE_SIZE
    modifies fragments, fragments.global, fragments.source
    ensures Reserved(old(fragments.Snapshot()), fragments.Snapshot(), most, probe, surrendered)
  {
    hide Bump.SlabsValid, Bump.LiveValid, Bump.BumpValid, Bump.Grown, Bump.Untouched;
    ghost var before := fragments.Snapshot();
    var first := fragments.AllocateArray(most);
    ghost var reserved := fragments.Snapshot();
    assert reserved.Valid();
    fragments.FreeLast(Bump.KeepSlab);
    ghost var rewound := fragments.Snapshot();
    probe, surrendered := fragments.AllocateStaged();
    ReservedVia(before, reserved, rewound, fragments.Snapshot(), most, first, probe, surrendered);
  }

  /** The exact allocation lands on the probe, or at least on a line boundary as it does. */
  lemma FinalAddress(before: Bump.State, probed: Bump.State, after: Bump.State,
                     most: nat, exact: nat, probe: nat, at: nat, surrendered: bool)
    requires 0 < exact <= most && Reserved(before, probed, most, probe, surrendered)
    requires Bump.Allocated(probed, after, CACHE_LINE_SIZE, exact, at)
    ensures probe % CACHE_LINE_SIZE == 0 == at % CACHE_LINE_SIZE
    ensures !surrendered ==> at == probe
  {
    hide Bump.SlabsValid, Bump.LiveValid, Bump.BumpValid, Bump.Grown, Bump.Untouched;
  }

  /** The new block of the trace, still with the fill value in it. */
  ghost predicate NewBlock(before: Bump.State, after: Bump.State, start: nat, size: nat) {
    && after.Valid() && after.curr != [] && start >= after.curr[0].base
    && var block := Bump.Block(after.curr[0], start - after.curr[0].base, size);
       && block !in before.live && after.live == before.live + {block}
       && Bump.Untouched(after.bumps, block, after.config.fill)
  }

  /** `basic_block::translate`, from the reservation to the address of the trace. */
  method EmitTrace(fragments: Bump.Allocator, ls: seq<Instr>)
    returns (out: seq<Instr>, size: nat, start: nat, probe: nat, surrendered: bool)
    requires fragments.Valid() && fragments.config.minAlign == CACHE_LINE_SIZE
    requires AllWellFormed(ls)
    modifies fragments, fragments.global, fragments.source
    ensures fragments.Valid()
    ensures size == TotalSize(out) <= EstimateMaxSize(ls)
    ensures Erase(out) == Erase(ls)
    ensures NoSplitRel32(out, start)
    ensures size > 0 ==> start % CACHE_LINE_SIZE == probe % CACHE_LINE_SIZE && (!surrendered ==> start == probe)
    ensures surrendered ==> fragments.config.shareDeadSlabs
    ensures size > 0 ==>
              (surrendered <==> fragments.config.shareDeadSlabs && AtBase(fragments.Snapshot().Slabs(), probe))
    ensures size > 0 ==> NewBlock(old(fragments.Snapshot()), fragments.Snapshot(), start, size)
  {
    hide Bump.SlabsValid, Bump.LiveValid, Bump.BumpValid, Bump.Grown, Bump.Untouched;
    ghost var before := fragments.Snapshot();
    var most := EstimateMaxSize(ls);
    probe, surrendered := Probe(fragments, most);
    ghost var probed := fragments.Snapshot();
    assert FirstStaysPut(ls, probe % CACHE_LINE_SIZE);
    out, size := AlignList(ls, probe % CACHE_LINE_SIZE);
    start := fragments.AllocateArray(size);
    AlignedIsSafe(ls, probe % CACHE_LINE_SIZE);
    if size == 0 {
      NothingToSplit(out, start);
    } else {
      FinalAddress(before, probed, fragments.Snapshot(), most, size, probe, start, surrendered);
      NoSplitModLine(out, probe % CACHE_LINE_SIZE, start);
      GrownKeepsBases(probed, fragments.Snapshot(), probe);
    }
  }
}
