/** Patching a direct branch while other CPUs run it: `patch_instruction`.

    A patchable branch first goes to its stub, and the stub calls the patcher.  Any number of
    CPUs may be in the patcher for one branch; the others may be executing the branch. */
module Dbl {
  import opened Align
  import Emission

  type Pc = nat
  type Cpu = nat

  /** `Nothing` is the null pointer, which `code_cache::find` never returns. */
  datatype MaybePc = Nothing | Just(pc: Pc)

  datatype Lock = Free | Held(cpu: Cpu)

  /** Where the patcher returns to: the stub, to try again, or a resolved target. */
  datatype Ret = ToStub | ToTarget(pc: Pc)

  /** Where a CPU is in `patch_instruction`, with the value of `*ret_address_addr`. */
  datatype Where =
    | Outside
    | Entered
    | LockFailed                       // the try-lock failed
    | Peeked                           // ... and the target was seen to be resolved
    | Locked                           // the try-lock succeeded
    | Late                             // ... but the target was already resolved
    | LateReleased
    | Finding                          // ... and the target has to be found
    | Found(target: Pc)
    | Published(target: Pc)            // the patch record names the target
    | Aimed(target: Pc, ret: Ret)      // the return address is set
    | HalfPatched(target: Pc, ret: Ret)
    | Patched(ret: Ret)
    | Returned(ret: Ret)
  {
    predicate HasLock() {
      Locked? || Late? || Finding? || Found? || Published? || Aimed? || HalfPatched? || Patched?
    }
    /** The target is published but the branch is not yet patched. */
    predicate MidPatch() { Published? || Aimed? || HalfPatched? }
  }

  /** The branch and its patch record.  `rel32At` is the address of the displacement and
      `rel32` its value, as the destination it encodes.  The last two components count writes. */
  datatype State = State(
    stub: Pc, rel32At: nat, rel32: Pc,
    resolved: MaybePc, lock: Lock, at: map<Cpu, Where>,
    publishes: nat, patches: nat)
  {
    function At(c: Cpu): Where { if c in at then at[c] else Outside }
    /** Where the CPU holding the lock is. */
    function Holder(): Where { if lock.Held? then At(lock.cpu) else Outside }
    function Goto(c: Cpu, w: Where): State { this.(at := at[c := w]) }
  }

  predicate Init(s: State) {
    && s.rel32 == s.stub && s.resolved == Nothing && s.lock == Free && s.at == map[]
    && s.publishes == 0 && s.patches == 0
  }

  /** Bytes of the displacement that lie before the line boundary, as a factor. */
  function FirstPart(rel32At: nat): nat {
    var n := CACHE_LINE_SIZE - rel32At % CACHE_LINE_SIZE;
    if n == 1 then 0x100 else if n == 2 then 0x1_0000 else 0x100_0000
  }

  predicate Atomic(rel32At: nat) { InOneLine(rel32At, REL32_OFFSET_SIZE) }

  /** The next step of a CPU.  `found` is what `code_cache::find` returns.  A store to one
      cache line is a single step; one that spans two lines shows its first part first. */
  function Advanced(s: State, c: Cpu, found: Pc): State {
    match s.At(c)
    case Outside => s.Goto(c, Entered)
    case Entered => if s.lock.Held? then s.Goto(c, LockFailed) else s.Goto(c, Locked).(lock := Held(c))
    case LockFailed => s.Goto(c, if s.resolved.Just? then Peeked else Returned(ToStub))
    case Peeked => s.Goto(c, Returned(if s.resolved.Just? then ToTarget(s.resolved.pc) else ToStub))
    case Locked => s.Goto(c, if s.resolved.Just? then Late else Finding)
    case Late => s.Goto(c, LateReleased).(lock := Free)
    case LateReleased => s.Goto(c, Returned(if s.resolved.Just? then ToTarget(s.resolved.pc) else ToStub))
    case Finding => s.Goto(c, Found(found))
    case Found(t) => s.Goto(c, Published(t)).(resolved := Just(t), publishes := s.publishes + 1)
    case Published(t) => s.Goto(c, Aimed(t, if s.resolved.Just? then ToTarget(s.resolved.pc) else ToStub))
    case Aimed(t, ret) =>
      if Atomic(s.rel32At) then s.Goto(c, Patched(ret)).(rel32 := t, patches := s.patches + 1)
      else
        var m := FirstPart(s.rel32At);
        s.Goto(c, HalfPatched(t, ret)).(rel32 := t % m + s.rel32 / m * m)
    case HalfPatched(t, ret) => s.Goto(c, Patched(ret)).(rel32 := t, patches := s.patches + 1)
    case Patched(ret) => s.Goto(c, Returned(ret)).(lock := Free)
    case Returned(_) => s.Goto(c, Outside)
  }

  ghost predicate Run(states: seq<State>, steps: seq<(Cpu, Pc)>) {
    && |states| == |steps| + 1 && Init(states[0])
    && forall i :: 0 <= i < |steps| ==> states[i + 1] == Advanced(states[i], steps[i].0, steps[i].1)
  }

  // ----- invariant -----

  /** What the state of one CPU says about the shared state. */
  predicate CpuValid(s: State, c: Cpu) {
    && (s.At(c).HasLock() <==> s.lock == Held(c))
    && match s.At(c) {
         case Peeked | Late | LateReleased => s.resolved.Just?
         case Finding | Found(_) => s.resolved == Nothing
         case Published(t) => s.resolved == Just(t) && s.patches == 0
         case Aimed(t, ret) => s.resolved == Just(t) && s.patches == 0 && ret == ToTarget(t)
         case HalfPatched(t, ret) => s.resolved == Just(t) && s.patches == 0 && ret == ToTarget(t) && !Atomic(s.rel32At)
         case Patched(ret) => s.resolved.Just? && s.patches == 1 && ret == ToTarget(s.resolved.pc)
         case Returned(ToTarget(t)) => s.resolved == Just(t)
         case _ => true
       }
  }

  ghost predicate Inv(s: State) {
    && (forall c: Cpu :: CpuValid(s, c))
    && s.publishes == (if s.resolved.Just? then 1 else 0)
    && s.patches <= s.publishes
    && (s.patches == 1 ==> s.rel32 == s.resolved.pc)
    && (s.patches == 0 && !s.Holder().HalfPatched? ==> s.rel32 == s.stub)
    && (s.resolved.Just? && s.patches == 0 ==> s.Holder().MidPatch())
  }

  /** The step of one CPU keeps what the state of any CPU says. */
  lemma AdvanceKeepsCpu(s: State, c: Cpu, found: Pc, d: Cpu)
    requires CpuValid(s, c) && CpuValid(s, d) && s.publishes == (if s.resolved.Just? then 1 else 0)
    requires s.patches <= s.publishes
    ensures CpuValid(Advanced(s, c, found), d)
  {
    hide Atomic;
  }

  lemma AdvanceKeepsInv(s: State, c: Cpu, found: Pc)
    requires Inv(s)
    ensures Inv(Advanced(s, c, found))
  {
    hide Atomic;
    var s' := Advanced(s, c, found);
    assert CpuValid(s, c);
    if s.lock.Held? {
      assert CpuValid(s, s.lock.cpu);
    }
    forall d: Cpu ensures CpuValid(s', d) {
      assert CpuValid(s, d);
      AdvanceKeepsCpu(s, c, found, d);
    }
  }

  lemma {:induction false} RunKeepsInv(states: seq<State>, steps: seq<(Cpu, Pc)>, k: nat)
    requires Run(states, steps) && k < |states|
    ensures Inv(states[k]) && states[k].stub == states[0].stub && states[k].rel32At == states[0].rel32At
  {
    if k == 0 {
      var s := states[0];
      forall c: Cpu ensures CpuValid(s, c) {}
    } else {
      RunKeepsInv(states, steps, k - 1);
      AdvanceKeepsInv(states[k - 1], steps[k - 1].0, steps[k - 1].1);
    }
  }

  /** Once resolved, a branch keeps its target for the rest of the run. */
  lemma {:induction false} ResolvedForGood(states: seq<State>, steps: seq<(Cpu, Pc)>, i: nat, k: nat)
    requires Run(states, steps) && i <= k < |states| && states[i].resolved.Just?
    ensures states[k].resolved == states[i].resolved
  {
    if i < k {
      ResolvedForGood(states, steps, i, k - 1);
      RunKeepsInv(states, steps, k - 1);
      var s := states[k - 1];
      assert CpuValid(s, steps[k - 1].0);
    }
  }

  // ----- results -----

  /** In every interleaving of patchers, the target is written at most once and so is the
      branch, and the branch only after the target. */
  lemma WrittenOnce(states: seq<State>, steps: seq<(Cpu, Pc)>, k: nat)
    requires Run(states, steps) && k < |states|
    ensures states[k].patches <= states[k].publishes <= 1
  {
    RunKeepsInv(states, steps, k);
  }

  /** A patcher that returns goes to the target that the branch has been resolved to; only one
      that did not get the lock, and saw that the target was not resolved yet, goes back to the
      stub. */
  lemma ReturnsToTarget(states: seq<State>, steps: seq<(Cpu, Pc)>, k: nat)
    requires Run(states, steps) && k < |steps| && states[k + 1].At(steps[k].0).Returned?
    ensures var s, c := states[k], steps[k].0;
            var ret := states[k + 1].At(c).ret;
            && (ret.ToStub? <==> s.At(c).LockFailed? && s.resolved == Nothing)
            && (ret.ToTarget? ==> s.resolved == Just(ret.pc))
  {
    hide Atomic;
    RunKeepsInv(states, steps, k);
    assert CpuValid(states[k], steps[k].0);
  }

  /** The try-lock fails only while another patcher has the lock. */
  lemma FailsWhileHeld(states: seq<State>, steps: seq<(Cpu, Pc)>, k: nat)
    requires Run(states, steps) && k < |steps| && states[k].At(steps[k].0).Entered?
    ensures states[k + 1].At(steps[k].0) == if states[k].lock.Held? then LockFailed else Locked
    ensures states[k].lock.Held? ==> states[k].At(states[k].lock.cpu).HasLock() && states[k].lock.cpu != steps[k].0
  {
    hide Atomic;
    RunKeepsInv(states, steps, k);
    if states[k].lock.Held? {
      assert CpuValid(states[k], states[k].lock.cpu);
    }
  }

  /** Whenever no patcher has the lock, a branch whose target is resolved is patched. */
  lemma QuietIsPatched(states: seq<State>, steps: seq<(Cpu, Pc)>, k: nat)
    requires Run(states, steps) && k < |states| && states[k].lock == Free && states[k].resolved.Just?
    ensures states[k].patches == 1 && states[k].rel32 == states[k].resolved.pc
  {
    RunKeepsInv(states, steps, k);
  }

  /** Each patcher returns to the stub or to the one target that all others return to,
      however far apart in the run they return. */
  lemma OneTarget(states: seq<State>, steps: seq<(Cpu, Pc)>, i: nat, k: nat, c: Cpu, d: Cpu)
    requires Run(states, steps) && i <= k < |states|
    requires states[i].At(c).Returned? && states[k].At(d).Returned?
    ensures states[i].At(c).ret.ToTarget? && states[k].At(d).ret.ToTarget? ==>
              states[i].At(c).ret == states[k].At(d).ret
    ensures states[i].At(c).ret.ToTarget? ==> states[k].resolved == Just(states[i].At(c).ret.pc)
  {
    RunKeepsInv(states, steps, i);
    RunKeepsInv(states, steps, k);
    assert CpuValid(states[i], c) && CpuValid(states[k], d);
    if states[i].At(c).ret.ToTarget? {
      ResolvedForGood(states, steps, i, k);
    }
  }

  /** A CPU that executes the branch goes to the stub or to the resolved target. */
  predicate Coherent(s: State) {
    s.rel32 == s.stub || s.resolved == Just(s.rel32)
  }

  lemma {:induction false} AtomicIsCoherent(states: seq<State>, steps: seq<(Cpu, Pc)>, k: nat)
    requires Run(states, steps) && k < |states| && Atomic(states[0].rel32At)
    ensures Coherent(states[k])
  {
    hide Atomic;
    RunKeepsInv(states, steps, k);
    var s := states[k];
    if s.lock.Held? {
      assert CpuValid(s, s.lock.cpu);
    }
  }

  lemma Extended(states: seq<State>, steps: seq<(Cpu, Pc)>, c: Cpu, found: Pc)
      returns (states': seq<State>, steps': seq<(Cpu, Pc)>)
    requires Run(states, steps)
    ensures Run(states', steps') && states'[0] == states[0]
    ensures states'[|steps'|] == Advanced(states[|steps|], c, found)
  {
    hide Advanced;
    states', steps' := states + [Advanced(states[|steps|], c, found)], steps + [(c, found)];
  }

  /** One CPU that runs alone comes to the store. */
  lemma SoloRun(rel32At: nat, target: Pc) returns (states: seq<State>, steps: seq<(Cpu, Pc)>)
    ensures Run(states, steps)
    ensures states[0] == State(0, rel32At, 0, Nothing, Free, map[], 0, 0)
    ensures states[|steps|] == State(0, rel32At, 0, Just(target), Held(0),
                                     map[0 := Aimed(target, ToTarget(target))], 1, 0)
  {
    states, steps := [State(0, rel32At, 0, Nothing, Free, map[], 0, 0)], [];
    assert Run(states, steps);
    hide Run, Atomic;
    states, steps := Extended(states, steps, 0, target);
    states, steps := Extended(states, steps, 0, target);
    states, steps := Extended(states, steps, 0, target);
    states, steps := Extended(states, steps, 0, target);
    states, steps := Extended(states, steps, 0, target);
    states, steps := Extended(states, steps, 0, target);
  }

  /** A displacement across two lines can be seen half written. */
  lemma TornRun(rel32At: nat) returns (states: seq<State>, steps: seq<(Cpu, Pc)>)
    requires !InOneLine(rel32At, REL32_OFFSET_SIZE)
    ensures Run(states, steps) && states[0].rel32At == rel32At
    ensures !Coherent(states[|steps|])
  {
    var target := FirstPart(rel32At) + 1;
    states, steps := SoloRun(rel32At, target);
    states, steps := Extended(states, steps, 0, target);
    assert target % FirstPart(rel32At) == 1;
  }

  /** The branch is coherent in every interleaving exactly when its displacement lies in one
      cache line. */
  lemma CoherentExactly(rel32At: nat)
    ensures InOneLine(rel32At, REL32_OFFSET_SIZE) <==>
            forall states: seq<State>, steps: seq<(Cpu, Pc)>, k: nat ::
              Run(states, steps) && states[0].rel32At == rel32At && k < |states| ==>
              Coherent(states[k])
  {
    if InOneLine(rel32At, REL32_OFFSET_SIZE) {
      forall states: seq<State>, steps: seq<(Cpu, Pc)>, k: nat |
        Run(states, steps) && states[0].rel32At == rel32At && k < |states|
        ensures Coherent(states[k])
      {
        AtomicIsCoherent(states, steps, k);
      }
    } else {
      var states, steps := TornRun(rel32At);
    }
  }

  /** Every patchable branch of an aligned trace is coherent in every interleaving. */
  lemma AlignedBranchIsCoherent(ls: seq<Instr>, at: nat, b: nat,
                                states: seq<State>, steps: seq<(Cpu, Pc)>, k: nat)
    requires NoSplitRel32(ls, at) && b < |ls| && ls[b].Patchable()
    requires Run(states, steps) && k < |states|
    requires states[0].rel32At == at + TotalSize(ls[..b + 1]) - REL32_OFFSET_SIZE
    ensures Coherent(states[k])
  {
    Emission.NoSplitAt(ls, at, b);
    AtomicIsCoherent(states, steps, k);
  }
}
