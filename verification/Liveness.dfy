/** What the liveness analysis means: running code from two states that agree on the live
    registers cannot be told apart by the registers that are live afterwards. */
module Liveness {
  import opened RegisterManager

  /** A machine state: the general purpose registers, and everything else. */
  datatype State = State(regs: seq<int>, rest: int) {
    predicate Valid() { |regs| == 16 }
  }

  /** What an instruction does to a register destination. */
  datatype Write = Replace(value: int) | Keep

  datatype Outcome = Outcome(writes: seq<Write>, rest: int)

  /** What an instruction gets from an operand. */
  datatype Value = Contents(value: int) | Address(base: int, index: int) | Nothing

  /** All that an instruction gets: its sources, the addresses of its destinations, the
      registers that a repeated string instruction works on, and the stack pointer. */
  datatype Inputs = Inputs(srcs: seq<Value>, addresses: seq<Value>, strings: seq<int>, rsp: int)

  /** The meaning of instructions is arbitrary, within what their operands allow.  `run` sees
      the inputs of the instruction, and all else.  `merge` puts a narrow result into a
      register. */
  datatype Semantics = Semantics(
    run: (Instr, Inputs, int) -> Outcome,
    merge: (int, int, Width) -> int)

  // ----- what the hardware reads -----

  function ValueOf(r: RegName, s: State): int
    requires s.Valid()
  {
    match r
    case NoReg => 0
    case Gpr(n, _) => s.regs[n]
  }

  function SourceValue(o: Operand, s: State): Value
    requires s.Valid()
  {
    match o
    case RegOperand(r) => Contents(ValueOf(r, s))
    case BaseDisp(base, index) => Address(ValueOf(base, s), ValueOf(index, s))
    case OtherOperand => Nothing
  }

  function DestAddress(o: Operand, s: State): Value
    requires s.Valid()
  {
    match o
    case RegOperand(_) => Nothing
    case BaseDisp(base, index) => Address(ValueOf(base, s), ValueOf(index, s))
    case OtherOperand => Nothing
  }

  /** The counter of a repeated string instruction and its pointers: `rsi` for what reads a
      string, `rdi` for what writes or scans one. */
  function StringRegs(op: Opcode): seq<RegNum> {
    match op
    case RepIns => [RCX, RDI] case RepStos => [RCX, RDI] case RepScas => [RCX, RDI] case RepneScas => [RCX, RDI]
    case RepOuts => [RCX, RSI] case RepLods => [RCX, RSI]
    case RepMovs => [RCX, RSI, RDI] case RepCmps => [RCX, RSI, RDI] case RepneCmps => [RCX, RSI, RDI]
    case Bsf => [] case Bsr => [] case Lar => [] case Lsl => [] case Vmread => []
    case OtherOpcode(_, _) => []
  }

  function InputsOf(i: Instr, s: State): Inputs
    requires s.Valid()
  {
    Inputs(seq(|i.srcs|, k requires 0 <= k < |i.srcs| => SourceValue(i.srcs[k], s)),
           seq(|i.dsts|, k requires 0 <= k < |i.dsts| => DestAddress(i.dsts[k], s)),
           seq(|StringRegs(i.opcode)|, k requires 0 <= k < |StringRegs(i.opcode)| => s.regs[StringRegs(i.opcode)[k]]),
           s.regs[RSP])
  }

  /** What may leave a register destination unchanged: BSF and BSR of zero, a repeated string
      instruction whose counter is zero, LAR and LSL of a selector that is not accessible, a
      VMREAD that fails, and whatever else is conditional. */
  predicate Conditional(op: Opcode) {
    match op
    case OtherOpcode(_, conditional) => conditional
    case _ => true
  }

  /** The new value of register `n`, given the write that a destination makes to it. */
  function Written(sem: Semantics, op: Opcode, r: RegName, w: Write, was: int): int
    requires r.Gpr?
  {
    match w
    case Keep => if Conditional(op) then was else 0
    case Replace(v) => if r.width == W32 || r.width == W64 then v else sem.merge(was, v, r.width)
  }

  function WriteOf(o: Outcome, k: nat): Write { if k < |o.writes| then o.writes[k] else Keep }

  /** All destinations, in order. */
  function WriteAll(sem: Semantics, op: Opcode, dsts: seq<Operand>, o: Outcome, regs: seq<int>): (r: seq<int>)
    requires |regs| == 16
    ensures |r| == 16
  {
    if dsts == [] then regs
    else
      var k := |dsts| - 1;
      var before := WriteAll(sem, op, dsts[..k], o, regs);
      if dsts[k].RegOperand? && dsts[k].r.Gpr? then
        before[dsts[k].r.n := Written(sem, op, dsts[k].r, WriteOf(o, k), before[dsts[k].r.n])]
      else before
  }

  ghost function Step(sem: Semantics, i: Instr, s: State): (s': State)
    requires s.Valid()
    ensures s'.Valid()
  {
    if i.isNop then s
    else
      var o := sem.run(i, InputsOf(i, s), s.rest);
      State(WriteAll(sem, i.opcode, i.dsts, o, s.regs), o.rest)
  }

  ghost function Steps(sem: Semantics, ls: seq<Instr>, s: State): (s': State)
    requires s.Valid()
    ensures s'.Valid()
  {
    if ls == [] then s else Steps(sem, ls[1..], Step(sem, ls[0], s))
  }

  ghost predicate Agree(a: State, b: State, live: set<RegNum>) {
    a.Valid() && b.Valid() && a.rest == b.rest && forall n: RegNum :: n in live ==> a.regs[n] == b.regs[n]
  }

  /** The claim for one instruction. */
  ghost predicate Sound(i: Instr, live: set<RegNum>) {
    forall sem: Semantics, a: State, b: State ::
      Agree(a, b, Before(i, live)) ==> Agree(Step(sem, i, a), Step(sem, i, b), live)
  }

  // ----- which registers matter -----

  predicate IsReg(r: RegName, n: RegNum) { r.Gpr? && r.n == n }

  predicate SourceUses(o: Operand, n: RegNum) {
    match o
    case RegOperand(r) => IsReg(r, n)
    case BaseDisp(base, index) => IsReg(base, n) || IsReg(index, n)
    case OtherOperand => false
  }

  predicate DestUses(o: Operand, n: RegNum) { o.BaseDisp? && (IsReg(o.base, n) || IsReg(o.index, n)) }

  /** The instruction gets the value of register `n`. */
  ghost predicate Gets(i: Instr, n: RegNum) {
    || (exists k :: 0 <= k < |i.srcs| && SourceUses(i.srcs[k], n))
    || (exists k :: 0 <= k < |i.dsts| && DestUses(i.dsts[k], n))
    || n in StringRegs(i.opcode) || n == RSP
  }

  predicate IsDest(o: Operand, n: RegNum) { o.RegOperand? && IsReg(o.r, n) }

  predicate Whole(o: Operand) { o.RegOperand? && o.r.Gpr? && (o.r.width == W32 || o.r.width == W64) }

  /** Some destination, if written, replaces all of register `n`. */
  ghost predicate Overwrites(i: Instr, n: RegNum) {
    exists k :: 0 <= k < |i.dsts| && IsDest(i.dsts[k], n) && Whole(i.dsts[k])
  }

  /** The value of `n` before the instruction makes a difference after it. */
  ghost predicate Matters(i: Instr, live: set<RegNum>, n: RegNum) {
    exists sem: Semantics, a: State, b: State ::
      && Agree(a, b, ALL - {n}) && !Agree(Step(sem, i, a), Step(sem, i, b), live)
  }

  /** When it does. */
  ghost predicate Needed(i: Instr, live: set<RegNum>, n: RegNum) {
    Gets(i, n) || (n in live && (Conditional(i.opcode) || !Overwrites(i, n)))
  }

  /** The exact condition for the analysis to be sound: what an instruction may leave alone, and
      is needed after it, is read by it, unless the instruction is BSF or BSR. */
  ghost predicate Faithful(i: Instr, live: set<RegNum>) {
    !i.isNop && !i.isCti && Conditional(i.opcode) && !i.opcode.Bsf? && !i.opcode.Bsr? ==>
      forall n: RegNum :: n in live && Overwrites(i, n) ==> Gets(i, n)
  }

  // ----- the analysis in these terms -----

  lemma UsesAreRegs(o: Operand, n: RegNum)
    ensures SourceUses(o, n) <==> n in o.Regs()
    ensures DestUses(o, n) <==> Addresses(o, n)
    ensures o.RegOperand? ==> (IsDest(o, n) <==> n in o.Regs())
    ensures IsDest(o, n) ==> (Whole(o) <==> o.r.WritesAll())
  {
  }

  lemma SourcesAre(srcs: seq<Operand>, n: RegNum)
    ensures n in SourceRegs(srcs) <==> exists k :: 0 <= k < |srcs| && SourceUses(srcs[k], n)
  {
    forall k | 0 <= k < |srcs| ensures SourceUses(srcs[k], n) <==> Reads(srcs[k], n) {
      UsesAreRegs(srcs[k], n);
    }
    if s :| s in srcs && Reads(s, n) {
      var k :| 0 <= k < |srcs| && srcs[k] == s;
    }
  }

  lemma AddressesAre(dsts: seq<Operand>, n: RegNum)
    ensures n in Addressing(dsts) <==> exists k :: 0 <= k < |dsts| && DestUses(dsts[k], n)
  {
    forall k | 0 <= k < |dsts| ensures DestUses(dsts[k], n) <==> Addresses(dsts[k], n) {
      UsesAreRegs(dsts[k], n);
    }
    if d :| d in dsts && Addresses(d, n) {
      var k :| 0 <= k < |dsts| && dsts[k] == d;
    }
  }

  predicate IsBitScan(op: Opcode) { op.Bsf? || op.Bsr? }

  lemma KilledAre(i: Instr, n: RegNum)
    ensures n in Killed(i.opcode, i.dsts) <==> !IsBitScan(i.opcode) && Overwrites(i, n)
  {
    forall k | 0 <= k < |i.dsts|
      ensures Kills(i.opcode, i.dsts[k], n) <==>
              !IsBitScan(i.opcode) && IsDest(i.dsts[k], n) && Whole(i.dsts[k])
    {
      UsesAreRegs(i.dsts[k], n);
    }
    if d :| d in i.dsts && Kills(i.opcode, d, n) {
      var k :| 0 <= k < |i.dsts| && i.dsts[k] == d;
    }
  }

  lemma KeptAre(i: Instr, n: RegNum)
    ensures n in Kept(i.opcode, i.dsts) <==>
            IsBitScan(i.opcode) && exists k :: 0 <= k < |i.dsts| && IsDest(i.dsts[k], n)
  {
    forall k | 0 <= k < |i.dsts|
      ensures Keeps(i.opcode, i.dsts[k], n) <==> IsBitScan(i.opcode) && IsDest(i.dsts[k], n)
    {
      UsesAreRegs(i.dsts[k], n);
    }
    if d :| d in i.dsts && Keeps(i.opcode, d, n) {
      var k :| 0 <= k < |i.dsts| && i.dsts[k] == d;
    }
  }

  /** The live registers before an instruction: those it gets, those it does not overwrite, and
      all destinations of BSF and BSR. */
  lemma BeforeIs(i: Instr, live: set<RegNum>, n: RegNum)
    requires !i.isNop && !i.isCti
    ensures n in Before(i, live) <==>
            || Gets(i, n) || (n in live && (IsBitScan(i.opcode) || !Overwrites(i, n)))
            || (IsBitScan(i.opcode) && exists k :: 0 <= k < |i.dsts| && IsDest(i.dsts[k], n))
  {
    hide Killed, Kept, Addressing, SourceRegs;
    SourcesAre(i.srcs, n);
    AddressesAre(i.dsts, n);
    KilledAre(i, n);
    KeptAre(i, n);
    assert n in RepRegs(i.opcode) <==> n in StringRegs(i.opcode);
  }

  // ----- sufficiency -----

  /** The two runs agree on `n` after the writes if they did before, or if `n` is replaced. */
  lemma {:induction false} WritesAgree(sem: Semantics, op: Opcode, dsts: seq<Operand>, o: Outcome,
                                       a: seq<int>, b: seq<int>, n: RegNum)
    requires |a| == |b| == 16
    requires a[n] == b[n] || (!Conditional(op) && exists k :: 0 <= k < |dsts| && IsDest(dsts[k], n) && Whole(dsts[k]))
    ensures WriteAll(sem, op, dsts, o, a)[n] == WriteAll(sem, op, dsts, o, b)[n]
    decreases |dsts|
  {
    if dsts != [] {
      var last := |dsts| - 1;
      if a[n] == b[n] || !(IsDest(dsts[last], n) && Whole(dsts[last])) {
        if a[n] != b[n] {
          var k :| 0 <= k < |dsts| && IsDest(dsts[k], n) && Whole(dsts[k]);
          assert dsts[..last][k] == dsts[k];
        }
        WritesAgree(sem, op, dsts[..last], o, a, b, n);
      }
    }
  }

  lemma SameInputs(i: Instr, a: State, b: State)
    requires a.Valid() && b.Valid() && forall n: RegNum :: Gets(i, n) ==> a.regs[n] == b.regs[n]
    ensures InputsOf(i, a) == InputsOf(i, b)
  {
    forall k | 0 <= k < |i.srcs| ensures SourceValue(i.srcs[k], a) == SourceValue(i.srcs[k], b) {
      assert forall n: RegNum :: SourceUses(i.srcs[k], n) ==> Gets(i, n);
    }
    forall k | 0 <= k < |i.dsts| ensures DestAddress(i.dsts[k], a) == DestAddress(i.dsts[k], b) {
      assert forall n: RegNum :: DestUses(i.dsts[k], n) ==> Gets(i, n);
    }
    forall k | 0 <= k < |StringRegs(i.opcode)|
      ensures a.regs[StringRegs(i.opcode)[k]] == b.regs[StringRegs(i.opcode)[k]]
    {
      assert Gets(i, StringRegs(i.opcode)[k]);
    }
    assert Gets(i, RSP);
  }

  /** Two states that agree on all that is needed end up in agreement on what is live. */
  lemma NeededIsEnough(i: Instr, live: set<RegNum>, sem: Semantics, a: State, b: State)
    requires !i.isNop && a.Valid() && b.Valid() && a.rest == b.rest
    requires forall n: RegNum :: Needed(i, live, n) ==> a.regs[n] == b.regs[n]
    ensures Agree(Step(sem, i, a), Step(sem, i, b), live)
  {
    hide Gets, Overwrites;
    assert forall n: RegNum :: Gets(i, n) ==> Needed(i, live, n);
    SameInputs(i, a, b);
    var o := sem.run(i, InputsOf(i, a), a.rest);
    forall n: RegNum | n in live
      ensures WriteAll(sem, i.opcode, i.dsts, o, a.regs)[n] == WriteAll(sem, i.opcode, i.dsts, o, b.regs)[n]
    {
      OverwritesIs(i, n);
      WritesAgree(sem, i.opcode, i.dsts, o, a.regs, b.regs, n);
    }
  }

  lemma OverwritesIs(i: Instr, n: RegNum)
    ensures Overwrites(i, n) <==> exists k :: 0 <= k < |i.dsts| && IsDest(i.dsts[k], n) && Whole(i.dsts[k])
  {
  }

  lemma FaithfulIsSound(i: Instr, live: set<RegNum>, sem: Semantics, a: State, b: State)
    requires Faithful(i, live) && Agree(a, b, Before(i, live))
    ensures Agree(Step(sem, i, a), Step(sem, i, b), live)
  {
    hide Gets, Overwrites, BeforeDests;
    if !i.isNop {
      forall n: RegNum | Needed(i, live, n) ensures a.regs[n] == b.regs[n] {
        if !i.isCti { BeforeIs(i, live, n); }
      }
      NeededIsEnough(i, live, sem, a, b);
    }
  }

  // ----- necessity -----

  lemma {:induction false} KeepingWrites(sem: Semantics, op: Opcode, dsts: seq<Operand>, regs: seq<int>)
    requires |regs| == 16 && Conditional(op)
    ensures WriteAll(sem, op, dsts, Outcome([], 0), regs) == regs
    decreases |dsts|
  {
    if dsts != [] {
      KeepingWrites(sem, op, dsts[..|dsts| - 1], regs);
    }
  }

  /** Two states that differ in one register. */
  lemma Differing(n: RegNum) returns (a: State, b: State)
    ensures Agree(a, b, ALL - {n}) && a.regs[n] != b.regs[n] && b == a.(regs := a.regs[n := b.regs[n]])
  {
    a := State(seq(16, _ => 0), 0);
    b := a.(regs := a.regs[n := 1]);
  }

  lemma InputsDiffer(i: Instr, n: RegNum, a: State, b: State)
    requires a.Valid() && b.Valid() && Gets(i, n) && a.regs[n] != b.regs[n]
    requires b == a.(regs := a.regs[n := b.regs[n]])
    ensures InputsOf(i, a) != InputsOf(i, b)
  {
    var x, y := InputsOf(i, a), InputsOf(i, b);
    if k :| 0 <= k < |i.srcs| && SourceUses(i.srcs[k], n) {
      assert x.srcs[k] != y.srcs[k];
    } else if k :| 0 <= k < |i.dsts| && DestUses(i.dsts[k], n) {
      assert x.addresses[k] != y.addresses[k];
    } else if n in StringRegs(i.opcode) {
      var k :| 0 <= k < |StringRegs(i.opcode)| && StringRegs(i.opcode)[k] == n;
      assert x.strings[k] != y.strings[k];
    }
  }

  /** Results that change nothing. */
  lemma {:induction false} IdleAll(sem: Semantics, op: Opcode, dsts: seq<Operand>, o: Outcome, w: Write,
                                   regs: seq<int>, n: RegNum)
    requires |regs| == 16 && forall was, v, width :: sem.merge(was, v, width) == was
    requires |dsts| <= |o.writes| && forall k :: 0 <= k < |dsts| ==> o.writes[k] == w
    requires w == if Conditional(op) then Keep else Replace(0)
    requires Conditional(op) || forall k :: 0 <= k < |dsts| && IsDest(dsts[k], n) ==> !Whole(dsts[k])
    ensures WriteAll(sem, op, dsts, o, regs)[n] == regs[n]
    decreases |dsts|
  {
    if dsts != [] {
      var last := |dsts| - 1;
      forall k | 0 <= k < last && IsDest(dsts[..last][k], n) && !Conditional(op) ensures !Whole(dsts[..last][k]) {
        assert dsts[..last][k] == dsts[k];
      }
      IdleAll(sem, op, dsts[..last], o, w, regs, n);
    }
  }

  /** What is needed does make a difference. */
  lemma NeededMatters(i: Instr, live: set<RegNum>, n: RegNum)
    requires !i.isNop && Needed(i, live, n)
    ensures Matters(i, live, n)
  {
    hide Gets, Overwrites;
    var a, b := Differing(n);
    if Gets(i, n) {
      InputsDiffer(i, n, a, b);
      var seen := InputsOf(i, a);
      var sem := Semantics((_, inputs, _) => Outcome([], if inputs == seen then 0 else 1), (was, _, _) => was);
      assert Step(sem, i, a).rest == 0 && Step(sem, i, b).rest == 1;
      assert Matters(i, live, n);
    } else {
      OverwritesIs(i, n);
      var w := if Conditional(i.opcode) then Keep else Replace(0);
      var o := Outcome(seq(|i.dsts|, _ => w), 0);
      var sem := Semantics((_, _, _) => o, (was, _, _) => was);
      IdleAll(sem, i.opcode, i.dsts, o, w, a.regs, n);
      IdleAll(sem, i.opcode, i.dsts, o, w, b.regs, n);
      assert !Agree(Step(sem, i, a), Step(sem, i, b), live);
    }
  }

  /** Which registers make a difference. */
  lemma MattersExactly(i: Instr, live: set<RegNum>, n: RegNum)
    requires !i.isNop
    ensures Matters(i, live, n) <==> Needed(i, live, n)
  {
    hide Gets, Overwrites;
    if Needed(i, live, n) {
      NeededMatters(i, live, n);
    } else if Matters(i, live, n) {
      var sem: Semantics, a: State, b: State :|
        Agree(a, b, ALL - {n}) && !Agree(Step(sem, i, a), Step(sem, i, b), live);
      forall k: RegNum | Needed(i, live, k) ensures a.regs[k] == b.regs[k] {
        assert k in ALL - {n};
      }
      NeededIsEnough(i, live, sem, a, b);
    }
  }

  /** The analysis reports no register alive that makes no difference, but for the destinations
      of BSF and BSR. */
  lemma AnalysisIsPrecise(i: Instr, live: set<RegNum>, n: RegNum)
    requires !i.isNop && !i.isCti && n in Before(i, live)
    ensures Matters(i, live, n) || (IsBitScan(i.opcode) && exists k :: 0 <= k < |i.dsts| && IsDest(i.dsts[k], n))
  {
    hide Gets, Overwrites, BeforeDests, Matters;
    BeforeIs(i, live, n);
    MattersExactly(i, live, n);
  }

  /** An instruction that is not faithful is told apart. */
  lemma UnfaithfulIsUnsound(i: Instr, live: set<RegNum>)
    requires !Faithful(i, live)
    ensures !Sound(i, live)
  {
    hide Gets, Overwrites, BeforeDests;
    var n: RegNum :| n in live && Overwrites(i, n) && !Gets(i, n);
    BeforeIs(i, live, n);
    assert Needed(i, live, n);
    NeededMatters(i, live, n);
    var sem: Semantics, a: State, b: State :|
      Agree(a, b, ALL - {n}) && !Agree(Step(sem, i, a), Step(sem, i, b), live);
    forall k: RegNum | k in Before(i, live) ensures a.regs[k] == b.regs[k] {
      assert k in ALL - {n};
    }
    assert Agree(a, b, Before(i, live));
  }

  /** Visiting an instruction is sound exactly when the instruction is faithful. */
  lemma SoundExactly(i: Instr, live: set<RegNum>)
    ensures Sound(i, live) <==> Faithful(i, live)
  {
    if Faithful(i, live) {
      forall sem: Semantics, a: State, b: State | Agree(a, b, Before(i, live))
        ensures Agree(Step(sem, i, a), Step(sem, i, b), live)
      {
        FaithfulIsSound(i, live, sem, a, b);
      }
    } else {
      UnfaithfulIsUnsound(i, live);
    }
  }

  /** `rep lods` into `eax` is such an instruction: `rax` counts as dead before it. */
  lemma RepLodsIsUnsound()
    ensures var rsi, rcx := RegOperand(Gpr(RSI, W64)), RegOperand(Gpr(RCX, W64));
            var lods := Instr(RepLods, [BaseDisp(Gpr(RSI, W64), NoReg), rsi, rcx],
                              [RegOperand(Gpr(RAX, W32)), rsi, rcx], false, false);
            !Sound(lods, {RAX})
  {
    var rsi, rcx := RegOperand(Gpr(RSI, W64)), RegOperand(Gpr(RCX, W64));
    var eax := RegOperand(Gpr(RAX, W32));
    var lods := Instr(RepLods, [BaseDisp(Gpr(RSI, W64), NoReg), rsi, rcx], [eax, rsi, rcx], false, false);
    assert IsDest(lods.dsts[0], RAX) && Whole(lods.dsts[0]);
    assert Overwrites(lods, RAX) && !Gets(lods, RAX);
    SoundExactly(lods, {RAX});
  }

  /** So is `lar eax, cx`, and LSL and VMREAD with the same operands: the selector is the only
      source. */
  lemma LarIsUnsound(op: Opcode)
    requires op.Lar? || op.Lsl? || op.Vmread?
    ensures !Sound(Instr(op, [RegOperand(Gpr(RCX, W16))], [RegOperand(Gpr(RAX, W32))], false, false), {RAX})
  {
    var eax := RegOperand(Gpr(RAX, W32));
    var lar := Instr(op, [RegOperand(Gpr(RCX, W16))], [eax], false, false);
    assert IsDest(lar.dsts[0], RAX) && Whole(lar.dsts[0]);
    assert Overwrites(lar, RAX) && !Gets(lar, RAX);
    SoundExactly(lar, {RAX});
  }

  /** An instruction that reads what it may leave alone, as CMOVcc does, is no exception. */
  lemma ReadingIsFaithful(i: Instr, live: set<RegNum>)
    requires forall n: RegNum :: Overwrites(i, n) ==> Gets(i, n)
    ensures Sound(i, live)
  {
    SoundExactly(i, live);
  }

  /** Before an instruction that may go anywhere, agreement is enough for whatever is live there. */
  lemma BranchIsConservative(i: Instr, live: set<RegNum>, elsewhere: set<RegNum>, sem: Semantics, a: State, b: State)
    requires i.isCti && !i.isNop && Agree(a, b, Before(i, live))
    ensures Agree(Step(sem, i, a), Step(sem, i, b), elsewhere)
  {
    assert a.regs == b.regs;
  }

  // ----- whole lists -----

  /** Every instruction is faithful to what is live after it. */
  ghost predicate AllFaithful(ls: seq<Instr>, live: set<RegNum>) {
    ls != [] ==> Faithful(ls[0], BeforeAll(ls[1..], live)) && AllFaithful(ls[1..], live)
  }

  /** Main theorem: a list visited from its end. */
  lemma {:induction false} LivenessIsSound(sem: Semantics, ls: seq<Instr>, live: set<RegNum>, a: State, b: State)
    requires AllFaithful(ls, live) && Agree(a, b, BeforeAll(ls, live))
    ensures Agree(Steps(sem, ls, a), Steps(sem, ls, b), live)
    decreases |ls|
  {
    if ls != [] {
      FaithfulIsSound(ls[0], BeforeAll(ls[1..], live), sem, a, b);
      LivenessIsSound(sem, ls[1..], live, Step(sem, ls[0], a), Step(sem, ls[0], b));
    }
  }

  /** What the analysis is for: a register that is dead before a list may be given any value
      there. */
  lemma DeadIsFree(sem: Semantics, ls: seq<Instr>, live: set<RegNum>, s: State, n: RegNum, v: int)
    requires AllFaithful(ls, live) && s.Valid() && n !in BeforeAll(ls, live)
    ensures Agree(Steps(sem, ls, s), Steps(sem, ls, s.(regs := s.regs[n := v])), live)
  {
    LivenessIsSound(sem, ls, live, s, s.(regs := s.regs[n := v]));
  }
}
