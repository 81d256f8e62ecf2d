/** Indirect branch lookup: the code emitted for an indirect JMP, CALL or RET, the chains
    of exit routines behind the jump table, and the global lookup they end in. */
module Ibl {
  import opened Policy
  import opened Machine
  import opened Spill

  datatype Kind = JmpKind | CallKind | RetKind

  /** The target operand of the indirect CTI. */
  datatype Operand = RegOp(r: Reg) | StackOp(disp: int) | MemOp(ea: Ea) | AbsOp(addr: Word, far: bool)

  // ----- the emitted code -----

  /** Load the target into `rdi`; stack operands move with the pushes so far. */
  function LoadTarget(t: Operand, stackOffset: int): seq<Op> {
    match t
    case RegOp(r) => if r == RDI then [] else [Mov(RDI, r)]
    case StackOp(disp) => [LoadStack(RDI, disp + stackOffset)]
    case MemOp(ea) => [LoadMem(RDI, ea)]
    case AbsOp(addr, far) => if far then [MovImm(RDI, addr), LoadInd(RDI, RDI)] else [LoadAbs(RDI, addr)]
  }

  /** The head of `mangle_ibl_lookup`: spill `rdi` and load the target. */
  function HeadCode(kind: Kind, t: Operand): seq<Op> {
    match kind
    case JmpKind => [Push(RDI)] + LoadTarget(t, 8)
    case CallKind => [Push(RDI)] + LoadTarget(t, 16)
    case RetKind => [Xchg(RDI)]
  }

  const SAVE_CODE: seq<Op> := [Push(RAX), Push(RSI), Lahf, Push(RAX)]

  /** `ibl_lookup_stub` up to its jump: mangle the target, then find its table slot. */
  function MangleCode(mode: Mode, p: Bits): seq<Op> {
    [BswapReg(RDI), if mode.User? then Or16(RDI, Bswap16(p)) else And16(RDI, Bswap16(p)), BswapReg(RDI)]
  }

  function HashCode(table: Word, here: Word): seq<Op> {
    [MovImm(RSI, table), Mov(RAX, RDI), Shl(RAX, 48), Shr(RAX, 53), LeaIndexed(RAX, RSI, RAX), MovImm(RSI, here)]
  }

  function StubCode(kind: Kind, t: Operand, mode: Mode, p: Bits, table: Word, here: Word): seq<Op> {
    HeadCode(kind, t) + SAVE_CODE + MangleCode(mode, p) + HashCode(table, here)
  }

  /** The emitted code of one indirect CTI at `at`.  An indirect CALL jumps around the stub
      to a direct CALL of the stub. */
  ghost predicate EmittedAt(w: World, at: int, kind: Kind, stub: seq<Op>, ret: Word) {
    var start := if kind.CallKind? then at + 1 else at;
    && LocatedOps(w, start, stub) && Holds(w, start + |stub|, JmpMem(RAX))
    && (kind.CallKind? ==> Holds(w, at, Jmp(start + |stub| + 1)) && Holds(w, start + |stub| + 1, CallNear(start, ret)))
  }

  /** An exit routine: the code at `at` checks for `key` and leaves for `target`. */
  datatype Routine = Routine(at: int, key: Word, target: int)

  const RESTORE_CODE: seq<Op> := [Pop(RAX), Sahf, Pop(RSI), Pop(RAX)]

  /** The hit label of an exit routine: what `ibl_exit_routine` returns. */
  ghost predicate HitAt(w: World, at: int, target: int) {
    Holds(w, at, Do(Pop(RDI))) && Holds(w, at + 1, Jmp(target))
  }

  /** The code of `ibl_exit_routine`. */
  ghost predicate ExitAt(w: World, r: Routine, prev: int) {
    && LocatedOps(w, r.at, [MovImm(RAX, r.key), Cmp(RAX, RDI)])
    && Holds(w, r.at + 2, Jnz(r.at + 9))
    && LocatedOps(w, r.at + 3, RESTORE_CODE)
    && HitAt(w, r.at + 7, r.target)
    && Holds(w, r.at + 9, Jmp(prev))
  }

  // ----- what an uninstrumented transfer does -----

  /** The value of an operand, read when `rsp` has moved down by `offset`. */
  function OperandValue(w: World, t: Operand, m: State, offset: int): Word
    requires m.Valid()
  {
    match t
    case RegOp(r) => m.regs[r]
    case StackOp(disp) => m.Peek(m.rsp + disp + offset)
    case MemOp(ea) => w.Load(EffectiveAddress(ea, m.regs))
    case AbsOp(addr, _) => w.Load(addr)
  }

  /** The run-time target of the CTI. */
  function TargetOf(w: World, kind: Kind, t: Operand, m: State): Word
    requires m.Valid()
  {
    if kind.RetKind? then m.Peek(m.rsp) else OperandValue(w, t, m, 0)
  }

  /** The machine state after the transfer. */
  function Transferred(kind: Kind, ret: Word, m: State): State {
    match kind
    case JmpKind => m
    case CallKind => m.(rsp := m.rsp - 8, stack := m.stack[m.rsp - 8 := Data(ret)])
    case RetKind => m.(rsp := m.rsp + 8)
  }

  /** Equal but for dead words below `rsp`. */
  ghost predicate SameState(a: State, b: State) {
    && a.Valid() && b.Valid() && (forall r: Reg :: a.regs[r] == b.regs[r])
    && SameRest(a, b) && a.rsp == b.rsp && a.flags == b.flags && SameStack(a, b, b.rsp)
  }

  // ----- states inside the lookup -----

  /** `rdi`, `rax` and `rsi` are spilled below the `rsp` of the state `home` that the transfer
      is to leave, and `rdi` holds `key`. */
  ghost predicate Spilled(m: State, home: State, key: Word) {
    && m.Valid() && home.Valid() && m.rsp == home.rsp - 32 && m.regs[RDI] == key
    && m.Peek(home.rsp - 8) == home.regs[RDI]
    && m.Peek(home.rsp - 16) == home.regs[RAX]
    && m.Peek(home.rsp - 24) == home.regs[RSI]
    && m.xmms == home.xmms && SameStack(m, home, home.rsp)
    && forall r: Reg :: r !in {RAX, RSI, RDI} ==> m.regs[r] == home.regs[r]
  }

  /** The canonical stack of the lookup, with the flags below. */
  ghost predicate InLookup(m: State, home: State, key: Word) {
    Spilled(m, home, key) && m.interrupts == home.interrupts && AhFlags(m.Peek(home.rsp - 32)) == home.flags
  }

  /** At the hit label only `rdi` is still on the stack. */
  ghost predicate AtHit(m: State, home: State) {
    && m.Valid() && home.Valid() && m.rsp == home.rsp - 8 && m.flags == home.flags
    && m.Peek(home.rsp - 8) == home.regs[RDI]
    && SameRest(m, home) && SameStack(m, home, home.rsp)
    && forall r: Reg :: r != RDI ==> m.regs[r] == home.regs[r]
  }

  // ----- the stub -----

  /** With the target loaded, `rdi` is the one register out of place. */
  ghost predicate Loaded(m: State, home: State, target: Word) {
    && m.Valid() && home.Valid() && m.rsp == home.rsp - 8 && m.flags == home.flags
    && m.regs[RDI] == target && m.Peek(home.rsp - 8) == home.regs[RDI]
    && SameRest(m, home) && SameStack(m, home, home.rsp)
    && forall r: Reg :: r != RDI ==> m.regs[r] == home.regs[r]
  }

  lemma LahfEffect(w: World, m: State)
    requires m.Valid()
    ensures var m' := Effect(w, Lahf, m);
            && m'.rsp == m.rsp && SameRest(m', m) && m'.flags == m.flags && SameStack(m', m, m.rsp)
            && m'.regs == m.regs[RAX := WithAh(m.regs[RAX], m.flags)]
  {
    hide WithAh;
  }

  lemma SaveEffect(w: World, m: State, home: State, target: Word)
    requires Loaded(m, home, target)
    ensures InLookup(Exec(w, SAVE_CODE, m), home, target)
  {
    hide Effect, State.Slot, WithAh, AhFlags, Exec;
    Exec4(w, Push(RAX), Push(RSI), Lahf, Push(RAX), m);
    FlagsSurvive(m.regs[RAX], m.flags);
    PushEffect(w, RAX, m);
    var m1 := Effect(w, Push(RAX), m);
    PushEffect(w, RSI, m1);
    var m2 := Effect(w, Push(RSI), m1);
    LahfEffect(w, m2);
    var m3 := Effect(w, Lahf, m2);
    PushEffect(w, RAX, m3);
    var m4 := Effect(w, Push(RAX), m3);
    assert m2.Peek(m.rsp - 8) == m1.Peek(m.rsp - 8) == m.regs[RAX];
    assert m2.Peek(m.rsp) == m1.Peek(m.rsp) == m.Peek(m.rsp);
  }

  /** An instruction that leaves the stack and all registers but `rdi`, `rax` and `rsi` alone
      does not leave the lookup. */
  lemma StaysInLookup(m: State, m': State, home: State, key: Word, key': Word)
    requires InLookup(m, home, key) && m'.Valid() && m'.rsp == m.rsp && m'.stack == m.stack && SameRest(m', m)
    requires m'.regs[RDI] == key' && forall r: Reg :: r !in {RAX, RSI, RDI} ==> m'.regs[r] == m.regs[r]
    ensures InLookup(m', home, key')
  {
    hide AhFlags;
    assert forall at :: m'.Slot(at) == m.Slot(at);
  }

  lemma BswapEffect(w: World, m: State)
    requires m.Valid()
    ensures Effect(w, BswapReg(RDI), m) == m.(regs := m.regs[RDI := Bswap(m.regs[RDI])])
  {
  }

  lemma CombineEffect(w: World, mode: Mode, imm: Bits, m: State)
    requires m.Valid()
    ensures var m' := Effect(w, if mode.User? then Or16(RDI, imm) else And16(RDI, imm), m);
            && m'.regs == m.regs[RDI := Combine16(mode, m.regs[RDI], imm)]
            && m'.rsp == m.rsp && m'.stack == m.stack && SameRest(m', m)
  {
  }

  lemma MangleEffect(w: World, mode: Mode, p: Bits, m: State, home: State, target: Word)
    requires InLookup(m, home, target)
    ensures InLookup(Exec(w, MangleCode(mode, p), m), home, EmittedMangle(mode, target, p))
  {
    hide Bswap, Combine16, Bswap16, AhFlags, Effect, State.Slot, Exec, SameStack;
    var code := MangleCode(mode, p);
    Exec3(w, code[0], code[1], code[2], m);
    BswapEffect(w, m);
    var m1 := Effect(w, code[0], m);
    CombineEffect(w, mode, Bswap16(p), m1);
    var m2 := Effect(w, code[1], m1);
    BswapEffect(w, m2);
    StaysInLookup(m, Effect(w, code[2], m2), home, target, EmittedMangle(mode, target, p));
  }

  /** `m'` differs from `m` in flags and in the registers `ds` alone. */
  ghost predicate OnlyRegs(m: State, m': State, ds: set<Reg>) {
    && m.Valid() && m'.Valid() && m'.stack == m.stack && m'.rsp == m.rsp && SameRest(m', m)
    && forall r: Reg :: r !in ds ==> m'.regs[r] == m.regs[r]
  }

  lemma RegEffect(w: World, i: Op, d: Reg, m: State)
    requires m.Valid()
    requires match i {
               case MovImm(e, _) => e == d case Mov(e, _) => e == d case LeaIndexed(e, _, _) => e == d
               case Shl(e, _) => e == d case Shr(e, _) => e == d case LoadStack(e, _) => e == d
               case LoadMem(e, _) => e == d case LoadAbs(e, _) => e == d case LoadInd(e, _) => e == d
               case _ => false
             }
    ensures var m' := Effect(w, i, m);
            && OnlyRegs(m, m', {d}) && (!i.Shl? && !i.Shr? ==> m'.flags == m.flags)
            && m'.regs[d] == match i {
                 case MovImm(_, imm) => imm case Mov(_, s) => m.regs[s]
                 case LeaIndexed(_, base, index) => Scaled(m.regs[base], m.regs[index])
                 case Shl(_, n) => ShiftLeft(m.regs[d], n) case Shr(_, n) => ShiftRight(m.regs[d], n)
                 case LoadStack(_, offset) => m.Peek(m.rsp + offset)
                 case LoadMem(_, ea) => w.Load(EffectiveAddress(ea, m.regs)) case LoadAbs(_, addr) => w.Load(addr)
                 case LoadInd(_, base) => w.Load(m.regs[base])
                 case _ => m.regs[d]
               }
  {
    hide Scaled, ShiftLeft, ShiftRight, EffectiveAddress;
  }

  lemma IndexEffect(w: World, table: Word, m: State)
    requires m.Valid()
    ensures var m' := Exec(w, [MovImm(RSI, table), Mov(RAX, RDI), Shl(RAX, 48), Shr(RAX, 53)], m);
            && OnlyRegs(m, m', {RAX, RSI}) && m'.regs[RSI] == table
            && m'.regs[RAX] == ShiftRight(ShiftLeft(m.regs[RDI], 48), 53)
  {
    hide ShiftLeft, ShiftRight, Exec, Effect;
    var a, b, c, d := MovImm(RSI, table), Mov(RAX, RDI), Shl(RAX, 48), Shr(RAX, 53);
    Exec4(w, a, b, c, d, m);
    var m1 := Effect(w, a, m);
    var m2 := Effect(w, b, m1);
    var m3 := Effect(w, c, m2);
    RegEffect(w, a, RSI, m);
    RegEffect(w, b, RAX, m1);
    RegEffect(w, c, RAX, m2);
    RegEffect(w, d, RAX, m3);
  }

  lemma SlotEffect(w: World, here: Word, m: State)
    requires m.Valid()
    ensures var m' := Exec(w, [LeaIndexed(RAX, RSI, RAX), MovImm(RSI, here)], m);
            OnlyRegs(m, m', {RAX, RSI}) && m'.regs[RAX] == Scaled(m.regs[RSI], m.regs[RAX])
  {
    hide Scaled, Exec, Effect;
    Exec2(w, LeaIndexed(RAX, RSI, RAX), MovImm(RSI, here), m);
    RegEffect(w, LeaIndexed(RAX, RSI, RAX), RAX, m);
    RegEffect(w, MovImm(RSI, here), RSI, Effect(w, LeaIndexed(RAX, RSI, RAX), m));
  }

  lemma HashEffect(w: World, table: Word, here: Word, m: State, home: State, key: Word)
    requires InLookup(m, home, key)
    ensures var m' := Exec(w, HashCode(table, here), m);
            InLookup(m', home, key) && m'.regs[RAX] == Scaled(table, IblHash(key))
  {
    var first := [MovImm(RSI, table), Mov(RAX, RDI), Shl(RAX, 48), Shr(RAX, 53)];
    var second := [LeaIndexed(RAX, RSI, RAX), MovImm(RSI, here)];
    var m' := Exec(w, HashCode(table, here), m);
    assert OnlyRegs(m, m', {RAX, RSI}) && m'.regs[RAX] == Scaled(table, IblHash(key)) by {
      hide Scaled, IblHash, AhFlags, State.Slot, Exec, SameStack, Effect;
      assert HashCode(table, here) == first + second;
      ExecAppend(w, first, second, m);
      IndexEffect(w, table, m);
      SlotEffect(w, here, Exec(w, first, m));
      ShiftsHash(key);
    }
    hide Exec, Scaled, IblHash, AhFlags, State.Slot;
    StaysInLookup(m, m', home, key, key);
  }

  lemma ShiftsHash(key: Word)
    ensures ShiftRight(ShiftLeft(key, 48), 53) == IblHash(key)
  {
    assert ShiftLeft(key, 48) == key << 48;
    var x := key << 48;
    assert ShiftRight(x, 53) == x >> 53;
    hide IblHash, ShiftLeft, ShiftRight;
    EmittedHashAgrees(key);
  }

  /** Loading the target, whatever the operand. */
  lemma LoadTargetEffect(w: World, t: Operand, offset: int, m: State)
    requires m.Valid()
    ensures var m' := Exec(w, LoadTarget(t, offset), m);
            && OnlyRegs(m, m', {RDI}) && m'.flags == m.flags
            && m'.regs[RDI] == OperandValue(w, t, m, offset)
  {
    hide Effect, EffectiveAddress;
    var code := LoadTarget(t, offset);
    if |code| == 1 {
      Exec1(w, code[0], m);
      RegEffect(w, code[0], RDI, m);
    } else if |code| == 2 {
      Exec2(w, code[0], code[1], m);
      RegEffect(w, code[0], RDI, m);
      RegEffect(w, code[1], RDI, Effect(w, code[0], m));
    }
  }

  /** The state in which the stub starts: an indirect CALL has already pushed `ret`. */
  function AtStub(kind: Kind, ret: Word, m: State): State {
    if kind.RetKind? then m else Transferred(kind, ret, m)
  }

  /** A stack operand lies at or above `rsp`, as the emitted code assumes. */
  predicate OperandSafe(t: Operand) { t.StackOp? ==> t.disp >= 0 }

  /** A memory operand is not a slot of the jump table. */
  predicate OperandApart(w: World, t: Operand, m: State)
    requires m.Valid()
  {
    match t
    case MemOp(ea) => At(EffectiveAddress(ea, m.regs)) !in w.jumps
    case AbsOp(addr, _) => At(addr) !in w.jumps
    case _ => true
  }

  lemma XchgEffect(w: World, m: State)
    requires m.Valid()
    ensures var home := m.(rsp := m.rsp + 8);
            Loaded(Effect(w, Xchg(RDI), m), home, m.Peek(m.rsp))
  {
  }

  lemma HeadEffect(w: World, kind: Kind, t: Operand, ret: Word, m: State)
    requires m.Valid() && OperandSafe(t)
    ensures Loaded(Exec(w, HeadCode(kind, t), AtStub(kind, ret, m)), Transferred(kind, ret, m), TargetOf(w, kind, t, m))
  {
    hide Effect, Exec, OperandValue;
    var start := AtStub(kind, ret, m);
    if kind.RetKind? {
      Exec1(w, Xchg(RDI), m);
      XchgEffect(w, m);
    } else {
      var offset := if kind.JmpKind? then 8 else 16;
      PushEffect(w, RDI, start);
      var pushed := Effect(w, Push(RDI), start);
      ExecAppend(w, [Push(RDI)], LoadTarget(t, offset), start);
      Exec1(w, Push(RDI), start);
      LoadTargetEffect(w, t, offset, pushed);
      OperandMoves(w, t, kind, ret, m);
      LoadedAfterPush(start, pushed, Exec(w, LoadTarget(t, offset), pushed));
    }
  }

  lemma LoadedAfterPush(start: State, pushed: State, loaded: State)
    requires start.Valid() && pushed.regs == start.regs && pushed.flags == start.flags && SameRest(pushed, start)
    requires pushed.rsp == start.rsp - 8 && SameStack(pushed, start, start.rsp)
    requires pushed.Peek(pushed.rsp) == start.regs[RDI]
    requires OnlyRegs(pushed, loaded, {RDI}) && loaded.flags == pushed.flags
    ensures Loaded(loaded, start, loaded.regs[RDI])
  {
    assert forall at :: loaded.Slot(at) == pushed.Slot(at);
  }

  /** Reading the operand after the pushes gives what it gave before them. */
  lemma OperandMoves(w: World, t: Operand, kind: Kind, ret: Word, m: State)
    requires m.Valid() && OperandSafe(t) && !kind.RetKind?
    ensures var pushed := Effect(w, Push(RDI), AtStub(kind, ret, m));
            OperandValue(w, t, pushed, if kind.JmpKind? then 8 else 16) == OperandValue(w, t, m, 0)
  {
    var start := AtStub(kind, ret, m);
    assert start.regs == m.regs && start.rsp == m.rsp - (if kind.JmpKind? then 0 else 8);
    assert SameStack(start, m, m.rsp);
    hide AtStub, Effect, State.Slot;
    PushEffect(w, RDI, start);
    SameOperand(w, t, m, Effect(w, Push(RDI), start), if kind.JmpKind? then 8 else 16);
  }

  lemma SameOperand(w: World, t: Operand, m: State, m': State, offset: int)
    requires m.Valid() && m'.Valid() && OperandSafe(t) && m'.regs == m.regs && m'.rsp + offset == m.rsp
    requires SameStack(m', m, m.rsp)
    ensures OperandValue(w, t, m', offset) == OperandValue(w, t, m, 0)
  {
    hide EffectiveAddress, State.Slot;
  }

  /** The stub ends in the lookup with the mangled target in `rdi` and its slot in `rax`. */
  lemma StubEffect(w: World, kind: Kind, t: Operand, mode: Mode, p: Bits, table: Word, here: Word, ret: Word, m: State)
    requires m.Valid() && OperandSafe(t)
    ensures var m' := Exec(w, StubCode(kind, t, mode, p, table, here), AtStub(kind, ret, m));
            var key := EmittedMangle(mode, TargetOf(w, kind, t, m), p);
            InLookup(m', Transferred(kind, ret, m), key) && m'.regs[RAX] == Scaled(table, IblHash(key))
  {
    hide Effect, Exec, InLookup, Loaded, TargetOf, EmittedMangle, Scaled, IblHash;
    var start, home := AtStub(kind, ret, m), Transferred(kind, ret, m);
    var target := TargetOf(w, kind, t, m);
    var a, b, c, d := HeadCode(kind, t), SAVE_CODE, MangleCode(mode, p), HashCode(table, here);
    ExecAppend(w, a + b + c, d, start);
    ExecAppend(w, a + b, c, start);
    ExecAppend(w, a, b, start);
    HeadEffect(w, kind, t, ret, m);
    var m1 := Exec(w, a, start);
    SaveEffect(w, m1, home, target);
    var m2 := Exec(w, b, m1);
    MangleEffect(w, mode, p, m2, home, target);
    var m3 := Exec(w, c, m2);
    HashEffect(w, table, here, m3, home, EmittedMangle(mode, target, p));
  }

  lemma HeadIsSteady(w: World, kind: Kind, t: Operand, ret: Word, m: State)
    requires m.Valid() && OperandApart(w, t, m)
    ensures SteadyOps(w, HeadCode(kind, t), AtStub(kind, ret, m))
  {
    hide EffectiveAddress;
    var start := AtStub(kind, ret, m);
    if kind.RetKind? {
      NoLoadsIsSteady(w, HeadCode(kind, t), start);
    } else {
      var code := LoadTarget(t, if kind.JmpKind? then 8 else 16);
      var pushed := Effect(w, Push(RDI), start);
      assert pushed.regs == m.regs;
      LoadIsSteady(w, t, if kind.JmpKind? then 8 else 16, pushed);
      assert ([Push(RDI)] + code)[1..] == code;
    }
  }

  lemma LoadIsSteady(w: World, t: Operand, offset: int, m: State)
    requires m.Valid() && OperandApart(w, t, m)
    ensures SteadyOps(w, LoadTarget(t, offset), m)
  {
    hide EffectiveAddress;
    var code := LoadTarget(t, offset);
    if t.AbsOp? && t.far {
      var loaded := Effect(w, code[0], m);
      assert code[1..] == [LoadInd(RDI, RDI)] && code[1..][1..] == [];
      assert SteadyOps(w, code[1..][1..], Effect(w, code[1], loaded));
      assert SteadyOps(w, code[1..], loaded);
    } else if code != [] {
      assert code[1..] == [];
      assert SteadyOps(w, code[1..], Effect(w, code[0], m));
    }
  }

  /** The stub runs to its jump, also while the jump table is written. */
  lemma StubReaches(w: World, at: int, kind: Kind, t: Operand, mode: Mode, p: Bits, table: Word, here: Word, ret: Word,
                    m: State) returns (pc: int, m': State)
    requires m.Valid() && OperandSafe(t) && OperandApart(w, t, m)
    requires EmittedAt(w, at, kind, StubCode(kind, t, mode, p, table, here), ret)
    ensures Reaches(w, Config(at, m), Config(pc, m')) && Holds(w, pc, JmpMem(RAX))
    ensures var key := EmittedMangle(mode, TargetOf(w, kind, t, m), p);
            InLookup(m', Transferred(kind, ret, m), key) && m'.regs[RAX] == Scaled(table, IblHash(key))
  {
    hide TargetOf, EmittedMangle, InLookup, Exec, Effect, HeadCode, IblHash, Scaled, SteadyOps, Reaches, OperandApart;
    var start := AtStub(kind, ret, m);
    var stub := StubCode(kind, t, mode, p, table, here);
    StubEffect(w, kind, t, mode, p, table, here, ret, m);
    m' := Exec(w, stub, start);
    var from := if kind.CallKind? then at + 1 else at;
    pc := from + |stub|;
    var tail := SAVE_CODE + MangleCode(mode, p) + HashCode(table, here);
    assert stub == HeadCode(kind, t) + tail;
    HeadIsSteady(w, kind, t, ret, m);
    NoLoadsIsSteady(w, tail, Exec(w, HeadCode(kind, t), start));
    SteadyAppend(w, HeadCode(kind, t), tail, start);
    ReachesEnd(w, from, stub, start);
    if kind.CallKind? {
      assert Step(w, Config(at, m)) == Config(pc + 1, m);
      ReachesByStep(w, Config(at, m));
      assert Step(w, Config(pc + 1, m)) == Config(from, start);
      ReachesByStep(w, Config(pc + 1, m));
      ReachesTransitive(w, Config(at, m), Config(pc + 1, m), Config(from, start));
      ReachesTransitive(w, Config(at, m), Config(from, start), Config(pc, m'));
    }
  }

  // ----- exit routines -----

  lemma SahfEffect(w: World, m: State)
    requires m.Valid()
    ensures Effect(w, Sahf, m) == m.(flags := AhFlags(m.regs[RAX]))
  {
  }

  /** Popping what the stub pushed, up to `rdi`. */
  lemma RestoreEffect(w: World, m: State, home: State, key: Word)
    requires InLookup(m, home, key)
    ensures var m' := Exec(w, RESTORE_CODE, m);
            AtHit(m', home) && m'.regs[RDI] == key
  {
    hide Effect, Exec, AhFlags, State.Slot;
    Exec4(w, Pop(RAX), Sahf, Pop(RSI), Pop(RAX), m);
    PopEffect(w, RAX, m);
    var m1 := Effect(w, Pop(RAX), m);
    SahfEffect(w, m1);
    var m2 := Effect(w, Sahf, m1);
    assert SameStack(m2, m1, m1.rsp) by { SameStackIfSame(m2, m1); }
    PopEffect(w, RSI, m2);
    var m3 := Effect(w, Pop(RSI), m2);
    PopEffect(w, RAX, m3);
  }

  lemma SameStackIfSame(a: State, b: State)
    requires a.stack == b.stack
    ensures SameStack(a, b, b.rsp)
  {
  }

  /** Running from `c` gets to `target` in the state that the transfer is to leave. */
  ghost predicate Arrives(w: World, c: Config, target: int, home: State)
    requires c.m.Valid()
  {
    exists m' :: SameState(m', home) && Reaches(w, c, Config(target, m'))
  }

  lemma ArrivesVia(w: World, a: Config, b: Config, target: int, home: State)
    requires a.m.Valid() && b.m.Valid() && Reaches(w, a, b) && Arrives(w, b, target, home)
    ensures Arrives(w, a, target, home)
  {
    var m' :| SameState(m', home) && Reaches(w, b, Config(target, m'));
    ReachesTransitive(w, a, b, Config(target, m'));
  }

  /** From the hit label: restore `rdi` and leave. */
  lemma HitLeaves(w: World, at: int, target: int, m: State, home: State)
    requires HitAt(w, at, target) && AtHit(m, home)
    ensures Arrives(w, Config(at, m), target, home)
  {
    hide Effect, State.Slot;
    PopEffect(w, RDI, m);
    var m' := Effect(w, Pop(RDI), m);
    assert Step(w, Config(at, m)) == Config(at + 1, m');
    assert Step(w, Config(at + 1, m')) == Config(target, m');
    ReachesByStep(w, Config(at, m));
    ReachesByStep(w, Config(at + 1, m'));
    ReachesTransitive(w, Config(at, m), Config(at + 1, m'), Config(target, m'));
    assert SameState(m', home);
  }

  lemma CheckEffect(w: World, key': Word, m: State, home: State, key: Word)
    requires InLookup(m, home, key)
    ensures var m' := Exec(w, [MovImm(RAX, key'), Cmp(RAX, RDI)], m);
            InLookup(m', home, key) && (m'.flags.zf <==> key' == key)
  {
    hide AhFlags, Exec, State.Slot, SameStack, Effect;
    Exec2(w, MovImm(RAX, key'), Cmp(RAX, RDI), m);
    var m1 := Effect(w, MovImm(RAX, key'), m);
    RegEffect(w, MovImm(RAX, key'), RAX, m);
    CmpEffect(w, m1);
    StaysInLookup(m, Effect(w, Cmp(RAX, RDI), m1), home, key, key);
  }

  lemma CmpEffect(w: World, m: State)
    requires m.Valid()
    ensures var m' := Effect(w, Cmp(RAX, RDI), m);
            && m'.regs == m.regs && m'.stack == m.stack && m'.rsp == m.rsp && SameRest(m', m)
            && (m'.flags.zf <==> m.regs[RAX] == m.regs[RDI])
  {
  }

  lemma RoutineHits(w: World, r: Routine, prev: int, m: State, home: State)
    requires ExitAt(w, r, prev) && InLookup(m, home, r.key)
    ensures Arrives(w, Config(r.at, m), r.target, home)
  {
    hide Effect, Exec, InLookup, AtHit, Arrives, LocatedOps;
    assert m.Valid() by { InLookupIsValid(m, home, r.key); }
    var check := [MovImm(RAX, r.key), Cmp(RAX, RDI)];
    var m1 := Exec(w, check, m);
    CheckEffect(w, r.key, m, home, r.key);
    NoLoadsIsSteady(w, check, m);
    ReachesEnd(w, r.at, check, m);
    assert Step(w, Config(r.at + 2, m1)) == Config(r.at + 3, m1);
    ReachesByStep(w, Config(r.at + 2, m1));
    var m2 := Exec(w, RESTORE_CODE, m1);
    RestoreEffect(w, m1, home, r.key);
    NoLoadsIsSteady(w, RESTORE_CODE, m1);
    ReachesEnd(w, r.at + 3, RESTORE_CODE, m1);
    HitLeaves(w, r.at + 7, r.target, m2, home);
    ArrivesVia(w, Config(r.at + 3, m1), Config(r.at + 7, m2), r.target, home);
    ArrivesVia(w, Config(r.at + 2, m1), Config(r.at + 3, m1), r.target, home);
    ArrivesVia(w, Config(r.at, m), Config(r.at + 2, m1), r.target, home);
  }

  lemma InLookupIsValid(m: State, home: State, key: Word)
    requires InLookup(m, home, key)
    ensures m.Valid() && home.Valid() && m.regs[RDI] == key
  {
  }

  lemma RoutineMisses(w: World, r: Routine, prev: int, m: State, home: State, key: Word) returns (m': State)
    requires ExitAt(w, r, prev) && InLookup(m, home, key) && key != r.key
    ensures InLookup(m', home, key) && Reaches(w, Config(r.at, m), Config(prev, m'))
  {
    hide Effect, Exec, InLookup, LocatedOps;
    assert m.Valid() by { InLookupIsValid(m, home, key); }
    var check := [MovImm(RAX, r.key), Cmp(RAX, RDI)];
    m' := Exec(w, check, m);
    CheckEffect(w, r.key, m, home, key);
    NoLoadsIsSteady(w, check, m);
    ReachesEnd(w, r.at, check, m);
    assert Step(w, Config(r.at + 2, m')) == Config(r.at + 9, m');
    ReachesByStep(w, Config(r.at + 2, m'));
    assert Step(w, Config(r.at + 9, m')) == Config(prev, m');
    ReachesByStep(w, Config(r.at + 9, m'));
    ReachesTransitive(w, Config(r.at + 2, m'), Config(r.at + 9, m'), Config(prev, m'));
    ReachesTransitive(w, Config(r.at, m), Config(r.at + 2, m'), Config(prev, m'));
  }

  // ----- chains -----

  function First(chain: seq<Routine>, global: int): int {
    if chain == [] then global else chain[0].at
  }

  ghost predicate LinkAt(w: World, chain: seq<Routine>, i: nat, global: int)
    requires i < |chain|
  {
    ExitAt(w, chain[i], if i + 1 < |chain| then chain[i + 1].at else global)
  }

  /** Each routine misses into the next one, and the last one into the global lookup. */
  ghost predicate ChainAt(w: World, chain: seq<Routine>, global: int) {
    forall i :: 0 <= i < |chain| ==> LinkAt(w, chain, i, global)
  }

  lemma ChainTail(w: World, chain: seq<Routine>, global: int)
    requires chain != []
    ensures ChainAt(w, chain, global) <==>
            ExitAt(w, chain[0], First(chain[1..], global)) && ChainAt(w, chain[1..], global)
  {
    hide ExitAt;
    var rest := chain[1..];
    assert LinkAt(w, chain, 0, global) == ExitAt(w, chain[0], First(rest, global));
    assert forall i :: 0 <= i < |rest| ==> LinkAt(w, rest, i, global) == LinkAt(w, chain, i + 1, global);
    if ExitAt(w, chain[0], First(rest, global)) && ChainAt(w, rest, global) {
      forall i | 0 <= i < |chain| ensures LinkAt(w, chain, i, global) {
        assert i > 0 ==> LinkAt(w, rest, i - 1, global);
      }
    }
  }

  /** Each routine leaves for a target that is right for its key.  Routines of one key may
      have different targets, as when two CPUs translate the same code. */
  ghost predicate ChainCorrect(chain: seq<Routine>, right: (Word, int) -> bool) {
    forall i :: 0 <= i < |chain| ==> right(chain[i].key, chain[i].target)
  }

  ghost predicate HasKey(chain: seq<Routine>, key: Word) { exists i :: 0 <= i < |chain| && chain[i].key == key }

  /** A key that has a routine in the chain is served by the chain, without a call. */
  lemma {:induction false} ChainHits(w: World, right: (Word, int) -> bool, chain: seq<Routine>, global: int,
                                     m: State, home: State, key: Word) returns (target: int)
    requires InLookup(m, home, key) && ChainAt(w, chain, global) && ChainCorrect(chain, right) && HasKey(chain, key)
    ensures right(key, target) && m.Valid() && Arrives(w, Config(First(chain, global), m), target, home)
    decreases |chain|
  {
    hide InLookup, Arrives, ExitAt, ChainAt;
    InLookupIsValid(m, home, key);
    ChainTail(w, chain, global);
    if chain[0].key == key {
      target := chain[0].target;
      RoutineHits(w, chain[0], First(chain[1..], global), m, home);
    } else {
      var i :| 0 <= i < |chain| && chain[i].key == key;
      assert chain[1..][i - 1].key == key;
      var m' := RoutineMisses(w, chain[0], First(chain[1..], global), m, home, key);
      InLookupIsValid(m', home, key);
      target := ChainHits(w, right, chain[1..], global, m', home, key);
      ArrivesVia(w, Config(chain[0].at, m), Config(First(chain[1..], global), m'), target, home);
    }
  }

  /** A key that has none falls through the whole chain. */
  lemma {:induction false} ChainMisses(w: World, chain: seq<Routine>, global: int, m: State, home: State, key: Word)
      returns (m': State)
    requires InLookup(m, home, key) && ChainAt(w, chain, global) && !HasKey(chain, key)
    ensures m.Valid() && InLookup(m', home, key) && Reaches(w, Config(First(chain, global), m), Config(global, m'))
    decreases |chain|
  {
    hide InLookup, ExitAt, ChainAt, Reaches;
    InLookupIsValid(m, home, key);
    if chain == [] {
      m' := m;
      ReachesHere(w, Config(global, m));
    } else {
      ChainTail(w, chain, global);
      assert chain[0].key != key;
      var m1 := RoutineMisses(w, chain[0], First(chain[1..], global), m, home, key);
      InLookupIsValid(m1, home, key);
      m' := ChainMisses(w, chain[1..], global, m1, home, key);
      ReachesTransitive(w, Config(chain[0].at, m), Config(First(chain[1..], global), m1), Config(global, m'));
    }
  }

  // ----- the jump table -----

  type Buckets = map<Address, seq<Routine>>

  function Bucket(b: Buckets, h: Word): seq<Routine> { if At(h) in b then b[At(h)] else [] }

  /** Slot `h` of the jump table leads to the chain of bucket `h`. */
  ghost predicate SlotValid(w: World, table: Word, b: Buckets, global: int, right: (Word, int) -> bool, h: Word) {
    && At(Scaled(table, h)) in w.jumps && At(w.Load(Scaled(table, h))) in w.codeAt
    && w.Target(w.Load(Scaled(table, h))) == First(Bucket(b, h), global)
    && ChainAt(w, Bucket(b, h), global) && ChainCorrect(Bucket(b, h), right)
  }

  ghost predicate TableValid(w: World, table: Word, b: Buckets, global: int, right: (Word, int) -> bool) {
    forall h: Word :: h < NUM_IBL_JUMP_TABLE_ENTRIES ==> SlotValid(w, table, b, global, right, h)
  }

  lemma SlotOfKey(w: World, table: Word, b: Buckets, global: int, right: (Word, int) -> bool, key: Word)
    requires TableValid(w, table, b, global, right)
    ensures var chain := Bucket(b, IblHash(key)); ChainAt(w, chain, global) && ChainCorrect(chain, right)
    ensures w.Target(w.Load(Scaled(table, IblHash(key)))) == First(Bucket(b, IblHash(key)), global)
  {
    hide IblHash, Scaled;
    EmittedHashAgrees(key);
    assert SlotValid(w, table, b, global, right, IblHash(key));
  }

  // ----- adding exit routines -----

  /** `ibl_exit_routine`: new code that misses into what the slot of the key held, and a slot
      that now holds a pointer to the new code. */
  ghost predicate ExitAdded(w: World, w': World, table: Word, r: Routine, pointer: Word) {
    var slot := Scaled(table, IblHash(r.key));
    && Extends(w, w') && ExitAt(w', r, w.Target(w.Load(slot)))
    && w'.jumps == w.jumps[At(slot) := pointer]
    && At(pointer) !in w.codeAt && At(pointer) in w'.codeAt && w'.codeAt[At(pointer)] == r.at
  }

  /** The chain of the routine's slot gets one routine longer. */
  function Prepended(b: Buckets, r: Routine): Buckets {
    b[At(IblHash(r.key)) := [r] + Bucket(b, IblHash(r.key))]
  }

  lemma ScaledInjective(table: Word, a: Word, b: Word)
    requires a < 2048 && b < 2048 && Scaled(table, a) == Scaled(table, b)
    ensures a == b
  {
  }

  lemma SlotsDiffer(table: Word, a: Word, b: Word)
    requires a < NUM_IBL_JUMP_TABLE_ENTRIES && b < NUM_IBL_JUMP_TABLE_ENTRIES && a != b
    ensures Scaled(table, a) != Scaled(table, b)
  {
    hide Scaled;
    if Scaled(table, a) == Scaled(table, b) {
      ScaledInjective(table, a, b);
    }
  }

  lemma ExitStays(w: World, w': World, r: Routine, prev: int)
    requires Extends(w, w') && ExitAt(w, r, prev)
    ensures ExitAt(w', r, prev)
  {
  }

  lemma ChainStays(w: World, w': World, chain: seq<Routine>, global: int)
    requires Extends(w, w') && ChainAt(w, chain, global)
    ensures ChainAt(w', chain, global)
  {
    hide ExitAt, Extends;
    forall i | 0 <= i < |chain| ensures LinkAt(w', chain, i, global) {
      assert LinkAt(w, chain, i, global);
      ExitStays(w, w', chain[i], if i + 1 < |chain| then chain[i + 1].at else global);
    }
  }

  lemma ChainCorrectCons(r: Routine, chain: seq<Routine>, right: (Word, int) -> bool)
    requires right(r.key, r.target) && ChainCorrect(chain, right)
    ensures ChainCorrect([r] + chain, right)
  {
  }

  /** The slot of the new key. */
  lemma OwnSlotExtended(w: World, w': World, table: Word, b: Buckets, global: int, right: (Word, int) -> bool,
                        r: Routine, pointer: Word)
    requires SlotValid(w, table, b, global, right, IblHash(r.key)) && right(r.key, r.target)
    requires ExitAdded(w, w', table, r, pointer) && IblHash(r.key) < NUM_IBL_JUMP_TABLE_ENTRIES
    ensures SlotValid(w', table, Prepended(b, r), global, right, IblHash(r.key))
  {
    hide Scaled, IblHash, ExitAt, Extends, ChainCorrect, ChainAt;
    var k := IblHash(r.key);
    ChainStays(w, w', Bucket(b, k), global);
    var chain := [r] + Bucket(b, k);
    assert Bucket(Prepended(b, r), k) == chain && chain[1..] == Bucket(b, k);
    ChainCorrectCons(r, Bucket(b, k), right);
    assert w'.Target(w'.Load(Scaled(table, k))) == First(chain, global);
    ChainTail(w', chain, global);
  }

  lemma OtherSlotStays(w: World, w': World, table: Word, b: Buckets, global: int, right: (Word, int) -> bool,
                       r: Routine, pointer: Word, h: Word)
    requires SlotValid(w, table, b, global, right, h) && h != IblHash(r.key)
    requires ExitAdded(w, w', table, r, pointer)
    requires h < NUM_IBL_JUMP_TABLE_ENTRIES && IblHash(r.key) < NUM_IBL_JUMP_TABLE_ENTRIES
    ensures SlotValid(w', table, Prepended(b, r), global, right, h)
  {
    hide Scaled, IblHash, ExitAt, ChainCorrect, ChainAt;
    ChainStays(w, w', Bucket(b, h), global);
    SlotsDiffer(table, h, IblHash(r.key));
    assert Bucket(Prepended(b, r), h) == Bucket(b, h);
    assert w'.Load(Scaled(table, h)) == w.Load(Scaled(table, h));
  }

  /** A new exit routine keeps every slot valid, whatever routines its key has already. */
  lemma ExitKeepsTable(w: World, w': World, table: Word, b: Buckets, global: int, right: (Word, int) -> bool,
                       r: Routine, pointer: Word)
    requires TableValid(w, table, b, global, right) && right(r.key, r.target)
    requires ExitAdded(w, w', table, r, pointer)
    ensures TableValid(w', table, Prepended(b, r), global, right)
  {
    hide Scaled, IblHash, SlotValid, ExitAdded, Bucket, Prepended;
    EmittedHashAgrees(r.key);
    forall h: Word | h < NUM_IBL_JUMP_TABLE_ENTRIES
      ensures SlotValid(w', table, Prepended(b, r), global, right, h)
    {
      assert SlotValid(w, table, b, global, right, h);
      if h == IblHash(r.key) {
        OwnSlotExtended(w, w', table, b, global, right, r, pointer);
      } else {
        OtherSlotStays(w, w', table, b, global, right, r, pointer, h);
      }
    }
  }

  lemma SlotStays(w: World, w': World, table: Word, b: Buckets, global: int, right: (Word, int) -> bool, h: Word)
    requires SlotValid(w, table, b, global, right, h) && Extends(w, w') && w'.jumps == w.jumps
    ensures SlotValid(w', table, b, global, right, h)
  {
    hide Scaled, ExitAt, ChainCorrect, ChainAt;
    ChainStays(w, w', Bucket(b, h), global);
  }

  /** From `w` to `w'` the routines `added` are added one after the other, and any other code. */
  ghost predicate AddedAll(w: World, w': World, table: Word, added: seq<Routine>)
    decreases |added|
  {
    if added == [] then Extends(w, w') && w'.jumps == w.jumps
    else exists w1: World, pointer: Word ::
           ExitAdded(w, w1, table, added[0], pointer) && AddedAll(w1, w', table, added[1..])
  }

  function PrependedAll(b: Buckets, added: seq<Routine>): Buckets
    decreases |added|
  {
    if added == [] then b else PrependedAll(Prepended(b, added[0]), added[1..])
  }

  lemma {:induction false} AddedExtends(w: World, w': World, table: Word, added: seq<Routine>)
    requires AddedAll(w, w', table, added)
    ensures Extends(w, w')
    decreases |added|
  {
    hide Extends;
    if added != [] {
      var w1: World, pointer: Word :|
        ExitAdded(w, w1, table, added[0], pointer) && AddedAll(w1, w', table, added[1..]);
      AddedExtends(w1, w', table, added[1..]);
      ExtendsTransitive(w, w1, w');
    }
  }

  /** Any number of new routines keep the table valid. */
  lemma {:induction false} AddedKeepTable(w: World, w': World, table: Word, b: Buckets, global: int,
                                          right: (Word, int) -> bool, added: seq<Routine>)
    requires TableValid(w, table, b, global, right) && ChainCorrect(added, right) && AddedAll(w, w', table, added)
    ensures TableValid(w', table, PrependedAll(b, added), global, right)
    decreases |added|
  {
    hide Extends, ExitAdded, SlotValid, Prepended;
    if added == [] {
      forall h: Word | h < NUM_IBL_JUMP_TABLE_ENTRIES ensures SlotValid(w', table, b, global, right, h) {
        assert SlotValid(w, table, b, global, right, h);
        SlotStays(w, w', table, b, global, right, h);
      }
    } else {
      var w1: World, pointer: Word :|
        ExitAdded(w, w1, table, added[0], pointer) && AddedAll(w1, w', table, added[1..]);
      ExitKeepsTable(w, w1, table, b, global, right, added[0], pointer);
      AddedKeepTable(w1, w', table, Prepended(b, added[0]), global, right, added[1..]);
    }
  }

  /** A key that has a routine keeps it, and a key with a routine among the new ones gets it. */
  lemma {:induction false} PrependedHas(b: Buckets, added: seq<Routine>, key: Word)
    requires HasKey(Bucket(b, IblHash(key)), key) || HasKey(added, key)
    ensures HasKey(Bucket(PrependedAll(b, added), IblHash(key)), key)
    decreases |added|
  {
    hide IblHash;
    if added != [] {
      if HasKey(Bucket(b, IblHash(key)), key) || added[0].key == key {
        PrependedOne(b, added[0], key);
      } else {
        var i :| 0 <= i < |added| && added[i].key == key;
        assert added[1..][i - 1].key == key;
      }
      PrependedHas(Prepended(b, added[0]), added[1..], key);
    }
  }

  lemma PrependedOne(b: Buckets, r: Routine, key: Word)
    requires HasKey(Bucket(b, IblHash(key)), key) || r.key == key
    ensures HasKey(Bucket(Prepended(b, r), IblHash(key)), key)
  {
    hide IblHash;
    var chain := Bucket(b, IblHash(key));
    if r.key == key {
      assert Bucket(Prepended(b, r), IblHash(key))[0].key == key;
    } else {
      var i :| 0 <= i < |chain| && chain[i].key == key;
      if IblHash(r.key) == IblHash(key) {
        assert ([r] + chain)[i + 1].key == key;
      }
    }
  }
}
