/** The fragment of x86-64 that the emitted lookup and spill code is written in.

    Code addresses count instructions.  Words of the stack are addressed by integers, so
    that `rsp` is an integer; all other memory is only ever read by this code. */
module Machine {
  import opened Policy

  const RAX: nat := 0
  const RCX: nat := 1
  const RBX: nat := 3
  const RSP: nat := 4
  const RBP: nat := 5
  const RSI: nat := 6
  const RDI: nat := 7
  const NUM_REGS: nat := 16

  /** A general purpose register other than `rsp`. */
  type Reg = r: nat | r < NUM_REGS && r != RSP

  /** The registers that the System V AMD64 ABI makes a callee preserve. */
  const CALLEE_SAVED: set<Reg> := {RBX, RBP, 12, 13, 14, 15}

  /** The flags that LAHF and SAHF transfer; the overflow flag is not among them. */
  datatype Flags = Flags(sf: bool, zf: bool, af: bool, pf: bool, cf: bool)

  /** What a stack word holds: data, a saved `rsp`, or an image of all flags. */
  datatype Cell = Data(word: Word) | StackPointer(at: int) | FlagImage(flags: Flags, interrupts: bool, other: int) {
    function AsWord(): Word { if Data? then word else 0 }
  }

  /** A 128-bit register. */
  datatype Xmm = Xmm(low: Word, high: Word)

  const NUM_XMMS: nat := 16
  type XmmReg = r: nat | r < NUM_XMMS

  /** `interrupts` says whether they are enabled, and `other` stands for the further flags that
      LAHF leaves behind. */
  datatype State = State(
    regs: seq<Word>, xmms: seq<Xmm>, rsp: int, stack: map<int, Cell>, flags: Flags, interrupts: bool, other: int)
  {
    predicate Valid() { |regs| == NUM_REGS && |xmms| == NUM_XMMS }
    function Slot(at: int): Cell { if at in stack then stack[at] else Data(0) }
    function Peek(at: int): Word { Slot(at).AsWord() }
  }

  /** What the emitted lookup has no use for is the same. */
  predicate SameRest(a: State, b: State) { a.xmms == b.xmms && a.interrupts == b.interrupts }

  /** A memory operand `disp(base, index, scale)` that is not based on `rsp`. */
  datatype Ea = Ea(base: Reg, index: Reg, scale: Word, disp: Word)

  /** An instruction that falls through to the next one. */
  datatype Op =
    | Push(r: Reg) | Pop(r: Reg) | Xchg(r: Reg)
    | Mov(d: Reg, s: Reg) | MovImm(d: Reg, imm: Word)
    | LoadStack(d: Reg, offset: int) | LoadMem(d: Reg, ea: Ea) | LoadAbs(d: Reg, addr: Word)
    | LoadInd(d: Reg, base: Reg) | LeaIndexed(d: Reg, base: Reg, index: Reg)
    | Lahf | Sahf
    | BswapReg(r: Reg) | Or16(r: Reg, imm16: Bits) | And16(r: Reg, imm16: Bits)
    | Shl(r: Reg, count: nat) | Shr(r: Reg, count: nat)
    | Cmp(a: Reg, b: Reg)
    | Call
    | Pushf | Popf | Cli
    | PushRsp | PushTop | AlignRsp | LoadRsp(offset: int)
    | LeaRsp(disp: int)
    | StoreXmm(x: XmmReg, disp: int, aligned: bool) | LoadXmm(x: XmmReg, disp: int, aligned: bool)
    | Enter | Leave
    | Label

  datatype Instr =
    | Do(op: Op)
    | Jnz(to: int) | Jmp(to: int) | JmpMem(r: Reg) | JmpReg(r: Reg) | CallNear(to: int, ret: Word)

  /** A word that serves as an address. */
  datatype Address = At(word: Word)

  /** Everything around the running code.  `jumps` is the memory of the jump table and `data`
      all other memory; `flagsAfter` is whatever an instruction with irrelevant flag results
      leaves; `callee` is the foreign function that is called, `enter` and `leave` are the
      routines that switch stacks, and `faulted` is whatever follows a fault. */
  datatype World = World(
    code: map<int, Instr>,
    data: map<Address, Word>,
    jumps: map<Address, Word>,
    codeAt: map<Address, int>,
    flagsAfter: (Op, State) -> Flags,
    otherAfter: (Op, State) -> int,
    callee: State -> State,
    enter: State -> State,
    leave: State -> State,
    faulted: State -> State)
  {
    function Load(addr: Word): Word {
      if At(addr) in jumps then jumps[At(addr)] else if At(addr) in data then data[At(addr)] else 0
    }
    function Target(addr: Word): int { if At(addr) in codeAt then codeAt[At(addr)] else -1 }
  }

  // ----- flags in AH -----

  function Bit(b: bool, mask: Word): Word { if b then mask else 0 }

  function Pack(f: Flags): Word {
    Bit(f.sf, 0x80) | Bit(f.zf, 0x40) | Bit(f.af, 0x10) | Bit(f.pf, 0x04) | 0x02 | Bit(f.cf, 0x01)
  }

  /** LAHF */
  function WithAh(rax: Word, f: Flags): Word { (rax & 0xFFFF_FFFF_FFFF_00FF) | (Pack(f) << 8) }

  /** SAHF */
  function AhFlags(rax: Word): Flags {
    Flags(rax & 0x8000 != 0, rax & 0x4000 != 0, rax & 0x1000 != 0, rax & 0x0400 != 0, rax & 0x0100 != 0)
  }

  lemma FlagsSurvive(rax: Word, f: Flags)
    ensures AhFlags(WithAh(rax, f)) == f
  {
    var hi := rax & 0xFFFF_FFFF_FFFF_00FF;
    assert (hi | (Pack(f) << 8)) & 0x8000 == Bit(f.sf, 0x8000);
    assert (hi | (Pack(f) << 8)) & 0x4000 == Bit(f.zf, 0x4000);
    assert (hi | (Pack(f) << 8)) & 0x1000 == Bit(f.af, 0x1000);
    assert (hi | (Pack(f) << 8)) & 0x0400 == Bit(f.pf, 0x0400);
    assert (hi | (Pack(f) << 8)) & 0x0100 == Bit(f.cf, 0x0100);
  }

  // ----- execution -----

  function EffectiveAddress(ea: Ea, regs: seq<Word>): Word
    requires |regs| == NUM_REGS
  {
    regs[ea.base] + regs[ea.index] * ea.scale + ea.disp
  }

  function Scaled(base: Word, index: Word): Word { base + index * 8 }

  function Set(m: State, r: Reg, value: Word): (m': State)
    requires m.Valid()
    ensures m'.Valid()
  {
    m.(regs := m.regs[r := value])
  }

  function Pushed(m: State, cell: Cell): State { m.(rsp := m.rsp - 8, stack := m.stack[m.rsp - 8 := cell]) }

  /** One instruction that falls through. */
  function Effect(w: World, i: Op, m: State): (m': State)
    requires m.Valid()
    ensures m'.Valid()
  {
    match i
    case Push(r) => Pushed(m, Data(m.regs[r]))
    case Pop(r) => m.(rsp := m.rsp + 8, regs := m.regs[r := m.Peek(m.rsp)])
    case Xchg(r) => Set(m, r, m.Peek(m.rsp)).(stack := m.stack[m.rsp := Data(m.regs[r])])
    case Mov(d, s) => Set(m, d, m.regs[s])
    case MovImm(d, imm) => Set(m, d, imm)
    case LoadStack(d, offset) => Set(m, d, m.Peek(m.rsp + offset))
    case LoadMem(d, ea) => Set(m, d, w.Load(EffectiveAddress(ea, m.regs)))
    case LoadAbs(d, addr) => Set(m, d, w.Load(addr))
    case LoadInd(d, base) => Set(m, d, w.Load(m.regs[base]))
    case LeaIndexed(d, base, index) => Set(m, d, Scaled(m.regs[base], m.regs[index]))
    case Lahf => Set(m, RAX, WithAh(m.regs[RAX], m.flags))
    case Sahf => m.(flags := AhFlags(m.regs[RAX]))
    case BswapReg(r) => Set(m, r, Bswap(m.regs[r]))
    case Or16(r, imm) => Computed(w, i, m, r, Combine16(User, m.regs[r], imm))
    case And16(r, imm) => Computed(w, i, m, r, Combine16(Kernel, m.regs[r], imm))
    case Shl(r, count) => Computed(w, i, m, r, ShiftLeft(m.regs[r], count))
    case Shr(r, count) => Computed(w, i, m, r, ShiftRight(m.regs[r], count))
    case Cmp(a, b) => m.(flags := w.flagsAfter(i, m).(zf := m.regs[a] == m.regs[b]), other := w.otherAfter(i, m))
    case Call => OrElse(w.callee(m), m)
    case Enter => OrElse(w.enter(m), m)
    case Leave => OrElse(w.leave(m), m)
    case Pushf => Pushed(m, FlagImage(m.flags, m.interrupts, m.other))
    case Popf =>
      var image := m.Slot(m.rsp);
      if image.FlagImage? then
        m.(rsp := m.rsp + 8, flags := image.flags, interrupts := image.interrupts, other := image.other)
      else m.(rsp := m.rsp + 8, flags := w.flagsAfter(i, m), other := w.otherAfter(i, m))
    case Cli => m.(interrupts := false)
    case PushRsp => Pushed(m, StackPointer(m.rsp))
    case PushTop => Pushed(m, m.Slot(m.rsp))
    case AlignRsp => m.(rsp := m.rsp - m.rsp % 16, flags := w.flagsAfter(i, m), other := w.otherAfter(i, m))
    case LoadRsp(offset) =>
      var saved := m.Slot(m.rsp + offset);
      if saved.StackPointer? then m.(rsp := saved.at) else m
    case LeaRsp(disp) => m.(rsp := m.rsp + disp)
    case Label => m
    case StoreXmm(x, disp, aligned) =>
      var at := m.rsp + disp;
      if aligned && at % 16 != 0 then OrElse(w.faulted(m), m)
      else m.(stack := m.stack[at := Data(m.xmms[x].low)][at + 8 := Data(m.xmms[x].high)])
    case LoadXmm(x, disp, aligned) =>
      var at := m.rsp + disp;
      if aligned && at % 16 != 0 then OrElse(w.faulted(m), m)
      else m.(xmms := m.xmms[x := Xmm(m.Peek(at), m.Peek(at + 8))])
  }

  function OrElse(m': State, m: State): (r: State)
    requires m.Valid()
    ensures r.Valid() && (m'.Valid() ==> r == m')
  {
    if m'.Valid() then m' else m
  }

  /** A result in a register, and flags that nothing relies on. */
  function Computed(w: World, i: Op, m: State, r: Reg, value: Word): State
    requires m.Valid()
  {
    m.(regs := m.regs[r := value], flags := w.flagsAfter(i, m), other := w.otherAfter(i, m))
  }

  function ShiftLeft(x: Word, count: nat): Word { if count <= 63 then x << count else 0 }
  function ShiftRight(x: Word, count: nat): Word { if count <= 63 then x >> count else 0 }

  function Exec(w: World, ops: seq<Op>, m: State): (m': State)
    requires m.Valid()
    ensures m'.Valid()
  {
    if ops == [] then m else Exec(w, ops[1..], Effect(w, ops[0], m))
  }

  datatype Config = Config(pc: int, m: State)

  /** One step; where there is no code the machine stops. */
  function Step(w: World, c: Config): (c': Config)
    requires c.m.Valid()
    ensures c'.m.Valid()
  {
    if c.pc !in w.code then c
    else
      match w.code[c.pc]
      case Jnz(to) => c.(pc := if c.m.flags.zf then c.pc + 1 else to)
      case Jmp(to) => c.(pc := to)
      case JmpMem(r) => c.(pc := w.Target(w.Load(c.m.regs[r])))
      case JmpReg(r) => c.(pc := w.Target(c.m.regs[r]))
      case CallNear(to, ret) => Config(to, c.m.(rsp := c.m.rsp - 8, stack := c.m.stack[c.m.rsp - 8 := Data(ret)]))
      case Do(op) => Config(c.pc + 1, Effect(w, op, c.m))
  }

  // ----- runs -----

  /** The addresses that a load reads are not in the jump table. */
  predicate SteadyOp(w: World, i: Op, m: State)
    requires m.Valid()
  {
    match i
    case LoadMem(_, ea) => At(EffectiveAddress(ea, m.regs)) !in w.jumps
    case LoadAbs(_, addr) => At(addr) !in w.jumps
    case LoadInd(_, base) => At(m.regs[base]) !in w.jumps
    case Call => false
    case _ => true
  }

  /** A step that comes out the same when code is added and the jump table is written. */
  predicate Steady(w: World, c: Config)
    requires c.m.Valid()
  {
    && c.pc in w.code
    && match w.code[c.pc]
       case Do(op) => SteadyOp(w, op, c.m)
       case JmpMem(_) => false
       case JmpReg(r) => At(c.m.regs[r]) in w.codeAt
       case _ => true
  }

  /** `n` steady steps from `c` to `c'`. */
  ghost predicate Walks(w: World, c: Config, n: nat, c': Config)
    requires c.m.Valid()
    decreases n
  {
    if n == 0 then c == c' else Steady(w, c) && Walks(w, Step(w, c), n - 1, c')
  }

  /** `c` reaches `c'`. */
  ghost predicate Reaches(w: World, c: Config, c': Config)
    requires c.m.Valid()
  {
    exists n: nat :: Walks(w, c, n, c')
  }

  predicate Holds(w: World, pc: int, i: Instr) { pc in w.code && w.code[pc] == i }

  ghost predicate Located(w: World, at: int, code: seq<Instr>) {
    forall i :: 0 <= i < |code| ==> Holds(w, at + i, code[i])
  }

  ghost predicate LocatedOps(w: World, at: int, ops: seq<Op>) {
    forall i :: 0 <= i < |ops| ==> Holds(w, at + i, Do(ops[i]))
  }

  lemma LocatedOpsDrop(w: World, at: int, ops: seq<Op>, k: nat)
    requires LocatedOps(w, at, ops) && k <= |ops|
    ensures LocatedOps(w, at + k, ops[k..])
  {
    forall i | 0 <= i < |ops[k..]| ensures Holds(w, at + k + i, Do(ops[k..][i])) {
      assert Holds(w, at + (k + i), Do(ops[k + i]));
    }
  }

  lemma {:induction false} WalksAppend(w: World, a: Config, m: nat, b: Config, n: nat, c: Config)
    requires a.m.Valid() && b.m.Valid() && Walks(w, a, m, b) && Walks(w, b, n, c)
    ensures Walks(w, a, m + n, c)
    decreases m
  {
    hide Step, Steady;
    if m > 0 {
      WalksAppend(w, Step(w, a), m - 1, b, n, c);
    }
  }

  lemma ReachesTransitive(w: World, a: Config, b: Config, c: Config)
    requires a.m.Valid() && b.m.Valid() && Reaches(w, a, b) && Reaches(w, b, c)
    ensures Reaches(w, a, c)
  {
    var i: nat :| Walks(w, a, i, b);
    var j: nat :| Walks(w, b, j, c);
    WalksAppend(w, a, i, b, j, c);
  }

  lemma ReachesHere(w: World, c: Config)
    requires c.m.Valid()
    ensures Reaches(w, c, c)
  {
    assert Walks(w, c, 0, c);
  }

  lemma ReachesByStep(w: World, c: Config)
    requires c.m.Valid() && Steady(w, c)
    ensures Reaches(w, c, Step(w, c))
  {
    assert Walks(w, Step(w, c), 0, Step(w, c));
    assert Walks(w, c, 1, Step(w, c));
  }

  /** None of the instructions depends on the jump table. */
  predicate SteadyOps(w: World, ops: seq<Op>, m: State)
    requires m.Valid()
  {
    ops != [] ==> SteadyOp(w, ops[0], m) && SteadyOps(w, ops[1..], Effect(w, ops[0], m))
  }

  lemma {:induction false} SteadyAppend(w: World, a: seq<Op>, b: seq<Op>, m: State)
    requires m.Valid() && SteadyOps(w, a, m) && SteadyOps(w, b, Exec(w, a, m))
    ensures SteadyOps(w, a + b, m)
    decreases |a|
  {
    hide Effect, SteadyOp;
    if a == [] {
      assert a + b == b;
    } else {
      assert (a + b)[1..] == a[1..] + b;
      SteadyAppend(w, a[1..], b, Effect(w, a[0], m));
    }
  }

  predicate Loads(i: Op) { i.LoadMem? || i.LoadAbs? || i.LoadInd? || i.Call? }

  lemma {:induction false} NoLoadsIsSteady(w: World, ops: seq<Op>, m: State)
    requires m.Valid() && forall i :: 0 <= i < |ops| ==> !Loads(ops[i])
    ensures SteadyOps(w, ops, m)
    decreases |ops|
  {
    hide Effect;
    if ops != [] {
      NoLoadsIsSteady(w, ops[1..], Effect(w, ops[0], m));
    }
  }

  /** Straight-line code runs to its end. */
  lemma {:induction false} ReachesEnd(w: World, at: int, ops: seq<Op>, m: State)
    requires m.Valid() && LocatedOps(w, at, ops) && SteadyOps(w, ops, m)
    ensures Reaches(w, Config(at, m), Config(at + |ops|, Exec(w, ops, m)))
    decreases |ops|
  {
    hide Effect, SteadyOp;
    if ops == [] {
      ReachesHere(w, Config(at, m));
    } else {
      var next := Effect(w, ops[0], m);
      assert Holds(w, at + 0, Do(ops[0]));
      assert Step(w, Config(at, m)) == Config(at + 1, next);
      ReachesByStep(w, Config(at, m));
      LocatedOpsDrop(w, at, ops, 1);
      ReachesEnd(w, at + 1, ops[1..], next);
      ReachesTransitive(w, Config(at, m), Config(at + 1, next), Config(at + |ops|, Exec(w, ops, m)));
    }
  }

  // ----- a world that grows -----

  ghost predicate SameOracles(w: World, w': World) {
    && w'.flagsAfter == w.flagsAfter && w'.otherAfter == w.otherAfter
    && w'.callee == w.callee && w'.enter == w.enter && w'.leave == w.leave && w'.faulted == w.faulted
  }

  /** Code that is there stays there, and addresses of code stay addresses of it; no memory
      but the jump table changes. */
  ghost predicate Extends(w: World, w': World) {
    && (forall pc :: pc in w.code ==> pc in w'.code && w'.code[pc] == w.code[pc])
    && (forall a :: a in w.codeAt ==> a in w'.codeAt && w'.codeAt[a] == w.codeAt[a])
    && w'.data == w.data && w'.jumps.Keys == w.jumps.Keys && SameOracles(w, w')
  }

  lemma ExtendsTransitive(w: World, w': World, w'': World)
    requires Extends(w, w') && Extends(w', w'')
    ensures Extends(w, w'')
  {
  }

  lemma SteadyOpStays(w: World, w': World, i: Op, m: State)
    requires m.Valid() && SteadyOp(w, i, m) && w'.data == w.data && w'.jumps.Keys == w.jumps.Keys && SameOracles(w, w')
    ensures Effect(w', i, m) == Effect(w, i, m)
  {
    hide EffectiveAddress, Scaled, WithAh, AhFlags, Bswap, Combine16, ShiftLeft, ShiftRight, State.Slot;
  }

  /** A steady step is the same step in any later world. */
  lemma SteadyStays(w: World, w': World, c: Config)
    requires c.m.Valid() && Steady(w, c) && Extends(w, w')
    ensures Step(w', c) == Step(w, c)
  {
    hide Effect, SteadyOp;
    if w.code[c.pc].Do? {
      SteadyOpStays(w, w', w.code[c.pc].op, c.m);
    }
  }

  lemma {:induction false} ExecAppend(w: World, a: seq<Op>, b: seq<Op>, m: State)
    requires m.Valid()
    ensures Exec(w, a + b, m) == Exec(w, b, Exec(w, a, m))
  {
    hide Effect;
    if a == [] {
      assert a + b == b;
    } else {
      assert (a + b)[1..] == a[1..] + b;
      ExecAppend(w, a[1..], b, Effect(w, a[0], m));
    }
  }

  lemma Exec1(w: World, a: Op, m: State)
    requires m.Valid()
    ensures Exec(w, [a], m) == Effect(w, a, m)
  {
    hide Effect;
    assert [a][1..] == [];
  }

  lemma Exec2(w: World, a: Op, b: Op, m: State)
    requires m.Valid()
    ensures Exec(w, [a, b], m) == Effect(w, b, Effect(w, a, m))
  {
    hide Effect;
    assert [a, b][1..] == [b];
    Exec1(w, b, Effect(w, a, m));
  }

  lemma Exec3(w: World, a: Op, b: Op, c: Op, m: State)
    requires m.Valid()
    ensures Exec(w, [a, b, c], m) == Effect(w, c, Effect(w, b, Effect(w, a, m)))
  {
    hide Effect;
    assert [a, b, c][1..] == [b, c];
    Exec2(w, b, c, Effect(w, a, m));
  }

  lemma Exec4(w: World, a: Op, b: Op, c: Op, d: Op, m: State)
    requires m.Valid()
    ensures Exec(w, [a, b, c, d], m) == Effect(w, d, Effect(w, c, Effect(w, b, Effect(w, a, m))))
  {
    hide Effect;
    assert [a, b, c, d][1..] == [b, c, d];
    Exec3(w, b, c, d, Effect(w, a, m));
  }

  lemma Exec5(w: World, a: Op, b: Op, c: Op, d: Op, e: Op, m: State)
    requires m.Valid()
    ensures Exec(w, [a, b, c, d, e], m) == Effect(w, e, Effect(w, d, Effect(w, c, Effect(w, b, Effect(w, a, m)))))
  {
    hide Effect;
    assert [a, b, c, d, e][1..] == [b, c, d, e];
    Exec4(w, b, c, d, e, Effect(w, a, m));
  }
}
