/** Switching to the private stack of a CPU and back: `granary_enter_private_stack` and
    `granary_exit_private_stack`. */
module PrivateStack {
  import opened Policy
  import opened Machine
  import opened Spill

  const PRIVATE_STACK_SIZE: int := 24576
  const WINDOW: int := 65536

  /** The upper 48 bits of two addresses are the same. */
  predicate SameWindow(a: int, b: int) { a / WINDOW == b / WINDOW }

  /** This is what the XOR and the shift of the source compare. */
  lemma XorComparesWindows(a: Word, b: Word)
    ensures (a ^ b) >> 16 == 0 <==> a >> 16 == b >> 16
  {
  }

  /** A word of the private stack that ends at `top`. */
  predicate OnPrivate(top: int, at: int) { top - PRIVATE_STACK_SIZE <= at < top }

  // ----- what the two routines do -----

  /** Where the frame of the routine ends: it stays on the stack it is on if this looks like
      the private one. */
  function FrameEnd(top: int, rsp: int): int { if SameWindow(rsp - 16, top) then rsp else top }

  /** A call from `m` that returns with `m'` has switched to the private stack, or stayed on
      it, and left two copies of the old `rsp` there. */
  ghost predicate Entered(top: int, m: State, m': State)
    requires m.Valid()
  {
    var end := FrameEnd(top, m.rsp);
    && m'.Valid() && SameRest(m', m) && m'.rsp == end - 16
    && (forall r: Reg :: r in CALLEE_SAVED + {RDI, RSI} ==> m'.regs[r] == m.regs[r])
    && m'.Slot(end - 16) == StackPointer(m.rsp) && m'.Slot(end - 8) == StackPointer(m.rsp)
    && forall at :: at >= m.rsp && at != end - 16 && at != end - 8 ==> m'.Slot(at) == m.Slot(at)
  }

  /** A call from `m` that returns with `m'` has gone back to the saved `rsp`. */
  ghost predicate Left(m: State, m': State)
    requires m.Valid()
  {
    && m'.Valid() && SameRest(m', m) && (forall r: Reg :: r != RAX ==> m'.regs[r] == m.regs[r])
    && (m.Slot(m.rsp).StackPointer? ==> m'.rsp == m.Slot(m.rsp).at)
    && forall at :: at != m.rsp - 8 ==> m'.Slot(at) == m.Slot(at)
  }

  // ----- the assembly code -----

  /** The machine with `rax` apart, because it holds stack and code addresses here. */
  datatype Asm = Asm(m: State, rax: Cell, zf: bool) {
    predicate Valid() { m.Valid() }
  }

  datatype AsmOp =
    | PushReg(r: Reg) | PopReg(r: Reg)
    | GetTop                      // call of `granary_get_private_stack_top`
    | PushRax | PopRax
    | Compare                     // XOR with `rsp`, shifted right by 16
    | XchgRsp | LeaRax(disp: int)
    | PushSp | PushCopy | PopSp

  function AsmEffect(getTop: Asm -> Asm, i: AsmOp, s: Asm): (s': Asm)
    requires s.Valid()
    ensures s'.Valid()
  {
    var m := s.m;
    match i
    case PushReg(r) => s.(m := Pushed(m, Data(m.regs[r])))
    case PopReg(r) => s.(m := m.(rsp := m.rsp + 8, regs := m.regs[r := m.Peek(m.rsp)]))
    case GetTop => var s' := getTop(s); if s'.Valid() then s' else s
    case PushRax => s.(m := Pushed(m, s.rax))
    case PopRax => s.(m := m.(rsp := m.rsp + 8), rax := m.Slot(m.rsp))
    case Compare => s.(zf := s.rax.StackPointer? && SameWindow(m.rsp, s.rax.at), rax := Data(0))
    case XchgRsp => if s.rax.StackPointer? then s.(m := m.(rsp := s.rax.at), rax := StackPointer(m.rsp)) else s
    case LeaRax(disp) => if s.rax.StackPointer? then s.(rax := StackPointer(s.rax.at + disp)) else s
    case PushSp => s.(m := Pushed(m, StackPointer(m.rsp)))
    case PushCopy => s.(m := Pushed(m, m.Slot(m.rsp)))
    case PopSp =>
      var top := m.Slot(m.rsp);
      s.(m := m.(rsp := if top.StackPointer? then top.at else m.rsp + 8))
  }

  /** The top of the private stack, in `rax`. */
  function FindTop(getTop: Asm -> Asm, s: Asm): (s': Asm)
    requires s.Valid()
    ensures s'.Valid()
  {
    var s1 := AsmEffect(getTop, PushReg(RDI), s);
    var s2 := AsmEffect(getTop, PushReg(RSI), s1);
    var s3 := AsmEffect(getTop, GetTop, s2);
    var s4 := AsmEffect(getTop, PopReg(RSI), s3);
    AsmEffect(getTop, PopReg(RDI), s4)
  }

  /** ... and whether this is the stack in use, in the zero flag. */
  function Compared(getTop: Asm -> Asm, s: Asm): (s': Asm)
    requires s.Valid()
    ensures s'.Valid()
  {
    AsmEffect(getTop, PopRax, AsmEffect(getTop, Compare, AsmEffect(getTop, PushRax, s)))
  }

  /** The two ways out, each with the return address that it jumps to. */
  function Switched(getTop: Asm -> Asm, s: Asm): (Asm, Cell)
    requires s.Valid()
  {
    var s1 := AsmEffect(getTop, XchgRsp, s);
    var s2 := AsmEffect(getTop, LeaRax(8), s1);
    var s3 := AsmEffect(getTop, PushRax, AsmEffect(getTop, PushRax, s2));
    (s3, if s3.rax.StackPointer? then s3.m.Slot(s3.rax.at - 8) else Data(0))
  }

  function Stayed(getTop: Asm -> Asm, s: Asm): (Asm, Cell)
    requires s.Valid()
  {
    var s1 := AsmEffect(getTop, PopRax, s);
    (AsmEffect(getTop, PushCopy, AsmEffect(getTop, PushSp, s1)), s1.rax)
  }

  /** `granary_enter_private_stack` */
  function EnterRoutine(getTop: Asm -> Asm, s: Asm): (Asm, Cell)
    requires s.Valid()
  {
    var s1 := Compared(getTop, FindTop(getTop, s));
    if s1.zf then Stayed(getTop, s1) else Switched(getTop, s1)
  }

  /** `granary_exit_private_stack` */
  function ExitRoutine(getTop: Asm -> Asm, s: Asm): (Asm, Cell)
    requires s.Valid()
  {
    var s1 := AsmEffect(getTop, PopRax, s);
    (AsmEffect(getTop, PopSp, s1), s1.rax)
  }

  // ----- the assembly code does what it should -----

  /** `granary_get_private_stack_top` respects the ABI. */
  ghost predicate TopValid(getTop: Asm -> Asm, top: int) {
    forall s: Asm {:trigger getTop(s)} :: s.Valid() ==>
      getTop(s).rax == StackPointer(top) && getTop(s).Valid() && Preserved(s.m, getTop(s).m, CALLEE_SAVED)
  }

  /** `rsp`, the stack at or above it and the registers `rs` are the same. */
  ghost predicate Preserved(m: State, m': State, rs: set<Reg>)
    requires m.Valid() && m'.Valid()
  {
    && m'.rsp == m.rsp && SameRest(m', m) && SameStack(m', m, m.rsp)
    && forall r: Reg :: r in rs ==> m'.regs[r] == m.regs[r]
  }

  lemma PushedSlots(m: State, cell: Cell)
    ensures var m' := Pushed(m, cell);
            m'.Slot(m.rsp - 8) == cell && forall at :: at != m.rsp - 8 ==> m'.Slot(at) == m.Slot(at)
  {
  }

  lemma SameSlots(a: State, b: State)
    requires a.stack == b.stack
    ensures forall at :: a.Slot(at) == b.Slot(at)
  {
  }

  lemma FindTopEffect(getTop: Asm -> Asm, top: int, s: Asm)
    requires s.Valid() && TopValid(getTop, top)
    ensures var s' := FindTop(getTop, s);
            s'.rax == StackPointer(top) && Preserved(s.m, s'.m, CALLEE_SAVED + {RDI, RSI})
  {
    hide State.Slot;
    var rsp := s.m.rsp;
    var s1 := AsmEffect(getTop, PushReg(RDI), s);
    PushedSlots(s.m, Data(s.m.regs[RDI]));
    var s2 := AsmEffect(getTop, PushReg(RSI), s1);
    PushedSlots(s1.m, Data(s1.m.regs[RSI]));
    var s3 := AsmEffect(getTop, GetTop, s2);
    assert s3 == getTop(s2);
    var s4 := AsmEffect(getTop, PopReg(RSI), s3);
    var s5 := AsmEffect(getTop, PopReg(RDI), s4);
    SameSlots(s4.m, s3.m);
    SameSlots(s5.m, s3.m);
    assert s3.m.Slot(rsp - 16) == s2.m.Slot(rsp - 16) == Data(s.m.regs[RSI]);
    assert s3.m.Slot(rsp - 8) == s2.m.Slot(rsp - 8) == s1.m.Slot(rsp - 8) == Data(s.m.regs[RDI]);
    FindTopStack(s.m, s1.m, s2.m, s3.m, s5.m);
  }

  lemma FindTopStack(m: State, m1: State, m2: State, m3: State, m': State)
    requires m2.rsp == m.rsp - 16 && SameStack(m3, m2, m2.rsp)
    requires forall at :: at != m.rsp - 8 ==> m1.Slot(at) == m.Slot(at)
    requires forall at :: at != m.rsp - 16 ==> m2.Slot(at) == m1.Slot(at)
    requires forall at :: m'.Slot(at) == m3.Slot(at)
    ensures SameStack(m', m, m.rsp)
  {
    hide State.Slot;
  }

  /** The comparison is made with the word below the return address. */
  lemma ComparedEffect(getTop: Asm -> Asm, top: int, s: Asm)
    requires s.Valid() && s.rax == StackPointer(top)
    ensures var s' := Compared(getTop, s);
            && s'.rax == s.rax && (s'.zf <==> SameWindow(s.m.rsp - 8, top))
            && Preserved(s.m, s'.m, CALLEE_SAVED + {RDI, RSI})
  {
    hide SameWindow;
  }

  /** Called from `m`, with the return address `ret` pushed. */
  function Calling(m: State, ret: Word, rax: Cell, zf: bool): Asm { Asm(Pushed(m, Data(ret)), rax, zf) }

  /** If the routine switches, the return address is not in the two words that it writes. */
  predicate ReturnApart(top: int, rsp: int) { SameWindow(rsp - 16, top) || (rsp != top && rsp != top - 8) }

  lemma CalledSlots(m: State, ret: Word, s: State)
    requires SameStack(s, Pushed(m, Data(ret)), m.rsp - 8)
    ensures s.Slot(m.rsp - 8) == Data(ret) && SameStack(s, m, m.rsp)
  {
    hide State.Slot;
    PushedSlots(m, Data(ret));
  }

  lemma StayedEffect(getTop: Asm -> Asm, top: int, m: State, ret: Word, s: Asm)
    requires m.Valid() && s.Valid() && SameWindow(m.rsp - 16, top)
    requires Preserved(Pushed(m, Data(ret)), s.m, CALLEE_SAVED + {RDI, RSI})
    ensures var (s', to) := Stayed(getTop, s); to == Data(ret) && Entered(top, m, s'.m)
  {
    hide SameWindow, State.Slot;
    CalledSlots(m, ret, s.m);
    var s1 := AsmEffect(getTop, PopRax, s);
    SameSlots(s1.m, s.m);
    PushedSlots(s1.m, StackPointer(m.rsp));
    var m2 := Pushed(s1.m, StackPointer(m.rsp));
    PushedSlots(m2, m2.Slot(m2.rsp));
  }

  lemma SwitchedEffect(getTop: Asm -> Asm, top: int, m: State, ret: Word, s: Asm)
    requires m.Valid() && s.Valid() && !SameWindow(m.rsp - 16, top) && s.rax == StackPointer(top)
    requires Preserved(Pushed(m, Data(ret)), s.m, CALLEE_SAVED + {RDI, RSI})
    ensures var (s', to) := Switched(getTop, s);
            Entered(top, m, s'.m) && to == if ReturnApart(top, m.rsp) then Data(ret) else StackPointer(m.rsp)
  {
    hide SameWindow, State.Slot, Entered, AsmEffect;
    CalledSlots(m, ret, s.m);
    StackSwaps(getTop, s, top);
    var s2 := AsmEffect(getTop, LeaRax(8), AsmEffect(getTop, XchgRsp, s));
    SameSlots(s2.m, s.m);
    PushRaxIs(getTop, s2);
    var s3 := AsmEffect(getTop, PushRax, s2);
    PushRaxIs(getTop, s3);
    PushedSlots(s2.m, s2.rax);
    PushedSlots(s3.m, s3.rax);
    SwitchedIs(top, m, s.m, AsmEffect(getTop, PushRax, s3).m);
  }

  lemma StackSwaps(getTop: Asm -> Asm, s: Asm, top: int)
    requires s.Valid() && s.rax == StackPointer(top)
    ensures AsmEffect(getTop, LeaRax(8), AsmEffect(getTop, XchgRsp, s)) ==
            s.(m := s.m.(rsp := top), rax := StackPointer(s.m.rsp + 8))
  {
  }

  lemma PushRaxIs(getTop: Asm -> Asm, s: Asm)
    requires s.Valid()
    ensures AsmEffect(getTop, PushRax, s) == s.(m := Pushed(s.m, s.rax))
  {
  }

  lemma SwitchedIs(top: int, m: State, called: State, m': State)
    requires m.Valid() && called.Valid() && m'.Valid() && !SameWindow(m.rsp - 16, top) && SameStack(called, m, m.rsp)
    requires SameRest(called, m) && SameRest(m', called) && m'.regs == called.regs && m'.rsp == top - 16
    requires forall r: Reg :: r in CALLEE_SAVED + {RDI, RSI} ==> called.regs[r] == m.regs[r]
    requires m'.Slot(top - 16) == m'.Slot(top - 8) == StackPointer(m.rsp)
    requires forall at :: at != top - 16 && at != top - 8 ==> m'.Slot(at) == called.Slot(at)
    ensures Entered(top, m, m')
  {
    hide SameWindow, State.Slot;
  }

  /** The assembly code of the entry does what `Entered` says, and returns to its caller
      exactly when its frame does not lie over the return address. */
  lemma EnterMeets(getTop: Asm -> Asm, top: int, m: State, ret: Word, rax: Cell, zf: bool)
    requires m.Valid() && TopValid(getTop, top)
    ensures var (s', to) := EnterRoutine(getTop, Calling(m, ret, rax, zf));
            Entered(top, m, s'.m) && (to == Data(ret) <==> ReturnApart(top, m.rsp))
  {
    hide SameWindow, Entered, FindTop, Compared, Stayed, Switched, State.Slot, SameStack, ReturnApart;
    var s := Calling(m, ret, rax, zf);
    FindTopEffect(getTop, top, s);
    var s1 := FindTop(getTop, s);
    ComparedEffect(getTop, top, s1);
    var s2 := Compared(getTop, s1);
    PreservedTransitive(s.m, s1.m, s2.m, CALLEE_SAVED + {RDI, RSI});
    if s2.zf {
      StayedEffect(getTop, top, m, ret, s2);
      assert ReturnApart(top, m.rsp) by { StayingIsApart(top, m.rsp); }
    } else {
      SwitchedEffect(getTop, top, m, ret, s2);
    }
  }

  lemma StayingIsApart(top: int, rsp: int)
    requires SameWindow(rsp - 16, top)
    ensures ReturnApart(top, rsp)
  {
  }

  lemma PreservedTransitive(a: State, b: State, c: State, rs: set<Reg>)
    requires a.Valid() && b.Valid() && c.Valid() && Preserved(a, b, rs) && Preserved(b, c, rs)
    ensures Preserved(a, c, rs)
  {
    hide State.Slot;
  }

  lemma ExitMeets(getTop: Asm -> Asm, m: State, ret: Word, rax: Cell, zf: bool)
    requires m.Valid()
    ensures var (s', to) := ExitRoutine(getTop, Calling(m, ret, rax, zf)); Left(m, s'.m) && to == Data(ret)
  {
  }

  // ----- round trip -----

  /** What runs in between leaves the words from its `rsp` up alone, and on the private stack
      it writes nowhere else. */
  ghost predicate StaysBelow(top: int, m: State, m': State) {
    && m'.rsp == m.rsp && SameStack(m', m, m.rsp)
    && (OnPrivate(top, m.rsp) ==> forall at :: at < top - PRIVATE_STACK_SIZE ==> m'.Slot(at) == m.Slot(at))
  }

  /** The stack in use, from `rsp` up to `home`, is not the private one, unless the routine
      finds that it is. */
  predicate StackApart(top: int, rsp: int, home: int) {
    SameWindow(rsp - 16, top) || rsp > top || home <= top - PRIVATE_STACK_SIZE
  }

  /** Entering, a call, and leaving: `m3` is back on the stack of `m`. */
  ghost predicate RoundTrip(top: int, m: State, m1: State, m2: State, m3: State) {
    m.Valid() && m2.Valid() && Entered(top, m, m1) && StaysBelow(top, m1, m2) && Left(m2, m3)
  }

  /** The words below `home` are back, and all others that are not on the private stack. */
  ghost predicate WordsKept(top: int, m: State, m': State, home: int) {
    forall at :: at >= m.rsp && (at < home || !OnPrivate(top, at)) ==> m'.Slot(at) == m.Slot(at)
  }

  lemma RoundTripKeeps(top: int, m: State, m1: State, m2: State, m3: State, home: int)
    requires RoundTrip(top, m, m1, m2, m3) && StackApart(top, m.rsp, home)
    ensures m3.rsp == m.rsp && WordsKept(top, m, m3, home)
  {
    hide State.Slot, SameWindow;
    assert m2.Slot(m1.rsp) == m1.Slot(m1.rsp);
  }

  /** Entering and leaving is safe: the entry returns, and the words are kept. */
  ghost predicate Safe(top: int, rsp: int, home: int) {
    && ReturnApart(top, rsp)
    && forall m: State, m1: State, m2: State, m3: State ::
         m.rsp == rsp && RoundTrip(top, m, m1, m2, m3) ==> WordsKept(top, m, m3, home)
  }

  /** Exactly when the stack in use is found to be the private one, or is not. */
  lemma SafeExactly(top: int, rsp: int, home: int)
    requires rsp < home && rsp % 8 == 0 && home % 8 == 0 && top % 8 == 0
    ensures Safe(top, rsp, home) <==> StackApart(top, rsp, home)
  {
    hide RoundTrip, SameWindow;
    if StackApart(top, rsp, home) {
      forall m: State, m1: State, m2: State, m3: State | m.rsp == rsp && RoundTrip(top, m, m1, m2, m3)
        ensures WordsKept(top, m, m3, home)
      {
        RoundTripKeeps(top, m, m1, m2, m3, home);
      }
    } else if rsp <= top - 16 {
      var at := if rsp < top - PRIVATE_STACK_SIZE then top - PRIVATE_STACK_SIZE else rsp;
      var m, m1, m2, m3 := Overwriting(top, rsp, at);
      assert m3.Slot(at) != m.Slot(at) && !WordsKept(top, m, m3, home);
    }
  }

  /** A trip that loses a word of a stack that is taken for another one. */
  lemma Overwriting(top: int, rsp: int, at: int) returns (m: State, m1: State, m2: State, m3: State)
    requires !SameWindow(rsp - 16, top) && rsp <= at <= top - 16 && OnPrivate(top, at)
    ensures m.rsp == rsp && RoundTrip(top, m, m1, m2, m3) && m3.Slot(at) != m.Slot(at)
  {
    hide SameWindow;
    var none := Flags(false, false, false, false, false);
    m := State(seq(16, _ => 0), seq(16, _ => Xmm(0, 0)), rsp, map[], none, false, 0);
    m1 := m.(rsp := top - 16, stack := map[top - 16 := StackPointer(rsp), top - 8 := StackPointer(rsp)]);
    m2 := if at == top - 16 then m1 else m1.(stack := m1.stack[at := StackPointer(rsp)]);
    m3 := m2.(rsp := rsp);
    assert Entered(top, m, m1);
    assert StaysBelow(top, m1, m2);
    assert Left(m2, m3);
  }

  /** Every address on the private stack is found to be on it. */
  ghost predicate Detects(top: int) {
    forall at :: top - PRIVATE_STACK_SIZE <= at <= top - 16 ==> SameWindow(at, top)
  }

  /** Exactly when the private stack does not cross the start of a window. */
  lemma DetectsExactly(top: int)
    ensures Detects(top) <==> top % WINDOW >= PRIVATE_STACK_SIZE
  {
    var q, r := top / WINDOW, top % WINDOW;
    assert top == q * WINDOW + r;
    if r >= PRIVATE_STACK_SIZE {
      forall at | top - PRIVATE_STACK_SIZE <= at <= top - 16 ensures SameWindow(at, top) {
        assert q * WINDOW <= at < (q + 1) * WINDOW;
      }
    } else {
      assert !SameWindow(top - PRIVATE_STACK_SIZE, top);
    }
  }

  /** Page alignment, which is all that the source asks for, is not enough. */
  lemma PageAlignedMayLose()
    ensures 69632 % 4096 == 0 && OnPrivate(69632, 65536) && !Safe(69632, 65536, 69616)
  {
    SafeExactly(69632, 65536, 69616);
  }
}
