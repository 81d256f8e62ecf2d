/** The routine behind all chains: `global_code_cache_lookup_routine`, which calls
    `code_cache::find`, in its user-space and its kernel form. */
module GlobalLookup {
  import opened Policy
  import opened Machine
  import opened Spill
  import opened PrivateStack
  import opened Ibl

  /** In the kernel, `find` runs on the private stack that ends at `top`. */
  datatype Form = UserForm | KernelForm(top: int)

  // ----- the code -----

  /** In the kernel the arithmetic flags are replaced by an image of all flags. */
  function Opening(form: Form): seq<Op> { if form.UserForm? then [] else [Pop(RAX), Sahf, Pushf, Cli] }

  function Closing(form: Form): seq<Op> { if form.UserForm? then RESTORE_CODE else [Popf, Pop(RSI), Pop(RAX)] }

  function BeforeCall(form: Form, saved: seq<Reg>): seq<Op> {
    Opening(form) + PushAll(saved) + if form.UserForm? then [] else [Enter]
  }

  /** Keep the result, and restore. */
  function AfterCall(form: Form, saved: seq<Reg>): seq<Op> {
    (if form.UserForm? then [Mov(RDI, RAX)] else [Mov(RDI, RAX), Leave]) + PopAll(saved) + Closing(form)
  }

  function GlobalCode(form: Form, saved: seq<Reg>): seq<Op> {
    BeforeCall(form, saved) + [Call] + AfterCall(form, saved)
  }

  /** The routine does not push the three registers that the stub spilled, and need not push
      those that a callee preserves. */
  predicate SavesEnough(saved: seq<Reg>) {
    && RAX !in saved && RSI !in saved && RDI !in saved
    && forall r: Reg :: r in saved || r in CALLEE_SAVED || r in {RAX, RSI, RDI}
  }

  /** The routines that switch stacks. */
  ghost predicate StacksValid(w: World, form: Form) {
    form.KernelForm? ==>
      && (forall m: State {:trigger w.enter(m)} :: m.Valid() && ReturnApart(form.top, m.rsp) ==>
            Entered(form.top, m, w.enter(m)))
      && (forall m: State {:trigger w.leave(m)} :: m.Valid() ==> Left(m, w.leave(m)))
  }

  ghost predicate GlobalAt(w: World, form: Form, at: int, saved: seq<Reg>) {
    && SavesEnough(saved) && StacksValid(w, form) && LocatedOps(w, at, GlobalCode(form, saved))
    && Holds(w, at + |GlobalCode(form, saved)|, JmpReg(RDI))
  }

  /** The assembly routines meet what is asked of `enter` and `leave`. */
  lemma RoutinesMeet(w: World, form: Form, getTop: Asm -> Asm, ret: Word)
    requires form.KernelForm? && TopValid(getTop, form.top)
    requires forall m: State {:trigger w.enter(m)} :: m.Valid() ==>
               w.enter(m) == EnterRoutine(getTop, Calling(m, ret, Data(0), false)).0.m
    requires forall m: State {:trigger w.leave(m)} :: m.Valid() ==>
               w.leave(m) == ExitRoutine(getTop, Calling(m, ret, Data(0), false)).0.m
    ensures StacksValid(w, form)
  {
    hide Entered, Left, EnterRoutine, ExitRoutine, TopValid;
    forall m: State | m.Valid() ensures Entered(form.top, m, w.enter(m)) && Left(m, w.leave(m)) {
      EnterMeets(getTop, form.top, m, ret, Data(0), false);
      ExitMeets(getTop, m, ret, Data(0), false);
    }
  }

  // ----- what it needs and what it leaves -----

  /** In the kernel, the words of the private stack may change. */
  predicate Touched(form: Form, at: int) { form.KernelForm? && OnPrivate(form.top, at) }

  /** Equal but for dead words below `rsp`, and words of the private stack. */
  ghost predicate SameBut(form: Form, a: State, b: State) {
    && a.Valid() && b.Valid() && (forall r: Reg :: a.regs[r] == b.regs[r])
    && SameRest(a, b) && a.rsp == b.rsp && a.flags == b.flags
    && forall at :: at >= b.rsp && !Touched(form, at) ==> a.Slot(at) == b.Slot(at)
  }

  /** In the kernel, the stack in use is not an unrecognised private one. */
  predicate StackFits(form: Form, saved: seq<Reg>, rsp: int) {
    form.KernelForm? ==> StackApart(form.top, rsp - 32 - 8 * |saved|, rsp)
  }

  /** A call of `find` from `m` respects the ABI; `find` is compiled not to use xmm registers. */
  ghost predicate Respects(form: Form, m: State, m': State)
    requires m.Valid()
  {
    && m'.Valid() && SameRest(m', m)
    && (if form.UserForm? then m'.rsp == m.rsp && SameStack(m', m, m.rsp) else StaysBelow(form.top, m, m'))
    && forall r: Reg :: r in CALLEE_SAVED ==> m'.regs[r] == m.regs[r]
  }

  // ----- its parts -----

  /** The lookup state once the flags are saved in the way of the form. */
  ghost predicate Opened(form: Form, m: State, home: State, key: Word) {
    && Spilled(m, home, key)
    && var flags := m.Slot(home.rsp - 32);
       if form.UserForm? then m.interrupts == home.interrupts && AhFlags(flags.AsWord()) == home.flags
       else !m.interrupts && flags.FlagImage? && flags.flags == home.flags && flags.interrupts == home.interrupts
  }

  lemma PushfEffect(w: World, m: State)
    requires m.Valid()
    ensures var m' := Effect(w, Pushf, m);
            && m'.regs == m.regs && SameRest(m', m) && m'.flags == m.flags && m'.rsp == m.rsp - 8
            && SameStack(m', m, m.rsp) && m'.Slot(m'.rsp) == FlagImage(m.flags, m.interrupts, m.other)
  {
  }

  lemma CliEffect(w: World, m: State)
    requires m.Valid()
    ensures Effect(w, Cli, m) == m.(interrupts := false)
  {
  }

  lemma OpeningEffect(w: World, form: Form, m: State, home: State, key: Word)
    requires InLookup(m, home, key)
    ensures Opened(form, Exec(w, Opening(form), m), home, key)
  {
    hide Effect, Exec, AhFlags, State.Slot;
    if form.UserForm? {
      assert Exec(w, [], m) == m by { ExecNothing(w, m); }
    } else {
      Exec4(w, Pop(RAX), Sahf, Pushf, Cli, m);
      PopEffect(w, RAX, m);
      var m1 := Effect(w, Pop(RAX), m);
      SahfEffect(w, m1);
      var m2 := Effect(w, Sahf, m1);
      SameStackIfSame(m2, m1);
      PushfEffect(w, m2);
      var m3 := Effect(w, Pushf, m2);
      CliEffect(w, m3);
      var m4 := Effect(w, Cli, m3);
      SameStackIfSame(m4, m3);
      assert m4.Slot(home.rsp - 32) == m3.Slot(home.rsp - 32);
    }
  }

  lemma ExecNothing(w: World, m: State)
    requires m.Valid()
    ensures Exec(w, [], m) == m
  {
  }

  lemma PopfEffect(w: World, m: State)
    requires m.Valid() && m.Slot(m.rsp).FlagImage?
    ensures var i := m.Slot(m.rsp);
            Effect(w, Popf, m) == m.(rsp := m.rsp + 8, flags := i.flags, interrupts := i.interrupts, other := i.other)
  {
  }

  lemma ClosingEffect(w: World, form: Form, m: State, home: State, key: Word)
    requires Opened(form, m, home, key)
    ensures var m' := Exec(w, Closing(form), m); AtHit(m', home) && m'.regs[RDI] == key
  {
    hide Effect, Exec, AhFlags, State.Slot;
    if form.UserForm? {
      RestoreEffect(w, m, home, key);
    } else {
      Exec3(w, Popf, Pop(RSI), Pop(RAX), m);
      PopfEffect(w, m);
      var m1 := Effect(w, Popf, m);
      SameStackIfSame(m1, m);
      SameSlots(m1, m);
      PopEffect(w, RSI, m1);
      var m2 := Effect(w, Pop(RSI), m1);
      PopEffect(w, RAX, m2);
    }
  }

  // ----- the call -----

  /** The state in which `find` is called, and the one that the pops start in. */
  function Entering(w: World, form: Form, pushed: State): (m: State)
    requires pushed.Valid()
    ensures m.Valid()
  {
    if form.UserForm? then pushed else Effect(w, Enter, pushed)
  }

  function Leaving(w: World, form: Form, after: State): (m: State)
    requires after.Valid()
    ensures m.Valid()
  {
    var kept := Effect(w, Mov(RDI, RAX), after);
    if form.UserForm? then kept else Effect(w, Leave, kept)
  }

  /** Back on the stack of `pushed`, with `hit` in `rdi`. */
  ghost predicate Returned(form: Form, pushed: State, home: int, left: State, hit: Word)
    requires pushed.Valid()
  {
    && left.Valid() && left.rsp == pushed.rsp && SameRest(left, pushed) && left.regs[RDI] == hit
    && (forall r: Reg :: r in CALLEE_SAVED ==> left.regs[r] == pushed.regs[r])
    && forall at :: at >= pushed.rsp && (at < home || !Touched(form, at)) ==> left.Slot(at) == pushed.Slot(at)
  }

  lemma MovEffect(w: World, m: State)
    requires m.Valid()
    ensures Effect(w, Mov(RDI, RAX), m) == m.(regs := m.regs[RDI := m.regs[RAX]])
  {
  }

  lemma StackCalls(w: World, m: State)
    requires m.Valid()
    ensures w.enter(m).Valid() ==> Effect(w, Enter, m) == w.enter(m)
    ensures w.leave(m).Valid() ==> Effect(w, Leave, m) == w.leave(m)
  {
  }

  lemma UserReturns(w: World, w': World, pushed: State, home: int, after: State)
    requires pushed.Valid() && Respects(UserForm, pushed, after)
    ensures Returned(UserForm, pushed, home, Leaving(w', UserForm, after), after.regs[RAX])
  {
    hide State.Slot, Effect;
    MovEffect(w', after);
    SameSlots(Leaving(w', UserForm, after), after);
  }

  lemma KernelReturns(w: World, w': World, form: Form, pushed: State, home: int, after: State)
    requires form.KernelForm? && pushed.Valid() && pushed.rsp < home && StackApart(form.top, pushed.rsp, home)
    requires StacksValid(w, form) && StacksValid(w', form)
    requires Respects(form, Entering(w, form, pushed), after)
    ensures Returned(form, pushed, home, Leaving(w', form, after), after.regs[RAX])
  {
    hide State.Slot, Effect, SameWindow, Entered, Left, StaysBelow;
    var called := w.enter(pushed);
    assert Entered(form.top, pushed, called);
    EnteredIs(form.top, pushed, called);
    StackCalls(w, pushed);
    MovEffect(w', after);
    var kept := Effect(w', Mov(RDI, RAX), after);
    StaysBelowSame(form.top, called, after, kept);
    var left := w'.leave(kept);
    assert Left(kept, left);
    LeftIs(kept, left);
    StackCalls(w', kept);
    RoundTripKeeps(form.top, pushed, called, kept, left, home);
  }

  lemma EnteredIs(top: int, m: State, m': State)
    requires m.Valid() && Entered(top, m, m')
    ensures m'.Valid() && SameRest(m', m) && forall r: Reg :: r in CALLEE_SAVED ==> m'.regs[r] == m.regs[r]
  {
  }

  lemma LeftIs(m: State, m': State)
    requires m.Valid() && Left(m, m')
    ensures m'.Valid() && SameRest(m', m) && forall r: Reg :: r != RAX ==> m'.regs[r] == m.regs[r]
  {
  }

  lemma StaysBelowSame(top: int, m: State, a: State, b: State)
    requires StaysBelow(top, m, a) && b.rsp == a.rsp && b.stack == a.stack
    ensures StaysBelow(top, m, b)
  {
    SameSlots(a, b);
    hide State.Slot;
  }

  // ----- the pops -----

  /** Pushing again what is there already changes no word. */
  lemma {:induction false} PushAllAgain(w: World, rs: seq<Reg>, m: State, n: State)
    requires m.Valid() && n.Valid() && n.regs == m.regs && n.rsp == m.rsp
    requires forall at :: m.rsp - 8 * |rs| <= at < m.rsp ==> Exec(w, PushAll(rs), m).Slot(at) == n.Slot(at)
    ensures forall at :: Exec(w, PushAll(rs), n).Slot(at) == n.Slot(at)
    decreases |rs|
  {
    hide State.Slot, Effect;
    if rs != [] {
      assert PushAll(rs)[1..] == PushAll(rs[1..]);
      var m1, n1 := Effect(w, Push(rs[0]), m), Effect(w, Push(rs[0]), n);
      PushIs(w, rs[0], m);
      PushIs(w, rs[0], n);
      PushedSlots(m, Data(m.regs[rs[0]]));
      PushedSlots(n, Data(n.regs[rs[0]]));
      PushAllEffect(w, rs[1..], m1);
      assert n.Slot(m.rsp - 8) == Exec(w, PushAll(rs[1..]), m1).Slot(m.rsp - 8) == m1.Slot(m.rsp - 8);
      assert forall at :: n1.Slot(at) == n.Slot(at);
      PushAllAgain(w, rs[1..], m1, n1);
    }
  }

  lemma PushIs(w: World, r: Reg, m: State)
    requires m.Valid()
    ensures Effect(w, Push(r), m) == Pushed(m, Data(m.regs[r]))
  {
  }

  lemma PopsRestore(w: World, w': World, form: Form, saved: seq<Reg>, m: State, home: int, left: State, hit: Word)
    requires m.Valid() && m.rsp <= home && Returned(form, Exec(w, PushAll(saved), m), home, left, hit)
    ensures var out := Exec(w', PopAll(saved), left);
            && out.rsp == m.rsp && SameRest(out, m)
            && (forall at :: at >= m.rsp ==> out.Slot(at) == left.Slot(at))
            && (forall at :: m.rsp <= at < home ==> left.Slot(at) == m.Slot(at))
            && forall r: Reg :: out.regs[r] == if r in saved then m.regs[r] else left.regs[r]
  {
    hide Exec, Effect, State.Slot, PushAll, PopAll, Touched;
    PushAllEffect(w, saved, m);
    var again := m.(stack := left.stack);
    SameSlots(again, left);
    PushAllAgain(w, saved, m, again);
    PushAllEffect(w, saved, again);
    BracketRestores(w, w', saved, again, left);
  }

  /** After the pops the lookup is as it was, but for the found label in `rdi`, and for words
      of the private stack above `home`. */
  lemma PopsEffect(w: World, w': World, form: Form, saved: seq<Reg>, m: State, home: State, key: Word,
                   left: State, hit: Word)
    requires Opened(form, m, home, key) && SavesEnough(saved)
    requires Returned(form, Exec(w, PushAll(saved), m), home.rsp, left, hit)
    ensures Opened(form, Exec(w', PopAll(saved), left), home.(stack := left.stack), hit)
  {
    hide Exec, Effect, State.Slot, AhFlags, PushAll, PopAll, Touched;
    PushAllEffect(w, saved, m);
    PopsRestore(w, w', form, saved, m, home.rsp, left, hit);
    var out := Exec(w', PopAll(saved), left);
    SameSlots(home.(stack := left.stack), left);
    forall r: Reg | r !in {RAX, RSI, RDI} ensures out.regs[r] == home.regs[r] {
      assert r in saved || r in CALLEE_SAVED;
    }
  }

  // ----- where the parts stand -----

  lemma {:induction false} SpillsDoNotLoad(rs: seq<Reg>)
    ensures forall i :: 0 <= i < |PushAll(rs)| ==> !Loads(PushAll(rs)[i])
    ensures forall i :: 0 <= i < |PopAll(rs)| ==> !Loads(PopAll(rs)[i])
  {
    if rs != [] {
      SpillsDoNotLoad(rs[1..]);
    }
  }

  /** Straight-line code stands where its parts stand. */
  lemma LocatedParts(w: World, at: int, a: seq<Op>, call: Op, b: seq<Op>)
    requires LocatedOps(w, at, a + [call] + b)
    ensures LocatedOps(w, at, a) && Holds(w, at + |a|, Do(call)) && LocatedOps(w, at + |a| + 1, b)
  {
    hide Holds;
    var code := a + [call] + b;
    forall i | 0 <= i < |a| ensures Holds(w, at + i, Do(a[i])) {
      assert Holds(w, at + i, Do(code[i]));
    }
    assert Holds(w, at + |a|, Do(code[|a|]));
    LocatedOpsDrop(w, at, code, |a| + 1);
    assert code[|a| + 1..] == b;
  }

  lemma GlobalParts(w: World, form: Form, at: int, saved: seq<Reg>)
    requires GlobalAt(w, form, at, saved)
    ensures var before, after := BeforeCall(form, saved), AfterCall(form, saved);
            && LocatedOps(w, at, before) && Holds(w, at + |before|, Do(Call))
            && LocatedOps(w, at + |before| + 1, after) && Holds(w, at + |before| + 1 + |after|, JmpReg(RDI))
  {
    hide LocatedOps, SavesEnough, BeforeCall, AfterCall, Holds, StacksValid;
    LocatedParts(w, at, BeforeCall(form, saved), Call, AfterCall(form, saved));
  }

  lemma GlobalStays(w: World, w': World, form: Form, at: int, saved: seq<Reg>)
    requires Extends(w, w') && GlobalAt(w, form, at, saved)
    ensures GlobalAt(w', form, at, saved)
  {
    hide SavesEnough, GlobalCode, Entered, Left;
    forall i | 0 <= i < |GlobalCode(form, saved)| ensures Holds(w', at + i, Do(GlobalCode(form, saved)[i])) {
      assert Holds(w, at + i, Do(GlobalCode(form, saved)[i]));
    }
  }

  // ----- up to the call, and from the call on -----

  /** The routine gets to its call, with `key` as the argument. */
  lemma GlobalCalls(w: World, form: Form, at: int, saved: seq<Reg>, m: State, home: State, key: Word)
      returns (start: State, called: State)
    requires InLookup(m, home, key) && GlobalAt(w, form, at, saved) && StackFits(form, saved, home.rsp)
    ensures m.Valid() && Opened(form, start, home, key)
    ensures called == Entering(w, form, Exec(w, PushAll(saved), start)) && called.regs[RDI] == key
    ensures form.KernelForm? ==> !called.interrupts
    ensures Reaches(w, Config(at, m), Config(at + |BeforeCall(form, saved)|, called))
  {
    hide Exec, Effect, InLookup, LocatedOps, SavesEnough, Holds, Opening, AhFlags, State.Slot, SameStack, PushAll,
         Reaches, SteadyOps, StacksValid, GlobalAt, BeforeCall;
    InLookupIsValid(m, home, key);
    GlobalParts(w, form, at, saved);
    OpeningEffect(w, form, m, home, key);
    start := Exec(w, Opening(form), m);
    PushAllEffect(w, saved, start);
    var pushed := Exec(w, PushAll(saved), start);
    called := Entering(w, form, pushed);
    BeforeCallEffect(w, form, saved, m);
    EnteringKeepsKey(w, form, at, saved, pushed, home.rsp);
    ReachesEnd(w, at, BeforeCall(form, saved), m);
  }

  lemma BeforeCallEffect(w: World, form: Form, saved: seq<Reg>, m: State)
    requires m.Valid()
    ensures Exec(w, BeforeCall(form, saved), m) ==
            Entering(w, form, Exec(w, PushAll(saved), Exec(w, Opening(form), m)))
    ensures SteadyOps(w, BeforeCall(form, saved), m)
  {
    hide Exec, Effect, PushAll, SteadyOps;
    var open, push := Opening(form), PushAll(saved);
    SpillsDoNotLoad(saved);
    NoLoadsIsSteady(w, BeforeCall(form, saved), m);
    ExecAppend(w, open, push, m);
    if form.UserForm? {
      assert BeforeCall(form, saved) == open + push;
    } else {
      ExecAppend(w, open + push, [Enter], m);
      Exec1(w, Enter, Exec(w, open + push, m));
    }
  }

  lemma EnteringKeepsKey(w: World, form: Form, at: int, saved: seq<Reg>, pushed: State, home: int)
    requires pushed.Valid() && GlobalAt(w, form, at, saved)
    requires pushed.rsp == home - 32 - 8 * |saved| && StackFits(form, saved, home)
    ensures Entering(w, form, pushed).regs[RDI] == pushed.regs[RDI]
    ensures Entering(w, form, pushed).interrupts == pushed.interrupts
  {
    hide Effect, SameWindow, LocatedOps, SavesEnough, State.Slot, Holds;
    if form.KernelForm? {
      assert Entered(form.top, pushed, w.enter(pushed));
      StackCalls(w, pushed);
    }
  }

  /** Running from `c` gets to `target` as the transfer would. */
  ghost predicate ArrivesBut(form: Form, w: World, c: Config, target: int, home: State)
    requires c.m.Valid()
  {
    exists m' :: SameBut(form, m', home) && Reaches(w, c, Config(target, m'))
  }

  lemma ArrivesIsBut(form: Form, w: World, c: Config, target: int, home: State, home': State)
    requires c.m.Valid() && Arrives(w, c, target, home') && home.Valid() && home' == home.(stack := home'.stack)
    requires forall at :: at >= home.rsp && !Touched(form, at) ==> home'.Slot(at) == home.Slot(at)
    ensures ArrivesBut(form, w, c, target, home)
  {
    hide Reaches, Touched, State.Slot;
    var m' :| SameState(m', home') && Reaches(w, c, Config(target, m'));
    assert SameBut(form, m', home);
  }

  lemma CallReturns(w: World, w': World, form: Form, at: int, saved: seq<Reg>, pushed: State, home: int, after: State)
    requires pushed.Valid() && GlobalAt(w, form, at, saved) && GlobalAt(w', form, at, saved)
    requires pushed.rsp == home - 32 - 8 * |saved| && StackFits(form, saved, home)
    requires Respects(form, Entering(w, form, pushed), after)
    ensures Returned(form, pushed, home, Leaving(w', form, after), after.regs[RAX])
  {
    hide Respects, Returned, LocatedOps, SavesEnough, Holds, StackApart, Entering, Leaving, StacksValid;
    if form.UserForm? {
      assert Entering(w, form, pushed) == pushed by { EnteringUser(w, pushed); }
      UserReturns(w, w', pushed, home, after);
    } else {
      KernelReturns(w, w', form, pushed, home, after);
    }
  }

  lemma EnteringUser(w: World, pushed: State)
    requires pushed.Valid()
    ensures Entering(w, UserForm, pushed) == pushed
  {
  }

  lemma AfterCallEffect(w: World, form: Form, saved: seq<Reg>, after: State)
    requires after.Valid()
    ensures Exec(w, AfterCall(form, saved), after) ==
            Exec(w, Closing(form), Exec(w, PopAll(saved), Leaving(w, form, after)))
    ensures SteadyOps(w, AfterCall(form, saved), after)
  {
    hide Exec, Effect, PopAll, SteadyOps;
    var keep := if form.UserForm? then [Mov(RDI, RAX)] else [Mov(RDI, RAX), Leave];
    SpillsDoNotLoad(saved);
    NoLoadsIsSteady(w, AfterCall(form, saved), after);
    ExecAppend(w, keep + PopAll(saved), Closing(form), after);
    ExecAppend(w, keep, PopAll(saved), after);
    if form.UserForm? {
      Exec1(w, Mov(RDI, RAX), after);
    } else {
      Exec2(w, Mov(RDI, RAX), Leave, after);
    }
  }

  /** What the words of the private stack are does not matter to the transfer. */
  lemma HomeStays(w: World, form: Form, saved: seq<Reg>, m: State, home: State, key: Word, left: State, hit: Word)
    requires Opened(form, m, home, key) && Returned(form, Exec(w, PushAll(saved), m), home.rsp, left, hit)
    ensures var home' := home.(stack := left.stack);
            forall at :: at >= home.rsp && !Touched(form, at) ==> home'.Slot(at) == home.Slot(at)
  {
    hide Exec, Effect, State.Slot, AhFlags, PushAll, Touched;
    PushAllEffect(w, saved, m);
    SameSlots(home.(stack := left.stack), left);
  }

  /** The pops and the jump, with the label in `rdi`. */
  lemma TailLeaves(w: World, form: Form, pc: int, saved: seq<Reg>, after: State, home: State, hit: Word, target: int)
    requires after.Valid() && Opened(form, Exec(w, PopAll(saved), Leaving(w, form, after)), home, hit)
    requires LocatedOps(w, pc, AfterCall(form, saved)) && Holds(w, pc + |AfterCall(form, saved)|, JmpReg(RDI))
    requires At(hit) in w.codeAt && HitAt(w, w.Target(hit), target)
    ensures Arrives(w, Config(pc, after), target, home)
  {
    hide Exec, Effect, HitAt, AtHit, Arrives, LocatedOps, PopAll, Closing, Leaving, Opened, SteadyOps, AfterCall;
    AfterCallEffect(w, form, saved, after);
    ClosingEffect(w, form, Exec(w, PopAll(saved), Leaving(w, form, after)), home, hit);
    var m' := Exec(w, AfterCall(form, saved), after);
    ReachesEnd(w, pc, AfterCall(form, saved), after);
    var end := Config(pc + |AfterCall(form, saved)|, m');
    assert Step(w, end) == Config(w.Target(hit), m');
    ReachesByStep(w, end);
    HitLeaves(w, w.Target(hit), target, m', home);
    ArrivesVia(w, end, Config(w.Target(hit), m'), target, home);
    ArrivesVia(w, Config(pc, after), end, target, home);
  }

  /** From the answer of `find` on, in the world that it is given in. */
  lemma AnswerLeaves(w: World, w': World, form: Form, at: int, saved: seq<Reg>, m: State, home: State, key: Word,
                     after: State, target: int)
    requires Opened(form, m, home, key) && StackFits(form, saved, home.rsp)
    requires GlobalAt(w, form, at, saved) && GlobalAt(w', form, at, saved)
    requires Respects(form, Entering(w, form, Exec(w, PushAll(saved), m)), after)
    requires At(after.regs[RAX]) in w'.codeAt && HitAt(w', w'.Target(after.regs[RAX]), target)
    ensures ArrivesBut(form, w', Config(at + |BeforeCall(form, saved)| + 1, after), target, home)
  {
    hide Exec, Effect, HitAt, Arrives, ArrivesBut, LocatedOps, PushAll, PopAll, Leaving, Entering, Holds,
         SavesEnough, StackFits, Returned, BeforeCall, AfterCall, StacksValid, Touched, State.Slot, AhFlags, SameStack;
    var hit := after.regs[RAX];
    var pushed := Exec(w, PushAll(saved), m);
    PushAllEffect(w, saved, m);
    CallReturns(w, w', form, at, saved, pushed, home.rsp, after);
    var left := Leaving(w', form, after);
    var home' := home.(stack := left.stack);
    PopsEffect(w, w', form, saved, m, home, key, left, hit);
    HomeStays(w, form, saved, m, home, key, left, hit);
    GlobalParts(w', form, at, saved);
    TailLeaves(w', form, at + |BeforeCall(form, saved)| + 1, saved, after, home', hit, target);
    ArrivesIsBut(form, w', Config(at + |BeforeCall(form, saved)| + 1, after), target, home, home');
  }
}
