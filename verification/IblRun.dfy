/** Indirect branches while other CPUs add exit routines: the emitted code runs in a world
    that changes between any two instructions. */
module IblRun {
  import opened Policy
  import opened Machine
  import opened Spill
  import opened Ibl
  import opened GlobalLookup

  /** What a call of `find` leaves, and when it returns. */
  datatype Answer = Answer(time: nat, state: State)

  /** The worlds at all times, the exit routines that all CPUs together add from each time to
      the next, the calls of `find`, and the targets that are right for a key at a time. */
  datatype Env = Env(
    worlds: nat -> World,
    added: nat -> seq<Routine>,
    find: (nat, State) -> Answer,
    right: (nat, Word, int) -> bool,
    form: Form, table: Word, initial: Buckets, global: int, saved: seq<Reg>)

  // ----- execution -----

  datatype Moment = Moment(time: nat, c: Config, calls: nat)

  /** One instruction, or one call of `find` for as long as it takes. */
  function Tick(env: Env, x: Moment): (y: Moment)
    requires x.c.m.Valid()
    ensures y.c.m.Valid()
  {
    if Holds(env.worlds(x.time), x.c.pc, Do(Call)) then
      var a := env.find(x.time, x.c.m);
      Moment(a.time, Config(x.c.pc + 1, OrElse(a.state, x.c.m)), x.calls + 1)
    else Moment(x.time + 1, Step(env.worlds(x.time), x.c), x.calls)
  }

  function Ticks(env: Env, x: Moment, n: nat): (y: Moment)
    requires x.c.m.Valid()
    ensures y.c.m.Valid()
    decreases n
  {
    if n == 0 then x else Ticks(env, Tick(env, x), n - 1)
  }

  ghost predicate Leads(env: Env, x: Moment, y: Moment)
    requires x.c.m.Valid()
  {
    exists n: nat :: Ticks(env, x, n) == y
  }

  lemma {:induction false} TicksAppend(env: Env, x: Moment, a: nat, b: nat)
    requires x.c.m.Valid()
    ensures Ticks(env, x, a + b) == Ticks(env, Ticks(env, x, a), b)
    decreases a
  {
    hide Tick;
    if a > 0 {
      TicksAppend(env, Tick(env, x), a - 1, b);
    }
  }

  lemma LeadsTransitive(env: Env, x: Moment, y: Moment, z: Moment)
    requires x.c.m.Valid() && y.c.m.Valid() && Leads(env, x, y) && Leads(env, y, z)
    ensures Leads(env, x, z)
  {
    var a: nat :| Ticks(env, x, a) == y;
    var b: nat :| Ticks(env, y, b) == z;
    TicksAppend(env, x, a, b);
  }

  lemma LeadsByTick(env: Env, x: Moment)
    requires x.c.m.Valid()
    ensures Leads(env, x, Tick(env, x))
  {
    hide Tick;
    assert Ticks(env, x, 1) == Ticks(env, Tick(env, x), 0);
  }

  // ----- the world grows -----

  function RightAt(env: Env, time: nat): (Word, int) -> bool { (key, target) => env.right(time, key, target) }

  /** From one time to the next, right exit routines are added, and any other code; what is
      right stays right. */
  ghost predicate Grows(env: Env, time: nat) {
    && AddedAll(env.worlds(time), env.worlds(time + 1), env.table, env.added(time))
    && ChainCorrect(env.added(time), RightAt(env, time + 1))
    && forall key, target :: env.right(time, key, target) ==> env.right(time + 1, key, target)
  }

  ghost predicate EnvValid(env: Env) {
    && (forall time: nat :: Grows(env, time))
    && TableValid(env.worlds(0), env.table, env.initial, env.global, RightAt(env, 0))
    && GlobalAt(env.worlds(0), env.form, env.global, env.saved)
  }

  /** The chains behind the jump table at a time. */
  function BucketsAt(env: Env, time: nat): Buckets {
    if time == 0 then env.initial else PrependedAll(BucketsAt(env, time - 1), env.added(time - 1))
  }

  lemma {:induction false} Later(env: Env, i: nat, j: nat)
    requires EnvValid(env) && i <= j
    ensures Extends(env.worlds(i), env.worlds(j))
    decreases j - i
  {
    hide AddedAll, TableValid, GlobalAt, ChainCorrect;
    if i < j {
      assert Grows(env, j - 1);
      AddedExtends(env.worlds(j - 1), env.worlds(j), env.table, env.added(j - 1));
      Later(env, i, j - 1);
      ExtendsTransitive(env.worlds(i), env.worlds(j - 1), env.worlds(j));
    }
  }

  /** The jump table is valid at all times. */
  lemma {:induction false} TableAt(env: Env, time: nat)
    requires EnvValid(env)
    ensures TableValid(env.worlds(time), env.table, BucketsAt(env, time), env.global, RightAt(env, time))
  {
    hide AddedAll, TableValid, GlobalAt, ChainCorrect;
    if time > 0 {
      TableAt(env, time - 1);
      assert Grows(env, time - 1);
      var w, b := env.worlds(time - 1), BucketsAt(env, time - 1);
      TableStaysRight(w, env.table, b, env.global, RightAt(env, time - 1), RightAt(env, time));
      AddedKeepTable(w, env.worlds(time), env.table, b, env.global, RightAt(env, time), env.added(time - 1));
    }
  }

  lemma TableStaysRight(w: World, table: Word, b: Buckets, global: int, right: (Word, int) -> bool,
                        right': (Word, int) -> bool)
    requires TableValid(w, table, b, global, right) && forall key, target :: right(key, target) ==> right'(key, target)
    ensures TableValid(w, table, b, global, right')
  {
    hide ChainAt, Scaled;
    forall h: Word | h < NUM_IBL_JUMP_TABLE_ENTRIES ensures SlotValid(w, table, b, global, right', h) {
      assert SlotValid(w, table, b, global, right, h);
    }
  }

  lemma {:induction false} RightStays(env: Env, i: nat, j: nat, key: Word, target: int)
    requires EnvValid(env) && i <= j && env.right(i, key, target)
    ensures env.right(j, key, target)
    decreases j - i
  {
    hide AddedAll, TableValid, GlobalAt, ChainCorrect;
    if i < j {
      assert Grows(env, i);
      RightStays(env, i + 1, j, key, target);
    }
  }

  lemma GlobalAtTime(env: Env, time: nat)
    requires EnvValid(env)
    ensures GlobalAt(env.worlds(time), env.form, env.global, env.saved)
  {
    hide AddedAll, TableValid, GlobalAt, ChainCorrect, Extends;
    Later(env, 0, time);
    GlobalStays(env.worlds(0), env.worlds(time), env.form, env.global, env.saved);
  }

  /** A key that once has a routine in its chain has one for good. */
  lemma {:induction false} KeyStays(env: Env, key: Word, i: nat, j: nat)
    requires i <= j && HasKey(Bucket(BucketsAt(env, i), IblHash(key)), key)
    ensures HasKey(Bucket(BucketsAt(env, j), IblHash(key)), key)
    decreases j - i
  {
    hide IblHash, HasKey, Bucket;
    if i < j {
      KeyStays(env, key, i, j - 1);
      PrependedHas(BucketsAt(env, j - 1), env.added(j - 1), key);
    }
  }

  // ----- what runs in one world runs in the growing one -----

  lemma {:induction false} WalksLead(env: Env, i: nat, time: nat, c: Config, n: nat, c': Config, calls: nat)
    requires EnvValid(env) && i <= time && c.m.Valid() && Walks(env.worlds(i), c, n, c')
    ensures Leads(env, Moment(time, c, calls), Moment(time + n, c', calls))
    decreases n
  {
    hide Step, Steady, EnvValid, Extends;
    var x := Moment(time, c, calls);
    if n == 0 {
      assert Ticks(env, x, 0) == x;
    } else {
      Later(env, i, time);
      SteadyTick(env, env.worlds(i), x);
      LeadsByTick(env, x);
      WalksLead(env, i, time + 1, Step(env.worlds(i), c), n - 1, c', calls);
      LeadsTransitive(env, x, Tick(env, x), Moment(time + n, c', calls));
    }
  }

  lemma SteadyTick(env: Env, w: World, x: Moment)
    requires x.c.m.Valid() && Extends(w, env.worlds(x.time)) && Steady(w, x.c)
    ensures Tick(env, x) == Moment(x.time + 1, Step(w, x.c), x.calls)
  {
    hide Step;
    SteadyStays(w, env.worlds(x.time), x.c);
  }

  lemma ReachesLeads(env: Env, i: nat, time: nat, c: Config, c': Config, calls: nat) returns (time': nat)
    requires EnvValid(env) && i <= time && c.m.Valid() && Reaches(env.worlds(i), c, c')
    ensures time' >= time && Leads(env, Moment(time, c, calls), Moment(time', c', calls))
  {
    hide Walks, EnvValid, Leads;
    var n: nat :| Walks(env.worlds(i), c, n, c');
    WalksLead(env, i, time, c, n, c', calls);
    time' := time + n;
  }

  /** From `x` execution gets to `end`, which is at `target` as the transfer would be. */
  ghost predicate Ends(env: Env, x: Moment, end: Moment, target: int, home: State) {
    x.c.m.Valid() && Leads(env, x, end) && end.c.pc == target && SameBut(env.form, end.c.m, home)
  }

  lemma EndsVia(env: Env, x: Moment, y: Moment, end: Moment, target: int, home: State)
    requires x.c.m.Valid() && y.c.m.Valid() && Leads(env, x, y) && Ends(env, y, end, target, home)
    ensures Ends(env, x, end, target, home)
  {
    hide Leads, SameBut;
    LeadsTransitive(env, x, y, end);
  }

  lemma ArrivesEnds(env: Env, i: nat, x: Moment, target: int, home: State) returns (end: Moment)
    requires EnvValid(env) && i <= x.time && x.c.m.Valid()
    requires ArrivesBut(env.form, env.worlds(i), x.c, target, home)
    ensures Ends(env, x, end, target, home) && end.calls == x.calls && end.time >= x.time
  {
    hide Leads, EnvValid, Reaches;
    var m' :| SameBut(env.form, m', home) && Reaches(env.worlds(i), x.c, Config(target, m'));
    var time' := ReachesLeads(env, i, x.time, x.c, Config(target, m'), x.calls);
    end := Moment(time', Config(target, m'), x.calls);
  }

  // ----- the global lookup -----

  /** What `find` promises for a call at `time` from `m`: it respects the ABI and returns the
      hit label of a routine that leaves for a right target. */
  ghost predicate FindReturns(env: Env, key: Word, time: nat, m: State, a: Answer)
    requires m.Valid()
  {
    && a.time >= time && Respects(env.form, m, a.state)
    && HitLabel(env, key, a.time, a.state.regs[RAX])
  }

  /** `hit` is the address of a hit label that is right for the key. */
  ghost predicate HitLabel(env: Env, key: Word, time: nat, hit: Word) {
    var w := env.worlds(time);
    At(hit) in w.codeAt && exists target :: env.right(time, key, target) && HitAt(w, w.Target(hit), target)
  }

  ghost predicate FindValid(env: Env, key: Word) {
    forall time: nat, m: State {:trigger env.find(time, m)} ::
      m.Valid() && m.regs[RDI] == key ==> FindReturns(env, key, time, m, env.find(time, m))
  }

  /** The tick of the call. */
  lemma CallTick(env: Env, x: Moment, key: Word)
    requires x.c.m.Valid() && Holds(env.worlds(x.time), x.c.pc, Do(Call))
    requires FindValid(env, key) && x.c.m.regs[RDI] == key
    ensures var a := env.find(x.time, x.c.m);
            && FindReturns(env, key, x.time, x.c.m, a)
            && Tick(env, x) == Moment(a.time, Config(x.c.pc + 1, a.state), x.calls + 1)
  {
    hide HitLabel;
    assert FindReturns(env, key, x.time, x.c.m, env.find(x.time, x.c.m));
  }

  /** The global lookup makes one call of `find`, and leaves by the label that it returns. */
  lemma GlobalLeads(env: Env, x: Moment, home: State, key: Word) returns (end: Moment, target: int)
    requires EnvValid(env) && FindValid(env, key)
    requires x.c.pc == env.global && InLookup(x.c.m, home, key) && StackFits(env.form, env.saved, home.rsp)
    ensures env.right(end.time, key, target) && Ends(env, x, end, target, home)
    ensures end.calls == x.calls + 1 && end.time >= x.time
  {
    hide EnvValid, FindValid, InLookup, StackFits, GlobalAt, Ends, Opened, Leads, Exec, BeforeCall, PushAll, Respects,
         HitAt, Entering, ArrivesBut, Tick, Reaches, Holds;
    var w := env.worlds(x.time);
    GlobalAtTime(env, x.time);
    InLookupIsValid(x.c.m, home, key);
    var start, called := GlobalCalls(w, env.form, env.global, env.saved, x.c.m, home, key);
    var pc := env.global + |BeforeCall(env.form, env.saved)|;
    var time := ReachesLeads(env, x.time, x.time, x.c, Config(pc, called), x.calls);
    var y := Moment(time, Config(pc, called), x.calls);
    GlobalAtTime(env, time);
    GlobalParts(env.worlds(time), env.form, env.global, env.saved);
    CallTick(env, y, key);
    var a := env.find(time, called);
    var w' := env.worlds(a.time);
    GlobalAtTime(env, a.time);
    target :| env.right(a.time, key, target) && HitAt(w', w'.Target(a.state.regs[RAX]), target);
    assert a.state.Valid() by { RespectsIsValid(env.form, called, a.state); }
    AnswerLeaves(w, w', env.form, env.global, env.saved, start, home, key, a.state, target);
    var z := Tick(env, y);
    end := ArrivesEnds(env, a.time, z, target, home);
    RightStays(env, a.time, end.time, key, target);
    LeadsByTick(env, y);
    EndsVia(env, y, z, end, target, home);
    EndsVia(env, x, y, end, target, home);
  }

  lemma RespectsIsValid(form: Form, m: State, m': State)
    requires m.Valid() && Respects(form, m, m')
    ensures m'.Valid()
  {
  }

  // ----- chains -----

  /** The chain that the slot of the key leads to at a time. */
  function ChainOf(env: Env, time: nat, key: Word): seq<Routine> { Bucket(BucketsAt(env, time), IblHash(key)) }

  /** The key has a routine, or a call of `find` can be made for it. */
  ghost predicate Served(env: Env, time: nat, key: Word, rsp: int) {
    HasKey(ChainOf(env, time, key), key) || (FindValid(env, key) && StackFits(env.form, env.saved, rsp))
  }

  lemma SameStateIsBut(form: Form, w: World, c: Config, target: int, home: State)
    requires c.m.Valid() && Arrives(w, c, target, home)
    ensures ArrivesBut(form, w, c, target, home)
  {
    hide Reaches, Touched, State.Slot;
    var m' :| SameState(m', home) && Reaches(w, c, Config(target, m'));
    assert SameBut(form, m', home);
  }

  /** For every chain, by a hit or by falling through to the global lookup.  The chain is the
      one that the slot held at time `i`; routines that are added later are not seen. */
  lemma ChainLeads(env: Env, i: nat, x: Moment, home: State, key: Word) returns (end: Moment, target: int)
    requires EnvValid(env) && i <= x.time && Served(env, i, key, home.rsp)
    requires x.c.pc == First(ChainOf(env, i, key), env.global) && InLookup(x.c.m, home, key)
    ensures env.right(end.time, key, target) && Ends(env, x, end, target, home)
    ensures end.calls == x.calls + if HasKey(ChainOf(env, i, key), key) then 0 else 1
  {
    hide EnvValid, FindValid, InLookup, StackFits, Ends, Leads, Arrives, ArrivesBut, IblHash, ChainAt, ChainCorrect,
         TableValid, Reaches, HasKey;
    var w, chain := env.worlds(i), ChainOf(env, i, key);
    InLookupIsValid(x.c.m, home, key);
    TableAt(env, i);
    SlotOfKey(w, env.table, BucketsAt(env, i), env.global, RightAt(env, i), key);
    if HasKey(chain, key) {
      target := ChainHits(w, RightAt(env, i), chain, env.global, x.c.m, home, key);
      SameStateIsBut(env.form, w, x.c, target, home);
      end := ArrivesEnds(env, i, x, target, home);
      RightStays(env, i, end.time, key, target);
    } else {
      var m' := ChainMisses(w, chain, env.global, x.c.m, home, key);
      InLookupIsValid(m', home, key);
      var time := ReachesLeads(env, i, x.time, x.c, Config(env.global, m'), x.calls);
      var y := Moment(time, Config(env.global, m'), x.calls);
      end, target := GlobalLeads(env, y, home, key);
      EndsVia(env, x, y, end, target, home);
    }
  }

  // ----- main theorem -----

  /** The jump through the slot, at time `x.time`. */
  lemma SlotTick(env: Env, x: Moment, key: Word)
    requires EnvValid(env) && x.c.m.Valid() && Holds(env.worlds(x.time), x.c.pc, JmpMem(RAX))
    requires x.c.m.regs[RAX] == Scaled(env.table, IblHash(key))
    ensures Tick(env, x) == Moment(x.time + 1, x.c.(pc := First(ChainOf(env, x.time, key), env.global)), x.calls)
  {
    hide EnvValid, IblHash, Scaled, ChainAt, ChainCorrect, TableValid;
    TableAt(env, x.time);
    SlotOfKey(env.worlds(x.time), env.table, BucketsAt(env, x.time), env.global, RightAt(env, x.time), key);
  }

  lemma HoldsStays(w: World, w': World, pc: int, i: Instr)
    requires Extends(w, w') && Holds(w, pc, i)
    ensures Holds(w', pc, i)
  {
  }

  lemma ServedStays(env: Env, i: nat, j: nat, key: Word, rsp: int)
    requires i <= j && Served(env, i, key, rsp)
    ensures Served(env, j, key, rsp)
    ensures HasKey(ChainOf(env, i, key), key) ==> HasKey(ChainOf(env, j, key), key)
  {
    hide HasKey, IblHash, FindValid, StackFits, Bucket;
    if HasKey(ChainOf(env, i, key), key) {
      KeyStays(env, key, i, j);
    }
  }

  /** The emitted code of an indirect JMP, CALL or RET behaves as the transfer itself would, and
      goes to right code for the mangled run-time target, whatever exit routines other CPUs
      add meanwhile.  It calls `find` at most once, and not at all for a key that has a routine
      when the branch starts. */
  lemma IndirectBranch(env: Env, time: nat, at: int, kind: Kind, t: Operand, mode: Mode, p: Bits, here: Word, ret: Word,
                       m: State) returns (end: Moment, target: int)
    requires EnvValid(env) && m.Valid() && OperandSafe(t) && OperandApart(env.worlds(time), t, m)
    requires Canonical(mode, TargetOf(env.worlds(time), kind, t, m))
    requires EmittedAt(env.worlds(time), at, kind, StubCode(kind, t, mode, p, env.table, here), ret)
    requires Served(env, time, Mangle(TargetOf(env.worlds(time), kind, t, m), p), Transferred(kind, ret, m).rsp)
    ensures env.right(end.time, Mangle(TargetOf(env.worlds(time), kind, t, m), p), target)
    ensures Ends(env, Moment(time, Config(at, m), 0), end, target, Transferred(kind, ret, m))
    ensures end.calls <= 1
    ensures var key := Mangle(TargetOf(env.worlds(time), kind, t, m), p);
            HasKey(ChainOf(env, time, key), key) ==> end.calls == 0
  {
    hide EnvValid, TargetOf, EmittedMangle, Mangle, InLookup, Served, Ends, Leads, StubCode, IblHash, Scaled, HasKey,
         EmittedAt, Canonical, Reaches, Holds, Extends, ChainOf, Tick, OperandApart, Transferred;
    var w := env.worlds(time);
    var key := EmittedMangle(mode, TargetOf(w, kind, t, m), p);
    EmittedMangleAgrees(mode, TargetOf(w, kind, t, m), p);
    var home := Transferred(kind, ret, m);
    var x := Moment(time, Config(at, m), 0);
    var pc, m1 := StubReaches(w, at, kind, t, mode, p, env.table, here, ret, m);
    InLookupIsValid(m1, home, key);
    var later := ReachesLeads(env, time, time, x.c, Config(pc, m1), 0);
    var y := Moment(later, Config(pc, m1), 0);
    Later(env, time, later);
    HoldsStays(w, env.worlds(later), pc, JmpMem(RAX));
    SlotTick(env, y, key);
    LeadsByTick(env, y);
    ServedStays(env, time, later, key, home.rsp);
    var z := Tick(env, y);
    end, target := ChainLeads(env, later, z, home, key);
    EndsVia(env, y, z, end, target, home);
    EndsVia(env, x, y, end, target, home);
  }

  /** Once any CPU has added a routine for a key, every later branch with this key, of whatever
      kind and wherever it is, ends in right code without a call of `find`. */
  lemma SecondTimeHits(env: Env, since: nat, time: nat, at: int, kind: Kind, t: Operand, mode: Mode, p: Bits,
                       here: Word, ret: Word, m: State) returns (end: Moment, target: int)
    requires EnvValid(env) && m.Valid() && OperandSafe(t) && OperandApart(env.worlds(time), t, m)
    requires Canonical(mode, TargetOf(env.worlds(time), kind, t, m))
    requires EmittedAt(env.worlds(time), at, kind, StubCode(kind, t, mode, p, env.table, here), ret)
    requires since < time && HasKey(env.added(since), Mangle(TargetOf(env.worlds(time), kind, t, m), p))
    ensures env.right(end.time, Mangle(TargetOf(env.worlds(time), kind, t, m), p), target)
    ensures Ends(env, Moment(time, Config(at, m), 0), end, target, Transferred(kind, ret, m)) && end.calls == 0
  {
    hide EnvValid, TargetOf, Mangle, Ends, StubCode, IblHash, HasKey, EmittedAt, Canonical, OperandApart, Transferred,
         Bucket;
    var key := Mangle(TargetOf(env.worlds(time), kind, t, m), p);
    PrependedHas(BucketsAt(env, since), env.added(since), key);
    KeyStays(env, key, since + 1, time);
    end, target := IndirectBranch(env, time, at, kind, t, mode, p, here, ret, m);
  }

  /** The first miss is covered: where a routine for the key is added at `since`, a `find` that
      waits for this and returns its hit label meets the assumption. */
  lemma FirstMissIsCovered(env: Env, since: nat, r: Routine, hit: Word) returns (find: (nat, State) -> Answer)
    requires EnvValid(env) && env.right(since, r.key, r.target)
    requires var w := env.worlds(since);
             At(hit) in w.codeAt && w.Target(hit) == r.at + 7 && HitAt(w, r.at + 7, r.target)
    ensures FindValid(env.(find := find), r.key)
  {
    hide EnvValid, State.Slot;
    find := (time: nat, m: State) =>
      Answer(if time < since then since else time, if m.Valid() then m.(regs := m.regs[RAX := hit]) else m);
    var env' := env.(find := find);
    forall time: nat, m: State | m.Valid() && m.regs[RDI] == r.key
      ensures FindReturns(env', r.key, time, m, find(time, m))
    {
      var a := find(time, m);
      Later(env, since, a.time);
      HitStays(env.worlds(since), env.worlds(a.time), r, hit);
      RightStays(env, since, a.time, r.key, r.target);
      assert HitLabel(env', r.key, a.time, hit);
      RespectsHit(env.form, m, hit);
    }
  }

  lemma HitStays(w: World, w': World, r: Routine, hit: Word)
    requires Extends(w, w') && At(hit) in w.codeAt && w.Target(hit) == r.at + 7 && HitAt(w, r.at + 7, r.target)
    ensures At(hit) in w'.codeAt && w'.Target(hit) == r.at + 7 && HitAt(w', r.at + 7, r.target)
  {
  }

  lemma RespectsHit(form: Form, m: State, hit: Word)
    requires m.Valid()
    ensures Respects(form, m, m.(regs := m.regs[RAX := hit]))
  {
    SameStackIfSame(m.(regs := m.regs[RAX := hit]), m);
  }
}
