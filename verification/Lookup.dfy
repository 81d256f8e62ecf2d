/** The protocol of `code_cache::find` on many CPUs and the emitted code of indirect branches
    together: what the protocol guarantees is what the branches rely on. */
module Lookup {
  import CC = CodeCache
  import opened Policy
  import opened Machine
  import opened Ibl
  import opened GlobalLookup
  import opened IblRun

  /** Where things are: the mangled word of a key, the position of the code that an address
      names, the position of an exit routine, and the address of its hit label. */
  datatype Layout = Layout(word: CC.Key -> Word, code: CC.Addr -> int, place: nat -> int, hit: nat -> Word)

  /** A run of the protocol that goes on for good. */
  datatype Protocol = Protocol(states: nat -> CC.State, steps: nat -> (CC.Cpu, CC.Choice))

  function Placed(l: Layout, id: nat, r: CC.Routine): Routine {
    Routine(l.place(id), l.word(r.key), l.code(r.target))
  }

  ghost predicate Advances(p: Protocol, k: nat) {
    p.states(k + 1) == CC.Advanced(p.states(k), p.steps(k).0, p.steps(k).1)
  }

  ghost predicate Runs(p: Protocol) {
    CC.Init(p.states(0)) && forall k: nat :: Advances(p, k)
  }

  /** `target` is code for the key after `k` steps, and so from then on. */
  ghost predicate Names(p: Protocol, l: Layout, k: nat, key: CC.Key, addr: CC.Addr, word: Word, target: int) {
    l.word(key) == word && l.code(addr) == target && CC.TargetOk(p.states(k).frags, p.states(k).committed, key, addr)
  }

  ghost predicate Right(p: Protocol, l: Layout, k: nat, word: Word, target: int) {
    exists key: CC.Key, addr: CC.Addr :: Names(p, l, k, key, addr, word, target)
  }

  /** The step of the protocol that makes the routine `id` emits its code and writes the slot. */
  ghost predicate Emits(env: Env, l: Layout, p: Protocol, k: nat, id: nat) {
    var w := env.worlds(k + 1);
    && id in p.states(k + 1).exits && id !in p.states(k).exits
    && env.added(k) == [Placed(l, id, p.states(k + 1).exits[id])]
    && At(l.hit(id)) in w.codeAt && w.Target(l.hit(id)) == l.place(id) + 7
  }

  /** The machine follows a step of the protocol. */
  ghost predicate StepFollows(env: Env, l: Layout, p: Protocol, k: nat) {
    && AddedAll(env.worlds(k), env.worlds(k + 1), env.table, env.added(k))
    && if p.states(k + 1).exits == p.states(k).exits then env.added(k) == [] else exists id :: Emits(env, l, p, k, id)
  }

  /** All slots of the jump table lead to the global lookup. */
  ghost predicate SlotInitial(w: World, table: Word, global: int, h: Word) {
    var slot := Scaled(table, h);
    At(slot) in w.jumps && At(w.Load(slot)) in w.codeAt && w.Target(w.Load(slot)) == global
  }

  ghost predicate TableInitial(w: World, table: Word, global: int) {
    forall h: Word :: h < NUM_IBL_JUMP_TABLE_ENTRIES ==> SlotInitial(w, table, global, h)
  }

  ghost predicate Follows(env: Env, l: Layout, p: Protocol) {
    && Runs(p) && (forall k: nat :: StepFollows(env, l, p, k))
    && (forall k: nat, word, target :: env.right(k, word, target) <==> Right(p, l, k, word, target))
    && env.initial == map[] && TableInitial(env.worlds(0), env.table, env.global)
    && GlobalAt(env.worlds(0), env.form, env.global, env.saved)
  }

  // ----- the protocol keeps the jump table valid -----

  /** The first `k` steps as a run. */
  lemma Prefix(p: Protocol, k: nat) returns (states: seq<CC.State>, steps: seq<(CC.Cpu, CC.Choice)>)
    requires Runs(p)
    ensures CC.Run(states, steps) && |steps| == k && |states| == k + 1
    ensures forall i :: 0 <= i <= k ==> states[i] == p.states(i)
    ensures forall i :: 0 <= i < k ==> steps[i] == p.steps(i)
  {
    hide CC.Advanced;
    states := seq(k + 1, i requires 0 <= i => p.states(i));
    steps := seq(k, i requires 0 <= i => p.steps(i));
    forall i | 0 <= i < k ensures states[i + 1] == CC.Advanced(states[i], steps[i].0, steps[i].1) {
      assert Advances(p, i);
    }
  }

  lemma TableStarts(w: World, table: Word, global: int, right: (Word, int) -> bool)
    requires TableInitial(w, table, global)
    ensures TableValid(w, table, map[], global, right)
  {
    hide Scaled;
    forall h: Word | h < NUM_IBL_JUMP_TABLE_ENTRIES ensures SlotValid(w, table, map[], global, right, h) {
      assert SlotInitial(w, table, global, h);
    }
  }

  /** Every exit routine of the run is right, also one that another CPU's came before. */
  lemma ExitIsRight(l: Layout, p: Protocol, k: nat, id: nat)
    requires Runs(p) && id in p.states(k).exits
    ensures var r := p.states(k).exits[id]; Right(p, l, k, l.word(r.key), l.code(r.target))
  {
    hide CC.TargetOk, CC.Run, Runs;
    var states, steps := Prefix(p, k);
    CC.AllExitsAreRight(states, steps, k);
    var r := p.states(k).exits[id];
    assert Names(p, l, k, r.key, r.target, l.word(r.key), l.code(r.target));
  }

  lemma RightLasts(l: Layout, p: Protocol, k: nat, word: Word, target: int)
    requires Runs(p) && Right(p, l, k, word, target)
    ensures Right(p, l, k + 1, word, target)
  {
    hide CC.TargetOk, CC.Run, CC.Kept, Runs;
    var key: CC.Key, addr: CC.Addr :| Names(p, l, k, key, addr, word, target);
    var states, steps := Prefix(p, k + 1);
    CC.KeptForGood(states, steps, k, k + 1);
    CC.TargetStays(p.states(k), p.states(k + 1), key, addr);
    assert Names(p, l, k + 1, key, addr, word, target);
  }

  /** In every run of the protocol, the jump table is valid at all times. */
  lemma RunIsValid(env: Env, l: Layout, p: Protocol)
    requires Follows(env, l, p)
    ensures EnvValid(env)
  {
    hide Runs, Right, GlobalAt, TableInitial, TableValid, AddedAll;
    TableStarts(env.worlds(0), env.table, env.global, IblRun.RightAt(env, 0));
    forall k: nat ensures Grows(env, k) {
      assert StepFollows(env, l, p, k);
      if p.states(k + 1).exits != p.states(k).exits {
        var id :| Emits(env, l, p, k, id);
        ExitIsRight(l, p, k + 1, id);
      }
      forall key, target | env.right(k, key, target) ensures env.right(k + 1, key, target) {
        RightLasts(l, p, k, key, target);
      }
    }
  }

  // ----- what `find` returns is what the global lookup needs -----

  lemma {:induction false} WasAdded(p: Protocol, k: nat, id: nat) returns (i: nat)
    requires CC.Init(p.states(0)) && id in p.states(k).exits
    ensures i < k && id !in p.states(i).exits && id in p.states(i + 1).exits
  {
    if id in p.states(k - 1).exits {
      i := WasAdded(p, k - 1, id);
    } else {
      i := k - 1;
    }
  }

  /** The code of an exit routine is there from the step that makes it. */
  lemma HitIsThere(env: Env, l: Layout, p: Protocol, k: nat, id: nat)
    requires Follows(env, l, p) && id in p.states(k).exits
    ensures var w := env.worlds(k);
            && At(l.hit(id)) in w.codeAt && w.Target(l.hit(id)) == l.place(id) + 7
            && HitAt(w, l.place(id) + 7, l.code(p.states(k).exits[id].target))
  {
    hide Right, GlobalAt, TableInitial, CC.Advanced, CC.Run, CC.Kept, Extends, Runs, HitAt;
    var i := RunsWasAdded(p, k, id);
    assert StepFollows(env, l, p, i);
    var states, steps := Prefix(p, k);
    OneAdded(p, i, id);
    var id' :| Emits(env, l, p, i, id');
    assert id' == id;
    var r := Placed(l, id, p.states(i + 1).exits[id]);
    AddedHasHit(env.worlds(i), env.worlds(i + 1), env.table, r);
    RunIsValid(env, l, p);
    Later(env, i + 1, k);
    HitStays(env.worlds(i + 1), env.worlds(k), r, l.hit(id));
    CC.KeptForGood(states, steps, i + 1, k);
    CC.ExitKept(p.states(i + 1), p.states(k), id);
  }

  lemma RunsWasAdded(p: Protocol, k: nat, id: nat) returns (i: nat)
    requires Runs(p) && id in p.states(k).exits
    ensures i < k && id !in p.states(i).exits && id in p.states(i + 1).exits
  {
    i := WasAdded(p, k, id);
  }

  lemma OneAdded(p: Protocol, i: nat, id: nat)
    requires Runs(p) && id !in p.states(i).exits && id in p.states(i + 1).exits
    ensures forall other :: other in p.states(i + 1).exits && other !in p.states(i).exits ==> other == id
  {
    hide CC.Advanced, CC.Run, CC.Inv, CC.TargetOk;
    var states, steps := Prefix(p, i);
    CC.RunKeepsInv(states, steps, i);
    assert Advances(p, i);
    CC.ExitAdded(p.states(i), p.steps(i).0, p.steps(i).1, id);
  }

  lemma AddedHasHit(w: World, w': World, table: Word, r: Routine)
    requires AddedAll(w, w', table, [r])
    ensures HitAt(w', r.at + 7, r.target)
  {
    hide Extends;
    var w1: World, pointer: Word :| ExitAdded(w, w1, table, [r][0], pointer) && AddedAll(w1, w', table, [r][1..]);
    AddedExtends(w1, w', table, [r][1..]);
    HitKept(w1, w', r);
  }

  lemma HitKept(w: World, w': World, r: Routine)
    requires Extends(w, w') && HitAt(w, r.at + 7, r.target)
    ensures HitAt(w', r.at + 7, r.target)
  {
  }

  /** A call of `find` for an indirect branch, whatever the other CPUs did in between and
      whichever CPU's routine it returns, gives the global lookup a right hit label. */
  lemma FindMeets(env: Env, l: Layout, p: Protocol, time: nat, m: State, a: Answer, c: CC.Cpu)
    requires Follows(env, l, p) && m.Valid() && a.time >= time && Respects(env.form, m, a.state)
    requires p.states(a.time).At(c).Done? && p.states(a.time).At(c).key.policy.WantsExit()
    ensures p.states(a.time).At(c).addr.Exit?
    ensures a.state.Valid()
    ensures a.state.regs[RAX] == l.hit(p.states(a.time).At(c).addr.routine) ==>
              FindReturns(env, l.word(p.states(a.time).At(c).key), time, m, a)
  {
    hide Right, GlobalAt, TableInitial, CC.Advanced, CC.Run, Runs, HitAt, CC.TargetOk, Respects, StepFollows;
    RespectsIsValid(env.form, m, a.state);
    var s := p.states(a.time);
    var key, addr := s.At(c).key, s.At(c).addr;
    var states, steps := Prefix(p, a.time);
    CC.FindIsRight(states, steps, a.time, a.time, c);
    HitIsThere(env, l, p, a.time, addr.routine);
    ExitIsRight(l, p, a.time, addr.routine);
  }

  // ----- together -----

  /** A call of `find` for the key returns when some CPU is done with it in the protocol. */
  ghost predicate Finds(env: Env, l: Layout, p: Protocol, key: CC.Key, time: nat, m: State, a: Answer, c: CC.Cpu)
    requires m.Valid()
  {
    && a.time >= time && Respects(env.form, m, a.state)
    && p.states(a.time).At(c).Done? && p.states(a.time).At(c).key == key && p.states(a.time).At(c).addr.Exit?
    && a.state.regs[RAX] == l.hit(p.states(a.time).At(c).addr.routine)
  }

  ghost predicate FindFollows(env: Env, l: Layout, p: Protocol, key: CC.Key) {
    forall time: nat, m: State {:trigger env.find(time, m)} :: m.Valid() && m.regs[RDI] == l.word(key) ==>
      exists c: CC.Cpu :: Finds(env, l, p, key, time, m, env.find(time, m), c)
  }

  lemma FindIsValid(env: Env, l: Layout, p: Protocol, key: CC.Key)
    requires Follows(env, l, p) && FindFollows(env, l, p, key) && key.policy.WantsExit()
    ensures FindValid(env, l.word(key))
  {
    hide Follows, Respects, HitLabel;
    forall time: nat, m: State | m.Valid() && m.regs[RDI] == l.word(key)
      ensures FindReturns(env, l.word(key), time, m, env.find(time, m))
    {
      var a := env.find(time, m);
      var c: CC.Cpu :| Finds(env, l, p, key, time, m, a, c);
      FindMeets(env, l, p, time, m, a, c);
    }
  }

  /** In every run of the protocol on any number of CPUs, an indirect branch that starts at any
      time ends, as the transfer itself would, in code that the protocol then has for its key. */
  lemma BranchesAreRight(env: Env, l: Layout, p: Protocol, key: CC.Key, time: nat, at: int, kind: Kind, t: Operand,
                         mode: Mode, bits: Bits, here: Word, ret: Word, m: State) returns (end: Moment, target: int)
    requires Follows(env, l, p) && FindFollows(env, l, p, key) && key.policy.WantsExit()
    requires m.Valid() && OperandSafe(t) && OperandApart(env.worlds(time), t, m)
    requires Canonical(mode, TargetOf(env.worlds(time), kind, t, m))
    requires EmittedAt(env.worlds(time), at, kind, StubCode(kind, t, mode, bits, env.table, here), ret)
    requires Mangle(TargetOf(env.worlds(time), kind, t, m), bits) == l.word(key)
    requires StackFits(env.form, env.saved, Transferred(kind, ret, m).rsp)
    ensures Right(p, l, end.time, l.word(key), target)
    ensures Ends(env, Moment(time, Config(at, m), 0), end, target, Transferred(kind, ret, m)) && end.calls <= 1
  {
    hide EnvValid, TargetOf, Mangle, Ends, StubCode, HasKey, EmittedAt, Canonical, OperandApart, Transferred, Right,
         FindFollows, FindValid, StackFits, StepFollows, GlobalAt, TableInitial, Runs, ChainOf;
    RunIsValid(env, l, p);
    FindIsValid(env, l, p, key);
    assert Served(env, time, l.word(key), Transferred(kind, ret, m).rsp);
    end, target := IndirectBranch(env, time, at, kind, t, mode, bits, here, ret, m);
  }
}
