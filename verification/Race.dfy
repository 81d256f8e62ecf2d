/** A run of `code_cache::find` on two CPUs that ends with two exit routines of one key that
    leave for different targets. */
module Race {
  import opened Policy
  import opened CodeCache
  import opened Publication

  // ----- paths -----

  function After(s: State, path: seq<(Cpu, Choice)>): State
    decreases |path|
  {
    if path == [] then s else After(Advanced(s, path[0].0, path[0].1), path[1..])
  }

  ghost predicate Leads(s: State, s': State) { exists path: seq<(Cpu, Choice)> :: After(s, path) == s' }

  lemma {:induction false} AfterAppend(s: State, a: seq<(Cpu, Choice)>, b: seq<(Cpu, Choice)>)
    ensures After(s, a + b) == After(After(s, a), b)
    decreases |a|
  {
    hide Advanced;
    if a == [] {
      assert a + b == b;
    } else {
      assert (a + b)[1..] == a[1..] + b;
      AfterAppend(Advanced(s, a[0].0, a[0].1), a[1..], b);
    }
  }

  lemma LeadsOn(s: State, s': State, c: Cpu, ch: Choice)
    requires Leads(s, s')
    ensures Leads(s, Advanced(s', c, ch))
  {
    hide Advanced;
    var path :| After(s, path) == s';
    AfterAppend(s, path, [(c, ch)]);
    var next := Advanced(s', c, ch);
    assert [(c, ch)][1..] == [] && After(next, []) == next;
  }

  /** A path from an initial state is a run. */
  lemma {:induction false} PathRuns(s: State, path: seq<(Cpu, Choice)>) returns (states: seq<State>)
    ensures |states| == |path| + 1 && states[0] == s && states[|path|] == After(s, path)
    ensures forall i :: 0 <= i < |path| ==> states[i + 1] == Advanced(states[i], path[i].0, path[i].1)
    decreases |path|
  {
    hide Advanced;
    if path == [] {
      states := [s];
    } else {
      var rest := PathRuns(Advanced(s, path[0].0, path[0].1), path[1..]);
      states := [s] + rest;
      forall i | 0 <= i < |path| ensures states[i + 1] == Advanced(states[i], path[i].0, path[i].1) {
        if i > 0 {
          assert states[i + 1] == rest[i] && states[i] == rest[i - 1] && path[1..][i - 1] == path[i];
        }
      }
    }
  }

  // ----- single steps -----

  lemma GotoTwice(s: State, c: Cpu, a: Where, b: Where)
    ensures s.Goto(c, a).Goto(c, b) == s.Goto(c, b) && s.Goto(c, a).At(c) == a
  {
    assert s.at[c := a][c := b] == s.at[c := b];
  }

  lemma LookedStep(s: State, c: Cpu, ch: Choice, key: Key, base: Key)
    requires s.At(c) == Looked(key, base, Nowhere) && !ch.detach && !base.policy.host
    ensures Advanced(s, c, ch) == s.Goto(c, Detached(key, base, Nowhere))
  {
    LookStep(s, c, ch);
    hide Advanced;
  }

  /** A CPU looks for a target of an indirect branch and finds nothing. */
  lemma LooksInVain(s0: State, s: State, c: Cpu, key: Key)
    requires Leads(s0, s) && s.At(c).Idle? && key !in s.cache && BaseKey(key, false) !in s.cache
    ensures Leads(s0, s.Goto(c, Detached(key, BaseKey(key, false), Nowhere)))
  {
    var base := BaseKey(key, false);
    assert !base.policy.host;
    hide Leads, Advanced, BaseKey;
    var ch := Choice(key, false, false, false, 0, 0, [], true);
    LeadsOn(s0, s, c, ch);
    IdleNext(s, c, ch);
    var s1 := s.Goto(c, Called(key));
    LeadsOn(s0, s1, c, ch);
    CalledNext(s1, c, ch, key);
    GotoTwice(s, c, Called(key), Missed(key));
    var s2 := s.Goto(c, Missed(key));
    LeadsOn(s0, s2, c, ch);
    MissedNext(s2, c, ch, key);
    GotoTwice(s, c, Missed(key), Based(key, base, Nowhere));
    var s3 := s.Goto(c, Based(key, base, Nowhere));
    LeadsOn(s0, s3, c, ch);
    BasedNext(s3, c, ch, key, base, Nowhere);
    GotoTwice(s, c, Based(key, base, Nowhere), Looked(key, base, Nowhere));
    var s4 := s.Goto(c, Looked(key, base, Nowhere));
    LeadsOn(s0, s4, c, ch);
    LookedStep(s4, c, ch, key, base);
    GotoTwice(s, c, Looked(key, base, Nowhere), Detached(key, base, Nowhere));
  }

  // ----- a translation of two blocks -----

  lemma DetachedStep(s: State, c: Cpu, ch: Choice, key: Key, base: Key)
    requires s.At(c) == Detached(key, base, Nowhere) && ch.arena !in s.locks
    ensures Advanced(s, c, ch) ==
            s.Goto(c, Locked(Call(key, base, ch.arena), Nowhere)).(locks := s.locks[ch.arena := c])
  {
    LookStep(s, c, ch);
    hide Advanced;
  }

  lemma LockedStep(s: State, c: Cpu, ch: Choice, call: Call)
    requires s.At(c) == Locked(call, Nowhere)
    ensures var s' := Advanced(s, c, ch);
            && s'.At(c) == Translating(call, s.translations, Began) && OthersAt(s, s', c)
            && s' == s.(at := s'.at, translations := s'.translations, lastFrag := s'.lastFrag,
                        stubs := s'.stubs, blocks := s'.blocks)
  {
    LookStep(s, c, ch);
    hide Advanced;
  }

  ghost predicate OthersAt(s: State, s': State, c: Cpu) { forall d: Cpu :: d != c ==> s'.At(d) == s.At(d) }

  /** A step inside a translation that does not touch the table. */
  ghost predicate Emits(s: State, s': State, c: Cpu, phase: Phase) {
    && s.At(c).Translating? && s'.At(c) == s.At(c).(phase := phase) && OthersAt(s, s', c)
    && s' == s.(at := s'.at, frags := s'.frags, lastFrag := s'.lastFrag, committed := s'.committed)
  }

  lemma BeganStep(s: State, c: Cpu, ch: Choice)
    requires s.At(c).Translating? && s.At(c).phase.Began? && ch.yes && ch.id !in s.frags
    ensures var s' := Advanced(s, c, ch);
            && Emits(s, s', c, Reserved(ch.id)) && s'.frags.Keys == s.frags.Keys + {ch.id}
            && s.At(c).call.arena in s'.lastFrag && s'.lastFrag[s.At(c).call.arena] == ch.id
  {
    EmitStep(s, c, ch);
    hide Advanced;
  }

  lemma ReservedStep(s: State, c: Cpu, ch: Choice, f: nat)
    requires s.At(c).Translating? && s.At(c).phase == Reserved(f)
    requires s.At(c).call.arena in s.lastFrag && s.lastFrag[s.At(c).call.arena] == f
    ensures var s' := Advanced(s, c, ch); Emits(s, s', c, Rewound) && s'.frags.Keys == s.frags.Keys - {f}
  {
    EmitStep(s, c, ch);
    hide Advanced;
  }

  lemma RewoundStep(s: State, c: Cpu, ch: Choice)
    requires s.At(c).Translating? && s.At(c).phase.Rewound? && ch.id !in s.frags
    requires IsTrace(ch.trace, s.At(c).call.base)
    ensures var s' := Advanced(s, c, ch);
            && Emits(s, s', c, Allocated(ch.id)) && s'.frags.Keys == s.frags.Keys + {ch.id}
            && s'.frags[ch.id].blocks == ch.trace
  {
    EmitStep(s, c, ch);
    hide Advanced, IsTrace;
  }

  lemma AllocatedStep(s: State, c: Cpu, ch: Choice, f: nat)
    requires s.At(c).Translating? && s.At(c).phase == Allocated(f) && !ch.yes
    ensures var s' := Advanced(s, c, ch); Emits(s, s', c, Stubbed(f)) && s'.frags == s.frags
  {
    EmitStep(s, c, ch);
    hide Advanced;
  }

  lemma StubbedStep(s: State, c: Cpu, ch: Choice, f: nat)
    requires s.At(c).Translating? && s.At(c).phase == Stubbed(f) && f in s.frags
    ensures var s' := Advanced(s, c, ch);
            && Emits(s, s', c, Encoded(f, 1)) && s'.frags.Keys == s.frags.Keys
            && s'.frags[f].blocks == s.frags[f].blocks
  {
    EmitStep(s, c, ch);
    hide Advanced;
  }

  lemma AddStep(s: State, c: Cpu, ch: Choice, f: nat)
    requires s.At(c).Translating? && s.At(c).phase == Encoded(f, 1) && f in s.frags && |s.frags[f].blocks| == 2
    ensures var s' := Advanced(s, c, ch);
            && s'.At(c) == s.At(c).(phase := Encoded(f, 2)) && OthersAt(s, s', c)
            && s' == s.(at := s'.at, cache := s.cache[s.frags[f].blocks[1] := Code(f, 1)])
  {
    PublishStep(s, c, ch);
    hide Advanced;
  }

  lemma StoreStep(s: State, c: Cpu, ch: Choice, f: nat)
    requires s.At(c).Translating? && s.At(c).phase == Encoded(f, 2) && f in s.frags && |s.frags[f].blocks| == 2
    ensures var s', call := Advanced(s, c, ch), s.At(c).call;
            && s'.At(c) == Unlocking(call, Code(f, 0)) && OthersAt(s, s', c)
            && s' == s.(at := s'.at, cache := s.cache[call.base := Code(f, 0)], committed := s'.committed)
  {
    PublishStep(s, c, ch);
    hide Advanced;
  }

  lemma UnlockingStep(s: State, c: Cpu, ch: Choice, call: Call, addr: Addr)
    requires s.At(c) == Unlocking(call, addr)
    ensures Advanced(s, c, ch) == s.Goto(c, Unlocked(call.key, addr)).(locks := s.locks - {call.arena})
  {
    ExitStep(s, c, ch);
    hide Advanced;
  }

  lemma IblLockedStep(s: State, c: Cpu, ch: Choice, key: Key, addr: Addr)
    requires s.At(c) == IblLocked(key, addr) && ch.id !in s.exits
    ensures Advanced(s, c, ch) ==
            s.Goto(c, Routed(key, Exit(ch.id))).(exits := s.exits[ch.id := CodeCache.Routine(key, addr)])
  {
    ExitStep(s, c, ch);
    hide Advanced;
  }

  lemma IblUnlockingStep(s: State, c: Cpu, ch: Choice, key: Key, addr: Addr)
    requires s.At(c) == IblUnlocking(key, addr)
    ensures Advanced(s, c, ch) == s.Goto(c, Done(key, addr)).(iblHeld := false)
  {
    ExitStep(s, c, ch);
    hide Advanced;
  }

  /** The CPU has locked its allocator and translates `call`. */
  lemma Locks(s0: State, s: State, c: Cpu, key: Key, base: Key, arena: nat) returns (s': State)
    requires Leads(s0, s) && s.At(c) == Detached(key, base, Nowhere) && arena !in s.locks
    ensures Leads(s0, s') && OthersAt(s, s', c)
    ensures s'.At(c).Translating? && s'.At(c).call == Call(key, base, arena) && s'.At(c).phase.Began?
    ensures s' == s.(at := s'.at, locks := s.locks[arena := c], translations := s'.translations,
                     lastFrag := s'.lastFrag, stubs := s'.stubs, blocks := s'.blocks)
  {
    hide Leads, Advanced;
    var ch := Choice(key, false, false, false, arena, 0, [], false);
    LeadsOn(s0, s, c, ch);
    DetachedStep(s, c, ch, key, base);
    var s1 := Advanced(s, c, ch);
    LeadsOn(s0, s1, c, ch);
    LockedStep(s1, c, ch, Call(key, base, arena));
    s' := Advanced(s1, c, ch);
  }

  /** It emits a trace of two blocks at `f`. */
  lemma EmitsTrace(s0: State, s: State, c: Cpu, f: nat, trace: seq<Key>) returns (s': State)
    requires Leads(s0, s) && s.At(c).Translating? && s.At(c).phase.Began? && f !in s.frags
    requires IsTrace(trace, s.At(c).call.base)
    ensures Leads(s0, s') && Emits(s, s', c, Encoded(f, 1))
    ensures s'.frags.Keys == s.frags.Keys + {f} && s'.frags[f].blocks == trace
  {
    hide Leads, Advanced, IsTrace;
    var ch := Choice(s.At(c).call.key, false, false, false, 0, f, trace, true);
    LeadsOn(s0, s, c, ch);
    BeganStep(s, c, ch);
    var s1 := Advanced(s, c, ch);
    LeadsOn(s0, s1, c, ch);
    ReservedStep(s1, c, ch, f);
    var s2 := Advanced(s1, c, ch);
    LeadsOn(s0, s2, c, ch);
    RewoundStep(s2, c, ch);
    var s3 := Advanced(s2, c, ch);
    LeadsOn(s0, s3, c, ch.(yes := false));
    AllocatedStep(s3, c, ch.(yes := false), f);
    var s4 := Advanced(s3, c, ch.(yes := false));
    LeadsOn(s0, s4, c, ch);
    StubbedStep(s4, c, ch, f);
    s' := Advanced(s4, c, ch);
    assert s'.frags.Keys == s.frags.Keys + {f};
  }

  /** It stores both blocks and unlocks. */
  lemma Publishes(s0: State, s: State, c: Cpu, f: nat) returns (s': State)
    requires Leads(s0, s) && s.At(c).Translating? && s.At(c).phase == Encoded(f, 1)
    requires f in s.frags && |s.frags[f].blocks| == 2
    ensures Leads(s0, s') && s'.At(c) == Unlocked(s.At(c).call.key, Code(f, 0)) && OthersAt(s, s', c)
    ensures s' == s.(at := s'.at, cache := s'.cache, committed := s'.committed, locks := s.locks - {s.At(c).call.arena})
  {
    hide Leads, Advanced;
    var call := s.At(c).call;
    var ch := Choice(call.key, false, false, false, 0, f, [], true);
    LeadsOn(s0, s, c, ch);
    AddStep(s, c, ch, f);
    var s1 := Advanced(s, c, ch);
    LeadsOn(s0, s1, c, ch);
    StoreStep(s1, c, ch, f);
    var s2 := Advanced(s1, c, ch);
    LeadsOn(s0, s2, c, ch);
    UnlockingStep(s2, c, ch, call, Code(f, 0));
    s' := Advanced(s2, c, ch);
  }

  /** It adds an exit routine ... */
  lemma Routes(s0: State, s: State, c: Cpu, key: Key, addr: Addr, r: nat) returns (s': State)
    requires Leads(s0, s) && s.At(c) == Unlocked(key, addr) && key.policy.WantsExit() && !s.iblHeld && r !in s.exits
    ensures Leads(s0, s') && OthersAt(s, s', c) && s'.At(c) == Routed(key, Exit(r))
    ensures s' == s.(at := s'.at, exits := s.exits[r := CodeCache.Routine(key, addr)], iblHeld := true)
  {
    hide Leads, Advanced;
    var ch := Choice(key, false, false, false, 0, r, [], true);
    LeadsOn(s0, s, c, ch);
    UnlockedWaits(s, c, ch, key, addr);
    var s1 := Advanced(s, c, ch);
    LeadsOn(s0, s1, c, ch);
    IblLockedStep(s1, c, ch, key, addr);
    s' := Advanced(s1, c, ch);
  }

  /** ... and releases the lock of the jump table. */
  lemma Releases(s0: State, s: State, c: Cpu, key: Key, addr: Addr) returns (s': State)
    requires Leads(s0, s) && s.At(c) == Routed(key, addr)
    ensures Leads(s0, s') && OthersAt(s, s', c) && s' == s.(at := s'.at, cache := s'.cache, iblHeld := false)
  {
    hide Leads, Advanced, Entry;
    var ch := Choice(key, false, false, false, 0, 0, [], true);
    LeadsOn(s0, s, c, ch);
    RoutedNext(s, c, ch, key, addr);
    var s1 := Advanced(s, c, ch);
    LeadsOn(s0, s1, c, ch);
    IblUnlockingStep(s1, c, ch, key, Entry(s, key, addr));
    s' := Advanced(s1, c, ch);
  }

  /** All of it: from a failed lookup to an exit routine for code of its own. */
  lemma Serves(s0: State, s: State, c: Cpu, key: Key, base: Key, arena: nat, f: nat, r: nat) returns (s': State)
    requires Leads(s0, s) && s.At(c) == Detached(key, base, Nowhere) && key.policy.WantsExit() && IsBase(base.policy)
    requires s.locks == map[] && f !in s.frags && !s.iblHeld && r !in s.exits
    ensures Leads(s0, s') && OthersAt(s, s', c)
    ensures s'.exits == s.exits[r := CodeCache.Routine(key, Code(f, 0))]
    ensures s'.locks == map[] && s'.frags.Keys == s.frags.Keys + {f} && !s'.iblHeld
  {
    var trace := [base, base.(pc := base.pc + 1)];
    assert IsTrace(trace, base);
    hide Leads, IsTrace, IsBase;
    var s1 := Locks(s0, s, c, key, base, arena);
    var s2 := EmitsTrace(s0, s1, c, f, trace);
    var s3 := Publishes(s0, s2, c, f);
    var s4 := Routes(s0, s3, c, key, Code(f, 0), r);
    s' := Releases(s0, s4, c, key, Exit(r));
    assert map[arena := c] - {arena} == map[];
  }

  /** Two CPUs that miss on one key at the same time both translate it, and each adds an exit
      routine for its own translation. */
  lemma TargetsMayDiffer() returns (states: seq<State>, steps: seq<(Cpu, Choice)>)
    ensures Run(states, steps)
    ensures var exits := states[|steps|].exits;
            0 in exits && 1 in exits && exits[0].key == exits[1].key && exits[0].target != exits[1].target
  {
    var s0 := State(false, map[], map[], map[], map[], map[], map[], map[], false, map[], 0, {});
    var key := Key(0, Fields(false, true, false, false, false, false, false, false, 0));
    var base := BaseKey(key, false);
    assert After(s0, []) == s0;
    LooksInVain(s0, s0, 0, key);
    var s1 := s0.Goto(0, Detached(key, base, Nowhere));
    LooksInVain(s0, s1, 1, key);
    var s2 := s1.Goto(1, Detached(key, base, Nowhere));
    var s3 := Serves(s0, s2, 0, key, base, 0, 0, 0);
    var s4 := Serves(s0, s3, 1, key, base, 1, 1, 1);
    steps :| After(s0, steps) == s4;
    states := PathRuns(s0, steps);
  }
}
