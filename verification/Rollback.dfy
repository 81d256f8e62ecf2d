/** What the rollback of a translation that comes second gives back: besides its code, its stubs
    and the state of its block. */
module Rollback {
  import opened Policy
  import opened CodeCache
  import opened Publication

  /** What a translation has in an allocator. */
  function Own(a: Arena, txn: nat): set<nat> { set id | id in a.live && a.live[id] == txn }

  predicate Below(a: Arena, n: nat) { forall id :: id in a.live ==> a.live[id] < n }

  predicate HasStubs(phase: Phase) { phase.Stubbed? || phase.Encoded? || phase.Lost? || phase.LostFrag? }

  /** A translation allocates its stubs at once, and they are the last allocation until they are
      given back. */
  predicate StubsOk(a: Arena, txn: nat, phase: Phase) {
    if HasStubs(phase) then
      Own(a, txn) <= if a.last.Id? then {a.last.id} else {}
    else Own(a, txn) == {}
  }

  /** The last state of a block that it has allocated is the last allocation until then. */
  predicate BlocksOk(a: Arena, txn: nat, phase: Phase) {
    if phase.LostBlocks? then a.last == NoId
    else Own(a, txn) != {} ==> a.last.Id? && a.last.id in Own(a, txn)
  }

  ghost predicate RollOk(s: State, c: Cpu) {
    && Below(s.Stubs(c), s.translations) && Below(s.Blocks(c), s.translations)
    && (s.At(c).Translating? ==>
          && StubsOk(s.Stubs(c), s.At(c).txn, s.At(c).phase) && BlocksOk(s.Blocks(c), s.At(c).txn, s.At(c).phase))
  }

  // ----- allocators -----

  lemma FreshIsEmpty(a: Arena, n: nat)
    requires Below(a, n)
    ensures Own(a, n) == {} && Own(a.Staged(), n) == {} && Below(a.Staged(), n + 1) && Below(a, n + 1)
  {
  }

  lemma AllocatedOwn(a: Arena, id: nat, txn: nat, n: nat)
    requires id !in a.live && Below(a, n) && txn < n
    ensures Own(a.Allocated(id, txn), txn) == Own(a, txn) + {id} && Below(a.Allocated(id, txn), n)
  {
  }

  lemma FreedOwn(a: Arena, txn: nat, n: nat)
    requires Below(a, n)
    ensures Own(a.FreedLast(), txn) == Own(a, txn) - (if a.last.Id? then {a.last.id} else {})
    ensures Below(a.FreedLast(), n) && a.FreedLast().last == NoId
  {
  }

  // ----- steps -----

  lemma BeginsNext(s: State, c: Cpu, ch: Choice, call: Call)
    requires s.At(c) == Locked(call, Nowhere)
    ensures var s' := Advanced(s, c, ch);
            && s'.At(c) == Translating(call, s.translations, Began) && s'.translations == s.translations + 1
            && s'.Stubs(c) == s.Stubs(c).Staged() && s'.Blocks(c) == s.Blocks(c).Staged()
  {
    LookStep(s, c, ch);
    hide Advanced;
  }

  /** A block state is allocated. */
  lemma BlockNext(s: State, c: Cpu, ch: Choice)
    requires s.At(c).Translating? && s.At(c).phase.Began? && !ch.yes && ch.id !in s.Blocks(c).live
    ensures var s' := Advanced(s, c, ch);
            && s'.At(c) == s.At(c) && s'.translations == s.translations && s'.Stubs(c) == s.Stubs(c)
            && s'.Blocks(c) == s.Blocks(c).Allocated(ch.id, s.At(c).txn)
  {
    EmitStep(s, c, ch);
    hide Advanced;
  }

  /** The step before the room for the code is known. */
  lemma BeganNext(s: State, c: Cpu, ch: Choice)
    requires s.At(c).Translating? && s.At(c).phase.Began? && (ch.yes || ch.id in s.Blocks(c).live)
    ensures var s' := Advanced(s, c, ch);
            && SameArenas(s, s') && (s'.At(c) == s.At(c) || s'.At(c) == s.At(c).(phase := Reserved(ch.id)))
  {
    EmitStep(s, c, ch);
    hide Advanced;
  }

  lemma StubNext(s: State, c: Cpu, ch: Choice, f: nat)
    requires s.At(c).Translating? && s.At(c).phase == Allocated(f) && ch.yes && ch.id !in s.Stubs(c).live
    ensures var s' := Advanced(s, c, ch);
            && s'.At(c) == s.At(c).(phase := Stubbed(f)) && s'.translations == s.translations
            && s'.Stubs(c) == s.Stubs(c).Allocated(ch.id, s.At(c).txn) && s'.Blocks(c) == s.Blocks(c)
  {
    EmitStep(s, c, ch);
    hide Advanced;
  }

  lemma NoStubNext(s: State, c: Cpu, ch: Choice, f: nat)
    requires s.At(c).Translating? && s.At(c).phase == Allocated(f) && (!ch.yes || ch.id in s.Stubs(c).live)
    ensures var s' := Advanced(s, c, ch);
            SameArenas(s, s') && (s'.At(c) == s.At(c) || s'.At(c) == s.At(c).(phase := Stubbed(f)))
  {
    EmitStep(s, c, ch);
    hide Advanced;
  }

  lemma StubbedNext(s: State, c: Cpu, ch: Choice, f: nat)
    requires s.At(c).Translating? && s.At(c).phase == Stubbed(f)
    ensures var s' := Advanced(s, c, ch); s'.At(c) == s.At(c) || s'.At(c) == s.At(c).(phase := Encoded(f, 1))
  {
    EmitStep(s, c, ch);
    hide Advanced;
  }

  // ----- every step keeps it -----

  lemma RollBegins(s: State, s': State, c: Cpu, ch: Choice, call: Call)
    requires RollOk(s, c) && s.At(c) == Locked(call, Nowhere) && s' == Advanced(s, c, ch)
    ensures RollOk(s', c)
  {
    hide Advanced, Own, Below;
    BeginsNext(s, c, ch, call);
    FreshIsEmpty(s.Stubs(c), s.translations);
    FreshIsEmpty(s.Blocks(c), s.translations);
  }

  lemma RollBegan(s: State, s': State, c: Cpu, ch: Choice)
    requires RollOk(s, c) && s.At(c).Translating? && s.At(c).phase.Began? && s.At(c).txn < s.translations
    requires s' == Advanced(s, c, ch)
    ensures RollOk(s', c)
  {
    hide Advanced, Own, Below;
    if !ch.yes && ch.id !in s.Blocks(c).live {
      BlockNext(s, c, ch);
      AllocatedOwn(s.Blocks(c), ch.id, s.At(c).txn, s.translations);
    } else {
      BeganNext(s, c, ch);
    }
  }

  lemma RollStubs(s: State, s': State, c: Cpu, ch: Choice, f: nat)
    requires RollOk(s, c) && s.At(c).Translating? && s.At(c).phase == Allocated(f) && s.At(c).txn < s.translations
    requires s' == Advanced(s, c, ch)
    ensures RollOk(s', c)
  {
    hide Advanced, Own, Below;
    if ch.yes && ch.id !in s.Stubs(c).live {
      StubNext(s, c, ch, f);
      AllocatedOwn(s.Stubs(c), ch.id, s.At(c).txn, s.translations);
    } else {
      NoStubNext(s, c, ch, f);
    }
  }

  lemma RollLosing(s: State, s': State, c: Cpu, ch: Choice)
    requires RollOk(s, c) && s.At(c).Translating? && (s.At(c).phase.LostFrag? || s.At(c).phase.LostStubs?)
    requires s' == Advanced(s, c, ch)
    ensures RollOk(s', c)
  {
    hide Advanced, Own, Below;
    var w := s.At(c);
    FreedOwn(s.Stubs(c), w.txn, s.translations);
    FreedOwn(s.Blocks(c), w.txn, s.translations);
    if w.phase.LostFrag? {
      LostFragNext(s, c, ch, w);
    } else {
      LostStubsNext(s, c, ch, w);
    }
  }

  /** The other steps do not lead back to before the stubs. */
  lemma RollPhase(s: State, c: Cpu, ch: Choice)
    requires Inv(s) && s.At(c).Translating? && !s.At(c).Allocates()
    ensures var w, w' := s.At(c), Advanced(s, c, ch).At(c);
            w'.Translating? ==>
              w'.txn == w.txn && !w'.phase.LostBlocks? && (HasStubs(w.phase) ==> HasStubs(w'.phase))
  {
    hide Advanced, Inv;
    var w := s.At(c);
    match w.phase {
      case Encoded(f, added) =>
        EncodedIs(s, c);
        EncodedLeads(s, c, ch, f, added);
      case Lost(f) => LostCode(s, c, ch, w, f);
      case Stubbed(f) => StubbedNext(s, c, ch, f);
      case LostBlocks =>
        LostHasEntry(s, c);
        LostNext(s, c, ch, w.call, w.txn);
        GoneTo(s, c, Unlocking(w.call, s.cache[w.call.base]));
      case _ => EmitNext(s, c, ch);
    }
  }

  lemma RollSame(s: State, s': State, c: Cpu)
    requires RollOk(s, c) && SameArenas(s, s')
    requires s'.At(c).Translating? ==>
               && s.At(c).Translating? && s'.At(c).txn == s.At(c).txn && !s'.At(c).phase.LostBlocks?
               && !s.At(c).phase.LostBlocks? && (HasStubs(s.At(c).phase) ==> HasStubs(s'.At(c).phase))
    ensures RollOk(s', c)
  {
    hide Own, Below;
  }

  /** A step that allocates nothing. */
  lemma RollMoves(s: State, s': State, c: Cpu, ch: Choice)
    requires Inv(s) && RollOk(s, c) && s' == Advanced(s, c, ch) && !s.At(c).Allocates()
    ensures RollOk(s', c)
  {
    hide Advanced, Inv, RollOk, SameArenas;
    var w := s.At(c);
    if w.Translating? {
      RollPhase(s, c, ch);
      if w.phase.LostBlocks? { LostBlocksLeads(s, c, ch); }
    } else if w.Idle? || w.Done? {
      IdleCarriesNone(s, c, ch);
    } else if Exits(w) {
      ExitLeads(s, c, ch);
    } else {
      LookLeads(s, c, ch);
    }
    RollSame(s, s', c);
  }

  lemma LostBlocksLeads(s: State, c: Cpu, ch: Choice)
    requires Inv(s) && s.At(c).Translating? && s.At(c).phase.LostBlocks?
    ensures Advanced(s, c, ch).At(c).Unlocking?
  {
    hide Advanced, Inv;
    var w := s.At(c);
    LostHasEntry(s, c);
    LostNext(s, c, ch, w.call, w.txn);
    GoneTo(s, c, Unlocking(w.call, s.cache[w.call.base]));
  }

  lemma RollNext(s: State, s': State, c: Cpu, ch: Choice)
    requires Inv(s) && RollOk(s, c) && s' == Advanced(s, c, ch)
    ensures RollOk(s', c)
  {
    TxnBelow(s, c);
    hide Advanced, Inv, RollOk;
    var w := s.At(c);
    if !w.Allocates() {
      RollMoves(s, s', c, ch);
    } else if w.Locked? {
      RollBegins(s, s', c, ch, w.call);
    } else if w.phase.Began? {
      RollBegan(s, s', c, ch);
    } else if w.phase.Allocated? {
      RollStubs(s, s', c, ch, w.phase.frag);
    } else {
      RollLosing(s, s', c, ch);
    }
  }

  lemma RollOther(s: State, c: Cpu, ch: Choice, d: Cpu)
    requires Inv(s) && c != d && RollOk(s, d)
    ensures RollOk(Advanced(s, c, ch), d)
  {
    hide Advanced, Inv, Kept, FragsApart, LastApart, CpuOk, LockOk, FragsOk, FreesOwn, StubsOk, BlocksOk;
    AdvancedIsSound(s, c, ch);
  }

  lemma {:induction false} RunKeepsRoll(states: seq<State>, steps: seq<(Cpu, Choice)>, k: nat, c: Cpu)
    requires Run(states, steps) && k < |states|
    ensures RollOk(states[k], c)
  {
    hide Advanced, Inv, RollOk;
    if k == 0 {
      RollStarts(states[0], c);
    } else {
      RunKeepsRoll(states, steps, k - 1, c);
      RunKeepsInv(states, steps, k - 1);
      var d, ch := steps[k - 1].0, steps[k - 1].1;
      if d == c {
        RollNext(states[k - 1], states[k], c, ch);
      } else {
        RollOther(states[k - 1], d, ch, c);
      }
    }
  }

  lemma RollStarts(s: State, c: Cpu)
    requires Init(s)
    ensures RollOk(s, c)
  {
  }

  // ----- result -----

  /** In every run, a translation that lost has given back its stubs, and the last state of a
      block that it allocated: all of them, if it had one. */
  lemma RollbackGivesBack(states: seq<State>, steps: seq<(Cpu, Choice)>, k: nat)
    requires Run(states, steps) && k < |steps|
    requires var w := states[k].At(steps[k].0); w.Translating? && w.phase.LostStubs?
    ensures var c, s, s' := steps[k].0, states[k], states[k + 1];
            var txn := s.At(c).txn;
            && Own(s'.Stubs(c), txn) == {} && |Own(s'.Blocks(c), txn)| <= |Own(s.Blocks(c), txn)|
            && (Own(s.Blocks(c), txn) != {} ==> |Own(s'.Blocks(c), txn)| == |Own(s.Blocks(c), txn)| - 1)
  {
    hide Advanced, Inv, Own, Below;
    var c, s := steps[k].0, states[k];
    RunKeepsRoll(states, steps, k, c);
    LostStubsNext(s, c, steps[k].1, s.At(c));
    FreedOwn(s.Blocks(c), s.At(c).txn, s.translations);
  }
}
