/** `code_cache::find` on many CPUs: lookup, translation, publication and rollback.

    Each CPU takes its own steps through `find` and `basic_block::translate`.  The code
    cache table and the bump allocators are shared or private as in the source; a step reads
    or writes one of them once. */
module CodeCache {
  import opened Policy

  type Cpu = nat

  /** A mangled address: an application address and a policy. */
  datatype Key = Key(pc: int, policy: Fields<int>)

  /** What a table entry or a result of `find` names. */
  datatype Addr =
    | Native(pc: int)               // the application address itself
    | Detach(pc: int)               // the detach target of an application address
    | Code(frag: nat, block: nat)   // a block of an emitted fragment
    | Exit(routine: nat)            // the label of an indirect branch exit routine
    | Custom(key: Key)              // what a dynamic wrapper registered for a key

  datatype MaybeAddr = Nowhere | To(addr: Addr)

  /** An exit routine compares the runtime key with `key` and jumps to `target`. */
  datatype Routine = Routine(key: Key, target: Addr)

  /** Bytes of a fragment allocator, and the blocks encoded there, once they are. */
  datatype Frag = Frag(arena: nat, owner: nat, blocks: seq<Key>, encoded: bool)

  datatype MaybeId = NoId | Id(id: nat)

  /** A bump allocator as `free_last` sees it: the live allocations, each with the
      translation that made it, and the last one. */
  datatype Arena = Arena(live: map<nat, nat>, last: MaybeId)
  {
    function Staged(): Arena { this.(last := NoId) }
    function Allocated(id: nat, owner: nat): Arena { Arena(live[id := owner], Id(id)) }
    function FreedLast(): Arena { Arena(if last.Id? then live - {last.id} else live, NoId) }
  }

  const EMPTY := Arena(map[], NoId)

  /** The part of a call of `find` that is fixed once the allocator is locked. */
  datatype Call = Call(key: Key, base: Key, arena: nat)

  datatype Phase =
    | Began                          // no allocator remembers an earlier allocation
    | Reserved(frag: nat)            // room for the worst case is allocated
    | Rewound                        // ... and given back
    | Allocated(frag: nat)           // the exact room is allocated
    | Stubbed(frag: nat)             // the stubs are allocated, if there are any
    | Encoded(frag: nat, added: nat) // the code is written, `added` blocks are in the table
    | Lost(frag: nat)                // another block was there first
    | LostFrag | LostStubs | LostBlocks
  {
    predicate Holds(f: nat) {
      (Reserved? || Allocated? || Stubbed? || Encoded? || Lost?) && frag == f
    }
    predicate Losing() { Lost? || LostFrag? || LostStubs? || LostBlocks? }
  }

  datatype Where =
    | Idle
    | Called(key: Key)
    | Missed(key: Key)
    | Based(key: Key, base: Key, target: MaybeAddr)
    | Looked(key: Key, base: Key, target: MaybeAddr)
    | Detached(key: Key, base: Key, target: MaybeAddr)
    | Locked(call: Call, target: MaybeAddr)
    | Translating(call: Call, txn: nat, phase: Phase)
    | Unlocking(call: Call, addr: Addr)
    | Unlocked(key: Key, addr: Addr)
    | IblLocked(key: Key, addr: Addr)
    | Routed(key: Key, addr: Addr)
    | IblUnlocking(key: Key, addr: Addr)
    | Done(key: Key, addr: Addr)
  {
    predicate HasLock() { Locked? || Translating? || Unlocking? }
    /** A translation that goes on, up to its code. */
    predicate GoesOn(w: Where) {
      && Translating? && w.Translating? && w.call == call && w.txn == txn && !w.phase.Losing()
      && (w.phase.Encoded? ==> w.phase.added == 1)
    }
    /** The next step may change a stub or block allocator. */
    predicate Allocates() {
      || (Locked? && target.Nowhere?)
      || (Translating? && (phase.Began? || phase.Allocated? || phase.LostFrag? || phase.LostStubs?))
    }
    predicate HasArena(arena: nat) { HasLock() && call.arena == arena }
  }

  /** `committed` is a history variable: the fragments that can no longer be rolled back. */
  datatype State = State(
    instrumentHost: bool,
    cache: map<Key, Addr>, exits: map<nat, Routine>,
    frags: map<nat, Frag>, lastFrag: map<nat, nat>, locks: map<nat, Cpu>,
    stubs: map<Cpu, Arena>, blocks: map<Cpu, Arena>,
    iblHeld: bool, at: map<Cpu, Where>, translations: nat, committed: set<nat>)
  {
    function At(c: Cpu): Where { if c in at then at[c] else Idle }
    function Stubs(c: Cpu): Arena { if c in stubs then stubs[c] else EMPTY }
    function Blocks(c: Cpu): Arena { if c in blocks then blocks[c] else EMPTY }
    function Goto(c: Cpu, w: Where): State { this.(at := at[c := w]) }
    /** `load` of the code cache table */
    function Load(k: Key): MaybeAddr { if k in cache then To(cache[k]) else Nowhere }
    /** An allocation from a fragment allocator */
    function NewFrag(f: nat, frag: Frag): State {
      this.(frags := frags[f := frag], lastFrag := lastFrag[frag.arena := f])
    }
    /** `free_last` of a fragment allocator */
    function FreedLastFrag(arena: nat): State {
      this.(frags := if arena in lastFrag then frags - {lastFrag[arena]} else frags, lastFrag := lastFrag - {arena})
    }
  }

  predicate Init(s: State) {
    && s.cache == map[] && s.exits == map[] && s.frags == map[] && s.lastFrag == map[] && s.locks == map[]
    && s.stubs == map[] && s.blocks == map[] && !s.iblHeld && s.at == map[] && s.committed == {}
  }

  predicate SameArenas(s: State, s': State) {
    s'.stubs == s.stubs && s'.blocks == s.blocks && s'.translations == s.translations
  }

  predicate IsBase(p: Fields<int>) { p.Base() == p }

  /** The key under which a target is translated, in the context its address is in. */
  function BaseKey(key: Key, host: bool): Key {
    Key(key.pc, key.policy.(host := host).Base())
  }

  /** What the rest of the system decides at a step: the key that `find` is called with;
      whether the address is inside the code cache, wrappers or generated code; whether it
      is a host address; whether it has a detach target; the fragment allocator in use; the
      address an allocation returns; the blocks of a trace; and one more yes or no. */
  datatype Choice = Choice(key: Key, own: bool, host: bool, detach: bool, arena: nat, id: nat,
                           trace: seq<Key>, yes: bool)

  /** The block asked for comes first, and the others have policies made by
      `inherit_properties`. */
  predicate IsTrace(trace: seq<Key>, base: Key) {
    |trace| > 0 && trace[0] == base && forall i :: 0 <= i < |trace| ==> IsBase(trace[i].policy)
  }

  /** `find` up to the point where the allocator is locked. */
  function LookedUp(s: State, c: Cpu, ch: Choice): (s': State)
    ensures s'.exits == s.exits && (!s.At(c).Allocates() ==> SameArenas(s, s'))
  {
    match s.At(c)
    case Called(key) =>
      s.Goto(c, if key in s.cache then Done(key, s.cache[key]) else Missed(key))
    case Missed(key) =>
      s.Goto(c, Based(key, BaseKey(key, ch.host), if ch.own then To(Native(key.pc)) else Nowhere))
    case Based(key, base, target) =>
      s.Goto(c, Looked(key, base, if target.Nowhere? && base != key then s.Load(base) else target))
    case Looked(key, base, target) =>
      s.Goto(c, Detached(key, base,
        if target.To? || key.policy.forceAttach then target
        else if ch.detach then To(Detach(key.pc))
        else if !s.instrumentHost && !key.policy.host && base.policy.host then To(Native(key.pc))
        else Nowhere))
    case Detached(key, base, target) =>
      if ch.arena in s.locks then s
      else s.Goto(c, Locked(Call(key, base, ch.arena), target)).(locks := s.locks[ch.arena := c])
    case Locked(call, target) =>
      if target.To? then s.Goto(c, Unlocking(call, target.addr))
      else
        s.Goto(c, Translating(call, s.translations, Began)).(
          translations := s.translations + 1,
          lastFrag := s.lastFrag - {call.arena},
          stubs := s.stubs[c := s.Stubs(c).Staged()],
          blocks := s.blocks[c := s.Blocks(c).Staged()])
    case _ => s
  }

  /** `basic_block::translate` up to the encoding of its code. */
  function Emitted(s: State, c: Cpu, ch: Choice): (s': State)
    requires s.At(c).Translating?
    ensures s'.exits == s.exits && s'.cache == s.cache && (!s.At(c).Allocates() ==> SameArenas(s, s'))
    ensures !s.At(c).phase.Encoded? && !s.At(c).phase.Losing() ==> s.At(c).GoesOn(s'.At(c))
  {
    var w := s.At(c);
    var arena := w.call.arena;
    match w.phase
    case Began =>
      if ch.yes then
        if ch.id in s.frags then s
        else s.NewFrag(ch.id, Frag(arena, w.txn, [], false)).Goto(c, w.(phase := Reserved(ch.id)))
      else if ch.id in s.Blocks(c).live then s
      else s.(blocks := s.blocks[c := s.Blocks(c).Allocated(ch.id, w.txn)]).Goto(c, w)
    case Reserved(f) => s.FreedLastFrag(arena).Goto(c, w.(phase := Rewound))
    case Rewound =>
      if ch.id in s.frags || !IsTrace(ch.trace, w.call.base) then s
      else s.NewFrag(ch.id, Frag(arena, w.txn, ch.trace, false)).Goto(c, w.(phase := Allocated(ch.id)))
    case Allocated(f) =>
      if !ch.yes then s.Goto(c, w.(phase := Stubbed(f)))
      else if ch.id in s.Stubs(c).live then s
      else s.(stubs := s.stubs[c := s.Stubs(c).Allocated(ch.id, w.txn)]).Goto(c, w.(phase := Stubbed(f)))
    case Stubbed(f) =>
      if f !in s.frags then s
      else
        s.(frags := s.frags[f := s.frags[f].(encoded := true)],
           committed := if |s.frags[f].blocks| > 1 then s.committed + {f} else s.committed)
         .Goto(c, w.(phase := Encoded(f, 1)))
    case _ => s
  }

  /** The stores of a translation, and the rollback of a single block that comes second. */
  function Published(s: State, c: Cpu): (s': State)
    requires s.At(c).Translating?
    ensures s'.exits == s.exits && (!s.At(c).Allocates() ==> SameArenas(s, s'))
  {
    var w := s.At(c);
    var arena, base := w.call.arena, w.call.base;
    match w.phase
    case Encoded(f, added) =>
      if f !in s.frags then s
      else if added < |s.frags[f].blocks| then
        s.(cache := s.cache[s.frags[f].blocks[added] := Code(f, added)]).Goto(c, w.(phase := Encoded(f, added + 1)))
      else if |s.frags[f].blocks| == 1 && base in s.cache then
        s.Goto(c, w.(phase := Lost(f)))
      else
        s.(cache := s.cache[base := Code(f, 0)], committed := s.committed + {f}).Goto(c, Unlocking(w.call, Code(f, 0)))
    case Lost(f) => s.FreedLastFrag(arena).Goto(c, w.(phase := LostFrag))
    case LostFrag => s.(stubs := s.stubs[c := s.Stubs(c).FreedLast()]).Goto(c, w.(phase := LostStubs))
    case LostStubs => s.(blocks := s.blocks[c := s.Blocks(c).FreedLast()]).Goto(c, w.(phase := LostBlocks))
    case LostBlocks =>
      if base in s.cache then s.Goto(c, Unlocking(w.call, s.cache[base])) else s
    case _ => s
  }

  /** `find` from the point where the allocator is unlocked. */
  function Exited(s: State, c: Cpu, ch: Choice): (s': State)
    ensures (!s.At(c).IblLocked? ==> s'.exits == s.exits) && (!s.At(c).Allocates() ==> SameArenas(s, s'))
  {
    match s.At(c)
    case Unlocking(call, addr) => s.Goto(c, Unlocked(call.key, addr)).(locks := s.locks - {call.arena})
    case Unlocked(key, addr) =>
      if !key.policy.WantsExit() then s.Goto(c, Done(key, addr))
      else if s.iblHeld then s
      else s.Goto(c, IblLocked(key, addr)).(iblHeld := true)
    case IblLocked(key, addr) =>
      if ch.id in s.exits then s
      else s.Goto(c, Routed(key, Exit(ch.id))).(exits := s.exits[ch.id := Routine(key, addr)])
    case Routed(key, addr) =>
      if key in s.cache then s.Goto(c, IblUnlocking(key, s.cache[key]))
      else s.Goto(c, IblUnlocking(key, addr)).(cache := s.cache[key := addr])
    case IblUnlocking(key, addr) => s.Goto(c, Done(key, addr)).(iblHeld := false)
    case _ => s
  }

  /** The next step of a CPU; it stays where it is when a lock is taken or an address is not
      free.  An idle CPU may call `find` or register a dynamic wrapper, whose policy is never
      that of an indirect branch or return. */
  function Advanced(s: State, c: Cpu, ch: Choice): (s': State)
    ensures (!s.At(c).IblLocked? ==> s'.exits == s.exits) && (!s.At(c).Allocates() ==> SameArenas(s, s'))
  {
    match s.At(c)
    case Idle =>
      if ch.yes then s.Goto(c, Called(ch.key))
      else if ch.key.policy.WantsExit() then s.Goto(c, Idle)
      else s.(cache := s.cache[ch.key := Custom(ch.key)]).Goto(c, Idle)
    case Translating(_, _, phase) =>
      if phase.Encoded? || phase.Losing() then Published(s, c) else Emitted(s, c, ch)
    case Done(_, _) => s.Goto(c, Idle)
    case Unlocking(_, _) => Exited(s, c, ch)
    case Unlocked(_, _) => Exited(s, c, ch)
    case IblLocked(_, _) => Exited(s, c, ch)
    case Routed(_, _) => Exited(s, c, ch)
    case IblUnlocking(_, _) => Exited(s, c, ch)
    case _ => LookedUp(s, c, ch)
  }

  ghost predicate Run(states: seq<State>, steps: seq<(Cpu, Choice)>) {
    && |states| == |steps| + 1 && Init(states[0])
    && forall i :: 0 <= i < |steps| ==> states[i + 1] == Advanced(states[i], steps[i].0, steps[i].1)
  }

  // ----- what an address has to name -----

  predicate IsBaseOf(base: Key, key: Key) { base == BaseKey(key, true) || base == BaseKey(key, false) }

  /** Block `b` of fragment `f` is encoded, will not be rolled back, and translates `key`. */
  predicate Names(frags: map<nat, Frag>, committed: set<nat>, f: nat, b: nat, key: Key) {
    && f in committed && f in frags && frags[f].encoded
    && b < |frags[f].blocks| && frags[f].blocks[b] == key && IsBase(key.policy)
  }

  /** `addr` is where execution of `key` continues, without an exit routine. */
  predicate TargetOk(frags: map<nat, Frag>, committed: set<nat>, key: Key, addr: Addr) {
    match addr
    case Native(pc) => pc == key.pc
    case Detach(pc) => pc == key.pc
    case Code(f, b) =>
      Names(frags, committed, f, b, BaseKey(key, true)) || Names(frags, committed, f, b, BaseKey(key, false))
    case Custom(k) => IsBaseOf(k, key)
    case Exit(_) => false
  }

  /** `addr` may stand in the table under `key`. */
  predicate EntryOk(frags: map<nat, Frag>, committed: set<nat>, exits: map<nat, Routine>, key: Key, addr: Addr) {
    match addr
    case Code(f, b) => Names(frags, committed, f, b, key)
    case Exit(r) =>
      && key.policy.WantsExit() && r in exits && exits[r].key == key
      && TargetOk(frags, committed, key, exits[r].target)
    case Custom(k) => k == key && !key.policy.WantsExit()
    case _ => false
  }

  /** `addr` may be the result of `find` for `key`: an indirect branch or return is never sent
      to a target without its exit routine. */
  predicate ResultOk(s: State, key: Key, addr: Addr) {
    || EntryOk(s.frags, s.committed, s.exits, key, addr)
    || (!key.policy.WantsExit() && TargetOk(s.frags, s.committed, key, addr))
  }

  // ----- invariant -----

  /** A fragment that only the translation `txn` knows of. */
  predicate OwnFrag(s: State, arena: nat, txn: nat, f: nat) {
    && f in s.frags && s.frags[f].arena == arena && s.frags[f].owner == txn && f !in s.committed
    && arena in s.lastFrag && s.lastFrag[arena] == f
  }

  predicate LastIsOwn(a: Arena, txn: nat) {
    a.last.Id? ==> a.last.id in a.live && a.live[a.last.id] == txn
  }

  predicate PhaseOk(s: State, call: Call, txn: nat, phase: Phase) {
    match phase
    case Began => call.arena !in s.lastFrag
    case Reserved(f) => OwnFrag(s, call.arena, txn, f)
    case Rewound => call.arena !in s.lastFrag
    case Allocated(f) => OwnFrag(s, call.arena, txn, f) && IsTrace(s.frags[f].blocks, call.base)
    case Stubbed(f) => OwnFrag(s, call.arena, txn, f) && IsTrace(s.frags[f].blocks, call.base)
    case Encoded(f, added) =>
      && f in s.frags && s.frags[f].arena == call.arena && s.frags[f].owner == txn && s.frags[f].encoded
      && IsTrace(s.frags[f].blocks, call.base) && 1 <= added <= |s.frags[f].blocks|
      && (f in s.committed || OwnFrag(s, call.arena, txn, f))
      && (f in s.committed <==> |s.frags[f].blocks| > 1)
    case Lost(f) => OwnFrag(s, call.arena, txn, f) && call.base in s.cache
    case _ => call.base in s.cache
  }

  /** Apart from the fragment it is making, a translation owns no code bytes. */
  predicate OwnsNoOther(frags: map<nat, Frag>, txn: nat, phase: Phase) {
    forall f :: f in frags && frags[f].owner == txn ==> phase.Holds(f)
  }

  predicate CpuOk(s: State, c: Cpu) {
    match s.At(c)
    case Idle => true
    case Called(_) => true
    case Missed(_) => true
    case Based(key, base, t) => IsBaseOf(base, key) && (t.To? ==> TargetOk(s.frags, s.committed, key, t.addr))
    case Looked(key, base, t) => IsBaseOf(base, key) && (t.To? ==> TargetOk(s.frags, s.committed, key, t.addr))
    case Detached(key, base, t) => IsBaseOf(base, key) && (t.To? ==> TargetOk(s.frags, s.committed, key, t.addr))
    case Locked(call, t) =>
      IsBaseOf(call.base, call.key) && (t.To? ==> TargetOk(s.frags, s.committed, call.key, t.addr))
    case Translating(call, txn, phase) =>
      && IsBaseOf(call.base, call.key) && PhaseOk(s, call, txn, phase)
      && LastIsOwn(s.Stubs(c), txn) && LastIsOwn(s.Blocks(c), txn)
      && txn < s.translations && OwnsNoOther(s.frags, txn, phase)
    case Unlocking(call, addr) => TargetOk(s.frags, s.committed, call.key, addr)
    case Unlocked(key, addr) => TargetOk(s.frags, s.committed, key, addr)
    case IblLocked(key, addr) => key.policy.WantsExit() && TargetOk(s.frags, s.committed, key, addr)
    case Routed(key, addr) => addr.Exit? && EntryOk(s.frags, s.committed, s.exits, key, addr)
    case IblUnlocking(key, addr) => ResultOk(s, key, addr)
    case Done(key, addr) => ResultOk(s, key, addr)
  }

  predicate LockOk(s: State, c: Cpu) {
    s.At(c).HasLock() ==> s.At(c).call.arena in s.locks && s.locks[s.At(c).call.arena] == c
  }

  predicate TxnsDiffer(s: State, c: Cpu, d: Cpu) {
    c != d && s.At(c).Translating? && s.At(d).Translating? ==> s.At(c).txn != s.At(d).txn
  }

  predicate CacheOk(s: State, key: Key) {
    key in s.cache ==> EntryOk(s.frags, s.committed, s.exits, key, s.cache[key])
  }

  ghost predicate Inv(s: State) {
    && (forall c: Cpu :: CpuOk(s, c))
    && (forall c: Cpu :: LockOk(s, c))
    && (forall c: Cpu, d: Cpu :: TxnsDiffer(s, c, d))
    && (forall key :: CacheOk(s, key))
    && FragsOk(s)
  }

  predicate FragsOk(s: State) {
    && (forall f :: f in s.frags ==> s.frags[f].owner < s.translations)
    && (forall f :: f in s.committed ==> f in s.frags)
  }

  // ----- what a step of one CPU leaves alone -----

  /** Committed code and exit routines stay as they are. */
  predicate Kept(s: State, s': State) {
    && s.committed <= s'.committed
    && (forall f :: f in s.committed && f in s.frags ==> f in s'.frags && s'.frags[f] == s.frags[f])
    && (forall r :: r in s.exits ==> r in s'.exits && s'.exits[r] == s.exits[r])
    && s.cache.Keys <= s'.cache.Keys
  }

  /** What a step of `c` does to the others: nothing, outside the allocator it has locked. */
  ghost predicate Apart(s: State, s': State, c: Cpu) {
    && Kept(s, s') && OthersStay(s, s', c)
    && FragsApart(s.At(c), s.frags, s'.frags, s.committed, s'.committed)
    && LastApart(s.At(c), s.lastFrag, s'.lastFrag)
    && s.translations <= s'.translations && FreesOwn(s, s', c)
  }

  ghost predicate OthersStay(s: State, s': State, c: Cpu) {
    forall d: Cpu :: d != c ==> s'.At(d) == s.At(d) && s'.Stubs(d) == s.Stubs(d) && s'.Blocks(d) == s.Blocks(d)
  }

  predicate FragsApart(w: Where, frags: map<nat, Frag>, frags': map<nat, Frag>,
                       committed: set<nat>, committed': set<nat>)
  {
    && (forall f :: f in frags && !w.HasArena(frags[f].arena) ==>
          f in frags' && frags'[f] == frags[f] && (f in committed' <==> f in committed))
    && (forall f :: f in frags' && (f !in frags || frags'[f].owner != frags[f].owner) ==>
          w.Translating? && frags'[f].owner == w.txn)
  }

  ghost predicate LastApart(w: Where, last: map<nat, nat>, last': map<nat, nat>) {
    forall arena :: !w.HasArena(arena) ==>
      (arena in last' <==> arena in last) && (arena in last ==> last'[arena] == last[arena])
  }

  lemma FragsSame(w: Where, frags: map<nat, Frag>, committed: set<nat>, last: map<nat, nat>)
    ensures FragsApart(w, frags, frags, committed, committed) && LastApart(w, last, last)
  {
  }

  lemma OthersMove(s: State, s': State, c: Cpu, w: Where)
    requires s'.at == s.at[c := w] && s'.stubs == s.stubs && s'.blocks == s.blocks
    ensures OthersStay(s, s', c)
    ensures FreedFrom(s.Stubs(c), s'.Stubs(c), s.At(c)) && FreedFrom(s.Blocks(c), s'.Blocks(c), s.At(c))
  {
  }

  /** Whatever a step of `c` frees was allocated by its own translation: code bytes, which
      are not committed, stubs and block states. */
  predicate FreesOwn(s: State, s': State, c: Cpu) {
    var w := s.At(c);
    && (forall f :: f in s.frags && f !in s'.frags ==>
          w.Translating? && s.frags[f].owner == w.txn && f !in s.committed)
    && FreedFrom(s.Stubs(c), s'.Stubs(c), w) && FreedFrom(s.Blocks(c), s'.Blocks(c), w)
  }

  predicate FreedFrom(a: Arena, a': Arena, w: Where) {
    forall id :: id in a.live && id !in a'.live ==> w.Translating? && a.live[id] == w.txn
  }

  lemma TargetStays(s: State, s': State, key: Key, addr: Addr)
    requires Kept(s, s') && TargetOk(s.frags, s.committed, key, addr)
    ensures TargetOk(s'.frags, s'.committed, key, addr)
  {
    hide BaseKey, IsBase;
  }

  lemma EntryStays(s: State, s': State, key: Key, addr: Addr)
    requires Kept(s, s') && EntryOk(s.frags, s.committed, s.exits, key, addr)
    ensures EntryOk(s'.frags, s'.committed, s'.exits, key, addr)
  {
    hide BaseKey, IsBase, TargetOk;
    if addr.Exit? {
      TargetStays(s, s', key, s.exits[addr.routine].target);
    }
  }

  lemma ResultStays(s: State, s': State, key: Key, addr: Addr)
    requires Kept(s, s') && ResultOk(s, key, addr)
    ensures ResultOk(s', key, addr)
  {
    hide TargetOk, EntryOk;
    if !key.policy.WantsExit() && TargetOk(s.frags, s.committed, key, addr) {
      TargetStays(s, s', key, addr);
    } else {
      EntryStays(s, s', key, addr);
    }
  }

  lemma PhaseStays(s: State, s': State, c: Cpu, d: Cpu)
    requires Apart(s, s', c) && c != d && s.At(d).Translating?
    requires PhaseOk(s, s.At(d).call, s.At(d).txn, s.At(d).phase) && !s.At(c).HasArena(s.At(d).call.arena)
    ensures PhaseOk(s', s.At(d).call, s.At(d).txn, s.At(d).phase)
  {
    hide IsTrace;
  }

  lemma OtherStays(s: State, s': State, c: Cpu, d: Cpu)
    requires Apart(s, s', c) && c != d && CpuOk(s, d) && TxnsDiffer(s, c, d)
    requires s.At(d).Translating? ==> !s.At(c).HasArena(s.At(d).call.arena)
    ensures CpuOk(s', d)
  {
    hide TargetOk, EntryOk, ResultOk, IsBaseOf, PhaseOk, LastIsOwn;
    match s.At(d)
    case Based(key, base, t) => if t.To? { TargetStays(s, s', key, t.addr); }
    case Looked(key, base, t) => if t.To? { TargetStays(s, s', key, t.addr); }
    case Detached(key, base, t) => if t.To? { TargetStays(s, s', key, t.addr); }
    case Locked(call, t) => if t.To? { TargetStays(s, s', call.key, t.addr); }
    case Translating(_, _, _) => PhaseStays(s, s', c, d);
    case Unlocking(call, addr) => TargetStays(s, s', call.key, addr);
    case Unlocked(key, addr) => TargetStays(s, s', key, addr);
    case IblLocked(key, addr) => TargetStays(s, s', key, addr);
    case Routed(key, addr) => EntryStays(s, s', key, addr);
    case IblUnlocking(key, addr) => ResultStays(s, s', key, addr);
    case Done(key, addr) => ResultStays(s, s', key, addr);
    case _ =>
  }

  // ----- every step keeps the invariant -----

  /** What is to be shown of a step of `c` for the invariant to survive it. */
  ghost predicate Sound(s: State, s': State, c: Cpu) {
    && Apart(s, s', c) && CpuOk(s', c)
    && LockOk(s', c)
    && LocksKept(s, s', c)
    && (s'.At(c).Translating? ==>
          (s.At(c).Translating? && s'.At(c).txn == s.At(c).txn) || s'.At(c).txn == s.translations)
    && (forall key :: key in s'.cache && (key !in s.cache || s'.cache[key] != s.cache[key]) ==> CacheOk(s', key))
    && FragsOk(s')
  }

  lemma SoundKeepsInv(s: State, s': State, c: Cpu)
    requires Inv(s) && Sound(s, s', c)
    ensures Inv(s')
  {
    hide CpuOk, EntryOk;
    forall d: Cpu ensures CpuOk(s', d) {
      if d != c {
        assert CpuOk(s, d) && TxnsDiffer(s, c, d);
        if s.At(d).Translating? {
          assert LockOk(s, c) && LockOk(s, d);
        }
        OtherStays(s, s', c, d);
      }
    }
    forall d: Cpu ensures LockOk(s', d) {
      assert LockOk(s, d);
    }
    forall d: Cpu, e: Cpu ensures TxnsDiffer(s', d, e) {
      assert TxnsDiffer(s, d, e);
      TxnBelow(s, d);
      TxnBelow(s, e);
    }
    forall key ensures CacheOk(s', key) {
      assert CacheOk(s, key);
      if key in s.cache && s'.cache[key] == s.cache[key] {
        EntryStays(s, s', key, s.cache[key]);
      }
    }
  }

  lemma TxnBelow(s: State, c: Cpu)
    requires Inv(s)
    ensures s.At(c).Translating? ==> s.At(c).txn < s.translations
  {
    hide PhaseOk, LastIsOwn, OwnsNoOther, IsBaseOf;
    assert CpuOk(s, c);
  }

  /** A base key never has an exit routine, so its entry is a target for every key it is the
      base of. */
  lemma EntryIsTarget(s: State, base: Key, key: Key)
    requires base in s.cache && CacheOk(s, base) && IsBaseOf(base, key)
    ensures TargetOk(s.frags, s.committed, key, s.cache[base])
  {
  }

  lemma BaseKeyIsBase(key: Key, host: bool)
    ensures IsBaseOf(BaseKey(key, host), key) && IsBase(BaseKey(key, host).policy)
  {
  }

  lemma MovedIsApart(s: State, s': State, c: Cpu, w: Where)
    requires s' == s.Goto(c, w).(locks := s'.locks, iblHeld := s'.iblHeld)
    ensures Apart(s, s', c)
  {
    FragsSame(s.At(c), s.frags, s.committed, s.lastFrag);
    OthersMove(s, s', c, w);
    hide FragsApart, LastApart, OthersStay, FreedFrom;
  }

  /** A step of `c` gives away no lock of another CPU. */
  predicate LocksKept(s: State, s': State, c: Cpu) {
    forall arena :: arena in s.locks && s.locks[arena] != c ==> arena in s'.locks && s'.locks[arena] == s.locks[arena]
  }

  /** A step that only moves the CPU on, with the locks it then needs. */
  lemma MovedIsSound(s: State, s': State, c: Cpu, w: Where)
    requires s' == s.Goto(c, w).(locks := s'.locks, iblHeld := s'.iblHeld) && CpuOk(s', c) && FragsOk(s)
    requires LocksKept(s, s', c)
    requires LockOk(s', c)
    requires w.Translating? ==> s.At(c).Translating? && w.txn == s.At(c).txn
    ensures Sound(s, s', c)
  {
    hide CpuOk, EntryOk, Apart, LockOk;
    MovedIsApart(s, s', c, w);
  }

  lemma StayedIsSound(s: State, c: Cpu)
    requires CpuOk(s, c) && FragsOk(s) && LockOk(s, c)
    ensures Sound(s, s, c)
  {
    hide CpuOk, EntryOk, LockOk;
  }

  lemma NativeIsTarget(s: State, key: Key)
    ensures TargetOk(s.frags, s.committed, key, Native(key.pc))
    ensures TargetOk(s.frags, s.committed, key, Detach(key.pc))
  {
  }

  lemma LookupMoves(s: State, c: Cpu, ch: Choice)
    requires CpuOk(s, c) && FragsOk(s) && (forall key :: CacheOk(s, key))
    requires s.At(c).Called? || s.At(c).Missed? || s.At(c).Based? || s.At(c).Looked?
    ensures Sound(s, LookedUp(s, c, ch), c)
  {
    hide TargetOk, EntryOk, IsBaseOf, BaseKey, PhaseOk, Sound;
    var s' := LookedUp(s, c, ch);
    assert CpuOk(s', c) by {
      match s.At(c)
      case Called(key) => assert CacheOk(s, key);
      case Missed(key) =>
        BaseKeyIsBase(key, ch.host);
        NativeIsTarget(s, key);
      case Based(key, base, t) =>
        assert CacheOk(s, base);
        if base in s.cache { EntryIsTarget(s, base, key); }
      case Looked(key, base, t) => NativeIsTarget(s, key);
      case _ =>
    }
    MovedIsSound(s, s', c, s'.At(c));
  }

  lemma LockedIsSound(s: State, c: Cpu, ch: Choice)
    requires CpuOk(s, c) && FragsOk(s) && LockOk(s, c)
    requires s.At(c).Detached? || (s.At(c).Locked? && s.At(c).target.To?)
    ensures Sound(s, LookedUp(s, c, ch), c)
  {
    hide TargetOk, EntryOk, IsBaseOf, PhaseOk, Sound;
    var s' := LookedUp(s, c, ch);
    if s' == s {
      StayedIsSound(s, c);
    } else {
      MovedIsSound(s, s', c, s'.At(c));
    }
  }

  lemma BeganIsApart(s: State, c: Cpu, ch: Choice)
    requires s.At(c).Locked? && s.At(c).target.Nowhere?
    ensures Apart(s, LookedUp(s, c, ch), c)
  {
    FragsSame(s.At(c), s.frags, s.committed, s.lastFrag);
    hide FragsApart;
    var s' := LookedUp(s, c, ch);
    assert forall d: Cpu :: d != c ==> s'.At(d) == s.At(d) && s'.Stubs(d) == s.Stubs(d);
  }

  lemma BeganIsSound(s: State, c: Cpu, ch: Choice)
    requires CpuOk(s, c) && FragsOk(s) && LockOk(s, c)
    requires s.At(c).Locked? && s.At(c).target.Nowhere?
    ensures Sound(s, LookedUp(s, c, ch), c)
  {
    hide TargetOk, EntryOk, IsBaseOf, Apart;
    BeganIsApart(s, c, ch);
  }

  lemma UnlockingIsSound(s: State, c: Cpu, ch: Choice)
    requires CpuOk(s, c) && FragsOk(s) && LockOk(s, c)
    requires s.At(c).Unlocking?
    ensures Sound(s, Exited(s, c, ch), c)
  {
    hide TargetOk, Sound;
    var s' := Exited(s, c, ch);
    MovedIsSound(s, s', c, s'.At(c));
  }

  lemma UnlockedIsSound(s: State, c: Cpu, ch: Choice)
    requires CpuOk(s, c) && FragsOk(s) && s.At(c).Unlocked?
    ensures Sound(s, Exited(s, c, ch), c)
  {
    hide CpuOk, FragsOk, Sound;
    if s.At(c).key.policy.WantsExit() {
      UnlockedToIbl(s, c, ch);
    } else {
      UnlockedToDone(s, c, ch);
    }
  }

  lemma UnlockedToDone(s: State, c: Cpu, ch: Choice)
    requires CpuOk(s, c) && FragsOk(s) && s.At(c).Unlocked? && !s.At(c).key.policy.WantsExit()
    ensures Sound(s, Exited(s, c, ch), c)
  {
    hide TargetOk, EntryOk, Sound, PhaseOk;
    var w := Done(s.At(c).key, s.At(c).addr);
    MovedIsSound(s, s.Goto(c, w), c, w);
  }

  lemma UnlockedToIbl(s: State, c: Cpu, ch: Choice)
    requires CpuOk(s, c) && FragsOk(s) && s.At(c).Unlocked? && s.At(c).key.policy.WantsExit()
    ensures Sound(s, Exited(s, c, ch), c)
  {
    hide TargetOk, EntryOk, Sound, PhaseOk;
    var w := IblLocked(s.At(c).key, s.At(c).addr);
    if s.iblHeld {
      StayedIsSound(s, c);
    } else {
      MovedIsSound(s, s.Goto(c, w).(iblHeld := true), c, w);
    }
  }

  lemma IblUnlockingIsSound(s: State, c: Cpu, ch: Choice)
    requires CpuOk(s, c) && FragsOk(s) && s.At(c).IblUnlocking?
    ensures Sound(s, Exited(s, c, ch), c)
  {
    hide TargetOk, EntryOk, Sound;
    MovedIsSound(s, Exited(s, c, ch), c, Done(s.At(c).key, s.At(c).addr));
  }

  /** A step that changes the table and the exit routines, and no allocator. */
  lemma TableIsApart(s: State, s': State, c: Cpu, w: Where)
    requires s' == s.Goto(c, w).(cache := s'.cache, exits := s'.exits)
    requires s.cache.Keys <= s'.cache.Keys
    requires forall r :: r in s.exits ==> r in s'.exits && s'.exits[r] == s.exits[r]
    ensures Apart(s, s', c)
  {
    FragsSame(s.At(c), s.frags, s.committed, s.lastFrag);
    OthersMove(s, s', c, w);
    hide FragsApart, LastApart, OthersStay, FreedFrom;
  }

  /** Building the exit routine. */
  lemma RoutedIsSound(s: State, c: Cpu, ch: Choice)
    requires CpuOk(s, c) && FragsOk(s) && s.At(c).IblLocked?
    ensures Sound(s, Exited(s, c, ch), c)
  {
    hide TargetOk, Apart, PhaseOk, IsBaseOf, OwnsNoOther, LastIsOwn;
    var IblLocked(key, addr) := s.At(c);
    if ch.id in s.exits {
      StayedIsSound(s, c);
    } else {
      var w := Routed(key, Exit(ch.id));
      var s' := s.Goto(c, w).(exits := s.exits[ch.id := Routine(key, addr)]);
      TableIsApart(s, s', c, w);
      assert s' == Exited(s, c, ch);
    }
  }

  /** Storing it, unless the key already has an entry. */
  lemma ExitStoredIsSound(s: State, c: Cpu, ch: Choice)
    requires CpuOk(s, c) && FragsOk(s) && s.At(c).Routed? && s.At(c).key !in s.cache
    ensures Sound(s, Exited(s, c, ch), c)
  {
    hide TargetOk, EntryOk, Apart, PhaseOk;
    var Routed(key, addr) := s.At(c);
    var s' := s.Goto(c, IblUnlocking(key, addr)).(cache := s.cache[key := addr]);
    TableIsApart(s, s', c, IblUnlocking(key, addr));
    assert s' == Exited(s, c, ch);
  }

  lemma ExitFoundIsSound(s: State, c: Cpu, ch: Choice)
    requires CpuOk(s, c) && FragsOk(s) && s.At(c).Routed? && s.At(c).key in s.cache && CacheOk(s, s.At(c).key)
    ensures Sound(s, Exited(s, c, ch), c)
  {
    hide TargetOk, EntryOk, Sound, PhaseOk;
    var key := s.At(c).key;
    var w := IblUnlocking(key, s.cache[key]);
    MovedIsSound(s, s.Goto(c, w), c, w);
  }

  // ----- the steps of a translation -----

  lemma NewFragIsApart(s: State, s': State, c: Cpu, w: Where, f: nat, frag: Frag)
    requires s.At(c).Translating? && frag.arena == s.At(c).call.arena && frag.owner == s.At(c).txn
    requires f !in s.frags && s' == s.NewFrag(f, frag).Goto(c, w)
    ensures Apart(s, s', c)
  {
    OthersMove(s, s', c, w);
    hide OthersStay, FreedFrom;
  }

  lemma FreedFragIsApart(s: State, s': State, c: Cpu, w: Where, f: nat)
    requires s.At(c).Translating? && OwnFrag(s, s.At(c).call.arena, s.At(c).txn, f)
    requires s' == s.FreedLastFrag(s.At(c).call.arena).Goto(c, w)
    ensures Apart(s, s', c)
  {
    OthersMove(s, s', c, w);
    hide OthersStay, FreedFrom;
  }

  lemma StubsAreApart(s: State, s': State, c: Cpu, w: Where, a: Arena)
    requires s' == s.(stubs := s.stubs[c := a]).Goto(c, w) && FreedFrom(s.Stubs(c), a, s.At(c))
    ensures Apart(s, s', c)
  {
    FragsSame(s.At(c), s.frags, s.committed, s.lastFrag);
    hide FragsApart, LastApart;
    assert forall d: Cpu :: d != c ==> s'.At(d) == s.At(d) && s'.Stubs(d) == s.Stubs(d);
  }

  lemma BlocksAreApart(s: State, s': State, c: Cpu, w: Where, a: Arena)
    requires s' == s.(blocks := s.blocks[c := a]).Goto(c, w) && FreedFrom(s.Blocks(c), a, s.At(c))
    ensures Apart(s, s', c)
  {
    FragsSame(s.At(c), s.frags, s.committed, s.lastFrag);
    hide FragsApart, LastApart;
    assert forall d: Cpu :: d != c ==> s'.At(d) == s.At(d) && s'.Blocks(d) == s.Blocks(d);
  }

  lemma ReservedIsSound(s: State, c: Cpu, ch: Choice)
    requires CpuOk(s, c) && LockOk(s, c) && FragsOk(s)
    requires s.At(c).Translating? && s.At(c).phase.Began? && ch.yes && ch.id !in s.frags
    ensures Sound(s, Emitted(s, c, ch), c)
  {
    hide Apart, IsBaseOf, LastIsOwn, EntryOk;
    var w := s.At(c);
    var frag := Frag(w.call.arena, w.txn, [], false);
    NewFragIsApart(s, Emitted(s, c, ch), c, w.(phase := Reserved(ch.id)), ch.id, frag);
  }

  lemma AllocatedIsSound(s: State, c: Cpu, ch: Choice)
    requires CpuOk(s, c) && LockOk(s, c) && FragsOk(s)
    requires s.At(c).Translating? && s.At(c).phase.Rewound? && ch.id !in s.frags && IsTrace(ch.trace, s.At(c).call.base)
    ensures Sound(s, Emitted(s, c, ch), c)
  {
    hide Apart, IsBaseOf, LastIsOwn, EntryOk, IsTrace;
    var w := s.At(c);
    var frag := Frag(w.call.arena, w.txn, ch.trace, false);
    NewFragIsApart(s, Emitted(s, c, ch), c, w.(phase := Allocated(ch.id)), ch.id, frag);
  }

  lemma RewoundIsSound(s: State, c: Cpu, ch: Choice)
    requires CpuOk(s, c) && LockOk(s, c) && FragsOk(s)
    requires s.At(c).Translating? && s.At(c).phase.Reserved?
    ensures Sound(s, Emitted(s, c, ch), c)
  {
    hide Apart, IsBaseOf, LastIsOwn, EntryOk;
    var w := s.At(c);
    FreedFragIsApart(s, Emitted(s, c, ch), c, w.(phase := Rewound), w.phase.frag);
  }

  lemma LostFragIsSound(s: State, c: Cpu)
    requires CpuOk(s, c) && LockOk(s, c) && FragsOk(s)
    requires s.At(c).Translating? && s.At(c).phase.Lost?
    ensures Sound(s, Published(s, c), c)
  {
    hide Apart, IsBaseOf, LastIsOwn, EntryOk;
    var w := s.At(c);
    FreedFragIsApart(s, Published(s, c), c, w.(phase := LostFrag), w.phase.frag);
  }

  lemma BlockAllocatedIsSound(s: State, c: Cpu, ch: Choice)
    requires CpuOk(s, c) && LockOk(s, c) && FragsOk(s)
    requires s.At(c).Translating? && s.At(c).phase.Began? && !ch.yes && ch.id !in s.Blocks(c).live
    ensures Sound(s, Emitted(s, c, ch), c)
  {
    hide Apart, IsBaseOf, EntryOk;
    var w := s.At(c);
    BlocksAreApart(s, Emitted(s, c, ch), c, w, s.Blocks(c).Allocated(ch.id, w.txn));
  }

  lemma StubAllocatedIsSound(s: State, c: Cpu, ch: Choice)
    requires CpuOk(s, c) && LockOk(s, c) && FragsOk(s)
    requires s.At(c).Translating? && s.At(c).phase.Allocated? && ch.yes && ch.id !in s.Stubs(c).live
    ensures Sound(s, Emitted(s, c, ch), c)
  {
    hide Apart, IsBaseOf, EntryOk, IsTrace;
    var w := s.At(c);
    StubsAreApart(s, Emitted(s, c, ch), c, w.(phase := Stubbed(w.phase.frag)), s.Stubs(c).Allocated(ch.id, w.txn));
  }

  lemma NoStubsIsSound(s: State, c: Cpu, ch: Choice)
    requires CpuOk(s, c) && LockOk(s, c) && FragsOk(s)
    requires s.At(c).Translating? && s.At(c).phase.Allocated? && !ch.yes
    ensures Sound(s, Emitted(s, c, ch), c)
  {
    hide Sound, IsBaseOf, EntryOk, IsTrace, LastIsOwn;
    var w := s.At(c).(phase := Stubbed(s.At(c).phase.frag));
    MovedIsSound(s, s.Goto(c, w), c, w);
  }

  lemma LostStubsIsSound(s: State, c: Cpu)
    requires CpuOk(s, c) && LockOk(s, c) && FragsOk(s)
    requires s.At(c).Translating? && s.At(c).phase.LostFrag?
    ensures Sound(s, Published(s, c), c)
  {
    hide Apart, IsBaseOf, EntryOk;
    var w := s.At(c);
    StubsAreApart(s, Published(s, c), c, w.(phase := LostStubs), s.Stubs(c).FreedLast());
  }

  lemma LostBlocksIsSound(s: State, c: Cpu)
    requires CpuOk(s, c) && LockOk(s, c) && FragsOk(s)
    requires s.At(c).Translating? && s.At(c).phase.LostStubs?
    ensures Sound(s, Published(s, c), c)
  {
    hide Apart, IsBaseOf, EntryOk;
    var w := s.At(c);
    BlocksAreApart(s, Published(s, c), c, w.(phase := LostBlocks), s.Blocks(c).FreedLast());
  }

  /** The loser of a race always finds the block that won. */
  lemma WinnerIsSound(s: State, c: Cpu)
    requires CpuOk(s, c) && LockOk(s, c) && FragsOk(s)
    requires s.At(c).Translating? && s.At(c).phase.LostBlocks? && CacheOk(s, s.At(c).call.base)
    ensures s.At(c).call.base in s.cache && Sound(s, Published(s, c), c)
  {
    hide Sound, IsBaseOf, EntryOk, TargetOk, CacheOk;
    var w := s.At(c);
    assert w.call.base in s.cache;
    EntryIsTarget(s, w.call.base, w.call.key);
    MovedIsSound(s, s.Goto(c, Unlocking(w.call, s.cache[w.call.base])), c, Unlocking(w.call, s.cache[w.call.base]));
  }

  lemma LostIsSound(s: State, c: Cpu)
    requires CpuOk(s, c) && LockOk(s, c) && FragsOk(s)
    requires s.At(c).Translating? && s.At(c).phase.Encoded? && s.At(c).call.base in s.cache
    requires |s.frags[s.At(c).phase.frag].blocks| == 1
    ensures Sound(s, Published(s, c), c)
  {
    hide Sound, IsBaseOf, EntryOk, IsTrace, LastIsOwn;
    var w := s.At(c).(phase := Lost(s.At(c).phase.frag));
    MovedIsSound(s, s.Goto(c, w), c, w);
  }

  // ----- encoding and publication -----

  lemma EncodedIsApart(s: State, c: Cpu, ch: Choice)
    requires s.At(c).Translating? && s.At(c).phase.Stubbed?
    requires OwnFrag(s, s.At(c).call.arena, s.At(c).txn, s.At(c).phase.frag)
    ensures Apart(s, Emitted(s, c, ch), c)
  {
    var s' := Emitted(s, c, ch);
    assert forall d: Cpu :: d != c ==> s'.At(d) == s.At(d) && s'.Stubs(d) == s.Stubs(d);
  }

  lemma EncodedIsSound(s: State, c: Cpu, ch: Choice)
    requires CpuOk(s, c) && LockOk(s, c) && FragsOk(s)
    requires s.At(c).Translating? && s.At(c).phase.Stubbed?
    ensures Sound(s, Emitted(s, c, ch), c)
  {
    hide Apart, IsBaseOf, EntryOk, LastIsOwn;
    EncodedIsApart(s, c, ch);
  }

  lemma AddedIsSound(s: State, c: Cpu)
    requires CpuOk(s, c) && LockOk(s, c) && FragsOk(s)
    requires s.At(c).Translating? && s.At(c).phase.Encoded?
    requires s.At(c).phase.added < |s.frags[s.At(c).phase.frag].blocks|
    ensures Sound(s, Published(s, c), c)
  {
    hide Apart, IsBaseOf, LastIsOwn, IsBase;
    var w := s.At(c);
    var Encoded(f, added) := w.phase;
    var s' := s.(cache := s.cache[s.frags[f].blocks[added] := Code(f, added)])
               .Goto(c, w.(phase := Encoded(f, added + 1)));
    assert Published(s, c) == s';
    hide Published;
    TableIsApart(s, s', c, w.(phase := Encoded(f, added + 1)));
  }

  lemma CommittedIsApart(s: State, s': State, c: Cpu, w: Where, f: nat)
    requires s.At(c).Translating? && f in s.frags && s.frags[f].arena == s.At(c).call.arena
    requires s' == s.(cache := s'.cache, committed := s.committed + {f}).Goto(c, w) && s.cache.Keys <= s'.cache.Keys
    ensures Apart(s, s', c)
  {
    OthersMove(s, s', c, w);
    hide OthersStay, FreedFrom;
  }

  lemma CommittedIsSound(s: State, c: Cpu)
    requires CpuOk(s, c) && LockOk(s, c) && FragsOk(s)
    requires s.At(c).Translating? && s.At(c).phase.Encoded?
    requires s.At(c).phase.added == |s.frags[s.At(c).phase.frag].blocks|
    requires |s.frags[s.At(c).phase.frag].blocks| > 1 || s.At(c).call.base !in s.cache
    ensures Sound(s, Published(s, c), c)
  {
    hide Apart, LastIsOwn, IsBase, BaseKey, OwnsNoOther;
    var w, f := s.At(c), s.At(c).phase.frag;
    var s' := s.(cache := s.cache[w.call.base := Code(f, 0)], committed := s.committed + {f})
               .Goto(c, Unlocking(w.call, Code(f, 0)));
    assert Published(s, c) == s';
    hide Published;
    CommittedIsApart(s, s', c, Unlocking(w.call, Code(f, 0)), f);
  }

  // ----- all steps -----

  lemma EmittedIsSound(s: State, c: Cpu, ch: Choice)
    requires CpuOk(s, c) && LockOk(s, c) && FragsOk(s) && s.At(c).Translating?
    ensures Sound(s, Emitted(s, c, ch), c)
  {
    hide CpuOk, LockOk, FragsOk, Sound, IsTrace;
    StayedIsSound(s, c);
    match s.At(c).phase
    case Began =>
      if ch.yes && ch.id !in s.frags { ReservedIsSound(s, c, ch); }
      if !ch.yes && ch.id !in s.Blocks(c).live { BlockAllocatedIsSound(s, c, ch); }
    case Reserved(f) => RewoundIsSound(s, c, ch);
    case Rewound =>
      if ch.id !in s.frags && IsTrace(ch.trace, s.At(c).call.base) { AllocatedIsSound(s, c, ch); }
    case Allocated(f) =>
      if !ch.yes { NoStubsIsSound(s, c, ch); }
      if ch.yes && ch.id !in s.Stubs(c).live { StubAllocatedIsSound(s, c, ch); }
    case Stubbed(f) => EncodedIsSound(s, c, ch);
    case _ =>
  }

  lemma PublishedIsSound(s: State, c: Cpu)
    requires CpuOk(s, c) && LockOk(s, c) && FragsOk(s) && s.At(c).Translating? && CacheOk(s, s.At(c).call.base)
    ensures Sound(s, Published(s, c), c)
  {
    assert s.At(c).phase.Encoded? ==>
        s.At(c).phase.frag in s.frags && s.At(c).phase.added <= |s.frags[s.At(c).phase.frag].blocks|;
    hide CpuOk, LockOk, FragsOk, Sound, CacheOk;
    StayedIsSound(s, c);
    match s.At(c).phase
    case Encoded(f, added) =>
      if added < |s.frags[f].blocks| {
        AddedIsSound(s, c);
      } else if |s.frags[f].blocks| == 1 && s.At(c).call.base in s.cache {
        LostIsSound(s, c);
      } else {
        EncodedIsTrace(s, c);
        CommittedIsSound(s, c);
      }
    case Lost(f) => LostFragIsSound(s, c);
    case LostFrag => LostStubsIsSound(s, c);
    case LostStubs => LostBlocksIsSound(s, c);
    case LostBlocks => WinnerIsSound(s, c);
    case _ =>
  }

  lemma EncodedIsTrace(s: State, c: Cpu)
    requires CpuOk(s, c) && s.At(c).Translating? && s.At(c).phase.Encoded?
    ensures s.At(c).phase.frag in s.frags && |s.frags[s.At(c).phase.frag].blocks| > 0
  {
  }

  lemma ExitedIsSound(s: State, c: Cpu, ch: Choice)
    requires CpuOk(s, c) && LockOk(s, c) && FragsOk(s) && (forall key :: CacheOk(s, key))
    requires s.At(c).Unlocking? || s.At(c).Unlocked? || s.At(c).IblLocked? || s.At(c).Routed? || s.At(c).IblUnlocking?
    ensures Sound(s, Exited(s, c, ch), c)
  {
    hide CpuOk, LockOk, FragsOk, Sound, CacheOk, Exited;
    match s.At(c)
    case Unlocking(_, _) => UnlockingIsSound(s, c, ch);
    case Unlocked(_, _) => UnlockedIsSound(s, c, ch);
    case IblLocked(_, _) => RoutedIsSound(s, c, ch);
    case Routed(key, _) =>
      assert CacheOk(s, key);
      if key in s.cache { ExitFoundIsSound(s, c, ch); } else { ExitStoredIsSound(s, c, ch); }
    case IblUnlocking(_, _) => IblUnlockingIsSound(s, c, ch);
    case _ =>
  }

  lemma LookedUpIsSound(s: State, c: Cpu, ch: Choice)
    requires CpuOk(s, c) && LockOk(s, c) && FragsOk(s) && (forall key :: CacheOk(s, key))
    requires var w := s.At(c); w.Called? || w.Missed? || w.Based? || w.Looked? || w.Detached? || w.Locked?
    ensures Sound(s, LookedUp(s, c, ch), c)
  {
    hide CpuOk, LockOk, FragsOk, Sound, CacheOk, LookedUp;
    match s.At(c)
    case Detached(_, _, _) => LockedIsSound(s, c, ch);
    case Locked(_, t) => if t.To? { LockedIsSound(s, c, ch); } else { BeganIsSound(s, c, ch); }
    case _ => LookupMoves(s, c, ch);
  }

  lemma WrapperIsSound(s: State, s': State, c: Cpu, key: Key)
    requires FragsOk(s) && s.At(c).Idle? && !key.policy.WantsExit()
    requires s' == s.(cache := s.cache[key := Custom(key)]).Goto(c, Idle)
    ensures Sound(s, s', c)
  {
    hide Apart, EntryOk;
    TableIsApart(s, s', c, Idle);
    assert EntryOk(s'.frags, s'.committed, s'.exits, key, Custom(key)) by { CustomIsOk(s', key); }
  }

  lemma CustomIsOk(s: State, key: Key)
    requires !key.policy.WantsExit()
    ensures EntryOk(s.frags, s.committed, s.exits, key, Custom(key))
  {
  }

  lemma IdleIsSound(s: State, c: Cpu, ch: Choice)
    requires FragsOk(s) && (s.At(c).Idle? || s.At(c).Done?)
    ensures Sound(s, Advanced(s, c, ch), c)
  {
    hide Sound, FragsOk;
    var s' := Advanced(s, c, ch);
    if s.At(c).Idle? && !ch.yes && !ch.key.policy.WantsExit() {
      WrapperIsSound(s, s', c, ch.key);
    } else {
      var w := if s.At(c).Idle? && ch.yes then Called(ch.key) else Idle;
      assert s' == s.Goto(c, w);
      MovedIsSound(s, s', c, w);
    }
  }

  lemma AdvancedIsSound(s: State, c: Cpu, ch: Choice)
    requires Inv(s)
    ensures Sound(s, Advanced(s, c, ch), c)
  {
    assert CpuOk(s, c) && LockOk(s, c) && FragsOk(s) && (forall key :: CacheOk(s, key));
    hide CpuOk, LockOk, FragsOk, Sound, CacheOk, Inv, LookedUp, Exited, Published, Emitted;
    match s.At(c) {
      case Idle => IdleIsSound(s, c, ch);
      case Done(_, _) => IdleIsSound(s, c, ch);
      case Translating(call, _, phase) =>
        assert CacheOk(s, call.base);
        PublishedIsSound(s, c);
        EmittedIsSound(s, c, ch);
      case Unlocking(_, _) => ExitedIsSound(s, c, ch);
      case Unlocked(_, _) => ExitedIsSound(s, c, ch);
      case IblLocked(_, _) => ExitedIsSound(s, c, ch);
      case Routed(_, _) => ExitedIsSound(s, c, ch);
      case IblUnlocking(_, _) => ExitedIsSound(s, c, ch);
      case _ => LookedUpIsSound(s, c, ch);
    }
  }

  lemma {:induction false} RunKeepsInv(states: seq<State>, steps: seq<(Cpu, Choice)>, k: nat)
    requires Run(states, steps) && k < |states|
    ensures Inv(states[k])
  {
    if k == 0 {
      InitIsInv(states[0]);
    } else {
      RunKeepsInv(states, steps, k - 1);
      AdvancedIsSound(states[k - 1], steps[k - 1].0, steps[k - 1].1);
      SoundKeepsInv(states[k - 1], states[k], steps[k - 1].0);
    }
  }

  lemma InitIsInv(s: State)
    requires Init(s)
    ensures Inv(s)
  {
    forall c: Cpu ensures CpuOk(s, c) && LockOk(s, c) {}
    forall key ensures CacheOk(s, key) {}
  }

  // ----- results -----

  /** In every interleaving, every entry of the table is what its key asks for: code that is
      encoded, that will not be rolled back, and that translates exactly the key, which then
      has a base policy; or, only for keys of indirect branches and returns, an exit routine
      for exactly this key whose target is right for it. */
  lemma EntriesAreRight(states: seq<State>, steps: seq<(Cpu, Choice)>, k: nat, key: Key)
    requires Run(states, steps) && k < |states| && key in states[k].cache
    ensures EntryOk(states[k].frags, states[k].committed, states[k].exits, key, states[k].cache[key])
  {
    RunKeepsInv(states, steps, k);
    assert CacheOk(states[k], key);
  }

  lemma KeptIsTransitive(s: State, s': State, s'': State)
    requires Kept(s, s') && Kept(s', s'')
    ensures Kept(s, s'')
  {
  }

  lemma {:induction false} KeptForGood(states: seq<State>, steps: seq<(Cpu, Choice)>, i: nat, k: nat)
    requires Run(states, steps) && i <= k < |states|
    ensures Kept(states[i], states[k])
  {
    hide Advanced, Inv, Kept;
    if i == k {
      KeptItself(states[i]);
    } else {
      KeptForGood(states, steps, i, k - 1);
      RunKeepsInv(states, steps, k - 1);
      AdvancedIsSound(states[k - 1], steps[k - 1].0, steps[k - 1].1);
      assert Apart(states[k - 1], states[k], steps[k - 1].0);
      KeptIsTransitive(states[i], states[k - 1], states[k]);
    }
  }

  lemma KeptItself(s: State)
    ensures Kept(s, s)
  {
  }

  /** What `find` returns is right for the key it was asked for, and stays right for the rest
      of the run: nobody rolls back or overwrites the code it names.  For an indirect branch or
      return it is an exit routine for exactly this key. */
  lemma FindIsRight(states: seq<State>, steps: seq<(Cpu, Choice)>, i: nat, k: nat, c: Cpu)
    requires Run(states, steps) && i <= k < |states| && states[i].At(c).Done?
    ensures ResultOk(states[k], states[i].At(c).key, states[i].At(c).addr)
    ensures states[i].At(c).key.policy.WantsExit() ==> states[i].At(c).addr.Exit?
  {
    RunKeepsInv(states, steps, i);
    assert CpuOk(states[i], c);
    KeptForGood(states, steps, i, k);
    ResultStays(states[i], states[k], states[i].At(c).key, states[i].At(c).addr);
  }

  /** Every exit routine, also one that is not in the table because another CPU was first,
      leaves for a target that is right for its key. */
  ghost predicate ExitsRight(s: State) {
    forall r :: r in s.exits ==> TargetOk(s.frags, s.committed, s.exits[r].key, s.exits[r].target)
  }

  /** A step adds at most one exit routine, for a target that is right at that time. */
  lemma ExitAdded(s: State, c: Cpu, ch: Choice, r: nat)
    requires Inv(s) && r in Advanced(s, c, ch).exits && r !in s.exits
    ensures var s' := Advanced(s, c, ch);
            s'.exits == s.exits[r := s'.exits[r]] && TargetOk(s.frags, s.committed, s'.exits[r].key, s'.exits[r].target)
  {
    hide TargetOk, EntryOk, ResultOk, PhaseOk, Advanced;
    assert s.At(c).IblLocked?;
    assert CpuOk(s, c);
    RoutedIs(s, c, ch);
  }

  lemma RoutedIs(s: State, c: Cpu, ch: Choice)
    requires s.At(c).IblLocked?
    ensures var w := s.At(c);
            Advanced(s, c, ch).exits == if ch.id in s.exits then s.exits else s.exits[ch.id := Routine(w.key, w.addr)]
  {
  }

  lemma {:induction false} AllExitsAreRight(states: seq<State>, steps: seq<(Cpu, Choice)>, k: nat)
    requires Run(states, steps) && k < |states|
    ensures ExitsRight(states[k])
  {
    hide TargetOk, Advanced, Inv, Sound, Kept;
    if k > 0 {
      var s, s', c, ch := states[k - 1], states[k], steps[k - 1].0, steps[k - 1].1;
      AllExitsAreRight(states, steps, k - 1);
      RunKeepsInv(states, steps, k - 1);
      KeptForGood(states, steps, k - 1, k);
      forall r | r in s'.exits ensures TargetOk(s'.frags, s'.committed, s'.exits[r].key, s'.exits[r].target) {
        if r !in s.exits {
          ExitAdded(s, c, ch, r);
        } else {
          ExitKept(s, s', r);
        }
        TargetStays(s, s', s'.exits[r].key, s'.exits[r].target);
      }
    }
  }

  lemma ExitKept(s: State, s': State, r: nat)
    requires Kept(s, s') && r in s.exits
    ensures r in s'.exits && s'.exits[r] == s.exits[r]
  {
  }

  /** In every interleaving, whatever a step frees was allocated by the translation that
      frees it, committed code is never freed, and no allocation of another CPU is. */
  lemma RollbackFreesOwn(states: seq<State>, steps: seq<(Cpu, Choice)>, k: nat, d: Cpu)
    requires Run(states, steps) && k < |steps|
    ensures FreesOwn(states[k], states[k + 1], steps[k].0)
    ensures d != steps[k].0 ==>
              states[k + 1].Stubs(d) == states[k].Stubs(d) && states[k + 1].Blocks(d) == states[k].Blocks(d)
  {
    RunKeepsInv(states, steps, k);
    AdvancedIsSound(states[k], steps[k].0, steps[k].1);
  }

  /** A translation that lost has given back all of its code bytes, and the block that beat it
      is in the table. */
  lemma RollbackIsComplete(states: seq<State>, steps: seq<(Cpu, Choice)>, k: nat, c: Cpu, f: nat)
    requires Run(states, steps) && k < |states| && states[k].At(c).Translating?
    requires states[k].At(c).phase.Losing() && !states[k].At(c).phase.Lost?
    ensures f in states[k].frags ==> states[k].frags[f].owner != states[k].At(c).txn
    ensures states[k].At(c).call.base in states[k].cache
  {
    RunKeepsInv(states, steps, k);
    assert CpuOk(states[k], c);
  }
}
