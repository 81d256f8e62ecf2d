/** What `code_cache::find` is for: code that it returned is in the table, and is found there
    from then on. */
module Publication {
  import opened Policy
  import opened CodeCache

  // ----- code that is carried is in the table -----

  /** The address that a call of `find` has come up with so far. */
  function Carried(w: Where): MaybeAddr {
    match w
    case Based(_, _, target) => target
    case Looked(_, _, target) => target
    case Detached(_, _, target) => target
    case Locked(_, target) => target
    case Unlocking(_, addr) => To(addr)
    case Unlocked(_, addr) => To(addr)
    case IblLocked(_, addr) => To(addr)
    case Routed(_, addr) => To(addr)
    case IblUnlocking(_, addr) => To(addr)
    case Done(_, addr) => To(addr)
    case _ => Nowhere
  }

  /** The key that the call is for. */
  function KeyOf(w: Where): MaybeKey {
    match w
    case Idle => NoKey
    case Locked(call, _) => OfKey(call.key)
    case Translating(call, _, _) => OfKey(call.key)
    case Unlocking(call, _) => OfKey(call.key)
    case _ => OfKey(w.key)
  }

  datatype MaybeKey = NoKey | OfKey(key: Key)

  /** A call for a key that must be attached to does not go to a detach target. */
  predicate StaysAttached(w: Where) {
    Carried(w).To? && Carried(w).addr.Detach? && KeyOf(w).OfKey? ==> !KeyOf(w).key.policy.forceAttach
  }

  /** The block that an address names has an entry. */
  predicate Listed(s: State, addr: Addr) {
    addr.Code? ==> addr.frag in s.frags && addr.frag in s.committed && addr.block < |s.frags[addr.frag].blocks| &&
                   s.frags[addr.frag].blocks[addr.block] in s.cache
  }

  /** The call is past the point where its exit routine is stored. */
  predicate Stores(w: Where) { w.IblUnlocking? || w.Done? }

  ghost predicate CarriesListed(s: State, c: Cpu) {
    var w := s.At(c);
    && (Carried(w).To? ==> Listed(s, Carried(w).addr))
    && (Stores(w) && w.key.policy.WantsExit() ==> w.key in s.cache) && StaysAttached(w)
  }

  lemma ListedStays(s: State, s': State, addr: Addr)
    requires Kept(s, s') && Listed(s, addr)
    ensures Listed(s', addr)
  {
  }

  lemma CarriesStays(s: State, s': State, c: Cpu)
    requires Kept(s, s') && s'.At(c) == s.At(c) && CarriesListed(s, c)
    ensures CarriesListed(s', c)
  {
    hide Kept, Listed;
    if Carried(s.At(c)).To? { ListedStays(s, s', Carried(s.At(c)).addr); }
    KeysStay(s, s');
  }

  lemma KeysStay(s: State, s': State)
    requires Kept(s, s')
    ensures s.cache.Keys <= s'.cache.Keys
  {
  }

  lemma EntryIsListed(s: State, key: Key)
    requires CacheOk(s, key) && key in s.cache
    ensures Listed(s, s.cache[key]) && !s.cache[key].Detach?
  {
  }

  // ----- where a step leads -----

  lemma IdleNext(s: State, c: Cpu, ch: Choice)
    requires s.At(c).Idle? && ch.yes
    ensures Advanced(s, c, ch) == s.Goto(c, Called(ch.key))
  {
  }

  lemma WrapperNext(s: State, c: Cpu, ch: Choice)
    requires s.At(c).Idle? && !ch.yes
    ensures Advanced(s, c, ch).At(c) == Idle
  {
    if ch.key.policy.WantsExit() {
      assert Advanced(s, c, ch) == s.Goto(c, Idle);
    } else {
      assert Advanced(s, c, ch) == s.(cache := s.cache[ch.key := Custom(ch.key)]).Goto(c, Idle);
    }
  }

  lemma DoneNext(s: State, c: Cpu, ch: Choice, key: Key, addr: Addr)
    requires s.At(c) == Done(key, addr)
    ensures Advanced(s, c, ch).At(c) == Idle
  {
  }

  lemma LookStep(s: State, c: Cpu, ch: Choice)
    requires var w := s.At(c); w.Called? || w.Missed? || w.Based? || w.Looked? || w.Detached? || w.Locked?
    ensures Advanced(s, c, ch) == LookedUp(s, c, ch)
  {
    hide LookedUp;
  }

  lemma CalledNext(s: State, c: Cpu, ch: Choice, key: Key)
    requires s.At(c) == Called(key)
    ensures Advanced(s, c, ch) == s.Goto(c, if key in s.cache then Done(key, s.cache[key]) else Missed(key))
  {
    LookStep(s, c, ch);
    hide Advanced;
  }

  lemma MissedNext(s: State, c: Cpu, ch: Choice, key: Key)
    requires s.At(c) == Missed(key)
    ensures Advanced(s, c, ch) ==
            s.Goto(c, Based(key, BaseKey(key, ch.host), if ch.own then To(Native(key.pc)) else Nowhere))
  {
    LookStep(s, c, ch);
    hide Advanced, BaseKey;
  }

  lemma BasedNext(s: State, c: Cpu, ch: Choice, key: Key, base: Key, t: MaybeAddr)
    requires s.At(c) == Based(key, base, t)
    ensures Advanced(s, c, ch) == s.Goto(c, Looked(key, base, if t.Nowhere? && base != key then s.Load(base) else t))
  {
    LookStep(s, c, ch);
    hide Advanced;
  }

  lemma LookedNext(s: State, c: Cpu, ch: Choice, key: Key, base: Key, t: MaybeAddr)
    requires s.At(c) == Looked(key, base, t)
    ensures var w := Advanced(s, c, ch).At(c);
            && w.Detached? && w.key == key && w.base == base
            && (t.To? || key.policy.forceAttach ==> w.target == t)
            && (w.target == t || w.target == To(Detach(key.pc)) || w.target == To(Native(key.pc)))
  {
    LookStep(s, c, ch);
    hide Advanced;
  }

  lemma DetachedNext(s: State, c: Cpu, ch: Choice, key: Key, base: Key, t: MaybeAddr)
    requires s.At(c) == Detached(key, base, t)
    ensures var w := Advanced(s, c, ch).At(c); w == s.At(c) || w == Locked(Call(key, base, ch.arena), t)
  {
    LookStep(s, c, ch);
    hide Advanced;
  }

  lemma LockedNext(s: State, c: Cpu, ch: Choice, call: Call, t: MaybeAddr)
    requires s.At(c) == Locked(call, t)
    ensures Advanced(s, c, ch).At(c) ==
            if t.To? then Unlocking(call, t.addr) else Translating(call, s.translations, Began)
  {
    LookStep(s, c, ch);
    hide Advanced;
  }

  lemma EmitStep(s: State, c: Cpu, ch: Choice)
    requires s.At(c).Translating? && !s.At(c).phase.Encoded? && !s.At(c).phase.Losing()
    ensures Advanced(s, c, ch) == Emitted(s, c, ch)
  {
    hide Emitted, Published;
  }

  lemma PublishStep(s: State, c: Cpu, ch: Choice)
    requires s.At(c).Translating? && (s.At(c).phase.Encoded? || s.At(c).phase.Losing())
    ensures Advanced(s, c, ch) == Published(s, c)
  {
    hide Emitted, Published;
  }

  /** Before its code is written a translation goes on. */
  lemma EmitNext(s: State, c: Cpu, ch: Choice)
    requires s.At(c).Translating? && !s.At(c).phase.Encoded? && !s.At(c).phase.Losing()
    ensures s.At(c).GoesOn(Advanced(s, c, ch).At(c))
  {
    EmitStep(s, c, ch);
    hide Advanced, Emitted;
  }

  /** The stores of a translation: the inner blocks of a trace one after the other ... */
  lemma AddNext(s: State, c: Cpu, ch: Choice, f: nat, added: nat)
    requires s.At(c).Translating? && s.At(c).phase == Encoded(f, added) && f in s.frags
    requires added < |s.frags[f].blocks|
    ensures Advanced(s, c, ch) == s.(cache := s.cache[s.frags[f].blocks[added] := Code(f, added)])
                                   .Goto(c, s.At(c).(phase := Encoded(f, added + 1)))
  {
    PublishStep(s, c, ch);
    hide Advanced;
  }

  /** ... and then the block that was asked for, unless it is alone and comes second. */
  lemma StoreNext(s: State, c: Cpu, ch: Choice, f: nat, added: nat)
    requires s.At(c).Translating? && s.At(c).phase == Encoded(f, added) && f in s.frags
    requires added >= |s.frags[f].blocks| && !(|s.frags[f].blocks| == 1 && s.At(c).call.base in s.cache)
    ensures var call := s.At(c).call;
            Advanced(s, c, ch) == s.(cache := s.cache[call.base := Code(f, 0)], committed := s.committed + {f})
                                   .Goto(c, Unlocking(call, Code(f, 0)))
  {
    PublishStep(s, c, ch);
    hide Advanced;
  }

  lemma SecondNext(s: State, c: Cpu, ch: Choice, f: nat, added: nat)
    requires s.At(c).Translating? && s.At(c).phase == Encoded(f, added) && f in s.frags
    requires added >= |s.frags[f].blocks| == 1 && s.At(c).call.base in s.cache
    ensures Advanced(s, c, ch) == s.Goto(c, s.At(c).(phase := Lost(f)))
  {
    PublishStep(s, c, ch);
    hide Advanced;
  }

  /** The rollback of a translation, which ends with the entry of the other one. */
  lemma LosingNext(s: State, c: Cpu, ch: Choice, call: Call, txn: nat, phase: Phase)
    requires s.At(c) == Translating(call, txn, phase) && phase.Losing() && !phase.LostBlocks?
    ensures var s' := Advanced(s, c, ch);
            s'.cache == s.cache && s'.At(c) == Translating(call, txn, s'.At(c).phase) && s'.At(c).phase.Losing()
  {
    hide Advanced;
    if phase.Lost? {
      LostCode(s, c, ch, s.At(c), phase.frag);
    } else if phase.LostFrag? {
      LostFragNext(s, c, ch, s.At(c));
    } else {
      LostStubsNext(s, c, ch, s.At(c));
    }
  }

  lemma LostCode(s: State, c: Cpu, ch: Choice, w: Where, f: nat)
    requires s.At(c) == w && w.Translating? && w.phase == Lost(f)
    ensures Advanced(s, c, ch).At(c) == w.(phase := LostFrag) && Advanced(s, c, ch).cache == s.cache
  {
    PublishStep(s, c, ch);
    hide Advanced;
  }

  lemma LostFragNext(s: State, c: Cpu, ch: Choice, w: Where)
    requires s.At(c) == w && w.Translating? && w.phase.LostFrag?
    ensures var s' := Advanced(s, c, ch);
            && s'.At(c) == w.(phase := LostStubs) && s'.translations == s.translations && s'.cache == s.cache
            && s'.Stubs(c) == s.Stubs(c).FreedLast() && s'.Blocks(c) == s.Blocks(c)
  {
    PublishStep(s, c, ch);
    hide Advanced;
  }

  lemma LostStubsNext(s: State, c: Cpu, ch: Choice, w: Where)
    requires s.At(c) == w && w.Translating? && w.phase.LostStubs?
    ensures var s' := Advanced(s, c, ch);
            && s'.At(c) == w.(phase := LostBlocks) && s'.translations == s.translations && s'.cache == s.cache
            && s'.Stubs(c) == s.Stubs(c) && s'.Blocks(c) == s.Blocks(c).FreedLast()
  {
    PublishStep(s, c, ch);
    hide Advanced;
  }

  lemma LostNext(s: State, c: Cpu, ch: Choice, call: Call, txn: nat)
    requires s.At(c) == Translating(call, txn, LostBlocks) && call.base in s.cache
    ensures Advanced(s, c, ch) == s.Goto(c, Unlocking(call, s.cache[call.base]))
  {
    PublishStep(s, c, ch);
    hide Advanced;
  }

  lemma ExitStep(s: State, c: Cpu, ch: Choice)
    requires var w := s.At(c); w.Unlocking? || w.Unlocked? || w.IblLocked? || w.Routed? || w.IblUnlocking?
    ensures Advanced(s, c, ch) == Exited(s, c, ch)
  {
    hide Exited;
  }

  lemma UnlockingNext(s: State, c: Cpu, ch: Choice, call: Call, addr: Addr)
    requires s.At(c) == Unlocking(call, addr)
    ensures Advanced(s, c, ch).At(c) == Unlocked(call.key, addr)
  {
    ExitStep(s, c, ch);
    hide Advanced;
  }

  lemma UnlockedNext(s: State, c: Cpu, ch: Choice, key: Key, addr: Addr)
    requires s.At(c) == Unlocked(key, addr) && !key.policy.WantsExit()
    ensures Advanced(s, c, ch) == s.Goto(c, Done(key, addr))
  {
    ExitStep(s, c, ch);
    hide Advanced;
  }

  lemma UnlockedWaits(s: State, c: Cpu, ch: Choice, key: Key, addr: Addr)
    requires s.At(c) == Unlocked(key, addr) && key.policy.WantsExit()
    ensures Advanced(s, c, ch) == if s.iblHeld then s else s.Goto(c, IblLocked(key, addr)).(iblHeld := true)
  {
    ExitStep(s, c, ch);
    hide Advanced;
  }

  lemma IblLockedNext(s: State, c: Cpu, ch: Choice, key: Key, addr: Addr)
    requires s.At(c) == IblLocked(key, addr)
    ensures var w := Advanced(s, c, ch).At(c); w == s.At(c) || w == Routed(key, Exit(ch.id))
  {
    ExitStep(s, c, ch);
    hide Advanced;
  }

  /** What a store that keeps a previous entry leaves in the table. */
  function Entry(s: State, key: Key, addr: Addr): Addr { if key in s.cache then s.cache[key] else addr }

  lemma RoutedNext(s: State, c: Cpu, ch: Choice, key: Key, addr: Addr)
    requires s.At(c) == Routed(key, addr)
    ensures var entry := Entry(s, key, addr);
            Advanced(s, c, ch) == s.Goto(c, IblUnlocking(key, entry)).(cache := s.cache[key := entry])
  {
    ExitStep(s, c, ch);
    hide Advanced;
  }

  lemma IblUnlockingNext(s: State, c: Cpu, ch: Choice, key: Key, addr: Addr)
    requires s.At(c) == IblUnlocking(key, addr)
    ensures Advanced(s, c, ch).At(c) == Done(key, addr)
  {
    ExitStep(s, c, ch);
    hide Advanced;
  }

  // ----- every step keeps it -----

  lemma CarriesNone(s: State, c: Cpu)
    requires Carried(s.At(c)).Nowhere? && !Stores(s.At(c))
    ensures CarriesListed(s, c)
  {
  }

  /** A step that carries on with what it has, or with what is no code. */
  lemma CarriesOn(s: State, s': State, c: Cpu)
    requires Kept(s, s') && CarriesListed(s, c) && Carried(s'.At(c)).To? && !Stores(s'.At(c))
    requires if Carried(s'.At(c)) == Carried(s.At(c)) then KeyOf(s'.At(c)) == KeyOf(s.At(c))
             else !Carried(s'.At(c)).addr.Code? && StaysAttached(s'.At(c))
    ensures CarriesListed(s', c)
  {
    hide Kept;
    if Carried(s'.At(c)) == Carried(s.At(c)) { ListedStays(s, s', Carried(s.At(c)).addr); }
  }

  /** A step that takes an entry of the table. */
  lemma CarriesEntry(s: State, s': State, c: Cpu, key: Key)
    requires Kept(s, s') && CacheOk(s, key) && key in s.cache && Carried(s'.At(c)) == To(s.cache[key])
    requires Stores(s'.At(c)) ==> s'.At(c).key == key
    ensures CarriesListed(s', c)
  {
    hide Kept, CacheOk, Listed;
    EntryIsListed(s, key);
    ListedStays(s, s', s.cache[key]);
    KeysStay(s, s');
  }

  lemma CarriesLookup(s: State, s': State, c: Cpu, ch: Choice)
    requires Kept(s, s') && CarriesListed(s, c) && (forall key :: CacheOk(s, key)) && s' == Advanced(s, c, ch)
    requires var w := s.At(c); w.Called? || w.Missed? || w.Based? || w.Looked? || w.Detached? || w.Locked?
    ensures CarriesListed(s', c)
  {
    hide Kept, CacheOk, CarriesListed, Advanced, BaseKey;
    match s.At(c) {
      case Called(key) =>
        CalledNext(s, c, ch, key);
        if key in s.cache { assert CacheOk(s, key); CarriesEntry(s, s', c, key); } else { CarriesNone(s', c); }
      case Missed(key) =>
        MissedNext(s, c, ch, key);
        if ch.own { CarriesOn(s, s', c); } else { CarriesNone(s', c); }
      case Based(key, base, t) =>
        BasedNext(s, c, ch, key, base, t);
        if t.To? { CarriesOn(s, s', c); }
        else if base != key && base in s.cache { assert CacheOk(s, base); CarriesEntry(s, s', c, base); }
        else { CarriesNone(s', c); }
      case Looked(key, base, t) =>
        LookedNext(s, c, ch, key, base, t);
        if Carried(s'.At(c)).To? { CarriesOn(s, s', c); } else { CarriesNone(s', c); }
      case Detached(key, base, t) =>
        DetachedNext(s, c, ch, key, base, t);
        if t.To? { CarriesOn(s, s', c); } else { CarriesNone(s', c); }
      case Locked(call, t) =>
        LockedNext(s, c, ch, call, t);
        if t.To? { CarriesOn(s, s', c); } else { CarriesNone(s', c); }
    }
  }

  lemma CarriesStored(s: State, s': State, c: Cpu, call: Call, f: nat)
    requires f in s'.frags && f in s'.committed && |s'.frags[f].blocks| > 0 && s'.frags[f].blocks[0] == call.base
    requires call.base in s'.cache && s'.At(c) == Unlocking(call, Code(f, 0))
    ensures CarriesListed(s', c)
  {
  }

  lemma CarriesTranslation(s: State, s': State, c: Cpu, ch: Choice)
    requires Inv(s) && Kept(s, s') && CarriesListed(s, c) && s' == Advanced(s, c, ch) && s.At(c).Translating?
    ensures CarriesListed(s', c)
  {
    hide Kept, CacheOk, CarriesListed, Advanced, CpuOk, LockOk, TxnsDiffer, FragsOk;
    var Translating(call, txn, phase) := s.At(c);
    if phase.Encoded? {
      EncodedIs(s, c);
      CarriesEncoded(s, s', c, ch, phase.frag, phase.added);
    } else if phase.LostBlocks? {
      LostHasEntry(s, c);
      assert CacheOk(s, call.base);
      LostNext(s, c, ch, call, txn);
      GoneTo(s, c, Unlocking(call, s.cache[call.base]));
      CarriesEntry(s, s', c, call.base);
    } else if phase.Losing() {
      LosingNext(s, c, ch, call, txn, phase);
      CarriesNone(s', c);
    } else {
      EmitNext(s, c, ch);
      CarriesNone(s', c);
    }
  }

  lemma CarriesEncoded(s: State, s': State, c: Cpu, ch: Choice, f: nat, added: nat)
    requires s' == Advanced(s, c, ch) && s.At(c).Translating? && s.At(c).phase == Encoded(f, added)
    requires f in s.frags && IsTrace(s.frags[f].blocks, s.At(c).call.base)
    ensures CarriesListed(s', c)
  {
    hide CarriesListed, Advanced;
    var w := s.At(c);
    if added < |s.frags[f].blocks| {
      AddNext(s, c, ch, f, added);
      GoneTo(s.(cache := s'.cache), c, w.(phase := Encoded(f, added + 1)));
      CarriesNone(s', c);
    } else if |s.frags[f].blocks| == 1 && w.call.base in s.cache {
      SecondNext(s, c, ch, f, added);
      GoneTo(s, c, w.(phase := Lost(f)));
      CarriesNone(s', c);
    } else {
      StoreNext(s, c, ch, f, added);
      StoredIs(s, s', c, f);
      CarriesStored(s, s', c, w.call, f);
    }
  }

  lemma StoredIs(s: State, s': State, c: Cpu, f: nat)
    requires s.At(c).Translating?
    requires var call := s.At(c).call;
             s' == s.(cache := s.cache[call.base := Code(f, 0)], committed := s.committed + {f})
                    .Goto(c, Unlocking(call, Code(f, 0)))
    ensures s'.frags == s.frags && f in s'.committed && s.At(c).call.base in s'.cache
    ensures s'.At(c) == Unlocking(s.At(c).call, Code(f, 0))
  {
  }

  lemma CarriesDone(s: State, s': State, c: Cpu, key: Key, addr: Addr)
    requires Kept(s, s') && CarriesListed(s, c) && Carried(s.At(c)) == To(addr) && s'.At(c) == Done(key, addr)
    requires KeyOf(s.At(c)) == OfKey(key)
    requires key.policy.WantsExit() ==> Stores(s.At(c)) && s.At(c).key == key
    ensures CarriesListed(s', c)
  {
    hide Kept, Listed;
    ListedStays(s, s', addr);
    KeysStay(s, s');
  }

  lemma CarriesNew(s: State, s': State, c: Cpu, key: Key, addr: Addr)
    requires addr.Exit? && key in s'.cache && s'.At(c) == IblUnlocking(key, addr)
    ensures CarriesListed(s', c)
  {
  }

  lemma CarriesUnlocked(s: State, s': State, c: Cpu, ch: Choice, key: Key, addr: Addr)
    requires Kept(s, s') && CarriesListed(s, c) && s' == Advanced(s, c, ch) && s.At(c) == Unlocked(key, addr)
    ensures CarriesListed(s', c)
  {
    hide Kept, CarriesListed, Advanced;
    if key.policy.WantsExit() {
      UnlockedWaits(s, c, ch, key, addr);
      if !s.iblHeld { GoneTo(s.(iblHeld := true), c, IblLocked(key, addr)); }
      CarriesOn(s, s', c);
    } else {
      UnlockedNext(s, c, ch, key, addr);
      GoneTo(s, c, Done(key, addr));
      CarriesDone(s, s', c, key, addr);
    }
  }

  lemma CarriesRouted(s: State, s': State, c: Cpu, ch: Choice, key: Key, addr: Addr)
    requires Kept(s, s') && (forall key :: CacheOk(s, key)) && s' == Advanced(s, c, ch)
    requires s.At(c) == Routed(key, addr) && addr.Exit?
    ensures CarriesListed(s', c)
  {
    hide Kept, CacheOk, CarriesListed, Advanced;
    RoutedNext(s, c, ch, key, addr);
    var entry := Entry(s, key, addr);
    GoneTo(s.(cache := s.cache[key := entry]), c, IblUnlocking(key, entry));
    if key in s.cache {
      assert CacheOk(s, key);
      CarriesEntry(s, s', c, key);
    } else {
      CarriesNew(s, s', c, key, addr);
    }
  }

  lemma CarriesExit(s: State, s': State, c: Cpu, ch: Choice)
    requires Kept(s, s') && CpuOk(s, c) && CarriesListed(s, c) && (forall key :: CacheOk(s, key))
    requires s' == Advanced(s, c, ch) && Exits(s.At(c))
    ensures CarriesListed(s', c)
  {
    assert s.At(c).Routed? ==> s.At(c).addr.Exit?;
    hide Kept, CacheOk, CarriesListed, Advanced, CpuOk;
    match s.At(c) {
      case Unlocking(call, addr) =>
        UnlockingNext(s, c, ch, call, addr);
        CarriesOn(s, s', c);
      case Unlocked(key, addr) => CarriesUnlocked(s, s', c, ch, key, addr);
      case IblLocked(key, addr) =>
        IblLockedNext(s, c, ch, key, addr);
        CarriesOn(s, s', c);
      case Routed(key, addr) => CarriesRouted(s, s', c, ch, key, addr);
      case IblUnlocking(key, addr) =>
        IblUnlockingNext(s, c, ch, key, addr);
        CarriesDone(s, s', c, key, addr);
    }
  }

  lemma IdleCarriesNone(s: State, c: Cpu, ch: Choice)
    requires s.At(c).Idle? || s.At(c).Done?
    ensures var w := Advanced(s, c, ch).At(c); w.Idle? || w.Called?
  {
    hide Advanced;
    if s.At(c).Done? {
      DoneNext(s, c, ch, s.At(c).key, s.At(c).addr);
    } else if ch.yes {
      IdleNext(s, c, ch);
      GoneTo(s, c, Called(ch.key));
    } else {
      WrapperNext(s, c, ch);
    }
  }

  lemma GoneTo(s: State, c: Cpu, w: Where)
    ensures s.Goto(c, w).At(c) == w
  {
  }

  lemma CarriesIdle(s: State, s': State, c: Cpu, ch: Choice)
    requires (s.At(c).Idle? || s.At(c).Done?) && s' == Advanced(s, c, ch)
    ensures CarriesListed(s', c)
  {
    hide CarriesListed, Advanced;
    IdleCarriesNone(s, c, ch);
    CarriesNone(s', c);
  }

  lemma CarriesNext(s: State, s': State, c: Cpu, ch: Choice)
    requires Inv(s) && Kept(s, s') && CarriesListed(s, c) && s' == Advanced(s, c, ch)
    ensures CarriesListed(s', c)
  {
    assert CpuOk(s, c) && (forall key :: CacheOk(s, key));
    hide Kept, CacheOk, CarriesListed, Advanced, CpuOk, Inv;
    var w := s.At(c);
    if w.Idle? || w.Done? {
      CarriesIdle(s, s', c, ch);
    } else if w.Translating? {
      CarriesTranslation(s, s', c, ch);
    } else if w.Unlocking? || w.Unlocked? || w.IblLocked? || w.Routed? || w.IblUnlocking? {
      CarriesExit(s, s', c, ch);
    } else {
      CarriesLookup(s, s', c, ch);
    }
  }

  lemma {:induction false} AllCarriesListed(states: seq<State>, steps: seq<(Cpu, Choice)>, k: nat, c: Cpu)
    requires Run(states, steps) && k < |states|
    ensures CarriesListed(states[k], c)
  {
    hide Kept, CarriesListed, Advanced, Inv, Sound;
    if k == 0 {
      CarriesNone(states[0], c);
    } else {
      AllCarriesListed(states, steps, k - 1, c);
      KeptForGood(states, steps, k - 1, k);
      var d, ch := steps[k - 1].0, steps[k - 1].1;
      RunKeepsInv(states, steps, k - 1);
      if d == c {
        CarriesNext(states[k - 1], states[k], c, ch);
      } else {
        OthersAreStill(states[k - 1], d, ch, c);
        CarriesStays(states[k - 1], states[k], c);
      }
    }
  }

  lemma OthersAreStill(s: State, c: Cpu, ch: Choice, d: Cpu)
    requires Inv(s) && c != d
    ensures Advanced(s, c, ch).At(d) == s.At(d)
  {
    hide Advanced, Inv, Kept, FragsApart, LastApart, CpuOk, LockOk, FragsOk, FreesOwn;
    AdvancedIsSound(s, c, ch);
  }

  // ----- results: what is stored -----

  /** Block `i` of fragment `f` has been stored by step `k`. */
  ghost predicate WasStored(states: seq<State>, k: nat, key: Key, f: nat, i: nat) {
    exists j :: 0 <= j <= k < |states| && key in states[j].cache && states[j].cache[key] == Code(f, i)
  }

  lemma StoredNow(states: seq<State>, k: nat, key: Key, f: nat, i: nat)
    requires k < |states| && key in states[k].cache && states[k].cache[key] == Code(f, i)
    ensures WasStored(states, k, key, f, i)
  {
  }

  lemma StoredBefore(states: seq<State>, j: nat, k: nat, key: Key, f: nat, i: nat)
    requires j <= k < |states| && WasStored(states, j, key, f, i)
    ensures WasStored(states, k, key, f, i)
  {
  }

  /** The inner blocks of a trace have been stored up to where the translation has come. */
  lemma {:induction false} InnerStored(states: seq<State>, steps: seq<(Cpu, Choice)>, k: nat, c: Cpu, i: nat)
    requires Run(states, steps) && k < |states| && states[k].At(c).Translating? && states[k].At(c).phase.Encoded?
    requires 1 <= i < states[k].At(c).phase.added
    ensures var f := states[k].At(c).phase.frag;
            f in states[k].frags && i < |states[k].frags[f].blocks| &&
            WasStored(states, k, states[k].frags[f].blocks[i], f, i)
    decreases k
  {
    hide Kept, Advanced, Sound, WasStored;
    RunKeepsInv(states, steps, k);
    EncodedIs(states[k], c);
    var s, d, ch := states[k - 1], steps[k - 1].0, steps[k - 1].1;
    RunKeepsInv(states, steps, k - 1);
    var f := states[k].At(c).phase.frag;
    if d != c {
      OthersAreStill(s, d, ch, c);
      EncodedIs(s, c);
      InnerStored(states, steps, k - 1, c, i);
      CommittedStays(states, steps, k, f);
      StoredBefore(states, k - 1, k, s.frags[f].blocks[i], f, i);
    } else {
      CameFromEncoded(s, c, ch, f, states[k].At(c).phase.added);
      EncodedIs(s, c);
      AddNext(s, c, ch, f, s.At(c).phase.added);
      if i == s.At(c).phase.added {
        StoredNow(states, k, s.frags[f].blocks[i], f, i);
      } else {
        InnerStored(states, steps, k - 1, c, i);
        StoredBefore(states, k - 1, k, s.frags[f].blocks[i], f, i);
      }
    }
  }

  lemma EncodedIs(s: State, c: Cpu)
    requires Inv(s) && s.At(c).Translating? && s.At(c).phase.Encoded?
    ensures var w, f := s.At(c), s.At(c).phase.frag;
            && f in s.frags && IsTrace(s.frags[f].blocks, w.call.base)
            && 1 <= w.phase.added <= |s.frags[f].blocks| && (|s.frags[f].blocks| > 1 ==> f in s.committed)
  {
    hide OwnFrag, LastIsOwn, IsBaseOf, OwnsNoOther;
    assert CpuOk(s, c);
  }

  lemma CommittedStays(states: seq<State>, steps: seq<(Cpu, Choice)>, k: nat, f: nat)
    requires Run(states, steps) && 0 < k < |states| && f in states[k - 1].committed && f in states[k - 1].frags
    ensures f in states[k].frags && states[k].frags[f] == states[k - 1].frags[f]
  {
    hide Advanced;
    KeptForGood(states, steps, k - 1, k);
  }

  /** A translation that has stored an inner block was storing them before. */
  lemma CameFromEncoded(s: State, c: Cpu, ch: Choice, f: nat, added: nat)
    requires Inv(s) && added > 1 && Advanced(s, c, ch).At(c).Translating?
    requires Advanced(s, c, ch).At(c).phase == Encoded(f, added)
    ensures s.At(c).Translating? && s.At(c).phase == Encoded(f, added - 1)
    ensures f in s.frags && added - 1 < |s.frags[f].blocks|
  {
    hide Advanced, Inv;
    var w := s.At(c);
    if w.Translating? && w.phase.Encoded? {
      EncodedIs(s, c);
      EncodedLeads(s, c, ch, w.phase.frag, w.phase.added);
    } else {
      NotEncoded(s, c, ch);
    }
  }

  lemma EncodedLeads(s: State, c: Cpu, ch: Choice, f: nat, added: nat)
    requires s.At(c).Translating? && s.At(c).phase == Encoded(f, added) && f in s.frags
    ensures var w' := Advanced(s, c, ch).At(c);
            if added < |s.frags[f].blocks| then w' == s.At(c).(phase := Encoded(f, added + 1))
            else w'.Unlocking? || w' == s.At(c).(phase := Lost(f))
  {
    hide Advanced;
    var s', w := Advanced(s, c, ch), s.At(c);
    if added < |s.frags[f].blocks| {
      AddNext(s, c, ch, f, added);
      GoneTo(s.(cache := s'.cache), c, w.(phase := Encoded(f, added + 1)));
    } else if |s.frags[f].blocks| == 1 && w.call.base in s.cache {
      SecondNext(s, c, ch, f, added);
      GoneTo(s, c, w.(phase := Lost(f)));
    } else {
      StoreNext(s, c, ch, f, added);
      StoredIs(s, s', c, f);
    }
  }

  /** Where else a step may lead: not to a translation that has stored an inner block. */
  lemma NotEncoded(s: State, c: Cpu, ch: Choice)
    requires Inv(s) && !(s.At(c).Translating? && s.At(c).phase.Encoded?)
    ensures var w' := Advanced(s, c, ch).At(c); w'.Translating? && w'.phase.Encoded? ==> w'.phase.added == 1
  {
    hide Advanced, Inv;
    var w := s.At(c);
    if w.Idle? || w.Done? {
      IdleCarriesNone(s, c, ch);
    } else if w.Translating? {
      NotEncodedYet(s, c, ch);
    } else if Exits(w) {
      ExitLeads(s, c, ch);
    } else {
      LookLeads(s, c, ch);
    }
  }

  lemma NotEncodedYet(s: State, c: Cpu, ch: Choice)
    requires Inv(s) && s.At(c).Translating? && !s.At(c).phase.Encoded?
    ensures var w' := Advanced(s, c, ch).At(c); w'.Translating? && w'.phase.Encoded? ==> w'.phase.added == 1
  {
    hide Advanced;
    var Translating(call, txn, phase) := s.At(c);
    if phase.LostBlocks? {
      LostHasEntry(s, c);
      LostNext(s, c, ch, call, txn);
      GoneTo(s, c, Unlocking(call, s.cache[call.base]));
    } else if phase.Losing() {
      LosingNext(s, c, ch, call, txn, phase);
    } else {
      EmitNext(s, c, ch);
    }
  }

  lemma LostHasEntry(s: State, c: Cpu)
    requires Inv(s) && s.At(c).Translating? && s.At(c).phase.Losing()
    ensures s.At(c).call.base in s.cache
  {
    hide OwnFrag, LastIsOwn, IsBaseOf, OwnsNoOther, IsTrace;
    assert CpuOk(s, c);
  }

  predicate LooksUp(w: Where) { w.Called? || w.Missed? || w.Based? || w.Looked? || w.Detached? || w.Locked? }

  predicate Exits(w: Where) { w.Unlocking? || w.Unlocked? || w.IblLocked? || w.Routed? || w.IblUnlocking? }

  lemma UnlockedLeads(s: State, c: Cpu, ch: Choice, key: Key, addr: Addr)
    requires s.At(c) == Unlocked(key, addr)
    ensures var w' := Advanced(s, c, ch).At(c); Exits(w') || w'.Done?
  {
    hide Advanced;
    if key.policy.WantsExit() {
      UnlockedWaits(s, c, ch, key, addr);
      if !s.iblHeld { GoneTo(s.(iblHeld := true), c, IblLocked(key, addr)); }
    } else {
      UnlockedNext(s, c, ch, key, addr);
      GoneTo(s, c, Done(key, addr));
    }
  }

  lemma RoutedLeads(s: State, c: Cpu, ch: Choice, key: Key, addr: Addr)
    requires s.At(c) == Routed(key, addr)
    ensures Advanced(s, c, ch).At(c).IblUnlocking?
  {
    hide Advanced, Entry;
    RoutedNext(s, c, ch, key, addr);
    var entry := Entry(s, key, addr);
    GoneTo(s.(cache := s.cache[key := entry]), c, IblUnlocking(key, entry));
  }

  /** After a translation a call does not begin another one. */
  lemma ExitLeads(s: State, c: Cpu, ch: Choice)
    requires Exits(s.At(c))
    ensures var w' := Advanced(s, c, ch).At(c); Exits(w') || w'.Done?
  {
    hide Advanced;
    match s.At(c) {
      case Unlocking(call, addr) => UnlockingNext(s, c, ch, call, addr);
      case Unlocked(key, addr) => UnlockedLeads(s, c, ch, key, addr);
      case IblLocked(key, addr) => IblLockedNext(s, c, ch, key, addr);
      case Routed(key, addr) => RoutedLeads(s, c, ch, key, addr);
      case IblUnlocking(key, addr) => IblUnlockingNext(s, c, ch, key, addr);
    }
  }

  /** Before one, it begins one only if it has found nothing. */
  lemma LookLeads(s: State, c: Cpu, ch: Choice)
    requires LooksUp(s.At(c))
    ensures var w, w' := s.At(c), Advanced(s, c, ch).At(c);
            w'.Translating? ==> w.Locked? && w.target.Nowhere? && w'.call == w.call && w'.phase.Began?
  {
    hide Advanced, BaseKey;
    match s.At(c) {
      case Called(key) =>
        CalledNext(s, c, ch, key);
        GoneTo(s, c, if key in s.cache then Done(key, s.cache[key]) else Missed(key));
      case Missed(key) => MissedNext(s, c, ch, key);
      case Based(key, base, t) =>
        BasedNext(s, c, ch, key, base, t);
        GoneTo(s, c, Looked(key, base, if t.Nowhere? && base != key then s.Load(base) else t));
      case Looked(key, base, t) => LookedNext(s, c, ch, key, base, t);
      case Detached(key, base, t) => DetachedNext(s, c, ch, key, base, t);
      case Locked(call, t) => LockedNext(s, c, ch, call, t);
    }
  }

  /** In every run, a translation ends with the table naming what it found: the block it wrote,
      with all inner blocks of its trace stored before, or the block that was first. */
  lemma TranslationIsStored(states: seq<State>, steps: seq<(Cpu, Choice)>, k: nat)
    requires Run(states, steps) && k < |steps|
    requires var c := steps[k].0; states[k].At(c).Translating? && states[k + 1].At(c).Unlocking?
    ensures var c, s, s' := steps[k].0, states[k], states[k + 1];
            var call, addr, phase := s'.At(c).call, s'.At(c).addr, s.At(c).phase;
            && call == s.At(c).call && call.base in s'.cache && s'.cache[call.base] == addr
            && (phase.Encoded? || phase.LostBlocks?)
            && (phase.Encoded? ==>
                  && addr == Code(phase.frag, 0) && phase.frag in s.frags && phase.frag in s'.committed
                  && |s.frags[phase.frag].blocks| > 0 && s.frags[phase.frag].blocks[0] == call.base
                  && forall i :: 1 <= i < |s.frags[phase.frag].blocks| ==>
                       WasStored(states, k, s.frags[phase.frag].blocks[i], phase.frag, i))
            && (phase.LostBlocks? ==> s'.cache == s.cache)
  {
    hide Advanced, WasStored, Inv;
    var c, ch := steps[k].0, steps[k].1;
    var s, s' := states[k], states[k + 1];
    RunKeepsInv(states, steps, k);
    var Translating(call, txn, phase) := s.At(c);
    if phase.Encoded? {
      EncodedIs(s, c);
      EncodedLeads(s, c, ch, phase.frag, phase.added);
      EncodedStores(s, s', c, ch, phase.frag, phase.added);
      forall i | 1 <= i < |s.frags[phase.frag].blocks|
        ensures WasStored(states, k, s.frags[phase.frag].blocks[i], phase.frag, i)
      {
        InnerStored(states, steps, k, c, i);
      }
    } else if phase.LostBlocks? {
      LostHasEntry(s, c);
      LostNext(s, c, ch, call, txn);
      GoneTo(s, c, Unlocking(call, s.cache[call.base]));
    } else if phase.Losing() {
      LosingNext(s, c, ch, call, txn, phase);
    } else {
      EmitNext(s, c, ch);
    }
  }

  lemma EncodedStores(s: State, s': State, c: Cpu, ch: Choice, f: nat, added: nat)
    requires s.At(c).Translating? && s.At(c).phase == Encoded(f, added) && f in s.frags
    requires s' == Advanced(s, c, ch) && s'.At(c).Unlocking?
    ensures var call := s.At(c).call;
            && s'.At(c) == Unlocking(call, Code(f, 0)) && f in s'.committed
            && call.base in s'.cache && s'.cache[call.base] == Code(f, 0) && added >= |s.frags[f].blocks|
  {
    hide Advanced;
    EncodedLeads(s, c, ch, f, added);
    if !(|s.frags[f].blocks| == 1 && s.At(c).call.base in s.cache) {
      StoreNext(s, c, ch, f, added);
      StoredIs(s, s', c, f);
    } else {
      SecondNext(s, c, ch, f, added);
      GoneTo(s, c, s.At(c).(phase := Lost(f)));
    }
  }

  // ----- results: what is stored is found -----

  /** The call has looked for an entry of `base`, or is about to translate without looking. */
  predicate Past(w: Where, base: Key) {
    match w
    case Missed(key) => key == base
    case Based(key, b, t) => b == base && key == base && t.Nowhere?
    case Looked(_, b, t) => b == base && t.Nowhere?
    case Detached(_, b, t) => b == base && t.Nowhere?
    case Locked(call, t) => call.base == base && t.Nowhere?
    case Translating(call, _, _) => call.base == base
    case _ => false
  }

  lemma PastLookup(s: State, c: Cpu, ch: Choice, base: Key)
    requires LooksUp(s.At(c)) && base in s.cache && !Past(s.At(c), base)
    requires s.At(c).Missed? ==> BaseKey(s.At(c).key, ch.host) != s.At(c).key || s.At(c).key != base
    ensures !Past(Advanced(s, c, ch).At(c), base)
  {
    hide Advanced, BaseKey;
    match s.At(c) {
      case Called(key) =>
        CalledNext(s, c, ch, key);
        GoneTo(s, c, if key in s.cache then Done(key, s.cache[key]) else Missed(key));
      case Missed(key) =>
        MissedNext(s, c, ch, key);
        GoneTo(s, c, Based(key, BaseKey(key, ch.host), if ch.own then To(Native(key.pc)) else Nowhere));
      case Based(key, b, t) =>
        BasedNext(s, c, ch, key, b, t);
        GoneTo(s, c, Looked(key, b, if t.Nowhere? && b != key then s.Load(b) else t));
      case Looked(key, b, t) => LookedNext(s, c, ch, key, b, t);
      case Detached(key, b, t) => DetachedNext(s, c, ch, key, b, t);
      case Locked(call, t) => LockedNext(s, c, ch, call, t);
    }
  }

  lemma PastTranslation(s: State, c: Cpu, ch: Choice, base: Key)
    requires Inv(s) && s.At(c).Translating? && !Past(s.At(c), base)
    ensures !Past(Advanced(s, c, ch).At(c), base)
  {
    hide Advanced, Inv;
    var Translating(call, txn, phase) := s.At(c);
    if phase.Encoded? {
      EncodedIs(s, c);
      EncodedLeads(s, c, ch, phase.frag, phase.added);
    } else if phase.LostBlocks? {
      LostHasEntry(s, c);
      LostNext(s, c, ch, call, txn);
      GoneTo(s, c, Unlocking(call, s.cache[call.base]));
    } else if phase.Losing() {
      LosingNext(s, c, ch, call, txn, phase);
    } else {
      EmitNext(s, c, ch);
    }
  }

  lemma PastNext(s: State, c: Cpu, ch: Choice, base: Key)
    requires Inv(s) && base in s.cache && !Past(s.At(c), base)
    ensures !Past(Advanced(s, c, ch).At(c), base)
  {
    hide Advanced, Inv, BaseKey;
    var w := s.At(c);
    if w.Idle? || w.Done? {
      IdleCarriesNone(s, c, ch);
    } else if w.Translating? {
      PastTranslation(s, c, ch, base);
    } else if Exits(w) {
      ExitLeads(s, c, ch);
    } else {
      PastLookup(s, c, ch, base);
    }
  }

  /** In every run, once a key is in the table, a call of `find` that has not already looked for
      it in vain does not translate it: no call that begins later does. */
  lemma {:induction false} StoredIsNotTranslated(states: seq<State>, steps: seq<(Cpu, Choice)>, i: nat, k: nat,
                                                 c: Cpu, base: Key)
    requires Run(states, steps) && i <= k < |states| && base in states[i].cache && !Past(states[i].At(c), base)
    ensures !Past(states[k].At(c), base)
    ensures !(states[k].At(c).Translating? && states[k].At(c).call.base == base)
    decreases k
  {
    hide Advanced, Inv, Kept, Sound;
    if i < k {
      var s, d, ch := states[k - 1], steps[k - 1].0, steps[k - 1].1;
      StoredIsNotTranslated(states, steps, i, k - 1, c, base);
      RunKeepsInv(states, steps, k - 1);
      KeptForGood(states, steps, i, k - 1);
      KeysStay(states[i], s);
      if d == c {
        PastNext(s, c, ch, base);
      } else {
        OthersAreStill(s, d, ch, c);
      }
    }
  }

  /** In every run, a call of `find` for a key that is in the table returns its entry at once. */
  lemma StoredIsFound(states: seq<State>, steps: seq<(Cpu, Choice)>, i: nat, k: nat, key: Key)
    requires Run(states, steps) && i <= k < |steps| && key in states[i].cache
    requires states[k].At(steps[k].0) == Called(key)
    ensures key in states[k].cache && states[k + 1].At(steps[k].0) == Done(key, states[k].cache[key])
  {
    hide Advanced, Inv, Kept;
    KeptForGood(states, steps, i, k);
    KeysStay(states[i], states[k]);
    CalledNext(states[k], steps[k].0, steps[k].1, key);
    GoneTo(states[k], steps[k].0, Done(key, states[k].cache[key]));
  }

  /** In every run, what `find` returned is in the table from then on: the block that it names
      under the key of this block, and an exit routine under the key that was asked for.  A key
      that must be attached to is never detached. */
  lemma ReturnedIsStored(states: seq<State>, steps: seq<(Cpu, Choice)>, i: nat, k: nat, c: Cpu)
    requires Run(states, steps) && i <= k < |states| && states[i].At(c).Done?
    ensures Listed(states[k], states[i].At(c).addr)
    ensures states[i].At(c).key.policy.WantsExit() ==> states[i].At(c).key in states[k].cache
    ensures states[i].At(c).addr.Detach? ==> !states[i].At(c).key.policy.forceAttach
  {
    hide Advanced, Kept, Listed;
    AllCarriesListed(states, steps, i, c);
    KeptForGood(states, steps, i, k);
    ListedStays(states[i], states[k], states[i].At(c).addr);
    KeysStay(states[i], states[k]);
  }

  /** In every run, a call of `find` that returned code makes every later call, on any CPU, do
      without a translation of the same block; a call for the key of the block, or for a key
      that got an exit routine, returns at once, with what is right for it. */
  lemma SecondFindHits(states: seq<State>, steps: seq<(Cpu, Choice)>, i: nat, j: nat, k: nat, c: Cpu, d: Cpu,
                       key: Key, addr: Addr)
    requires Run(states, steps) && i <= j <= k < |states| && states[i].At(c) == Done(key, addr)
    requires states[j].At(d).Called?
    ensures addr.Code? ==> addr.frag in states[i].frags && addr.block < |states[i].frags[addr.frag].blocks|
    ensures addr.Code? ==>
              var block := states[i].frags[addr.frag].blocks[addr.block];
              && (key == block || IsBaseOf(block, key))
              && (states[k].At(d).Translating? ==> states[k].At(d).call.base != block)
              && (states[j].At(d) == Called(block) && j < k && steps[j].0 == d ==> FoundAt(states, j, d, block))
    ensures key.policy.WantsExit() && states[j].At(d) == Called(key) && j < k && steps[j].0 == d ==>
              FoundAt(states, j, d, key)
  {
    hide Advanced, Kept, ResultOk;
    ReturnedIsStored(states, steps, i, i, c);
    if addr.Code? {
      var block := states[i].frags[addr.frag].blocks[addr.block];
      ReturnedNames(states, steps, i, c, key, addr);
      KeptForGood(states, steps, i, j);
      KeysStay(states[i], states[j]);
      StoredIsNotTranslated(states, steps, j, k, d, block);
      if states[j].At(d) == Called(block) && j < k && steps[j].0 == d {
        StoredIsRight(states, steps, i, j, block);
      }
    }
    if key.policy.WantsExit() && states[j].At(d) == Called(key) && j < k && steps[j].0 == d {
      StoredIsRight(states, steps, i, j, key);
    }
  }

  /** The call for `key` that CPU `d` has begun returns in one step, with a right entry. */
  ghost predicate FoundAt(states: seq<State>, j: nat, d: Cpu, key: Key)
    requires j + 1 < |states|
  {
    && key in states[j].cache && states[j + 1].At(d) == Done(key, states[j].cache[key])
    && ResultOk(states[j + 1], key, states[j].cache[key])
  }

  lemma StoredIsRight(states: seq<State>, steps: seq<(Cpu, Choice)>, i: nat, j: nat, key: Key)
    requires Run(states, steps) && i <= j < |steps| && key in states[i].cache
    requires states[j].At(steps[j].0) == Called(key)
    ensures FoundAt(states, j, steps[j].0, key)
  {
    hide Advanced, Kept, ResultOk;
    StoredIsFound(states, steps, i, j, key);
    FindIsRight(states, steps, j + 1, j + 1, steps[j].0);
  }

  lemma ReturnedNames(states: seq<State>, steps: seq<(Cpu, Choice)>, i: nat, c: Cpu, key: Key, addr: Addr)
    requires Run(states, steps) && i < |states| && states[i].At(c) == Done(key, addr) && addr.Code?
    ensures addr.frag in states[i].frags && addr.block < |states[i].frags[addr.frag].blocks|
    ensures var block := states[i].frags[addr.frag].blocks[addr.block]; block == key || IsBaseOf(block, key)
  {
    hide Advanced, Kept, Run, BaseKey;
    FindIsRight(states, steps, i, i, c);
  }
}
