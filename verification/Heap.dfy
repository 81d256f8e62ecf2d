/** The size-class heap under concurrency: `global_allocate` and `global_free`.

    Memory is carved off a bump index and recycled through one free list per power of two.
    The lists are linked through the freed blocks themselves.  Whether a list is empty is
    first looked at without its lock. */
module Heap {
  import opened Arith

  const HEAP_SIZE: nat := 256 * 1048576
  const MIN_SCALE: nat := 3

  // ----- rounding of sizes -----

  /** The number of significant bits of `x`: 64 less the number of leading zeros. */
  function BitLength(x: nat): (n: nat)
    ensures x < Pow2(n) && (x > 0 ==> n > 0 && Pow2(n - 1) <= x)
  {
    if x == 0 then 0 else 1 + BitLength(x / 2)
  }

  /** `next_power_of_2`, by the leading zeros of `x - 1`. */
  function NextPowerOf2(x: nat): nat
    requires x > 0
  {
    Pow2(BitLength(x - 1))
  }

  /** `allocation_size` */
  function AllocationSize(size: nat): nat {
    if size < 8 then 8
    else
      var high := NextPowerOf2(size);
      if high / 2 >= size then high / 2 else high
  }

  /** `log_base_2(allocation_size(size)) - MIN_SCALE` */
  function ScaleOf(size: nat): nat {
    if size < 8 then 0 else BitLength(size - 1) - MIN_SCALE
  }

  function BlockSize(scale: nat): nat { Pow2(scale + MIN_SCALE) }

  /** A request gets the least power of two, and at least 8, that holds it. */
  lemma AllocationSizeIsLeast(size: nat, n: nat)
    ensures AllocationSize(size) == BlockSize(ScaleOf(size)) >= size
    ensures Pow2(n) >= size && n >= MIN_SCALE ==> Pow2(n) >= AllocationSize(size)
  {
    if Pow2(n) >= size && n >= MIN_SCALE {
      if size < 8 {
        Pow2Monotone(MIN_SCALE, n);
      } else {
        var b := BitLength(size - 1);
        if n < b {
          Pow2Monotone(n, b - 1);
          assert false;
        }
        Pow2Monotone(b, n);
      }
    }
  }

  // ----- the shared state -----

  type Addr = nat
  type Thread = nat

  datatype Ptr = Null | To(addr: Addr)

  /** Who a block belongs to.  A block whose bump went past the end of the heap is lost with
      the thread that faulted. */
  datatype Owner = Client | FreeList(scale: nat) | Held(thread: Thread) | Lost

  /** Where a thread is.  `A` marks the steps of an allocation, `F` those of a free. */
  datatype Pc =
    | Idle
    | ALook(scale: nat) | ABump(scale: nat) | ALock(scale: nat) | ALoad(scale: nat) | ARetry(scale: nat)
    | ANext(scale: nat, obj: Addr) | ATake(scale: nat, obj: Addr, next: Ptr) | AUnlock(scale: nat, obj: Addr)
    | FLock(scale: nat, obj: Addr) | FLoad(scale: nat, obj: Addr) | FLink(scale: nat, obj: Addr, head: Ptr)
    | FStore(scale: nat, obj: Addr) | FUnlock(scale: nat, obj: Addr)
    | Faulted
  {
    /** Inside the critical section of this list. */
    predicate Locks(scale: nat) {
      match this
      case ALoad(sc) => sc == scale case ARetry(sc) => sc == scale
      case ANext(sc, _) => sc == scale case ATake(sc, _, _) => sc == scale case AUnlock(sc, _) => sc == scale
      case FLoad(sc, _) => sc == scale case FLink(sc, _, _) => sc == scale
      case FStore(sc, _) => sc == scale case FUnlock(sc, _) => sc == scale
      case _ => false
    }

    /** The block that the thread has in its hands. */
    function Holding(): Ptr {
      match this
      case AUnlock(_, a) => To(a) case FLock(_, a) => To(a) case FLoad(_, a) => To(a)
      case FLink(_, a, _) => To(a) case FStore(_, a) => To(a)
      case _ => Null
    }
  }

  /** `next` is the first word of each block, as memory.  The last four components only
      record history: the blocks in the order of their bumps, their scales, their owners, and
      the free lists as sequences. */
  datatype State = State(
    heapIndex: nat,
    head: map<nat, Ptr>, lock: map<nat, Thread>, next: map<Addr, Ptr>,
    pc: map<Thread, Pc>,
    tiles: seq<Addr>, scale: map<Addr, nat>, owner: map<Addr, Owner>, list: map<nat, seq<Addr>>)
  {
    function Head(sc: nat): Ptr { Look(head, sc) }
    function List(sc: nat): seq<Addr> { Members(list, sc) }
    function NextOf(a: Addr): Ptr { Word(next, a) }
    function At(t: Thread): Pc { Where(pc, t) }
    function Goto(t: Thread, p: Pc): State { this.(pc := pc[t := p]) }
    function Give(a: Addr, o: Owner): State { this.(owner := owner[a := o]) }
  }

  predicate Init(s: State) {
    && s.heapIndex == 0 && s.head == map[] && s.lock == map[] && s.pc == map[]
    && s.tiles == [] && s.scale == map[] && s.owner == map[] && s.list == map[]
  }

  // ----- steps -----

  datatype Step =
    | StartAllocate(size: nat)
    | StartFree(obj: Addr, size: nat)
    | ClientWrite(obj: Addr, word: Ptr)
    | Advance

  /** The next instruction of a thread inside `global_allocate` or `global_free`; a thread that
      wants a lock which is taken does not move. */
  function Advanced(s: State, t: Thread): (s': State)
    ensures s'.pc == s.pc || s'.pc == s.pc[t := s'.At(t)]
  {
    match s.At(t)
    case Idle => s
    case Faulted => s
    case ALook(sc) => s.Goto(t, if s.Head(sc) == Null then ABump(sc) else ALock(sc))
    case ABump(sc) =>
      var a := s.heapIndex;
      var faults := a + BlockSize(sc) >= HEAP_SIZE;
      s.Goto(t, if faults then Faulted else Idle).(
        heapIndex := a + BlockSize(sc), tiles := s.tiles + [a], scale := s.scale[a := sc],
        owner := s.owner[a := if faults then Lost else Client])
    case ALock(sc) => if sc in s.lock then s else s.Goto(t, ALoad(sc)).(lock := s.lock[sc := t])
    case ALoad(sc) => s.Goto(t, if s.Head(sc) == Null then ARetry(sc) else ANext(sc, s.Head(sc).addr))
    case ARetry(sc) => s.Goto(t, ALook(sc)).(lock := s.lock - {sc})
    case ANext(sc, a) => s.Goto(t, ATake(sc, a, s.NextOf(a)))
    case ATake(sc, a, h) =>
      s.Goto(t, AUnlock(sc, a)).(
        head := s.head[sc := h],
        list := s.list[sc := if s.List(sc) == [] then [] else s.List(sc)[1..]], owner := s.owner[a := Held(t)])
    case AUnlock(sc, a) => s.Goto(t, Idle).(lock := s.lock - {sc}, owner := s.owner[a := Client])
    case FLock(sc, a) => if sc in s.lock then s else s.Goto(t, FLoad(sc, a)).(lock := s.lock[sc := t])
    case FLoad(sc, a) => s.Goto(t, FLink(sc, a, s.Head(sc)))
    case FLink(sc, a, h) => s.Goto(t, FStore(sc, a)).(next := s.next[a := h])
    case FStore(sc, a) =>
      s.Goto(t, FUnlock(sc, a)).(
        head := s.head[sc := To(a)], list := s.list[sc := [a] + s.List(sc)], owner := s.owner[a := FreeList(sc)])
    case FUnlock(sc, _) => s.Goto(t, Idle).(lock := s.lock - {sc})
  }

  /** A client frees only what it owns, with a size of the class it asked for, and writes only
      into blocks it owns. */
  ghost predicate Next(s: State, s': State, t: Thread, step: Step) {
    match step
    case StartAllocate(size) => s.At(t) == Idle && size > 0 && s' == s.Goto(t, ALook(ScaleOf(size)))
    case StartFree(a, size) =>
      && s.At(t) == Idle && a in s.owner && s.owner[a] == Client && a in s.scale && s.scale[a] == ScaleOf(size)
      && s' == s.Goto(t, FLock(ScaleOf(size), a)).Give(a, Held(t))
    case ClientWrite(a, word) => a in s.owner && s.owner[a] == Client && s' == s.(next := s.next[a := word])
    case Advance => s' == Advanced(s, t)
  }

  ghost predicate Run(states: seq<State>, steps: seq<(Thread, Step)>) {
    && |states| == |steps| + 1 && Init(states[0])
    && forall i :: 0 <= i < |steps| ==> Next(states[i], states[i + 1], steps[i].0, steps[i].1)
  }

  // ----- invariants -----
  // Each part speaks of the components it depends on, so that a step which leaves them
  // alone keeps it.

  type Scales = map<Addr, nat>
  type Owners = map<Addr, Owner>

  function Look(head: map<nat, Ptr>, sc: nat): Ptr { if sc in head then head[sc] else Null }
  function Word(next: map<Addr, Ptr>, a: Addr): Ptr { if a in next then next[a] else Null }
  function Members(list: map<nat, seq<Addr>>, sc: nat): seq<Addr> { if sc in list then list[sc] else [] }
  function Where(pc: map<Thread, Pc>, t: Thread): Pc { if t in pc then pc[t] else Idle }

  predicate Owns(owner: Owners, a: Addr, o: Owner) { a in owner && owner[a] == o }
  predicate HasScale(scale: Scales, a: Addr, sc: nat) { a in scale && scale[a] == sc }

  /** The blocks tile the heap up to the bump index. */
  ghost predicate Tiled(tiles: seq<Addr>, scale: Scales, heapIndex: nat) {
    && (forall a :: a in tiles <==> a in scale)
    && (if tiles == [] then heapIndex == 0 else tiles[0] == 0 && heapIndex == TileEnd(tiles, scale, |tiles| - 1))
    && (forall i, j :: 0 <= i < |tiles| && j == i + 1 && j < |tiles| ==> tiles[j] == TileEnd(tiles, scale, i))
  }

  function TileEnd(tiles: seq<Addr>, scale: Scales, i: nat): nat
    requires i < |tiles|
  {
    tiles[i] + BlockSize(if tiles[i] in scale then scale[tiles[i]] else 0)
  }

  /** A free list holds exactly the blocks it owns, each once, and its head and the words in
      the blocks spell it out. */
  ghost predicate ListValid(l: seq<Addr>, head: Ptr, next: map<Addr, Ptr>, owner: Owners, sc: nat) {
    && (forall i, j :: 0 <= i < j < |l| ==> l[i] != l[j])
    && (forall a :: a in l <==> Owns(owner, a, FreeList(sc)))
    && Spells(l, head, next)
  }

  /** Following the words from `head` gives `l`. */
  predicate Spells(l: seq<Addr>, head: Ptr, next: map<Addr, Ptr>) {
    if l == [] then head == Null else head == To(l[0]) && Spells(l[1..], Word(next, l[0]), next)
  }

  ghost predicate ListsValid(list: map<nat, seq<Addr>>, head: map<nat, Ptr>, next: map<Addr, Ptr>, owner: Owners) {
    forall sc: nat :: ListValid(Members(list, sc), Look(head, sc), next, owner, sc)
  }

  /** Every block has an owner, and a free list owns only blocks of its size. */
  ghost predicate OwnersValid(owner: Owners, scale: Scales) {
    && (forall a :: a in owner <==> a in scale)
    && (forall a, sc :: Owns(owner, a, FreeList(sc)) ==> HasScale(scale, a, sc))
  }

  predicate LockRight(pc: map<Thread, Pc>, lock: map<nat, Thread>, t: Thread, sc: nat) {
    Where(pc, t).Locks(sc) <==> sc in lock && lock[sc] == t
  }

  ghost predicate LocksValid(pc: map<Thread, Pc>, lock: map<nat, Thread>) {
    forall t: Thread, sc: nat :: LockRight(pc, lock, t, sc)
  }

  /** A thread holds the block it has in its hands, and no other. */
  ghost predicate HandsValid(pc: map<Thread, Pc>, owner: Owners) {
    forall t: Thread, a: Addr :: Where(pc, t).Holding() == To(a) <==> Owns(owner, a, Held(t))
  }

  /** What a thread in the middle of an operation relies on. */
  predicate PcValid(p: Pc, scale: Scales, head: map<nat, Ptr>, next: map<Addr, Ptr>) {
    match p
    case ANext(sc, a) => Look(head, sc) == To(a)
    case ATake(sc, a, h) => Look(head, sc) == To(a) && Word(next, a) == h
    case AUnlock(sc, a) => HasScale(scale, a, sc)
    case FLock(sc, a) => HasScale(scale, a, sc)
    case FLoad(sc, a) => HasScale(scale, a, sc)
    case FLink(sc, a, h) => HasScale(scale, a, sc) && h == Look(head, sc)
    case FStore(sc, a) => HasScale(scale, a, sc) && Word(next, a) == Look(head, sc)
    case FUnlock(sc, a) => Look(head, sc) == To(a)
    case _ => true
  }

  ghost predicate PcsValid(pc: map<Thread, Pc>, scale: Scales, head: map<nat, Ptr>, next: map<Addr, Ptr>) {
    forall t: Thread :: PcValid(Where(pc, t), scale, head, next)
  }

  ghost predicate Inv(s: State) {
    && Tiled(s.tiles, s.scale, s.heapIndex)
    && OwnersValid(s.owner, s.scale)
    && ListsValid(s.list, s.head, s.next, s.owner)
    && LocksValid(s.pc, s.lock)
    && HandsValid(s.pc, s.owner)
    && PcsValid(s.pc, s.scale, s.head, s.next)
  }

  // ----- preservation, part by part -----

  lemma WhereAfter(pc: map<Thread, Pc>, t: Thread, p: Pc)
    ensures forall u: Thread :: Where(pc[t := p], u) == if u == t then p else Where(pc, u)
  {
    forall u: Thread ensures Where(pc[t := p], u) == if u == t then p else Where(pc, u) {}
  }

  /** `t` moves inside or outside of one critical section. */
  lemma LocksStay(pc: map<Thread, Pc>, lock: map<nat, Thread>, t: Thread, p: Pc)
    requires LocksValid(pc, lock) && forall sc: nat :: p.Locks(sc) <==> Where(pc, t).Locks(sc)
    ensures LocksValid(pc[t := p], lock)
  {
    var pc' := pc[t := p];
    forall u: Thread, sc: nat ensures LockRight(pc', lock, u, sc) { assert LockRight(pc, lock, u, sc); }
  }

  lemma LockTaken(pc: map<Thread, Pc>, lock: map<nat, Thread>, t: Thread, p: Pc, sc: nat)
    requires LocksValid(pc, lock) && sc !in lock
    requires forall x: nat :: !Where(pc, t).Locks(x) && (p.Locks(x) <==> x == sc)
    ensures LocksValid(pc[t := p], lock[sc := t])
  {
    var pc', lock' := pc[t := p], lock[sc := t];
    forall u: Thread, x: nat ensures LockRight(pc', lock', u, x) { assert LockRight(pc, lock, u, x); }
  }

  lemma LockDropped(pc: map<Thread, Pc>, lock: map<nat, Thread>, t: Thread, p: Pc, sc: nat)
    requires LocksValid(pc, lock)
    requires forall x: nat :: !p.Locks(x) && (Where(pc, t).Locks(x) <==> x == sc)
    ensures LocksValid(pc[t := p], lock - {sc})
  {
    var pc', lock' := pc[t := p], lock - {sc};
    assert LockRight(pc, lock, t, sc);
    forall u: Thread, x: nat ensures LockRight(pc', lock', u, x) { assert LockRight(pc, lock, u, x); }
  }

  lemma HandsStay(pc: map<Thread, Pc>, owner: Owners, t: Thread, p: Pc)
    requires HandsValid(pc, owner) && p.Holding() == Where(pc, t).Holding()
    ensures HandsValid(pc[t := p], owner)
  {
    WhereAfter(pc, t, p);
  }

  /** `t` takes a block that no thread held, or lets go of the one it held. */
  lemma HandsChange(pc: map<Thread, Pc>, owner: Owners, t: Thread, p: Pc, a: Addr, o: Owner)
    requires HandsValid(pc, owner)
    requires (Where(pc, t).Holding() == Null && p.Holding() == To(a) && o == Held(t) &&
              a in owner && !owner[a].Held?) ||
             (Where(pc, t).Holding() == To(a) && p.Holding() == Null && !o.Held?)
    ensures HandsValid(pc[t := p], owner[a := o])
  {
    WhereAfter(pc, t, p);
    forall u: Thread, b: Addr
      ensures Where(pc[t := p], u).Holding() == To(b) <==> Owns(owner[a := o], b, Held(u))
    {
      assert Where(pc, u).Holding() == To(b) <==> Owns(owner, b, Held(u));
      assert Where(pc, u).Holding() == To(a) <==> Owns(owner, a, Held(u));
    }
  }

  lemma PcsStay(pc: map<Thread, Pc>, scale: Scales, head: map<nat, Ptr>, next: map<Addr, Ptr>, t: Thread, p: Pc)
    requires PcsValid(pc, scale, head, next) && PcValid(p, scale, head, next)
    ensures PcsValid(pc[t := p], scale, head, next)
  {
    WhereAfter(pc, t, p);
    var pc' := pc[t := p];
    forall u: Thread ensures PcValid(Where(pc', u), scale, head, next) {
      assert PcValid(Where(pc, u), scale, head, next);
    }
  }

  /** Only the holder of a list's lock relies on its head, so changing the head under the
      lock disturbs nobody else. */
  lemma PcsUnderLock(pc: map<Thread, Pc>, lock: map<nat, Thread>, scale: Scales, head: map<nat, Ptr>,
                     next: map<Addr, Ptr>, t: Thread, p: Pc, sc: nat, h: Ptr)
    requires PcsValid(pc, scale, head, next) && LocksValid(pc, lock) && Where(pc, t).Locks(sc)
    requires PcValid(p, scale, head[sc := h], next)
    ensures PcsValid(pc[t := p], scale, head[sc := h], next)
  {
    WhereAfter(pc, t, p);
    var pc' := pc[t := p];
    assert LockRight(pc, lock, t, sc);
    forall u: Thread ensures PcValid(Where(pc', u), scale, head[sc := h], next) {
      assert PcValid(Where(pc, u), scale, head, next);
      assert LockRight(pc, lock, u, sc);
    }
  }

  /** A block is at the head of no list. */
  ghost predicate NoHead(head: map<nat, Ptr>, a: Addr) { forall sc: nat :: Look(head, sc) != To(a) }

  lemma OwnedIsNoHead(list: map<nat, seq<Addr>>, head: map<nat, Ptr>, next: map<Addr, Ptr>, owner: Owners, a: Addr)
    requires ListsValid(list, head, next, owner) && a in owner && !owner[a].FreeList?
    ensures NoHead(head, a)
  {
    forall sc: nat ensures Look(head, sc) != To(a) {
      assert ListValid(Members(list, sc), Look(head, sc), next, owner, sc);
      assert !Owns(owner, a, FreeList(sc));
    }
  }

  /** Writing the word of a block that no other thread holds disturbs no other thread. */
  lemma PcsAfterWrite(pc: map<Thread, Pc>, owner: Owners, scale: Scales, head: map<nat, Ptr>,
                      next: map<Addr, Ptr>, a: Addr, word: Ptr, t: Thread, p: Pc)
    requires PcsValid(pc, scale, head, next) && HandsValid(pc, owner)
    requires forall u: Thread :: u != t ==> !Owns(owner, a, Held(u))
    requires NoHead(head, a) && PcValid(p, scale, head, next[a := word])
    ensures PcsValid(pc[t := p], scale, head, next[a := word])
  {
    WhereAfter(pc, t, p);
    var pc' := pc[t := p];
    forall u: Thread ensures PcValid(Where(pc', u), scale, head, next[a := word]) {
      assert PcValid(Where(pc, u), scale, head, next);
      assert Where(pc, u).Holding() == To(a) <==> Owns(owner, a, Held(u));
    }
  }

  // ----- lists -----

  /** Words outside the list do not matter to it. */
  lemma {:induction false} SpellsStays(l: seq<Addr>, head: Ptr, next: map<Addr, Ptr>, a: Addr, word: Ptr)
    requires Spells(l, head, next) && a !in l
    ensures Spells(l, head, next[a := word])
  {
    if l != [] {
      SpellsStays(l[1..], Word(next, l[0]), next, a, word);
    }
  }

  lemma ListsAfterWrite(list: map<nat, seq<Addr>>, head: map<nat, Ptr>, next: map<Addr, Ptr>, owner: Owners,
                        a: Addr, word: Ptr)
    requires ListsValid(list, head, next, owner) && a in owner && !owner[a].FreeList?
    ensures ListsValid(list, head, next[a := word], owner)
  {
    forall sc: nat ensures ListValid(Members(list, sc), Look(head, sc), next[a := word], owner, sc) {
      assert ListValid(Members(list, sc), Look(head, sc), next, owner, sc);
      assert !Owns(owner, a, FreeList(sc));
      SpellsStays(Members(list, sc), Look(head, sc), next, a, word);
    }
  }

  /** A block that changes hands outside of the lists. */
  lemma ListsAfterGive(list: map<nat, seq<Addr>>, head: map<nat, Ptr>, next: map<Addr, Ptr>, owner: Owners,
                       a: Addr, o: Owner)
    requires ListsValid(list, head, next, owner) && (a in owner ==> !owner[a].FreeList?) && !o.FreeList?
    ensures ListsValid(list, head, next, owner[a := o])
  {
    forall sc: nat ensures ListValid(Members(list, sc), Look(head, sc), next, owner[a := o], sc) {
      assert ListValid(Members(list, sc), Look(head, sc), next, owner, sc);
      forall b ensures Owns(owner[a := o], b, FreeList(sc)) <==> Owns(owner, b, FreeList(sc)) {}
    }
  }

  lemma HeadIsOnce(l: seq<Addr>, a: Addr, b: Addr)
    requires l != [] && l[0] == a && forall i, j :: 0 <= i < j < |l| ==> l[i] != l[j]
    ensures b in l[1..] <==> b in l && b != a
  {
    assert l == [a] + l[1..];
  }

  /** Taking the head off a list. */
  lemma ListsAfterPop(list: map<nat, seq<Addr>>, head: map<nat, Ptr>, next: map<Addr, Ptr>, owner: Owners,
                      sc: nat, a: Addr, t: Thread)
    requires ListsValid(list, head, next, owner) && Look(head, sc) == To(a)
    ensures Owns(owner, a, FreeList(sc)) && Members(list, sc) != []
    ensures ListsValid(list[sc := Members(list, sc)[1..]], head[sc := Word(next, a)], next, owner[a := Held(t)])
  {
    hide Spells, Owns;
    var l := Members(list, sc);
    assert ListValid(l, Look(head, sc), next, owner, sc);
    PoppedIsValid(l, next, owner, sc, a, t);
    assert l[0] in l;
    var list', head', owner' := list[sc := l[1..]], head[sc := Word(next, a)], owner[a := Held(t)];
    forall x: nat ensures ListValid(Members(list', x), Look(head', x), next, owner', x) {
      assert ListValid(Members(list, x), Look(head, x), next, owner, x);
      if x == sc {
        assert Members(list', x) == l[1..] && Look(head', x) == Word(next, a);
      } else {
        assert Members(list', x) == Members(list, x) && Look(head', x) == Look(head, x);
        forall b ensures Owns(owner', b, FreeList(x)) <==> Owns(owner, b, FreeList(x)) {
          GivenElsewhere(owner, a, b, t, sc, x);
        }
      }
    }
  }

  /** The list without its head, which another one now owns. */
  lemma PoppedIsValid(l: seq<Addr>, next: map<Addr, Ptr>, owner: Owners, sc: nat, a: Addr, t: Thread)
    requires ListValid(l, To(a), next, owner, sc)
    ensures l != [] && l[0] == a && ListValid(l[1..], Word(next, a), next, owner[a := Held(t)], sc)
  {
    assert l != [] && l[0] == a;
    forall b ensures b in l[1..] <==> Owns(owner[a := Held(t)], b, FreeList(sc)) {
      assert b in l <==> Owns(owner, b, FreeList(sc));
      HeadIsOnce(l, a, b);
    }
  }

  lemma GivenElsewhere(owner: Owners, a: Addr, b: Addr, t: Thread, sc: nat, x: nat)
    requires Owns(owner, a, FreeList(sc)) && x != sc
    ensures Owns(owner[a := Held(t)], b, FreeList(x)) <==> Owns(owner, b, FreeList(x))
  {
  }

  /** Putting a block in front of a list whose head its word already points to. */
  lemma ListsAfterPush(list: map<nat, seq<Addr>>, head: map<nat, Ptr>, next: map<Addr, Ptr>, owner: Owners,
                       sc: nat, a: Addr)
    requires ListsValid(list, head, next, owner) && a in owner && !owner[a].FreeList?
    requires Word(next, a) == Look(head, sc)
    ensures ListsValid(list[sc := [a] + Members(list, sc)], head[sc := To(a)], next, owner[a := FreeList(sc)])
  {
    var l := Members(list, sc);
    assert ListValid(l, Look(head, sc), next, owner, sc);
    var list', head', owner' := list[sc := [a] + l], head[sc := To(a)], owner[a := FreeList(sc)];
    assert a !in l by { assert !Owns(owner, a, FreeList(sc)); }
    assert ([a] + l)[1..] == l;
    forall x: nat ensures ListValid(Members(list', x), Look(head', x), next, owner', x) {
      assert ListValid(Members(list, x), Look(head, x), next, owner, x);
      forall b ensures b in Members(list', x) <==> Owns(owner', b, FreeList(x)) {
        assert b in Members(list, x) <==> Owns(owner, b, FreeList(x));
      }
    }
  }

  // ----- bumping -----

  lemma {:induction false} TilesBelow(tiles: seq<Addr>, scale: Scales, heapIndex: nat, i: nat)
    requires Tiled(tiles, scale, heapIndex) && i < |tiles|
    ensures TileEnd(tiles, scale, i) <= heapIndex && tiles[i] < heapIndex
    decreases |tiles| - i
  {
    if i + 1 < |tiles| {
      assert tiles[i + 1] == TileEnd(tiles, scale, i);
      TilesBelow(tiles, scale, heapIndex, i + 1);
    }
  }

  lemma BumpIsFresh(s: State)
    requires Tiled(s.tiles, s.scale, s.heapIndex)
    ensures s.heapIndex !in s.scale
  {
    if s.heapIndex in s.tiles {
      var i :| 0 <= i < |s.tiles| && s.tiles[i] == s.heapIndex;
      TilesBelow(s.tiles, s.scale, s.heapIndex, i);
    }
  }

  lemma TiledAfterBump(tiles: seq<Addr>, scale: Scales, heapIndex: nat, sc: nat)
    requires Tiled(tiles, scale, heapIndex) && heapIndex !in scale
    ensures Tiled(tiles + [heapIndex], scale[heapIndex := sc], heapIndex + BlockSize(sc))
  {
    var tiles', scale' := tiles + [heapIndex], scale[heapIndex := sc];
    forall i | 0 <= i < |tiles| ensures TileEnd(tiles', scale', i) == TileEnd(tiles, scale, i) {
      assert tiles[i] in tiles;
    }
    assert TileEnd(tiles', scale', |tiles|) == heapIndex + BlockSize(sc);
  }

  lemma OwnersAfterGive(owner: Owners, scale: Scales, a: Addr, o: Owner)
    requires OwnersValid(owner, scale) && a in owner && (o.FreeList? ==> HasScale(scale, a, o.scale))
    ensures OwnersValid(owner[a := o], scale)
  {
    forall b, sc | Owns(owner[a := o], b, FreeList(sc)) ensures HasScale(scale, b, sc) {
      assert b == a || Owns(owner, b, FreeList(sc));
    }
  }

  lemma OwnersAfterBump(owner: Owners, scale: Scales, a: Addr, sc: nat, o: Owner)
    requires OwnersValid(owner, scale) && a !in scale && !o.FreeList?
    ensures OwnersValid(owner[a := o], scale[a := sc])
  {
    var owner', scale' := owner[a := o], scale[a := sc];
    forall b, x | Owns(owner', b, FreeList(x)) ensures HasScale(scale', b, x) {
      assert Owns(owner, b, FreeList(x)) && HasScale(scale, b, x);
    }
  }

  lemma PcsAfterBump(pc: map<Thread, Pc>, scale: Scales, head: map<nat, Ptr>, next: map<Addr, Ptr>, a: Addr, sc: nat)
    requires PcsValid(pc, scale, head, next) && a !in scale
    ensures PcsValid(pc, scale[a := sc], head, next)
  {
    forall u: Thread ensures PcValid(Where(pc, u), scale[a := sc], head, next) {
      assert PcValid(Where(pc, u), scale, head, next);
    }
  }

  lemma HandsAfterBump(pc: map<Thread, Pc>, owner: Owners, a: Addr, o: Owner)
    requires HandsValid(pc, owner) && a !in owner && !o.Held?
    ensures HandsValid(pc, owner[a := o])
  {
    var owner' := owner[a := o];
    forall u: Thread, b: Addr ensures Where(pc, u).Holding() == To(b) <==> Owns(owner', b, Held(u)) {
      assert Where(pc, u).Holding() == To(b) <==> Owns(owner, b, Held(u));
    }
  }

  // ----- every step -----

  lemma AllocateKeepsInv(s: State, t: Thread)
    requires Inv(s)
    requires var p := s.At(t);
             p.ALook? || p.ABump? || p.ALock? || p.ALoad? || p.ARetry? || p.ANext? || p.ATake? || p.AUnlock?
    ensures Inv(Advanced(s, t))
  {
    hide Tiled, OwnersValid, ListsValid, LocksValid, HandsValid, PcsValid;
    var s' := Advanced(s, t);
    match s.At(t)
    case ALook(sc) =>
      LocksStay(s.pc, s.lock, t, s'.pc[t]);
      HandsStay(s.pc, s.owner, t, s'.pc[t]);
      PcsStay(s.pc, s.scale, s.head, s.next, t, s'.pc[t]);
    case ABump(sc) =>
      var a, o := s.heapIndex, s'.owner[s.heapIndex];
      BumpIsFresh(s);
      assert a !in s.owner by { NotOwned(s.owner, s.scale, a); }
      TiledAfterBump(s.tiles, s.scale, a, sc);
      OwnersAfterBump(s.owner, s.scale, a, sc, o);
      ListsAfterGive(s.list, s.head, s.next, s.owner, a, o);
      LocksStay(s.pc, s.lock, t, s'.pc[t]);
      HandsStay(s.pc, s.owner, t, s'.pc[t]);
      HandsAfterBump(s'.pc, s.owner, a, o);
      PcsStay(s.pc, s.scale, s.head, s.next, t, s'.pc[t]);
      PcsAfterBump(s'.pc, s.scale, s.head, s.next, a, sc);
    case ALock(sc) =>
      if sc !in s.lock {
        LockTaken(s.pc, s.lock, t, s'.pc[t], sc);
        HandsStay(s.pc, s.owner, t, s'.pc[t]);
        PcsStay(s.pc, s.scale, s.head, s.next, t, s'.pc[t]);
      }
    case ALoad(sc) =>
      LocksStay(s.pc, s.lock, t, s'.pc[t]);
      HandsStay(s.pc, s.owner, t, s'.pc[t]);
      PcsStay(s.pc, s.scale, s.head, s.next, t, s'.pc[t]);
    case ARetry(sc) =>
      LockDropped(s.pc, s.lock, t, s'.pc[t], sc);
      HandsStay(s.pc, s.owner, t, s'.pc[t]);
      PcsStay(s.pc, s.scale, s.head, s.next, t, s'.pc[t]);
    case ANext(sc, a) =>
      PcIsValid(s.pc, s.scale, s.head, s.next, t);
      LocksStay(s.pc, s.lock, t, s'.pc[t]);
      HandsStay(s.pc, s.owner, t, s'.pc[t]);
      PcsStay(s.pc, s.scale, s.head, s.next, t, s'.pc[t]);
    case ATake(sc, a, _) =>
      PcIsValid(s.pc, s.scale, s.head, s.next, t);
      ListsAfterPop(s.list, s.head, s.next, s.owner, sc, a, t);
      FreeHasScale(s.owner, s.scale, a, sc);
      OwnersAfterGive(s.owner, s.scale, a, Held(t));
      LocksStay(s.pc, s.lock, t, s'.pc[t]);
      HandsChange(s.pc, s.owner, t, s'.pc[t], a, Held(t));
      PcsUnderLock(s.pc, s.lock, s.scale, s.head, s.next, t, s'.pc[t], sc, s.NextOf(a));
    case AUnlock(sc, a) =>
      HeldIsOwned(s.pc, s.owner, t, a);
      OwnersAfterGive(s.owner, s.scale, a, Client);
      ListsAfterGive(s.list, s.head, s.next, s.owner, a, Client);
      LockDropped(s.pc, s.lock, t, s'.pc[t], sc);
      HandsChange(s.pc, s.owner, t, s'.pc[t], a, Client);
      PcsStay(s.pc, s.scale, s.head, s.next, t, s'.pc[t]);
  }

  lemma FreeLocksKeepsInv(s: State, t: Thread)
    requires Inv(s)
    requires var p := s.At(t); p.FLock? || p.FLoad? || p.FUnlock?
    ensures Inv(Advanced(s, t))
  {
    hide Tiled, OwnersValid, ListsValid, LocksValid, HandsValid, PcsValid;
    var s' := Advanced(s, t);
    PcIsValid(s.pc, s.scale, s.head, s.next, t);
    match s.At(t)
    case FLock(sc, a) =>
      if sc !in s.lock {
        LockTaken(s.pc, s.lock, t, s'.pc[t], sc);
        HandsStay(s.pc, s.owner, t, s'.pc[t]);
        PcsStay(s.pc, s.scale, s.head, s.next, t, s'.pc[t]);
      }
    case FLoad(sc, a) =>
      LocksStay(s.pc, s.lock, t, s'.pc[t]);
      HandsStay(s.pc, s.owner, t, s'.pc[t]);
      PcsStay(s.pc, s.scale, s.head, s.next, t, s'.pc[t]);
    case FUnlock(sc, _) =>
      LockDropped(s.pc, s.lock, t, s'.pc[t], sc);
      HandsStay(s.pc, s.owner, t, s'.pc[t]);
      PcsStay(s.pc, s.scale, s.head, s.next, t, s'.pc[t]);
  }

  lemma FreeKeepsInv(s: State, t: Thread)
    requires Inv(s)
    requires var p := s.At(t); p.FLock? || p.FLoad? || p.FLink? || p.FStore? || p.FUnlock?
    ensures Inv(Advanced(s, t))
  {
    hide Tiled, OwnersValid, ListsValid, LocksValid, HandsValid, PcsValid;
    var s' := Advanced(s, t);
    PcIsValid(s.pc, s.scale, s.head, s.next, t);
    match s.At(t)
    case FLink(sc, a, h) =>
      HeldIsOwned(s.pc, s.owner, t, a);
      ListsAfterWrite(s.list, s.head, s.next, s.owner, a, h);
      LocksStay(s.pc, s.lock, t, s'.pc[t]);
      HandsStay(s.pc, s.owner, t, s'.pc[t]);
      OwnedIsNoHead(s.list, s.head, s.next, s.owner, a);
      PcsAfterWrite(s.pc, s.owner, s.scale, s.head, s.next, a, h, t, s'.pc[t]);
    case FStore(sc, a) =>
      HeldIsOwned(s.pc, s.owner, t, a);
      ListsAfterPush(s.list, s.head, s.next, s.owner, sc, a);
      OwnersAfterGive(s.owner, s.scale, a, FreeList(sc));
      LocksStay(s.pc, s.lock, t, s'.pc[t]);
      HandsChange(s.pc, s.owner, t, s'.pc[t], a, FreeList(sc));
      PcsUnderLock(s.pc, s.lock, s.scale, s.head, s.next, t, s'.pc[t], sc, To(a));
    case _ => FreeLocksKeepsInv(s, t);
  }

  lemma FreeHasScale(owner: Owners, scale: Scales, a: Addr, sc: nat)
    requires OwnersValid(owner, scale) && Owns(owner, a, FreeList(sc))
    ensures HasScale(scale, a, sc)
  {
  }

  lemma NotOwned(owner: Owners, scale: Scales, a: Addr)
    requires OwnersValid(owner, scale) && a !in scale
    ensures a !in owner
  {
  }

  lemma PcIsValid(pc: map<Thread, Pc>, scale: Scales, head: map<nat, Ptr>, next: map<Addr, Ptr>, t: Thread)
    requires PcsValid(pc, scale, head, next)
    ensures PcValid(Where(pc, t), scale, head, next)
  {
  }

  lemma HeldIsOwned(pc: map<Thread, Pc>, owner: Owners, t: Thread, a: Addr)
    requires HandsValid(pc, owner) && Where(pc, t).Holding() == To(a)
    ensures Owns(owner, a, Held(t))
  {
    assert Where(pc, t).Holding() == To(a) <==> Owns(owner, a, Held(t));
  }

  lemma ClientKeepsInv(s: State, s': State, t: Thread, step: Step)
    requires Inv(s) && Next(s, s', t, step) && !step.Advance?
    ensures Inv(s')
  {
    hide Tiled, OwnersValid, ListsValid, LocksValid, HandsValid, PcsValid;
    match step
    case StartAllocate(size) =>
      LocksStay(s.pc, s.lock, t, s'.pc[t]);
      HandsStay(s.pc, s.owner, t, s'.pc[t]);
      PcsStay(s.pc, s.scale, s.head, s.next, t, s'.pc[t]);
    case StartFree(a, size) =>
      OwnersAfterGive(s.owner, s.scale, a, Held(t));
      ListsAfterGive(s.list, s.head, s.next, s.owner, a, Held(t));
      LocksStay(s.pc, s.lock, t, s'.pc[t]);
      HandsChange(s.pc, s.owner, t, s'.pc[t], a, Held(t));
      PcsStay(s.pc, s.scale, s.head, s.next, t, s'.pc[t]);
    case ClientWrite(a, word) =>
      ListsAfterWrite(s.list, s.head, s.next, s.owner, a, word);
      OwnedIsNoHead(s.list, s.head, s.next, s.owner, a);
      PcsAfterClientWrite(s.pc, s.owner, s.scale, s.head, s.next, a, word);
  }

  lemma PcsAfterClientWrite(pc: map<Thread, Pc>, owner: Owners, scale: Scales, head: map<nat, Ptr>,
                            next: map<Addr, Ptr>, a: Addr, word: Ptr)
    requires PcsValid(pc, scale, head, next) && HandsValid(pc, owner) && Owns(owner, a, Client) && NoHead(head, a)
    ensures PcsValid(pc, scale, head, next[a := word])
  {
    forall u: Thread ensures PcValid(Where(pc, u), scale, head, next[a := word]) {
      assert PcValid(Where(pc, u), scale, head, next);
      assert Where(pc, u).Holding() == To(a) <==> Owns(owner, a, Held(u));
    }
  }

  lemma NextKeepsInv(s: State, s': State, t: Thread, step: Step)
    requires Inv(s) && Next(s, s', t, step)
    ensures Inv(s')
  {
    hide Inv;
    if !step.Advance? {
      ClientKeepsInv(s, s', t, step);
    } else {
      var p := s.At(t);
      if p.FLock? || p.FLoad? || p.FLink? || p.FStore? || p.FUnlock? {
        FreeKeepsInv(s, t);
      } else if !p.Idle? && !p.Faulted? {
        AllocateKeepsInv(s, t);
      }
    }
  }

  lemma InitHasInv(s: State)
    requires Init(s)
    ensures Inv(s)
  {
    forall t: Thread, sc: nat ensures LockRight(s.pc, s.lock, t, sc) {}
    forall t: Thread ensures PcValid(Where(s.pc, t), s.scale, s.head, s.next) {}
    forall t: Thread, a: Addr ensures Where(s.pc, t).Holding() == To(a) <==> Owns(s.owner, a, Held(t)) {}
    forall sc: nat ensures ListValid(Members(s.list, sc), Look(s.head, sc), s.next, s.owner, sc) {}
  }

  lemma {:induction false} RunKeepsInv(states: seq<State>, steps: seq<(Thread, Step)>, k: nat)
    requires Run(states, steps) && k < |states|
    ensures Inv(states[k])
  {
    hide Inv;
    if k == 0 {
      InitHasInv(states[0]);
    } else {
      RunKeepsInv(states, steps, k - 1);
      assert Next(states[k - 1], states[k - 1 + 1], steps[k - 1].0, steps[k - 1].1);
      NextKeepsInv(states[k - 1], states[k], steps[k - 1].0, steps[k - 1].1);
    }
  }

  // ----- results -----

  /** Byte `x` lies in tile `i`. */
  predicate Covers(s: State, i: nat, x: nat) {
    i < |s.tiles| && s.tiles[i] <= x < TileEnd(s.tiles, s.scale, i)
  }

  lemma {:induction false} TilesOrdered(s: State, i: nat, j: nat)
    requires Tiled(s.tiles, s.scale, s.heapIndex) && i < j < |s.tiles|
    ensures TileEnd(s.tiles, s.scale, i) <= s.tiles[j]
    decreases j
  {
    assert s.tiles[i + 1] == TileEnd(s.tiles, s.scale, i);
    if i + 1 < j {
      TilesOrdered(s, i, j - 1);
      assert s.tiles[j] == TileEnd(s.tiles, s.scale, j - 1);
    }
  }

  lemma {:induction false} SomeTileCovers(s: State, x: nat, n: nat) returns (i: nat)
    requires Tiled(s.tiles, s.scale, s.heapIndex) && n < |s.tiles| && x < TileEnd(s.tiles, s.scale, n)
    ensures Covers(s, i, x)
    decreases n
  {
    if s.tiles[n] <= x {
      i := n;
    } else {
      assert n > 0;
      assert s.tiles[n] == TileEnd(s.tiles, s.scale, n - 1);
      i := SomeTileCovers(s, x, n - 1);
    }
  }

  /** In every interleaving, every byte below the bump index lies in exactly one block, and
      that block has exactly one owner: a client, a thread, the lost, or one place of one free
      list, whose blocks are all of its size. */
  lemma HeapIsConserved(states: seq<State>, steps: seq<(Thread, Step)>, k: nat, x: nat) returns (i: nat)
    requires Run(states, steps) && k < |states| && x < states[k].heapIndex
    ensures Covers(states[k], i, x) && forall j: nat :: Covers(states[k], j, x) ==> j == i
    ensures states[k].tiles[i] in states[k].owner
    ensures forall sc: nat :: OneOwner(states[k], states[k].tiles[i], sc)
  {
    var s := states[k];
    RunKeepsInv(states, steps, k);
    i := SomeTileCovers(s, x, |s.tiles| - 1);
    forall j: nat | Covers(s, j, x) ensures j == i {
      if j < i { TilesOrdered(s, j, i); } else if i < j { TilesOrdered(s, i, j); }
    }
    assert s.tiles[i] in s.tiles;
    forall sc: nat ensures OneOwner(s, s.tiles[i], sc) {
      assert ListValid(s.List(sc), s.Head(sc), s.next, s.owner, sc);
      assert Owns(s.owner, s.tiles[i], FreeList(sc)) ==> HasScale(s.scale, s.tiles[i], sc);
    }
  }

  /** Membership of a block in free list `sc` is decided by its owner, and is single. */
  ghost predicate OneOwner(s: State, a: Addr, sc: nat) {
    && (a in s.List(sc) <==> Owns(s.owner, a, FreeList(sc)))
    && (a in s.List(sc) ==> HasScale(s.scale, a, sc))
    && (forall i, j :: 0 <= i < |s.List(sc)| && 0 <= j < |s.List(sc)| && s.List(sc)[i] == s.List(sc)[j] == a ==> i == j)
  }

  /** What an allocation hands to its client is a block of the size class it asked for, that
      no other client, thread or list had. */
  lemma AllocationIsExclusive(states: seq<State>, steps: seq<(Thread, Step)>, k: nat, a: Addr)
    requires Run(states, steps) && k < |steps| && steps[k].1.Advance?
    requires !Owns(states[k].owner, a, Client) && Owns(states[k + 1].owner, a, Client)
    ensures var p := states[k].At(steps[k].0);
            && (p.ABump? || (p.AUnlock? && p.obj == a)) && HasScale(states[k + 1].scale, a, p.scale)
            && (a !in states[k].owner || Owns(states[k].owner, a, Held(steps[k].0)))
  {
    var s, t := states[k], steps[k].0;
    RunKeepsInv(states, steps, k);
    assert Next(s, states[k + 1], t, steps[k].1);
    BumpIsFresh(s);
    PcIsValid(s.pc, s.scale, s.head, s.next, t);
    if s.At(t).AUnlock? {
      HeldIsOwned(s.pc, s.owner, t, s.At(t).obj);
    }
  }

  /** Thread `t` looked at list `sc` in step `j` and found it empty, when every block of this class
      was in use. */
  ghost predicate SawNone(s: State, t: Thread, sc: nat) {
    s.At(t) == ALook(sc) && s.List(sc) == [] && forall a: Addr :: !Owns(s.owner, a, FreeList(sc))
  }

  lemma EmptyMeansNone(s: State, sc: nat)
    requires Inv(s) && s.Head(sc) == Null
    ensures s.List(sc) == [] && forall a: Addr :: !Owns(s.owner, a, FreeList(sc))
  {
    assert ListValid(s.List(sc), s.Head(sc), s.next, s.owner, sc);
    forall a: Addr ensures !Owns(s.owner, a, FreeList(sc)) {
      assert a in s.List(sc) <==> Owns(s.owner, a, FreeList(sc));
    }
  }

  /** In every interleaving, new memory is carved only by a thread that has seen no free block of
      the class it needs: freed blocks are used again first. */
  lemma {:induction false} CarvedWhenNoneFree(states: seq<State>, steps: seq<(Thread, Step)>, k: nat, t: Thread)
      returns (j: nat)
    requires Run(states, steps) && k < |states| && states[k].At(t).ABump?
    ensures j < k && steps[j] == (t, Advance) && SawNone(states[j], t, states[k].At(t).scale)
    ensures forall i :: j < i <= k ==> states[i].At(t) == states[k].At(t)
    decreases k
  {
    assert states[0].At(t) == Idle;
    hide Inv, Next, State.At, SawNone;
    var s, step := states[k - 1], steps[k - 1];
    assert Next(s, states[k - 1 + 1], step.0, step.1);
    CarvesAfter(s, states[k], step.0, step.1, t);
    if step == (t, Advance) {
      RunKeepsInv(states, steps, k - 1);
      EmptyIsSeen(s, t, states[k].At(t).scale);
      j := k - 1;
    } else {
      j := CarvedWhenNoneFree(states, steps, k - 1, t);
    }
  }

  lemma EmptyIsSeen(s: State, t: Thread, sc: nat)
    requires Inv(s) && s.At(t) == ALook(sc) && s.Head(sc) == Null
    ensures SawNone(s, t, sc)
  {
    hide Inv;
    EmptyMeansNone(s, sc);
  }

  lemma CarvesAfter(s: State, s': State, u: Thread, step: Step, t: Thread)
    requires Next(s, s', u, step) && s'.At(t).ABump?
    ensures if u == t && step.Advance? then s.At(t) == ALook(s'.At(t).scale) && s.Head(s'.At(t).scale) == Null
            else s.At(t) == s'.At(t)
  {
    if step.Advance? {
      AdvancedMoves(s, u, t);
      if u == t { AdvancedToBump(s, t); }
    }
  }

  lemma AdvancedMoves(s: State, u: Thread, t: Thread)
    ensures u != t ==> Advanced(s, u).At(t) == s.At(t)
  {
    hide Advanced;
  }

  lemma AdvancedToBump(s: State, t: Thread)
    requires Advanced(s, t).At(t).ABump?
    ensures s.At(t) == ALook(Advanced(s, t).At(t).scale) && s.Head(Advanced(s, t).At(t).scale) == Null
  {
  }

  /** In every interleaving, when a free is about to return, its block is the first of the list of
      its class, and so the next one to be used again. */
  lemma FreedIsFirst(states: seq<State>, steps: seq<(Thread, Step)>, k: nat, t: Thread)
    requires Run(states, steps) && k < |states| && states[k].At(t).FUnlock?
    ensures var s, sc, a := states[k], states[k].At(t).scale, states[k].At(t).obj;
            s.List(sc) != [] && s.List(sc)[0] == a && Owns(s.owner, a, FreeList(sc)) && HasScale(s.scale, a, sc)
  {
    var s, sc, a := states[k], states[k].At(t).scale, states[k].At(t).obj;
    RunKeepsInv(states, steps, k);
    PcIsValid(s.pc, s.scale, s.head, s.next, t);
    assert ListValid(s.List(sc), s.Head(sc), s.next, s.owner, sc);
    assert s.List(sc)[0] in s.List(sc);
    FreeHasScale(s.owner, s.scale, a, sc);
  }

  /** In every interleaving, an allocation that finds a free block takes the first of the list. */
  lemma TakenIsFirst(states: seq<State>, steps: seq<(Thread, Step)>, k: nat)
    requires Run(states, steps) && k < |steps| && steps[k].1.Advance? && states[k].At(steps[k].0).ATake?
    ensures var s, s', p := states[k], states[k + 1], states[k].At(steps[k].0);
            s.List(p.scale) == [p.obj] + s'.List(p.scale) && s'.At(steps[k].0) == AUnlock(p.scale, p.obj)
  {
    var s, t := states[k], steps[k].0;
    var p := s.At(t);
    RunKeepsInv(states, steps, k);
    assert Next(s, states[k + 1], t, steps[k].1);
    PcIsValid(s.pc, s.scale, s.head, s.next, t);
    assert ListValid(s.List(p.scale), s.Head(p.scale), s.next, s.owner, p.scale);
  }

  /** A call of `free` cannot return without this. */
  lemma FreeEndsThere(states: seq<State>, steps: seq<(Thread, Step)>, k: nat)
    requires Run(states, steps) && k < |steps| && steps[k].1.Advance?
    requires var p := states[k].At(steps[k].0); p.FLock? || p.FLoad? || p.FLink? || p.FStore? || p.FUnlock?
    ensures states[k + 1].At(steps[k].0).Idle? ==> states[k].At(steps[k].0).FUnlock?
    ensures !states[k + 1].At(steps[k].0).Idle? ==> states[k + 1].At(steps[k].0).obj == states[k].At(steps[k].0).obj
  {
    assert Next(states[k], states[k + 1], steps[k].0, steps[k].1);
  }
}
