/** Calls out of the code cache: `save_and_restore_registers`, `save_and_restore_xmm_registers`
    and the routine built by `generate_clean_callable_address`. */
module CleanCall {
  import Arith
  import opened Machine
  import opened Spill
  import RM = RegisterManager

  // ----- which registers are saved -----

  /** The registers from `from` up that are not in `taken`, in increasing order. */
  function Dead(from: int, taken: set<RM.RegNum>): (rs: seq<Reg>)
    requires 0 <= from <= 16 && RSP in taken
    ensures forall i :: 0 <= i < |rs| ==> from <= rs[i] && rs[i] !in taken
    ensures forall i, j :: 0 <= i < j < |rs| ==> rs[i] < rs[j]
    ensures forall n: RM.RegNum :: n >= from && n !in taken ==> n in rs
    decreases 16 - from
  {
    if from == 16 then []
    else if from in taken then Dead(from + 1, taken)
    else [from] + Dead(from + 1, taken)
  }

  lemma {:induction false} DeadSkips(from: int, to: int, taken: set<RM.RegNum>)
    requires 0 <= from <= to <= 16 && RSP in taken && forall n: RM.RegNum :: from <= n < to ==> n in taken
    ensures Dead(from, taken) == Dead(to, taken)
    decreases 16 - from
  {
    if from < to {
      DeadSkips(from + 1, to, taken);
    }
  }

  lemma {:induction false} DeadIgnoresLower(from: int, taken: set<RM.RegNum>, n: RM.RegNum)
    requires n < from <= 16 && RSP in taken
    ensures Dead(from, taken) == Dead(from, taken + {n})
    decreases 16 - from
  {
    if from < 16 {
      var more := taken + {n};
      assert from in more <==> from in taken;
      DeadIgnoresLower(from + 1, taken, n);
    }
  }

  /** Taking the lowest dead register leaves the rest of the list. */
  lemma DeadTakesFirst(taken: set<RM.RegNum>, n: RM.RegNum)
    requires RSP in taken && n !in taken && forall m: RM.RegNum :: m < n ==> m in taken
    ensures Dead(0, taken) == [n] + Dead(0, taken + {n})
  {
    DeadSkips(0, n, taken);
    DeadSkips(0, n + 1, taken + {n});
    DeadIgnoresLower(n + 1, taken, n);
  }

  // ----- building the code -----

  /** Where `insert_after` puts an instruction: behind position `at`, or at the end of the list
      when there is no such instruction. */
  function Behind(ls: seq<Op>, at: int): (p: nat)
    requires -1 <= at < |ls|
    ensures p <= |ls|
  {
    if at == -1 then |ls| else at + 1
  }

  function InsertAfter(ls: seq<Op>, at: int, i: Op): (r: seq<Op>)
    requires -1 <= at < |ls|
    ensures |r| == |ls| + 1
  {
    ls[..Behind(ls, at)] + [i] + ls[Behind(ls, at)..]
  }

  function InsertBefore(ls: seq<Op>, at: nat, i: Op): (r: seq<Op>)
    requires at < |ls|
    ensures |r| == |ls| + 1
  {
    ls[..at] + [i] + ls[at..]
  }

  /** Saving and restoring code for `rs` between `pre` and `post`. */
  function Bracketed(pre: seq<Op>, rs: seq<Reg>, post: seq<Op>): seq<Op> {
    pre + PushAll(rs) + PopAll(rs) + post
  }

  /** A zombie is the first of the registers that are still dead. */
  method NextZombie(manager: RM.Manager) returns (found: bool, r: Reg)
    requires RSP in manager.live
    modifies manager`undead
    ensures !found ==> Dead(0, manager.live + manager.undead) == [] && manager.undead == old(manager.undead)
    ensures found ==> Dead(0, manager.live + old(manager.undead)) == [r] + Dead(0, manager.live + manager.undead)
    ensures found ==> old(manager.undead) < manager.undead
  {
    ghost var taken := manager.live + manager.undead;
    var zombie := manager.GetZombie();
    if zombie.Null? {
      DeadSkips(0, 16, taken);
      return false, RAX;
    }
    DeadTakesFirst(taken, zombie.n);
    assert manager.live + manager.undead == taken + {zombie.n};
    return true, zombie.n;
  }

  /** `save_and_restore_registers`: one zombie after the other, a push behind the last push
      and its pop right behind it. */
  method SaveAndRestore(regs: RM.Manager, ls: seq<Op>, at: int) returns (out: seq<Op>, last: int)
    requires -1 <= at < |ls| && RSP in regs.live
    ensures var rs, p := Dead(0, regs.live + regs.undead), Behind(ls, at);
            && out == Bracketed(ls[..p], rs, ls[p..])
            && last == if rs == [] then at else p + |rs| - 1
  {
    hide Bracketed, InsertAfter, Dead;
    ghost var p := Behind(ls, at);
    ghost var pre, post := ls[..p], ls[p..];
    var manager := new RM.Manager.Copy(regs);
    NoBracket(ls, p);
    ghost var done: seq<Reg> := [];
    out, last := ls, at;
    while true
      invariant manager.live == regs.live
      invariant Dead(0, regs.live + regs.undead) == done + Dead(0, manager.live + manager.undead)
      invariant -1 <= last < |out| && Behind(out, last) == p + |done|
      invariant last == if done == [] then at else p + |done| - 1
      invariant out == Bracketed(pre, done, post)
      decreases RM.ALL - manager.undead
    {
      var found, r := NextZombie(manager);
      if !found {
        assert done + [] == done;
        return;
      }
      InsertBracket(pre, done, post, r, out, last);
      out, last := InsertAfter(out, last, Push(r)), Behind(out, last);
      out := InsertAfter(out, last, Pop(r));
      done := done + [r];
    }
  }

  /** The two insertions of one turn put a new innermost bracket between pushes and pops. */
  lemma InsertBracket(pre: seq<Op>, done: seq<Reg>, post: seq<Op>, r: Reg, ls: seq<Op>, last: int)
    requires ls == Bracketed(pre, done, post) && -1 <= last < |ls| && Behind(ls, last) == |pre| + |done|
    ensures InsertAfter(InsertAfter(ls, last, Push(r)), Behind(ls, last), Pop(r)) == Bracketed(pre, done + [r], post)
  {
    SnocBracket(done, r);
    var pushes, pops := PushAll(done), PopAll(done);
    hide PushAll, PopAll;
    var at := |pre| + |done|;
    assert ls[..at] == pre + pushes && ls[at..] == pops + post;
    var one := InsertAfter(ls, last, Push(r));
    assert one == (pre + pushes + [Push(r)]) + (pops + post);
    assert one[..at + 1] == pre + pushes + [Push(r)] && one[at + 1..] == pops + post;
    assert InsertAfter(one, at, Pop(r)) == (pre + pushes + [Push(r)]) + [Pop(r)] + (pops + post);
  }

  lemma NoBracket(ls: seq<Op>, p: nat)
    requires p <= |ls|
    ensures ls == Bracketed(ls[..p], [], ls[p..])
  {
  }

  lemma {:induction false} SnocBracket(rs: seq<Reg>, r: Reg)
    ensures PushAll(rs + [r]) == PushAll(rs) + [Push(r)]
    ensures PopAll(rs + [r]) == [Pop(r)] + PopAll(rs)
    ensures |PushAll(rs)| == |rs|
  {
    if rs == [] {
      assert [r][1..] == [];
    } else {
      assert (rs + [r])[1..] == rs[1..] + [r];
      SnocBracket(rs[1..], r);
    }
  }

  // ----- saving xmm registers -----

  /** Each store goes in front of the previous one ... */
  function XmmStores(xs: seq<XmmReg>, disp: int, aligned: bool): seq<Op>
    decreases |xs|
  {
    if xs == [] then [] else XmmStores(xs[1..], disp + 16, aligned) + [StoreXmm(xs[0], disp, aligned)]
  }

  /** ... and each load behind it. */
  function XmmLoads(xs: seq<XmmReg>, disp: int, aligned: bool): seq<Op>
    decreases |xs|
  {
    if xs == [] then [] else [LoadXmm(xs[0], disp, aligned)] + XmmLoads(xs[1..], disp + 16, aligned)
  }

  function XmmOpen(xs: seq<XmmReg>, aligned: bool): seq<Op> {
    (if xs == [] then [] else [LeaRsp(-16 * |xs|)]) + XmmStores(xs, 0, aligned)
  }

  function XmmClose(xs: seq<XmmReg>, aligned: bool): seq<Op> {
    XmmLoads(xs, 0, aligned) + if xs == [] then [] else [LeaRsp(16 * |xs|)]
  }

  lemma {:induction false} SnocXmm(xs: seq<XmmReg>, x: XmmReg, disp: int, aligned: bool)
    ensures var last := disp + 16 * |xs|;
            && XmmStores(xs + [x], disp, aligned) == [StoreXmm(x, last, aligned)] + XmmStores(xs, disp, aligned)
            && XmmLoads(xs + [x], disp, aligned) == XmmLoads(xs, disp, aligned) + [LoadXmm(x, last, aligned)]
    ensures |XmmStores(xs, disp, aligned)| == |XmmLoads(xs, disp, aligned)| == |xs|
    decreases |xs|
  {
    if xs == [] {
      assert [x][1..] == [];
    } else {
      assert (xs + [x])[1..] == xs[1..] + [x];
      SnocXmm(xs[1..], x, disp + 16, aligned);
    }
  }

  lemma InsertInMiddle(a: seq<Op>, b: seq<Op>, i: Op)
    ensures b != [] ==> InsertBefore(a + b, |a|, i) == a + [i] + b
    ensures a != [] ==> InsertAfter(a + b, |a| - 1, i) == a + [i] + b
  {
    assert (a + b)[..|a|] == a && (a + b)[|a|..] == b;
  }

  /** The two insertions of one turn go to both ends of the window around the label. */
  lemma InsertXmm(pre: seq<Op>, xs: seq<XmmReg>, post: seq<Op>, x: XmmReg, aligned: bool)
    ensures var save, load, n := XmmStores(xs, 0, aligned), XmmLoads(xs, 0, aligned), |xs|;
            var ls := InsertBefore(pre + (save + [Label] + load + post), |pre|, StoreXmm(x, 16 * n, aligned));
            |save| == |load| == n && |pre| + 1 + 2 * n < |ls| &&
            InsertAfter(ls, |pre| + 1 + 2 * n, LoadXmm(x, 16 * n, aligned)) ==
            pre + (XmmStores(xs + [x], 0, aligned) + [Label] + XmmLoads(xs + [x], 0, aligned) + post)
  {
    SnocXmm(xs, x, 0, aligned);
    var save, load, n := XmmStores(xs, 0, aligned), XmmLoads(xs, 0, aligned), |xs|;
    hide XmmStores, XmmLoads, InsertAfter, InsertBefore;
    WindowGrows(pre, save, load, post, StoreXmm(x, 16 * n, aligned), LoadXmm(x, 16 * n, aligned));
  }

  lemma WindowGrows(pre: seq<Op>, save: seq<Op>, load: seq<Op>, post: seq<Op>, s: Op, l: Op)
    ensures var ls := InsertBefore(pre + (save + [Label] + load + post), |pre|, s);
            |pre| + 1 + |save| + |load| < |ls| &&
            InsertAfter(ls, |pre| + 1 + |save| + |load|, l) == pre + (([s] + save) + [Label] + (load + [l]) + post)
  {
    hide InsertAfter, InsertBefore;
    InsertInMiddle(pre, save + [Label] + load + post, s);
    var a := pre + [s] + save + [Label] + load;
    assert pre + [s] + (save + [Label] + load + post) == a + post;
    InsertInMiddle(a, post, l);
  }

  /** `save_and_restore_xmm_registers`, for the dead xmm registers `xs` in their order. */
  method SaveAndRestoreXmm(xs: seq<XmmReg>, ls: seq<Op>, at: nat, aligned: bool) returns (out: seq<Op>, mid: nat)
    requires at < |ls|
    ensures out == ls[..at + 1] + (XmmOpen(xs, aligned) + [Label] + XmmClose(xs, aligned) + ls[at + 1..])
    ensures mid == at + 1 + |XmmOpen(xs, aligned)|
  {
    hide XmmStores, XmmLoads, InsertAfter, InsertBefore;
    ghost var pre, post := ls[..at + 1], ls[at + 1..];
    assert ls == pre + post;
    InsertInMiddle(pre, post, Label);
    NoXmm(pre, post, aligned);
    out := InsertAfter(ls, at, Label);
    var top, bottom := at + 1, at + 1;
    mid := at + 1;
    var disp := 0;
    for i := 0 to |xs|
      invariant top == |pre| && disp == 16 * i && mid == |pre| + i && bottom == |pre| + 2 * i
      invariant out == pre + (XmmStores(xs[..i], 0, aligned) + [Label] + XmmLoads(xs[..i], 0, aligned) + post)
      invariant |XmmStores(xs[..i], 0, aligned)| == |XmmLoads(xs[..i], 0, aligned)| == i
    {
      InsertXmm(pre, xs[..i], post, xs[i], aligned);
      SnocXmm(xs[..i] + [xs[i]], xs[i], 0, aligned);
      assert xs[..i + 1] == xs[..i] + [xs[i]];
      out := InsertBefore(out, top, StoreXmm(xs[i], disp, aligned));
      out := InsertAfter(out, bottom + 1, LoadXmm(xs[i], disp, aligned));
      mid, bottom, disp := mid + 1, bottom + 2, disp + 16;
    }
    assert xs[..|xs|] == xs;
    if disp != 0 {
      WindowGrows(pre, XmmStores(xs, 0, aligned), XmmLoads(xs, 0, aligned), post, LeaRsp(-disp), LeaRsp(disp));
      out := InsertBefore(out, top, LeaRsp(-disp));
      out := InsertAfter(out, bottom + 1, LeaRsp(disp));
      mid := mid + 1;
    }
  }

  lemma NoXmm(pre: seq<Op>, post: seq<Op>, aligned: bool)
    ensures pre + [Label] + post == pre + (XmmStores([], 0, aligned) + [Label] + XmmLoads([], 0, aligned) + post)
  {
  }

  // ----- what the xmm code does -----

  /** The words from `base` up hold the values of the registers `xs`. */
  ghost predicate Stored(m: State, base: int, xs: seq<XmmReg>, values: seq<Xmm>)
    requires |values| == NUM_XMMS
  {
    forall i :: 0 <= i < |xs| ==> HoldsXmm(m, base + 16 * i, values[xs[i]])
  }

  predicate HoldsXmm(m: State, at: int, x: Xmm) { m.Peek(at) == x.low && m.Peek(at + 8) == x.high }

  /** Only words from `from` up to `end` differ. */
  ghost predicate WritesOnly(m: State, m': State, from: int, end: int) {
    && m'.regs == m.regs && SameRest(m', m) && m'.rsp == m.rsp && m'.flags == m.flags && m'.other == m.other
    && forall at :: !(from <= at < end) ==> m'.Slot(at) == m.Slot(at)
  }

  lemma StoreEffect(w: World, x: XmmReg, disp: int, aligned: bool, m: State)
    requires m.Valid() && (aligned ==> (m.rsp + disp) % 16 == 0)
    ensures var m' := Effect(w, StoreXmm(x, disp, aligned), m);
            WritesOnly(m, m', m.rsp + disp, m.rsp + disp + 16) && HoldsXmm(m', m.rsp + disp, m.xmms[x])
  {
  }

  lemma AlignedNext(rsp: int, disp: int)
    requires (rsp + disp) % 16 == 0
    ensures (rsp + (disp + 16)) % 16 == 0
  {
  }

  lemma {:induction false} StoresEffect(w: World, xs: seq<XmmReg>, disp: int, aligned: bool, m: State)
    requires m.Valid() && (aligned ==> (m.rsp + disp) % 16 == 0)
    ensures var m' := Exec(w, XmmStores(xs, disp, aligned), m);
            && WritesOnly(m, m', m.rsp + disp, m.rsp + disp + 16 * |xs|)
            && Stored(m', m.rsp + disp, xs, m.xmms)
    decreases |xs|
  {
    hide Effect, State.Slot, HoldsXmm;
    if xs != [] {
      if aligned { AlignedNext(m.rsp, disp); }
      StoresEffect(w, xs[1..], disp + 16, aligned, m);
      ExecAppend(w, XmmStores(xs[1..], disp + 16, aligned), [StoreXmm(xs[0], disp, aligned)], m);
      var m1 := Exec(w, XmmStores(xs[1..], disp + 16, aligned), m);
      Exec1(w, StoreXmm(xs[0], disp, aligned), m1);
      StoreEffect(w, xs[0], disp, aligned, m1);
      StoredMore(m1, Effect(w, StoreXmm(xs[0], disp, aligned), m1), m.rsp + disp, xs, m.xmms);
    }
  }

  lemma StoredMore(m: State, m': State, base: int, xs: seq<XmmReg>, values: seq<Xmm>)
    requires |values| == NUM_XMMS && xs != [] && Stored(m, base + 16, xs[1..], values)
    requires HoldsXmm(m', base, values[xs[0]]) && WritesOnly(m, m', base, base + 16)
    ensures Stored(m', base, xs, values)
  {
    hide State.Slot;
    forall i | 0 <= i < |xs| ensures HoldsXmm(m', base + 16 * i, values[xs[i]]) {
      if i > 0 {
        assert HoldsXmm(m, base + 16 + 16 * (i - 1), values[xs[1..][i - 1]]);
      }
    }
  }

  /** The registers `xs` have the values, and the other xmm registers are as they were. */
  ghost predicate LoadsOnly(m: State, m': State, xs: seq<XmmReg>, values: seq<Xmm>)
    requires |values| == |m.xmms| == NUM_XMMS
  {
    && m' == m.(xmms := m'.xmms) && |m'.xmms| == NUM_XMMS
    && forall x: XmmReg :: m'.xmms[x] == if x in xs then values[x] else m.xmms[x]
  }

  lemma LoadEffect(w: World, x: XmmReg, disp: int, aligned: bool, m: State, value: Xmm)
    requires m.Valid() && (aligned ==> (m.rsp + disp) % 16 == 0) && HoldsXmm(m, m.rsp + disp, value)
    ensures Effect(w, LoadXmm(x, disp, aligned), m) == m.(xmms := m.xmms[x := value])
  {
  }

  lemma {:induction false} LoadsEffect(w: World, xs: seq<XmmReg>, disp: int, aligned: bool, m: State, values: seq<Xmm>)
    requires m.Valid() && (aligned ==> (m.rsp + disp) % 16 == 0) && |values| == NUM_XMMS
    requires Stored(m, m.rsp + disp, xs, values)
    ensures LoadsOnly(m, Exec(w, XmmLoads(xs, disp, aligned), m), xs, values)
    decreases |xs|
  {
    hide Effect, State.Slot, HoldsXmm;
    if xs != [] {
      assert HoldsXmm(m, m.rsp + disp + 16 * 0, values[xs[0]]);
      LoadEffect(w, xs[0], disp, aligned, m, values[xs[0]]);
      var m1 := Effect(w, LoadXmm(xs[0], disp, aligned), m);
      assert XmmLoads(xs, disp, aligned)[1..] == XmmLoads(xs[1..], disp + 16, aligned);
      if aligned { AlignedNext(m.rsp, disp); }
      StoredRest(m, m1, m.rsp + disp, xs, values);
      LoadsEffect(w, xs[1..], disp + 16, aligned, m1, values);
      assert forall x: XmmReg :: x in xs <==> x == xs[0] || x in xs[1..];
    }
  }

  lemma StoredRest(m: State, m': State, base: int, xs: seq<XmmReg>, values: seq<Xmm>)
    requires |values| == NUM_XMMS && xs != [] && Stored(m, base, xs, values) && m'.stack == m.stack
    ensures Stored(m', base + 16, xs[1..], values)
  {
    forall i | 0 <= i < |xs[1..]| ensures HoldsXmm(m', base + 16 + 16 * i, values[xs[1..][i]]) {
      assert HoldsXmm(m, base + 16 * (i + 1), values[xs[i + 1]]);
    }
  }

  // ----- the clean-call routine -----

  /** How the routine is made: for the kernel or for user space, and for a callee that respects
      the ABI or for any other. */
  datatype Variant = Variant(kernel: bool, abi: bool)

  /** `insert_align_stack_after` */
  const ALIGN: seq<Op> := [PushRsp, PushTop, AlignRsp]

  /** The call; in user space with the xmm registers saved around it, and two labels. */
  function CoreCode(v: Variant, xs: seq<XmmReg>): seq<Op> {
    if v.kernel then [Call] else XmmOpen(xs, v.abi) + [Label, Call] + XmmClose(xs, v.abi) + [Label]
  }

  function CallCode(v: Variant, xs: seq<XmmReg>): seq<Op> {
    if v.abi then ALIGN + CoreCode(v, xs) + [LoadRsp(8)] else CoreCode(v, xs)
  }

  function Head(v: Variant): seq<Op> { if v.kernel then [Pushf, Cli] else [Pushf] }

  /** The routine up to its RET, with `rs` and `xs` the registers it saves. */
  function CleanCode(v: Variant, rs: seq<Reg>, xs: seq<XmmReg>): seq<Op> {
    Head(v) + PushAll(rs) + CallCode(v, xs) + PopAll(rs) + [Popf]
  }

  /** A callee that gives back `rsp` and the stack above it, if it is entered with an aligned
      stack or does not ask for one. */
  ghost predicate Callee(w: World, v: Variant) {
    forall m: State {:trigger w.callee(m)} :: m.Valid() && (v.abi ==> m.rsp % 16 == 0) ==>
      var m' := w.callee(m); m'.Valid() && m'.rsp == m.rsp && SameStack(m', m, m.rsp)
  }

  /** `called` is a state in which the callee may be entered, with the registers of `m`. */
  ghost predicate Enters(v: Variant, m: State, called: State) {
    && called.Valid() && called.regs == m.regs && SameRest(called, m) && called.rsp <= m.rsp
    && (v.abi ==> called.rsp % 16 == 0) && SameStack(called, m, m.rsp)
  }

  /** The xmm registers that the routine saves. */
  function SavedXmms(v: Variant, xs: seq<XmmReg>): seq<XmmReg> { if v.kernel then [] else xs }

  /** From `m` to `m'` the callee ran once, from `called`, with the xmm registers `xs` saved: all
      else is as the callee left it. */
  ghost predicate Ran(w: World, v: Variant, xs: seq<XmmReg>, m: State, called: State, m': State)
    requires m.Valid() && m'.Valid()
  {
    && Enters(v, m, called) && w.callee(called).Valid()
    && m'.rsp == m.rsp && m'.regs == w.callee(called).regs && SameStack(m', w.callee(called), m.rsp)
    && forall x: XmmReg :: m'.xmms[x] == if x in xs then m.xmms[x] else w.callee(called).xmms[x]
  }

  // ----- building it -----

  /** The insertions of `insert_align_stack_after`. */
  method InsertAlign(ls: seq<Op>, at: nat, ghost pre: seq<Op>, ghost post: seq<Op>) returns (out: seq<Op>)
    requires ls == pre + post && at == |pre| - 1
    ensures out == (pre + ALIGN) + post
  {
    InsertInMiddle(pre, post, PushRsp);
    ghost var p1 := pre + [PushRsp];
    InsertInMiddle(p1, post, PushTop);
    ghost var p2 := p1 + [PushTop];
    InsertInMiddle(p2, post, AlignRsp);
    assert p2 + [AlignRsp] == pre + ALIGN;
    hide InsertAfter;
    out := InsertAfter(ls, at, PushRsp);
    out := InsertAfter(out, at + 1, PushTop);
    out := InsertAfter(out, at + 2, AlignRsp);
  }

  /** The insertions of the call, in user space inside the window of the xmm registers.  Returns
      the position behind which the old stack pointer is restored. */
  method InsertCore(v: Variant, xs: seq<XmmReg>, ls: seq<Op>, at: nat, ghost pre: seq<Op>, ghost post: seq<Op>)
      returns (out: seq<Op>, end: nat)
    requires ls == pre + post && at == |pre| - 1
    ensures out == (pre + CoreCode(v, xs)) + post && end == |pre| + |CoreCode(v, xs)| - 1
  {
    hide InsertAfter;
    if v.kernel {
      InsertInMiddle(pre, post, Call);
      out := InsertAfter(ls, at, Call);
      end := at + 1;
    } else {
      hide XmmOpen, XmmClose;
      InsertInMiddle(pre, post, Label);
      out := InsertAfter(ls, at, Label);
      assert out == pre + ([Label] + post);
      Cut(pre, [Label] + post);
      var mid;
      out, mid := SaveAndRestoreXmm(xs, out, at, v.abi);
      CoreInPlace(pre, XmmOpen(xs, v.abi), XmmClose(xs, v.abi), post);
      out := InsertAfter(out, mid, Call);
      end := |out| - (|ls| - at - 1) - 1;
    }
  }

  lemma Cut(a: seq<Op>, b: seq<Op>)
    ensures (a + b)[..|a|] == a && (a + b)[|a|..] == b
  {
  }

  /** The call goes behind the first label. */
  lemma CoreInPlace(pre: seq<Op>, open: seq<Op>, close: seq<Op>, post: seq<Op>)
    ensures var ls := pre + (open + [Label] + close + ([Label] + post));
            |pre| + |open| < |ls| &&
            InsertAfter(ls, |pre| + |open|, Call) == (pre + (open + [Label, Call] + close + [Label])) + post
  {
    hide InsertAfter;
    var left, right := pre + open + [Label], close + ([Label] + post);
    assert pre + (open + [Label] + close + ([Label] + post)) == left + right;
    InsertInMiddle(left, right, Call);
    assert open + [Label, Call] == open + [Label] + [Call];
  }

  /** ... with the alignment and its restoration around it. */
  method InsertCall(v: Variant, xs: seq<XmmReg>, ls: seq<Op>, at: nat, ghost pre: seq<Op>, ghost post: seq<Op>)
      returns (out: seq<Op>)
    requires ls == pre + post && at == |pre| - 1
    ensures out == pre + CallCode(v, xs) + post
  {
    hide CoreCode, InsertAfter;
    var end;
    if v.abi {
      out := InsertAlign(ls, at, pre, post);
      out, end := InsertCore(v, xs, out, at + 3, pre + ALIGN, post);
      ghost var core := CoreCode(v, xs);
      InsertInMiddle(pre + ALIGN + core, post, LoadRsp(8));
      out := InsertAfter(out, end, LoadRsp(8));
      assert pre + ALIGN + core + [LoadRsp(8)] == pre + (ALIGN + core + [LoadRsp(8)]);
    } else {
      out, end := InsertCore(v, xs, ls, at, pre, post);
    }
  }

  /** The list that `generate_clean_callable_address` builds for the dead registers of a register
      manager and the dead xmm registers `xs`. */
  method BuildCleanCall(v: Variant, regs: RM.Manager, xs: seq<XmmReg>) returns (out: seq<Op>)
    requires RSP in regs.live
    ensures out == CleanCode(v, Dead(0, regs.live + regs.undead), xs)
  {
    ghost var rs := Dead(0, regs.live + regs.undead);
    hide Dead, PushAll, PopAll, Bracketed, CallCode;
    SnocBracket(rs, RAX);
    Opened(v, rs);
    out := [Pushf];
    if v.kernel { out := out + [Cli]; }
    assert out == Head(v);
    hide Head;
    var at;
    out, at := SaveAndRestore(regs, out, |out| - 1);
    out := InsertCall(v, xs, out, at, Head(v) + PushAll(rs), PopAll(rs));
    out := out + [Popf];
  }

  lemma Opened(v: Variant, rs: seq<Reg>)
    ensures Bracketed(Head(v)[..|Head(v)|], rs, Head(v)[|Head(v)|..]) == (Head(v) + PushAll(rs)) + PopAll(rs)
  {
    hide PushAll, PopAll;
    assert Head(v)[..|Head(v)|] == Head(v) && Head(v)[|Head(v)|..] == [];
  }

  // ----- what it does -----

  lemma AlignDown(x: int)
    requires x % 8 == 0
    ensures var y := x - 16 - (x - 16) % 16; y % 16 == 0 && (y == x - 16 || y == x - 24)
  {
    var k := x / 8;
    if k % 2 == 0 {
      Arith.QuotientUnique(x - 16, 16, k / 2 - 1, 0);
    } else {
      Arith.QuotientUnique(x - 16, 16, k / 2 - 1, 8);
      Arith.QuotientUnique(x - 24, 16, k / 2 - 1, 0);
    }
  }

  lemma TwoCopies(m: State, m': State)
    requires m'.stack == m.stack[m.rsp - 8 := StackPointer(m.rsp)][m.rsp - 16 := StackPointer(m.rsp)]
    requires m'.rsp == m.rsp - 16 || m'.rsp == m.rsp - 24
    ensures m'.Slot(m'.rsp + 8) == StackPointer(m.rsp) && SameStack(m', m, m.rsp)
  {
  }

  /** Two copies of `rsp` are pushed, so that one of them is found at `rsp + 8` whichever way
      the alignment goes. */
  lemma AlignEffect(w: World, m: State)
    requires m.Valid() && m.rsp % 8 == 0
    ensures var m' := Exec(w, ALIGN, m);
            && m'.rsp % 16 == 0 && m'.rsp <= m.rsp - 16 && m'.regs == m.regs && SameRest(m', m)
            && m'.Slot(m'.rsp + 8) == StackPointer(m.rsp) && SameStack(m', m, m.rsp)
  {
    hide Exec, Effect, State.Slot, SameStack;
    Exec3(w, PushRsp, PushTop, AlignRsp, m);
    AlignDown(m.rsp);
    PushRspIs(w, m);
    var m1 := Effect(w, PushRsp, m);
    assert m1.Slot(m1.rsp) == StackPointer(m.rsp) by { TopIs(m1, StackPointer(m.rsp)); }
    PushTopIs(w, m1);
    var m2 := Effect(w, PushTop, m1);
    AlignRspIs(w, m2);
    TwoCopies(m, Effect(w, AlignRsp, m2));
  }

  lemma TopIs(m: State, cell: Cell)
    requires m.rsp in m.stack && m.stack[m.rsp] == cell
    ensures m.Slot(m.rsp) == cell
  {
  }

  lemma PushRspIs(w: World, m: State)
    requires m.Valid()
    ensures Effect(w, PushRsp, m) == m.(rsp := m.rsp - 8, stack := m.stack[m.rsp - 8 := StackPointer(m.rsp)])
  {
  }

  lemma PushTopIs(w: World, m: State)
    requires m.Valid()
    ensures Effect(w, PushTop, m) == m.(rsp := m.rsp - 8, stack := m.stack[m.rsp - 8 := m.Slot(m.rsp)])
  {
  }

  lemma AlignRspIs(w: World, m: State)
    requires m.Valid()
    ensures var m' := Effect(w, AlignRsp, m);
            m' == m.(rsp := m.rsp - m.rsp % 16, flags := m'.flags, other := m'.other)
  {
  }

  lemma CalleeEffect(w: World, v: Variant, m: State)
    requires m.Valid() && (v.abi ==> m.rsp % 16 == 0) && Callee(w, v)
    ensures w.callee(m).Valid() && Effect(w, Call, m) == w.callee(m)
    ensures w.callee(m).rsp == m.rsp && SameStack(w.callee(m), m, m.rsp)
  {
    hide State.Slot;
  }

  lemma LoadRspEffect(w: World, m: State, at: int)
    requires m.Valid() && m.Slot(m.rsp + 8) == StackPointer(at)
    ensures Effect(w, LoadRsp(8), m) == m.(rsp := at)
  {
  }

  lemma StackOnly(a: State, b: State, from: int)
    requires a.stack == b.stack
    ensures SameStack(a, b, from)
  {
  }

  /** Room for the registers below the stack, their values in it, and an alignment that stays. */
  lemma OpenEffect(w: World, xs: seq<XmmReg>, aligned: bool, m: State)
    requires m.Valid() && (aligned ==> m.rsp % 16 == 0)
    ensures var m' := Exec(w, XmmOpen(xs, aligned), m);
            && m'.rsp == m.rsp - 16 * |xs| && (aligned ==> m'.rsp % 16 == 0)
            && m'.regs == m.regs && SameRest(m', m) && SameStack(m', m, m.rsp) && Stored(m', m'.rsp, xs, m.xmms)
  {
    hide Effect, Exec, State.Slot, HoldsXmm, Stored;
    if xs == [] {
      assert XmmOpen(xs, aligned) == [];
      ExecNothing(w, m);
      NothingStored(m, m.rsp, m.xmms);
    } else {
      var m1 := m.(rsp := m.rsp - 16 * |xs|);
      ExecAppend(w, [LeaRsp(-16 * |xs|)], XmmStores(xs, 0, aligned), m);
      Exec1(w, LeaRsp(-16 * |xs|), m);
      LeaEffect(w, m, -16 * |xs|);
      if aligned { StaysAligned(m.rsp, |xs|); }
      StoresEffect(w, xs, 0, aligned, m1);
      StackOnly(m1, m, m.rsp);
    }
  }

  lemma ExecNothing(w: World, m: State)
    requires m.Valid()
    ensures Exec(w, [], m) == m
  {
  }

  lemma NothingStored(m: State, base: int, values: seq<Xmm>)
    requires |values| == NUM_XMMS
    ensures Stored(m, base, [], values)
  {
  }

  lemma LeaEffect(w: World, m: State, disp: int)
    requires m.Valid()
    ensures Effect(w, LeaRsp(disp), m) == m.(rsp := m.rsp + disp)
  {
  }

  lemma StaysAligned(rsp: int, n: nat)
    requires rsp % 16 == 0
    ensures (rsp - 16 * n) % 16 == 0
  {
    Arith.QuotientUnique(rsp - 16 * n, 16, rsp / 16 - n, 0);
  }

  lemma CloseEffect(w: World, xs: seq<XmmReg>, aligned: bool, m: State, values: seq<Xmm>)
    requires m.Valid() && (aligned ==> m.rsp % 16 == 0) && |values| == NUM_XMMS && Stored(m, m.rsp, xs, values)
    ensures var m' := Exec(w, XmmClose(xs, aligned), m);
            && m'.rsp == m.rsp + 16 * |xs| && m'.regs == m.regs && m'.stack == m.stack
            && forall x: XmmReg :: m'.xmms[x] == if x in xs then values[x] else m.xmms[x]
  {
    hide Effect, Exec, State.Slot, HoldsXmm, Stored;
    LoadsEffect(w, xs, 0, aligned, m, values);
    var m1 := Exec(w, XmmLoads(xs, 0, aligned), m);
    if xs == [] {
      assert XmmClose(xs, aligned) == XmmLoads(xs, 0, aligned);
    } else {
      ExecAppend(w, XmmLoads(xs, 0, aligned), [LeaRsp(16 * |xs|)], m);
      Exec1(w, LeaRsp(16 * |xs|), m1);
      LeaEffect(w, m1, 16 * |xs|);
    }
  }

  lemma UserCoreEffect(w: World, v: Variant, xs: seq<XmmReg>, m: State) returns (called: State)
    requires !v.kernel && m.Valid() && (v.abi ==> m.rsp % 16 == 0) && Callee(w, v)
    ensures Ran(w, v, xs, m, called, Exec(w, CoreCode(v, xs), m))
  {
    hide Effect, Exec, State.Slot, Callee, XmmOpen, XmmClose, HoldsXmm, Stored;
    var open, close := XmmOpen(xs, v.abi), XmmClose(xs, v.abi);
    ExecAppend(w, open + [Label, Call] + close, [Label], m);
    ExecAppend(w, open + [Label, Call], close, m);
    ExecAppend(w, open, [Label, Call], m);
    OpenEffect(w, xs, v.abi, m);
    called := Exec(w, open, m);
    Exec2(w, Label, Call, called);
    LabelEffect(w, called);
    CalleeEffect(w, v, called);
    var m2 := w.callee(called);
    StoredStays(called, m2, called.rsp, xs, m.xmms);
    CloseEffect(w, xs, v.abi, m2, m.xmms);
    var m3 := Exec(w, close, m2);
    StackOnly(m3, m2, m.rsp);
    Exec1(w, Label, m3);
    LabelEffect(w, m3);
  }

  lemma LabelEffect(w: World, m: State)
    requires m.Valid()
    ensures Effect(w, Label, m) == m
  {
  }

  lemma StoredStays(m: State, m': State, base: int, xs: seq<XmmReg>, values: seq<Xmm>)
    requires |values| == NUM_XMMS && Stored(m, base, xs, values) && SameStack(m', m, base)
    ensures Stored(m', base, xs, values)
  {
    hide State.Slot;
    forall i | 0 <= i < |xs| ensures HoldsXmm(m', base + 16 * i, values[xs[i]]) {
      assert HoldsXmm(m, base + 16 * i, values[xs[i]]);
    }
  }

  lemma CoreEffect(w: World, v: Variant, xs: seq<XmmReg>, m: State) returns (called: State)
    requires m.Valid() && (v.abi ==> m.rsp % 16 == 0) && Callee(w, v)
    ensures Ran(w, v, SavedXmms(v, xs), m, called, Exec(w, CoreCode(v, xs), m))
  {
    hide Effect, Exec, Callee, State.Slot, XmmOpen, XmmClose;
    if v.kernel {
      Exec1(w, Call, m);
      CalleeEffect(w, v, m);
      called := m;
    } else {
      called := UserCoreEffect(w, v, xs, m);
    }
  }

  /** The aligned call gives back `rsp`, the stack above it and the saved xmm registers; all else
      is as the callee left it. */
  lemma AlignedCallEffect(w: World, v: Variant, xs: seq<XmmReg>, m: State) returns (called: State)
    requires m.Valid() && v.abi && m.rsp % 8 == 0 && Callee(w, v)
    ensures Ran(w, v, SavedXmms(v, xs), m, called, Exec(w, CallCode(v, xs), m))
  {
    hide Effect, Exec, State.Slot, Callee, CoreCode, SavedXmms;
    ExecAppend(w, ALIGN + CoreCode(v, xs), [LoadRsp(8)], m);
    ExecAppend(w, ALIGN, CoreCode(v, xs), m);
    AlignEffect(w, m);
    var aligned := Exec(w, ALIGN, m);
    called := CoreEffect(w, v, xs, aligned);
    CalleeEffect(w, v, called);
    var returned := Exec(w, CoreCode(v, xs), aligned);
    assert returned.Slot(aligned.rsp + 8) == called.Slot(aligned.rsp + 8) == aligned.Slot(aligned.rsp + 8);
    Exec1(w, LoadRsp(8), returned);
    LoadRspEffect(w, returned, m.rsp);
    StackOnly(returned.(rsp := m.rsp), returned, m.rsp);
  }

  lemma CallEffect(w: World, v: Variant, xs: seq<XmmReg>, m: State) returns (called: State)
    requires m.Valid() && (v.abi ==> m.rsp % 8 == 0) && Callee(w, v)
    ensures Ran(w, v, SavedXmms(v, xs), m, called, Exec(w, CallCode(v, xs), m))
  {
    hide Ran, Exec, Callee, CoreCode, SavedXmms;
    if v.abi {
      called := AlignedCallEffect(w, v, xs, m);
    } else {
      called := CoreEffect(w, v, xs, m);
    }
  }

  lemma PushfIs(w: World, m: State)
    requires m.Valid()
    ensures Effect(w, Pushf, m) == Pushed(m, FlagImage(m.flags, m.interrupts, m.other))
    ensures Effect(w, Cli, m) == m.(interrupts := false)
  {
  }

  lemma HeadEffect(w: World, v: Variant, m: State)
    requires m.Valid()
    ensures var m' := Exec(w, Head(v), m);
            && m'.regs == m.regs && m'.xmms == m.xmms && m'.rsp == m.rsp - 8 && SameStack(m', m, m.rsp)
            && m'.interrupts == (m.interrupts && !v.kernel)
            && m'.Slot(m'.rsp) == FlagImage(m.flags, m.interrupts, m.other)
  {
    hide Exec, Effect;
    PushfIs(w, m);
    if v.kernel {
      Exec2(w, Pushf, Cli, m);
      PushfIs(w, Effect(w, Pushf, m));
    } else {
      Exec1(w, Pushf, m);
    }
  }

  lemma PopfEffect(w: World, m: State)
    requires m.Valid() && m.Slot(m.rsp).FlagImage?
    ensures var i := m.Slot(m.rsp);
            Exec(w, [Popf], m) == m.(rsp := m.rsp + 8, flags := i.flags, interrupts := i.interrupts, other := i.other)
  {
    Exec1(w, Popf, m);
  }

  /** `called` is where the routine enters its callee: with the registers of `m`, an aligned
      stack if the callee wants one, and in the kernel with interrupts disabled. */
  ghost predicate EntersClean(v: Variant, m: State, called: State) {
    && called.Valid() && called.regs == m.regs && called.xmms == m.xmms && called.rsp < m.rsp
    && (v.abi ==> called.rsp % 16 == 0) && called.interrupts == (m.interrupts && !v.kernel)
    && SameStack(called, m, m.rsp)
  }

  /** Main theorem: the routine runs its callee, from `called`.  Whatever the callee does, and
      for one that respects the ABI from any 8-aligned `rsp`, the routine restores `rsp`, all
      flags, the registers that it saves, in user space also xmm registers, and leaves the stack
      above `rsp`, and so its own return address, alone.  All other registers have the values
      that the callee left. */
  lemma CleanCallRestores(w: World, v: Variant, rs: seq<Reg>, xs: seq<XmmReg>, m: State) returns (called: State)
    requires m.Valid() && (v.abi ==> m.rsp % 8 == 0) && Callee(w, v)
    ensures EntersClean(v, m, called) && w.callee(called).Valid()
    ensures var m', answer := Exec(w, CleanCode(v, rs, xs), m), w.callee(called);
            && m'.rsp == m.rsp && m'.flags == m.flags && m'.interrupts == m.interrupts && m'.other == m.other
            && SameStack(m', m, m.rsp) && SameStack(m', answer, m.rsp)
            && (forall r: Reg :: m'.regs[r] == if r in rs then m.regs[r] else answer.regs[r])
            && (forall x: XmmReg :: m'.xmms[x] == if x in SavedXmms(v, xs) then m.xmms[x] else answer.xmms[x])
  {
    hide Effect, Exec, State.Slot, PushAll, PopAll, Callee, CallCode, Head, SavedXmms;
    var a, b, c, d, e := Head(v), PushAll(rs), CallCode(v, xs), PopAll(rs), [Popf];
    ExecAppend(w, a + b + c + d, e, m);
    ExecAppend(w, a + b + c, d, m);
    ExecAppend(w, a + b, c, m);
    ExecAppend(w, a, b, m);
    HeadEffect(w, v, m);
    var m1 := Exec(w, a, m);
    PushAllEffect(w, rs, m1);
    var m2 := Exec(w, b, m1);
    called := CallEffect(w, v, xs, m2);
    CalleeEffect(w, v, called);
    var m3 := Exec(w, c, m2);
    BracketRestores(w, w, rs, m1, m3);
    var m4 := Exec(w, d, m3);
    assert m4.Slot(m4.rsp) == m1.Slot(m1.rsp);
    PopfEffect(w, m4);
    StackOnly(Exec(w, e, m4), m4, m.rsp);
  }

  /** A callee that respects the ABI gets its stack, and what it keeps is kept. */
  lemma AbiCallKeeps(w: World, v: Variant, kept: set<Reg>, rs: seq<Reg>, xs: seq<XmmReg>, m: State)
    requires m.Valid() && (v.abi ==> m.rsp % 8 == 0) && Callee(w, v)
    requires forall c: State {:trigger w.callee(c)} :: c.Valid() && (v.abi ==> c.rsp % 16 == 0) ==>
               forall r: Reg :: r in kept ==> |w.callee(c).regs| == NUM_REGS && w.callee(c).regs[r] == c.regs[r]
    ensures var m' := Exec(w, CleanCode(v, rs, xs), m);
            forall r: Reg :: r in rs || r in kept ==> m'.regs[r] == m.regs[r]
  {
    hide Exec, CleanCode, SavedXmms, Callee;
    var called := CleanCallRestores(w, v, rs, xs, m);
    var answer := w.callee(called);
  }
}
