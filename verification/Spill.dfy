/** Nested saving and restoring of registers: `save_and_restore_registers`. */
module Spill {
  import opened Machine

  /** Each push goes behind the previous one ... */
  function PushAll(rs: seq<Reg>): seq<Op> {
    if rs == [] then [] else [Push(rs[0])] + PushAll(rs[1..])
  }

  /** ... and its pop right behind it, in front of the pops that are there already. */
  function PopAll(rs: seq<Reg>): seq<Op> {
    if rs == [] then [] else PopAll(rs[1..]) + [Pop(rs[0])]
  }

  /** The stack at or above `from` is the same. */
  ghost predicate SameStack(a: State, b: State, from: int) {
    forall at :: at >= from ==> a.Slot(at) == b.Slot(at)
  }

  lemma PushEffect(w: World, r: Reg, m: State)
    requires m.Valid()
    ensures var m' := Effect(w, Push(r), m);
            && m'.regs == m.regs && SameRest(m', m) && m'.flags == m.flags && m'.other == m.other
            && m'.rsp == m.rsp - 8 && SameStack(m', m, m.rsp) && m'.Peek(m'.rsp) == m.regs[r]
  {
  }

  lemma PopEffect(w: World, r: Reg, m: State)
    requires m.Valid()
    ensures var m' := Effect(w, Pop(r), m);
            && SameRest(m', m) && m'.flags == m.flags && m'.other == m.other && m'.rsp == m.rsp + 8
            && SameStack(m', m, m.rsp) && m'.regs == m.regs[r := m.Peek(m.rsp)]
  {
  }

  lemma {:induction false} PushAllEffect(w: World, rs: seq<Reg>, m: State)
    requires m.Valid()
    ensures var m' := Exec(w, PushAll(rs), m);
            && m'.regs == m.regs && SameRest(m', m) && m'.flags == m.flags && m'.other == m.other
            && m'.rsp == m.rsp - 8 * |rs| && SameStack(m', m, m.rsp)
    decreases |rs|
  {
    hide Effect, State.Slot;
    if rs != [] {
      PushEffect(w, rs[0], m);
      assert PushAll(rs)[1..] == PushAll(rs[1..]);
      PushAllEffect(w, rs[1..], Effect(w, Push(rs[0]), m));
    }
  }

  /** Whatever runs between the pushes and the pops, if it gives back `rsp` and does not
      touch the stack above it, the saved registers and `rsp` come back.  The world may have
      changed in between. */
  lemma {:induction false} BracketRestores(w: World, w': World, rs: seq<Reg>, m: State, inner: State)
    requires m.Valid() && inner.Valid()
    requires var pushed := Exec(w, PushAll(rs), m);
             inner.rsp == pushed.rsp && SameStack(inner, pushed, pushed.rsp)
    ensures var out := Exec(w', PopAll(rs), inner);
            && out.rsp == m.rsp && SameStack(out, m, m.rsp)
            && SameRest(out, inner) && out.flags == inner.flags && out.other == inner.other
            && (forall r: Reg :: out.regs[r] == if r in rs then m.regs[r] else inner.regs[r])
    decreases |rs|
  {
    hide Effect, State.Slot;
    if rs != [] {
      var next := Effect(w, Push(rs[0]), m);
      PushEffect(w, rs[0], m);
      assert PushAll(rs)[1..] == PushAll(rs[1..]);
      BracketRestores(w, w', rs[1..], next, inner);
      var inside := Exec(w', PopAll(rs[1..]), inner);
      PopEffect(w', rs[0], inside);
      ExecAppend(w', PopAll(rs[1..]), [Pop(rs[0])], inner);
      Exec1(w', Pop(rs[0]), inside);
      assert inside.Peek(next.rsp) == next.Peek(next.rsp) == m.regs[rs[0]];
    }
  }
}
