/** A trace in which a jump that is to be followed is not: its target is in the second half of a
    block that is split, and only the first half is in the trace. */
module SplitTrace {
  import opened Trace

  const A := Key(10, 0)
  const M := Key(15, 0)
  const X := Key(30, 0)

  /** The code from `A` up to 20 jumps to `X`, and the code from `X` jumps back to `M`, which is
      inside of the former. */
  function Code(key: Key, limit: nat): Decoded {
    if key.pc == 30 then Decoded(40, [Cti(Jump(true, false), M, Unlinked)])
    else if key.pc == 10 && limit == 15 then Decoded(15, [Cti(Jump(false, false), M, Unlinked)])
    else if key.pc < 20 then Decoded(20, [Cti(Jump(true, false), X, Unlinked)])
    else Decoded(key.pc + 1, [])
  }

  const PROGRAM := World(
    (key: Key, limit: nat) => Code(key, limit),
    (key: Key, limit: nat) => key.pc == 10 && limit == 15,
    (_, _) => false,
    {A, M, X})

  lemma ProgramIsValid()
    ensures PROGRAM.Valid()
  {
    forall key, limit | key in PROGRAM.starts
      ensures PROGRAM.DecodedOk(key, PROGRAM.decode(key, limit)) && PROGRAM.CutOk(key, limit)
    {
      var d := Code(key, limit);
      assert |d.ctis| <= 1;
    }
  }

  // ----- the states of the trace -----

  function BlockA(link: Link): Block { Block(A, 20, 0, true, true, [Cti(Jump(true, false), X, link)]) }
  const BLOCK_X := Block(X, 40, 0, true, true, [Cti(Jump(true, false), M, Unlinked)])
  const HALF_A := Block(A, 15, 0, true, true, [Cti(Jump(false, false), M, Unlinked)])

  const T0 := [NewBlock(A)]
  const T1 := [BlockA(ToBlock(X)), NewBlock(X)]
  const T2 := [BlockA(ToBlock(X)), BLOCK_X]
  const T3 := [BlockA(ToBlock(X)).(split := 15), BLOCK_X]
  const T4 := [HALF_A, BLOCK_X]

  lemma NeverKnown(k: Key)
    ensures !EverKnown(PROGRAM, k)
  {
  }

  /** A branch that is relinked is linked to a block of the trace. */
  lemma RelinkedIs(t: seq<Block>, c: Cti, c': Cti)
    requires RelinkedCti(PROGRAM, c, c') && LinkOk(Keys(t), c')
    ensures c' == c || (c.link.Unlinked? && c' == c.(link := ToBlock(c.target)) && c.target in Keys(t))
  {
    NeverKnown(c.target);
  }

  /** `X` is inside of nothing. */
  lemma NotInside(t: seq<Block>, k: Key)
    requires Overlaps(PROGRAM, Keys(t), k)
    ensures k != X
  {
  }

  lemma KeysOfOne(b: Block)
    ensures Keys([b]) == {b.key}
  {
    assert [b][0] == b;
  }

  lemma KeysOfTwo(a: Block, b: Block)
    ensures Keys([a, b]) == {a.key, b.key}
  {
    assert [a, b][0] == a && [a, b][1] == b;
  }

  /** `A` is decoded, and its jump adds `X`. */
  lemma FirstStep(t: seq<Block>, n: nat, n': nat, added: bool, k: Key)
    requires Processed(PROGRAM, T0, 0, n, t, n', added, k) && Inv(PROGRAM, t)
    ensures added && t == T1 && n' == n
  {
    hide Keys, Overlaps, LinkOk, RelinkedCti;
    var b := Redecoded(PROGRAM, T0[0]);
    assert b == BlockA(Unlinked) && T0[0 := b] == [b];
    assert LinksOk(Keys(t), t[0].ctis);
    assert LinkOk(Keys(t), t[0].ctis[0]) && RelinkedCti(PROGRAM, b.ctis[0], t[0].ctis[0]);
    RelinkedIs(t, b.ctis[0], t[0].ctis[0]);
    assert Deferred(PROGRAM, Keys([b]), n', t[0].ctis[0]);
    if Overlaps(PROGRAM, Keys([b]), X) { NotInside([b], X); }
    assert t[0] == BlockA(ToBlock(X)) && X in Keys(t);
    if added {
      assert t == [t[0], NewBlock(k)];
    } else {
      assert t == [t[0]];
      KeysOfOne(t[0]);
    }
  }

  /** `X` is decoded, and its jump is left, because it leads into `A`. */
  lemma SecondStep(t: seq<Block>, n: nat, n': nat, added: bool, k: Key)
    requires Processed(PROGRAM, T1, 1, n, t, n', added, k) && Inv(PROGRAM, t)
    ensures !added && t == T2 && n' == n
  {
    hide Keys, Overlaps, LinkOk, RelinkedCti;
    var b := Redecoded(PROGRAM, T1[1]);
    var t1 := T1[1 := b];
    assert b == BLOCK_X && t1 == [T1[0], b];
    assert t1[0].Contains(M);
    if added {
      assert false;
    }
    assert t == [T1[0], t[1]];
    assert LinksOk(Keys(t), t[1].ctis);
    assert LinkOk(Keys(t), t[1].ctis[0]) && RelinkedCti(PROGRAM, b.ctis[0], t[1].ctis[0]);
    RelinkedIs(t, b.ctis[0], t[1].ctis[0]);
    KeysOfTwo(t[0], t[1]);
    assert t[1].ctis == [t[1].ctis[0]];
  }

  /** Two blocks with one branch each, of which nothing more can be linked. */
  lemma NothingToLink(t: seq<Block>, t': seq<Block>, t1: seq<Block>)
    requires |t| == 2 && RelinkedAll(PROGRAM, t, t1) && |t[0].ctis| == 1 && |t[1].ctis| == 1
    requires Inv(PROGRAM, t') && |t'| == 2
    requires forall i :: 0 <= i < 2 ==> t'[i].key == t1[i].key && t'[i].ctis == t1[i].ctis
    requires forall i :: 0 <= i < 2 && t[i].ctis[0].link.Unlinked? ==>
               t[i].ctis[0].target != t[0].key && t[i].ctis[0].target != t[1].key
    ensures t1 == t
  {
    hide Keys, LinkOk, RelinkedCti;
    KeysOfTwo(t'[0], t'[1]);
    assert t' == [t'[0], t'[1]];
    forall i | 0 <= i < 2 ensures t1[i] == t[i] {
      assert Relinked(PROGRAM, t[i], t1[i]) && RelinkedCti(PROGRAM, t[i].ctis[0], t1[i].ctis[0]);
      assert LinksOk(Keys(t'), t'[i].ctis) && LinkOk(Keys(t'), t1[i].ctis[0]);
      assert t1[0].key == t[0].key && t1[1].key == t[1].key;
      RelinkedIs(t', t[i].ctis[0], t1[i].ctis[0]);
      assert t1[i].ctis == [t1[i].ctis[0]] && t[i].ctis == [t[i].ctis[0]];
    }
  }

  /** `A` is marked, to be split at `M`. */
  lemma ThirdStep(t: seq<Block>, split: bool, q: nat, k: Key, minPc: nat, maxPc: nat)
    requires Inv(PROGRAM, t) && Covered(T2, minPc, maxPc)
    requires if split then Marked(PROGRAM, T2, t, q, k) else RelinkedAll(PROGRAM, T2, t)
    requires !split ==> forall i :: 0 <= i < |t| ==> AllSettled(t, minPc, maxPc, t[i].ctis, |t[i].ctis|)
    ensures split && q == 0 && t == T3
  {
    hide RelinkedAll, Inv;
    if split {
      MarkedShape(T2, t, q, k);
      NothingToLink(T2, t, t[q := t[q].(split := 0)]);
      assert t[q := t[q].(split := 0)] == T2;
    } else {
      RelinkedShape(T2, t);
      NothingToLink(T2, t, t);
      MIsUnsettled(minPc, maxPc);
      assert false;
    }
  }

  lemma MIsUnsettled(minPc: nat, maxPc: nat)
    requires Covered(T2, minPc, maxPc)
    ensures !AllSettled(T2, minPc, maxPc, T2[1].ctis, |T2[1].ctis|)
  {
    assert minPc <= T2[0].key.pc && T2[1].end <= maxPc;
    assert IsFound(T2, M, 0) && !Settled(T2, minPc, maxPc, T2[1].ctis[0]);
  }

  lemma MarkedShape(t: seq<Block>, t': seq<Block>, q: nat, k: Key)
    requires Marked(PROGRAM, t, t', q, k)
    ensures |t'| == |t| && q < |t'|
  {
  }

  lemma RelinkedShape(t: seq<Block>, t': seq<Block>)
    requires RelinkedAll(PROGRAM, t, t')
    ensures |t'| == |t|
  {
  }

  /** `A` is decoded again, up to `M`. */
  lemma FourthStep(t: seq<Block>, n: nat, n': nat, added: bool, k: Key)
    requires Processed(PROGRAM, T3, 0, n, t, n', added, k) && Inv(PROGRAM, t)
    ensures !added && t == T4 && n' == n
  {
    hide Keys, Overlaps, LinkOk, RelinkedCti;
    var b := Redecoded(PROGRAM, T3[0]);
    assert b == HALF_A && T3[0 := b] == [b, BLOCK_X];
    assert t == [t[0], BLOCK_X];
    assert LinksOk(Keys(t), t[0].ctis);
    assert LinkOk(Keys(t), t[0].ctis[0]) && RelinkedCti(PROGRAM, b.ctis[0], t[0].ctis[0]);
    RelinkedIs(t, b.ctis[0], t[0].ctis[0]);
    KeysOfTwo(t[0], t[1]);
    assert t[0].ctis == [t[0].ctis[0]];
  }

  /** And then nothing changes any more. */
  lemma LastStep(t: seq<Block>, split: bool, q: nat, k: Key)
    requires Inv(PROGRAM, t)
    requires if split then Marked(PROGRAM, T4, t, q, k) else RelinkedAll(PROGRAM, T4, t)
    ensures !split && t == T4
  {
    hide RelinkedAll, Inv;
    if split {
      MarkedShape(T4, t, q, k);
      NothingToLink(T4, t, t[q := t[q].(split := 0)]);
      assert false;
    } else {
      RelinkedShape(T4, t);
      NothingToLink(T4, t, t);
    }
  }

  /** The turns of the fixpoint loop on this program.  In the end the jump of `X` is not linked,
      although it is no fall-through, all fall-throughs are left, and all blocks can be split. */
  method CutIsLeftOut(fallThroughs: nat) returns (b: Builder)
    ensures b.w == PROGRAM && b.trace == T4 && b.fallThroughs == fallThroughs && NonePending(b.trace)
    ensures b.trace[1].ctis[0].Followable() && !b.trace[1].ctis[0].kind.fallThrough && b.trace[1].ctis[0].target == M
    ensures NoneContains(b.trace, M) && forall i :: 0 <= i < |b.trace| ==> b.trace[i].canSplit
  {
    hide Inv, Processed, Marked, Covered, RelinkedAll, Less, World.Valid;
    ProgramIsValid();
    b := new Builder(PROGRAM, A, fallThroughs);
    StartInv(PROGRAM, A);
    var changed;
    ghost var q, k;
    changed, q, k := b.Extend(0);
    FirstStep(b.trace, fallThroughs, b.fallThroughs, changed, k);
    changed, q, k := b.Extend(1);
    SecondStep(b.trace, fallThroughs, b.fallThroughs, changed, k);
    changed, q, k := b.Fixup();
    ThirdStep(b.trace, changed, q, k, b.minPc, b.maxPc);
    CoveredShape(T2, b.trace, b.minPc, b.maxPc);
    changed, q, k := b.Extend(0);
    FourthStep(b.trace, fallThroughs, b.fallThroughs, changed, k);
    changed, q, k := b.Fixup();
    LastStep(b.trace, changed, q, k);
  }
}
