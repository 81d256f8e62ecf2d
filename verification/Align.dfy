/** Cache-line alignment of hot-patchable branches: `instruction_list_mangler::align`
    and `estimate_max_size`.

    A patchable branch ends in a 4-byte displacement (its rel32) that another CPU
    overwrites while the branch may be executing.  `align` moves branches forward, with
    NOPs and branch-hint prefixes, until no rel32 straddles two cache lines. */
module Align {

  const CACHE_LINE_SIZE: nat := 64
  const REL32_OFFSET_SIZE: nat := 4

  /** The branch-hint prefix of an instruction. */
  datatype Hint = NoHint | NotTaken | Taken

  /** A list node.  `body` counts the encoded bytes without the hint prefix;
      `unconditional` is `is_unconditional_cti`; `id` stands for everything that layout
      never looks at.  `Nops` is padding put in by `insert_nops_after`. */
  datatype Instr =
    | Instr(id: int, body: nat, hint: Hint, unconditional: bool, patchable: bool)
    | Nops(count: nat)
  {
    predicate Patchable() { Instr? && patchable }

    predicate Unconditional() { Instr? && unconditional }

    function OpcodeSize(): nat { if Unconditional() then 1 else 2 }

    /** `encoded_size` */
    function EncodedSize(): nat {
      match this
      case Instr(_, body, hint, _, _) => body + if hint.NoHint? then 0 else 1
      case Nops(count) => count
    }

    /** What `align` asserts of a patchable instruction once its hint is stripped. */
    predicate WellFormed() {
      Patchable() ==> body == OpcodeSize() + REL32_OFFSET_SIZE && (unconditional ==> hint.NoHint?)
    }

    /** Branch hints are stripped from everything that is not an unconditional CTI. */
    function Stripped(): Instr {
      if Instr? && !unconditional then this.(hint := NoHint) else this
    }
  }

  function TotalSize(ls: seq<Instr>): nat {
    if ls == [] then 0 else ls[0].EncodedSize() + TotalSize(ls[1..])
  }

  /** `estimate_max_size`: the encoded size plus eight bytes for each patchable branch. */
  function EstimateMaxSize(ls: seq<Instr>): nat {
    if ls == [] then 0
    else ls[0].EncodedSize() + (if ls[0].Patchable() then 8 else 0) + EstimateMaxSize(ls[1..])
  }

  /** The program a list stands for: padding has no effect and a hint only advises. */
  function Erase(ls: seq<Instr>): seq<Instr> {
    if ls == [] then []
    else (if ls[0].Nops? then [] else [ls[0].Stripped()]) + Erase(ls[1..])
  }

  /** The bytes `[at, at + n)` lie in one cache line. */
  predicate InOneLine(at: nat, n: nat) {
    at % CACHE_LINE_SIZE + n <= CACHE_LINE_SIZE
  }

  /** With the list placed at address `at`, no patchable rel32 crosses a cache line. */
  predicate NoSplitRel32(ls: seq<Instr>, at: nat) {
    ls != [] ==>
      var after := at + ls[0].EncodedSize();
      && (ls[0].Patchable() ==>
            after >= REL32_OFFSET_SIZE && InOneLine(after - REL32_OFFSET_SIZE, REL32_OFFSET_SIZE))
      && NoSplitRel32(ls[1..], after)
  }

  /** Bytes by which a stripped patchable branch at line offset `at % 64` has to move. */
  function Shift(i: Instr, at: nat): nat
    requires i.Patchable()
  {
    var offset := at % CACHE_LINE_SIZE;
    if offset + i.EncodedSize() <= CACHE_LINE_SIZE || CACHE_LINE_SIZE - offset <= i.OpcodeSize()
    then 0
    else CACHE_LINE_SIZE - offset - i.OpcodeSize()
  }

  /** The nodes one instruction becomes at address `at`. */
  function Placed(i: Instr, at: nat): seq<Instr> {
    var s := i.Stripped();
    if !i.Patchable() || Shift(s, at) == 0 then [s]
    else
      var nops := Shift(s, at) - (if s.unconditional then 0 else 1);
      (if nops == 0 then [] else [Nops(nops)]) + [if s.unconditional then s else s.(hint := NotTaken)]
  }

  function PlacedSize(i: Instr, at: nat): nat {
    i.Stripped().EncodedSize() + if i.Patchable() then Shift(i.Stripped(), at) else 0
  }

  /** The aligned list, as a function of the list and of the address it starts at. */
  function Aligned(ls: seq<Instr>, at: nat): seq<Instr> {
    if ls == [] then []
    else
      Placed(ls[0], at) + Aligned(ls[1..], at + PlacedSize(ls[0], at))
  }

  ghost predicate AllWellFormed(ls: seq<Instr>) {
    forall k :: 0 <= k < |ls| ==> ls[k].WellFormed()
  }

  /** Padding goes after the previous instruction, so a first instruction cannot be moved. */
  predicate FirstStaysPut(ls: seq<Instr>, at: nat) {
    ls != [] && ls[0].Patchable() ==> Shift(ls[0].Stripped(), at) == 0
  }

  // ----- list algebra -----

  lemma {:induction false} TotalSizeAppend(a: seq<Instr>, b: seq<Instr>)
    ensures TotalSize(a + b) == TotalSize(a) + TotalSize(b)
  {
    if a == [] {
      assert a + b == b;
    } else {
      assert (a + b)[1..] == a[1..] + b;
      TotalSizeAppend(a[1..], b);
    }
  }

  lemma {:induction false} EraseAppend(a: seq<Instr>, b: seq<Instr>)
    ensures Erase(a + b) == Erase(a) + Erase(b)
  {
    if a == [] {
      assert a + b == b;
    } else {
      assert (a + b)[1..] == a[1..] + b;
      EraseAppend(a[1..], b);
    }
  }

  lemma {:induction false} NoSplitAppend(a: seq<Instr>, b: seq<Instr>, at: nat)
    ensures NoSplitRel32(a + b, at) <==> NoSplitRel32(a, at) && NoSplitRel32(b, at + TotalSize(a))
  {
    if a == [] {
      assert a + b == b;
    } else {
      assert (a + b)[1..] == a[1..] + b;
      NoSplitAppend(a[1..], b, at + a[0].EncodedSize());
    }
  }

  /** Only the position within the line matters. */
  lemma {:induction false} NoSplitModLine(ls: seq<Instr>, at: nat, at': nat)
    requires at % CACHE_LINE_SIZE == at' % CACHE_LINE_SIZE
    requires AllWellFormed(ls)
    ensures NoSplitRel32(ls, at) <==> NoSplitRel32(ls, at')
  {
    if ls != [] {
      var n := ls[0].EncodedSize();
      SameOffset(at, at', n);
      if ls[0].Patchable() {
        SameOffset(at, at', n - REL32_OFFSET_SIZE);
      }
      NoSplitModLine(ls[1..], at + n, at' + n);
    }
  }

  lemma SameOffset(x: nat, y: nat, n: nat)
    requires x % CACHE_LINE_SIZE == y % CACHE_LINE_SIZE
    ensures (x + n) % CACHE_LINE_SIZE == (y + n) % CACHE_LINE_SIZE
  {
    assert (x + n) % 64 == (x % 64 + n) % 64;
    assert (y + n) % 64 == (y % 64 + n) % 64;
  }

  // ----- one instruction -----

  lemma TotalSizeOfPlaced(i: Instr, at: nat)
    requires i.WellFormed()
    ensures TotalSize(Placed(i, at)) == PlacedSize(i, at)
  {
    var p := Placed(i, at);
    if |p| == 1 {
      assert p[1..] == [];
    } else {
      assert p[1..] == [p[1]] && p[1..][1..] == [];
      assert TotalSize(p) == p[0].EncodedSize() + TotalSize(p[1..]);
      assert TotalSize(p[1..]) == p[1].EncodedSize();
    }
  }

  lemma PlacedIsSafe(i: Instr, at: nat)
    requires i.WellFormed()
    ensures NoSplitRel32(Placed(i, at), at)
    ensures Erase(Placed(i, at)) == Erase([i])
    ensures TotalSize(Placed(i, at)) <= EstimateMaxSize([i])
    ensures AllWellFormed(Placed(i, at))
  {
    var p := Placed(i, at);
    TotalSizeOfPlaced(i, at);
    if |p| == 1 {
      assert p[1..] == [];
    } else {
      assert p[1..] == [p[1]] && p[1..][1..] == [];
    }
    assert [i][1..] == [];
  }

  // ----- the whole list -----

  /** What `align` has to achieve when it turns `ls` at `at` into `out`. */
  ghost predicate Safely(ls: seq<Instr>, out: seq<Instr>, at: nat) {
    && NoSplitRel32(out, at) && Erase(out) == Erase(ls) && TotalSize(out) <= EstimateMaxSize(ls)
    && AllWellFormed(out)
  }

  lemma EstimateHead(ls: seq<Instr>)
    requires ls != []
    ensures EstimateMaxSize(ls) == EstimateMaxSize([ls[0]]) + EstimateMaxSize(ls[1..])
  {
    assert [ls[0]][1..] == [];
  }

  lemma SafelyJoined(ls: seq<Instr>, placed: seq<Instr>, rest: seq<Instr>, at: nat)
    requires ls != [] && Safely([ls[0]], placed, at) && Safely(ls[1..], rest, at + TotalSize(placed))
    ensures Safely(ls, placed + rest, at)
  {
    hide NoSplitRel32, Erase, TotalSize, EstimateMaxSize, Instr.WellFormed;
    NoSplitAppend(placed, rest, at);
    EraseAppend(placed, rest);
    EraseAppend([ls[0]], ls[1..]);
    assert [ls[0]] + ls[1..] == ls;
    TotalSizeAppend(placed, rest);
    EstimateHead(ls);
  }

  /** Main result for `align`: safe, meaning-preserving and within the estimate. */
  lemma {:induction false} AlignedIsSafe(ls: seq<Instr>, at: nat)
    requires AllWellFormed(ls)
    ensures NoSplitRel32(Aligned(ls, at), at)
    ensures Erase(Aligned(ls, at)) == Erase(ls)
    ensures TotalSize(Aligned(ls, at)) <= EstimateMaxSize(ls)
    ensures AllWellFormed(Aligned(ls, at))
  {
    if ls != [] {
      hide Placed, PlacedSize, NoSplitRel32, Erase, TotalSize, EstimateMaxSize, Instr.WellFormed;
      var at' := at + PlacedSize(ls[0], at);
      PlacedIsSafe(ls[0], at);
      TotalSizeOfPlaced(ls[0], at);
      AlignedIsSafe(ls[1..], at');
      SafelyJoined(ls, Placed(ls[0], at), Aligned(ls[1..], at'), at);
    }
  }

  lemma {:induction false} AlignedAppend(a: seq<Instr>, b: seq<Instr>, at: nat)
    requires AllWellFormed(a)
    ensures Aligned(a + b, at) == Aligned(a, at) + Aligned(b, at + TotalSize(Aligned(a, at)))
  {
    hide Placed, PlacedSize, Instr.WellFormed;
    if a == [] {
      assert a + b == b;
    } else {
      assert (a + b)[1..] == a[1..] + b;
      var placed := Placed(a[0], at);
      var at' := at + PlacedSize(a[0], at);
      var first := Aligned(a[1..], at');
      AlignedAppend(a[1..], b, at');
      TotalSizeAppend(placed, first);
      TotalSizeOfPlaced(a[0], at);
    }
  }

  /** Aligning what `align` produced for one instruction changes nothing: the hint is
      stripped, found missing and put back. */
  lemma PlacedIsStable(i: Instr, at: nat)
    requires i.WellFormed()
    ensures Aligned(Placed(i, at), at) == Placed(i, at)
  {
    var p := Placed(i, at);
    if |p| == 1 {
      assert p[1..] == [];
      assert Placed(p[0], at) == p;
    } else {
      assert p[1..] == [p[1]] && p[1..][1..] == [];
      assert Placed(p[0], at) == [p[0]];
      assert Placed(p[1], at + p[0].count) == [p[1]];
      calc {
        Aligned(p, at);
        Placed(p[0], at) + Aligned(p[1..], at + PlacedSize(p[0], at));
        [p[0]] + Aligned([p[1]], at + p[0].count);
        [p[0]] + (Placed(p[1], at + p[0].count) + Aligned([], at + p[0].count + PlacedSize(p[1], at + p[0].count)));
        p;
      }
    }
  }

  /** `align` is idempotent, and so leaves an aligned list untouched. */
  lemma {:induction false} AlignedIsStable(ls: seq<Instr>, at: nat)
    requires AllWellFormed(ls)
    ensures Aligned(Aligned(ls, at), at) == Aligned(ls, at)
  {
    if ls != [] {
      hide Placed, PlacedSize, Instr.WellFormed;
      var placed := Placed(ls[0], at);
      var at' := at + PlacedSize(ls[0], at);
      PlacedIsStable(ls[0], at);
      PlacedIsSafe(ls[0], at);
      TotalSizeOfPlaced(ls[0], at);
      AlignedIsStable(ls[1..], at');
      AlignedAppend(placed, Aligned(ls[1..], at'), at);
    }
  }

  // ----- the loop -----

  lemma {:induction false} AlignedModLine(ls: seq<Instr>, at: nat, at': nat)
    requires at % CACHE_LINE_SIZE == at' % CACHE_LINE_SIZE
    ensures Aligned(ls, at) == Aligned(ls, at')
  {
    if ls != [] {
      assert Placed(ls[0], at) == Placed(ls[0], at');
      var n := PlacedSize(ls[0], at);
      SameOffset(at, at', n);
      AlignedModLine(ls[1..], at + n, at' + n);
    }
  }

  lemma AlignedOne(i: Instr, at: nat)
    ensures Aligned([i], at) == Placed(i, at)
  {
    hide Placed;
    assert [i][1..] == [];
    assert Placed(i, at) + [] == Placed(i, at);
  }

  /** The loop body of `align`: pad one instruction at `currAlign`. */
  method Pad(instr: Instr, currAlign: nat) returns (nodes: seq<Instr>, inSize: nat)
    requires instr.WellFormed()
    ensures nodes == Placed(instr, currAlign) && inSize == TotalSize(nodes)
  {
    TotalSizeOfPlaced(instr, currAlign);
    var i := instr.Stripped();
    inSize := i.EncodedSize();
    var offset := currAlign % CACHE_LINE_SIZE;
    if !i.Patchable() || offset + inSize <= CACHE_LINE_SIZE
       || CACHE_LINE_SIZE - offset <= i.OpcodeSize() {
      return [i], inSize;
    }
    var forwardAlign := CACHE_LINE_SIZE - offset - i.OpcodeSize();
    assert forwardAlign < 8;
    var prefixAlign := 0;
    if i.OpcodeSize() == 2 {
      prefixAlign, forwardAlign := 1, forwardAlign - 1;
    }
    nodes := [];
    if forwardAlign > 0 {
      nodes := [Nops(forwardAlign)];
    }
    if prefixAlign == 1 {
      i := i.(hint := NotTaken);
    }
    nodes := nodes + [i];
    inSize := inSize + forwardAlign + prefixAlign;
  }

  /** The source's loop over `curr_align` and `size`. */
  method AlignList(ls: seq<Instr>, startAlign: nat) returns (out: seq<Instr>, size: nat)
    requires AllWellFormed(ls) && FirstStaysPut(ls, startAlign)
    ensures out == Aligned(ls, startAlign)
    ensures size == TotalSize(out) <= EstimateMaxSize(ls)
    ensures NoSplitRel32(out, startAlign)
    ensures Erase(out) == Erase(ls)
  {
    hide Placed, PlacedSize, Instr.WellFormed;
    out, size := [], 0;
    var currAlign := startAlign;
    for k := 0 to |ls|
      invariant out == Aligned(ls[..k], startAlign)
      invariant size == TotalSize(out) && currAlign == startAlign + size
    {
      assert ls[..k + 1] == ls[..k] + [ls[k]];
      AlignedAppend(ls[..k], [ls[k]], startAlign);
      AlignedOne(ls[k], currAlign);
      var nodes, inSize := Pad(ls[k], currAlign);
      TotalSizeAppend(out, nodes);
      out, currAlign, size := out + nodes, currAlign + inSize, size + inSize;
    }
    assert ls[..|ls|] == ls;
    AlignedIsSafe(ls, startAlign);
  }
}
