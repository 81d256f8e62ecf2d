/** Joining the blocks of a trace: the links made by `fixup_branches`, and `optimise`.

    Branches to blocks of the same trace are redirected to the labels at which those blocks
    start, NOPs are dropped, and a jump at the very end of a block to the block that is laid
    out next is removed. */
module Linking {
  import opened Stepping
  import Trace

  type Key = Trace.Key

  /** A branch goes to the block for some key, through the code cache, or straight to a block
      of the trace. */
  datatype Target = Away(key: Key) | Inside(block: nat)

  /** `Branch` is any conditional branch, and `Indirect` any branch to a computed target. */
  datatype Op = Plain(op: int) | Nop | Jmp(target: Target) | Branch(cond: int, target: Target) | Indirect(op: int)
  {
    predicate HasTarget() { Jmp? || Branch? }
  }

  /** A block as it was decoded: all of its targets are keys. */
  datatype Block = Block(key: Key, ops: seq<Op>)

  datatype World = World(effect: (int, int) -> int, taken: (int, int) -> bool, dest: (int, int) -> Key)

  // ----- blocks by themselves -----

  datatype Exit = Goes(target: Target, state: int) | Falls(state: int)

  /** Where a block goes, and in which state. */
  function ExitOf(w: World, ops: seq<Op>, s: int): Exit {
    if ops == [] then Falls(s)
    else
      match ops[0]
      case Plain(op) => ExitOf(w, ops[1..], w.effect(op, s))
      case Nop => ExitOf(w, ops[1..], s)
      case Jmp(t) => Goes(t, s)
      case Branch(cond, t) => if w.taken(cond, s) then Goes(t, s) else ExitOf(w, ops[1..], s)
      case Indirect(op) => Goes(Away(w.dest(op, s)), s)
  }

  predicate IsTrace(trace: seq<Block>) {
    && (forall i, j :: 0 <= i < j < |trace| ==> trace[i].key != trace[j].key)
    && (forall i, k :: 0 <= i < |trace| && 0 <= k < |trace[i].ops| && trace[i].ops[k].HasTarget() ==>
          trace[i].ops[k].target.Away?)
  }

  /** After `n` exits from the block for `key`, each block run by itself, the program is at
      `key'`. */
  ghost predicate RunsTo(w: World, trace: seq<Block>, key: Key, s: int, n: nat, key': Key, s': int)
    decreases n
  {
    if n == 0 then key == key' && s == s'
    else
      exists i, mid, s1 ::
        && 0 <= i < |trace| && trace[i].key == key && ExitOf(w, trace[i].ops, s) == Goes(Away(mid), s1)
        && RunsTo(w, trace, mid, s1, n - 1, key', s')
  }

  // ----- linking -----

  /** A target may be replaced by the block that starts there. */
  predicate LinkedTarget(trace: seq<Block>, t: Target, t': Target) {
    t' == t || (t.Away? && t'.Inside? && t'.block < |trace| && trace[t'.block].key == t.key)
  }

  predicate LinkedOp(trace: seq<Block>, op: Op, op': Op) {
    if op.HasTarget() then
      && op' == op.(target := if op'.HasTarget() then op'.target else op.target)
      && LinkedTarget(trace, op.target, op'.target)
    else op' == op
  }

  predicate LinkedOps(trace: seq<Block>, ops: seq<Op>, ops': seq<Op>) {
    |ops'| == |ops| && forall k :: 0 <= k < |ops| ==> LinkedOp(trace, ops[k], ops'[k])
  }

  predicate IsLinked(trace: seq<Block>, linked: seq<seq<Op>>) {
    |linked| == |trace| && forall i :: 0 <= i < |trace| ==> LinkedOps(trace, trace[i].ops, linked[i])
  }

  lemma {:induction false} LinkedExit(w: World, trace: seq<Block>, ops: seq<Op>, ops': seq<Op>, s: int)
    requires LinkedOps(trace, ops, ops')
    ensures var e, e' := ExitOf(w, ops, s), ExitOf(w, ops', s);
            e'.state == e.state && (e.Goes? <==> e'.Goes?) && (e.Goes? ==> LinkedTarget(trace, e.target, e'.target))
    decreases |ops|
  {
    if ops != [] {
      assert LinkedOp(trace, ops[0], ops'[0]);
      var s1 := if ops[0].Plain? then w.effect(ops[0].op, s) else s;
      LinkedExit(w, trace, ops[1..], ops'[1..], s1);
    }
  }

  // ----- optimise -----

  /** What `optimise` keeps; `next` is the block laid out next, or negative. */
  function Optimised(ops: seq<Op>, next: int): seq<Op> {
    if ops == [] then []
    else if ops[0].Nop? || (|ops| == 1 && IsJumpTo(ops[0], next)) then Optimised(ops[1..], next)
    else [ops[0]] + Optimised(ops[1..], next)
  }

  predicate IsJumpTo(op: Op, next: int) { op.Jmp? && op.target.Inside? && op.target.block == next }

  /** All but the NOPs. */
  function NonNops(ops: seq<Op>): (r: seq<Op>)
    ensures forall i :: 0 <= i < |r| ==> !r[i].Nop?
    ensures forall op :: op in r <==> op in ops && !op.Nop?
  {
    if ops == [] then [] else (if ops[0].Nop? then [] else [ops[0]]) + NonNops(ops[1..])
  }

  /** `optimise` drops the NOPs, and the last operation if that is a jump to the next block; all
      else stays, in its order. */
  lemma {:induction false} OptimisedIs(ops: seq<Op>, next: int)
    ensures Optimised(ops, next) ==
            NonNops(if ops != [] && IsJumpTo(ops[|ops| - 1], next) then ops[..|ops| - 1] else ops)
    decreases |ops|
  {
    if |ops| > 1 {
      OptimisedIs(ops[1..], next);
      assert ops[1..][..|ops| - 2] == ops[..|ops| - 1][1..];
    }
  }

  lemma {:induction false} OptimisedSuffix(ops: seq<Op>, next: int, k: nat)
    requires k < |ops|
    ensures Optimised(ops[k..], next) ==
            (if ops[k].Nop? || (k == |ops| - 1 && IsJumpTo(ops[k], next)) then [] else [ops[k]]) +
            Optimised(ops[k + 1..], next)
  {
    assert ops[k..][1..] == ops[k + 1..];
  }

  /** `optimise`: removes nodes while walking over the list. */
  method Optimise(input: seq<Op>, next: int) returns (ops: seq<Op>)
    ensures ops == Optimised(input, next)
  {
    ops := input;
    var at, k := 0, 0;
    while at < |ops|
      invariant 0 <= at <= |ops| && 0 <= k <= |input| && ops[at..] == input[k..]
      invariant ops[..at] + Optimised(input[k..], next) == Optimised(input, next)
      decreases |input| - k
    {
      OptimisedSuffix(input, next, k);
      assert ops[at] == ops[at..][0] == input[k] && ops[at + 1..] == input[k + 1..] && |ops| - at == |input| - k;
      if ops[at].Nop? || (at == |ops| - 1 && IsJumpTo(ops[at], next)) {
        ops := ops[..at] + ops[at + 1..];
      } else {
        at := at + 1;
      }
      k := k + 1;
    }
    assert ops[..at] == ops && input[k..] == [];
  }

  // ----- the laid out trace -----

  datatype Node = Start(block: nat) | Do(op: Op)

  function Nodes(ops: seq<Op>): (r: seq<Node>)
    ensures |r| == |ops| && forall i :: 0 <= i < |ops| ==> r[i] == Do(ops[i])
  {
    if ops == [] then [] else [Do(ops[0])] + Nodes(ops[1..])
  }

  /** The block that follows block `i`, if there is one. */
  function NextOf(n: nat, i: nat): int { if i + 1 < n then i + 1 else -1 }

  /** Blocks `i` and later, each with the label it starts at. */
  function Layout(linked: seq<seq<Op>>, i: nat): seq<Node>
    decreases |linked| - i
  {
    if i >= |linked| then []
    else [Start(i)] + Nodes(Optimised(linked[i], NextOf(|linked|, i))) + Layout(linked, i + 1)
  }

  datatype Config = At(pos: nat, state: int) | Left(key: Key, state: int)

  function Find(code: seq<Node>, block: nat): nat {
    if code == [] || code[0] == Start(block) then 0 else 1 + Find(code[1..], block)
  }

  function Go(code: seq<Node>, t: Target, s: int): Config {
    match t
    case Away(key) => Left(key, s)
    case Inside(block) => At(Find(code, block), s)
  }

  function Step(w: World, code: seq<Node>, c: Config): Config {
    if c.Left? || c.pos >= |code| then c
    else
      var s, next := c.state, c.pos + 1;
      match code[c.pos]
      case Start(_) => At(next, s)
      case Do(Plain(op)) => At(next, w.effect(op, s))
      case Do(Nop) => At(next, s)
      case Do(Jmp(t)) => Go(code, t, s)
      case Do(Branch(cond, t)) => if w.taken(cond, s) then Go(code, t, s) else At(next, s)
      case Do(Indirect(op)) => Left(w.dest(op, s), s)
  }

  /** The step function of a layout. */
  function Stepper(w: World, code: seq<Node>): Config -> Config { (c: Config) => Step(w, code, c) }

  // ----- one block of the layout -----

  /** Where a block of the layout that ends at `end` goes. */
  function After(code: seq<Node>, end: nat, e: Exit): Config {
    match e
    case Goes(t, s) => Go(code, t, s)
    case Falls(s) => At(end, s)
  }

  /** The optimised operations of a block, laid out at `p`, do what the block does. */
  lemma {:induction false} OpsExit(w: World, code: seq<Node>, p: nat, ops: seq<Op>, next: int, s: int)
    requires p + |Optimised(ops, next)| <= |code|
    requires forall k :: 0 <= k < |Optimised(ops, next)| ==> code[p + k] == Do(Optimised(ops, next)[k])
    requires next >= 0 ==> Find(code, next) == p + |Optimised(ops, next)|
    ensures Reaches(Stepper(w, code), At(p, s), After(code, p + |Optimised(ops, next)|, ExitOf(w, ops, s)))
    decreases |ops|
  {
    var kept := Optimised(ops, next);
    var after := After(code, p + |kept|, ExitOf(w, ops, s));
    if ops == [] {
      Here(Stepper(w, code), after);
    } else if ops[0].Nop? {
      OpsExit(w, code, p, ops[1..], next, s);
    } else if |ops| == 1 && IsJumpTo(ops[0], next) {
      assert kept == [];
      Here(Stepper(w, code), after);
    } else {
      assert code[p] == Do(kept[0]) && kept[0] == ops[0];
      var c := Step(w, code, At(p, s));
      if c == At(p + 1, c.state) && (ops[0].Plain? || (ops[0].Branch? && !w.taken(ops[0].cond, s))) {
        var rest := Optimised(ops[1..], next);
        forall k | 0 <= k < |rest| ensures code[p + 1 + k] == Do(rest[k]) {
          assert code[p + (k + 1)] == Do(kept[k + 1]);
        }
        OpsExit(w, code, p + 1, ops[1..], next, c.state);
      } else {
        Here(Stepper(w, code), after);
      }
      StepReaches(Stepper(w, code), At(p, s), after);
    }
  }

  // ----- where the blocks are -----

  function KeptOf(linked: seq<seq<Op>>, i: nat): seq<Op>
    requires i < |linked|
  {
    Optimised(linked[i], NextOf(|linked|, i))
  }

  /** Block `i` stands at `p` in a layout: its label, then its operations, then the next. */
  predicate StandsAt(linked: seq<seq<Op>>, code: seq<Node>, i: nat, p: nat)
    requires i < |linked|
  {
    var kept := KeptOf(linked, i);
    && p + 1 + |kept| <= |code| && code[p] == Start(i) && Find(code, i) == p
    && (forall k :: 0 <= k < |kept| ==> code[p + 1 + k] == Do(kept[k]))
    && (i + 1 < |linked| ==> Find(code, i + 1) == p + 1 + |kept|)
  }

  /** A label that is not in the first part is found in the second. */
  lemma {:induction false} FindSkips(a: seq<Node>, b: seq<Node>, block: nat)
    requires forall k :: 0 <= k < |a| ==> a[k] != Start(block)
    ensures Find(a + b, block) == |a| + Find(b, block)
  {
    if a == [] {
      assert a + b == b;
    } else {
      assert (a + b)[1..] == a[1..] + b;
      FindSkips(a[1..], b, block);
    }
  }

  /** Code in front of a layout moves the blocks in it. */
  lemma StandsBehind(linked: seq<seq<Op>>, head: seq<Node>, rest: seq<Node>, i: nat, p: nat)
    requires i < |linked| && StandsAt(linked, rest, i, p)
    requires forall k :: 0 <= k < |head| ==> head[k] != Start(i) && head[k] != Start(i + 1)
    ensures StandsAt(linked, head + rest, i, |head| + p)
  {
    var kept, code := KeptOf(linked, i), head + rest;
    FindSkips(head, rest, i);
    FindSkips(head, rest, i + 1);
    forall k | 0 <= k < |kept| ensures code[|head| + p + 1 + k] == Do(kept[k]) {
      assert code[|head| + (p + 1 + k)] == rest[p + 1 + k];
    }
  }

  lemma {:induction false} LayoutStands(linked: seq<seq<Op>>, j: nat, i: nat) returns (p: nat)
    requires j <= i < |linked|
    ensures StandsAt(linked, Layout(linked, j), i, p)
    decreases i - j
  {
    var head, rest := [Start(j)] + Nodes(KeptOf(linked, j)), Layout(linked, j + 1);
    assert Layout(linked, j) == head + rest;
    hide Optimised;
    if i == j {
      p := 0;
      HeadStands(linked, rest, j);
    } else {
      p := LayoutStands(linked, j + 1, i);
      hide StandsAt;
      StandsBehind(linked, head, rest, i, p);
      p := |head| + p;
    }
  }

  /** The first block of a layout, when the next one follows. */
  lemma HeadStands(linked: seq<seq<Op>>, rest: seq<Node>, j: nat)
    requires j < |linked| && (j + 1 < |linked| ==> Find(rest, j + 1) == 0)
    ensures StandsAt(linked, [Start(j)] + Nodes(KeptOf(linked, j)) + rest, j, 0)
  {
    hide KeptOf;
    var kept := KeptOf(linked, j);
    var head := [Start(j)] + Nodes(kept);
    FindSkips(head, rest, j + 1);
    assert forall k :: 0 <= k < |kept| ==> (head + rest)[1 + k] == Do(kept[k]);
  }

  // ----- results -----

  /** Each block of the laid out trace leaves for the same key as the block by itself, or goes
      straight to the block of the trace that has this key, in the same state. */
  lemma BlockExits(w: World, trace: seq<Block>, linked: seq<seq<Op>>, i: nat, s: int) returns (c: Config)
    requires IsTrace(trace) && IsLinked(trace, linked) && i < |trace| && ExitOf(w, trace[i].ops, s).Goes?
    ensures Reaches(Stepper(w, Layout(linked, 0)), At(Find(Layout(linked, 0), i), s), c)
    ensures var e := ExitOf(w, trace[i].ops, s);
            e.target.Away? && c.state == e.state &&
            if c.Left? then c.key == e.target.key
            else exists j :: 0 <= j < |trace| && trace[j].key == e.target.key && c.pos == Find(Layout(linked, 0), j)
  {
    hide ExitOf, Optimised, Layout, Find, LinkedOps, Reaches;
    var code := Layout(linked, 0);
    var kept := KeptOf(linked, i);
    var p := LayoutStands(linked, 0, i);
    LinkedExit(w, trace, trace[i].ops, linked[i], s);
    AwayExit(w, trace[i].ops, s);
    OpsExit(w, code, p + 1, linked[i], NextOf(|linked|, i), s);
    c := After(code, p + 1 + |kept|, ExitOf(w, linked[i], s));
    StepReaches(Stepper(w, code), At(p, s), c);
  }

  lemma {:induction false} AwayExit(w: World, ops: seq<Op>, s: int)
    requires forall k :: 0 <= k < |ops| && ops[k].HasTarget() ==> ops[k].target.Away?
    ensures ExitOf(w, ops, s).Goes? ==> ExitOf(w, ops, s).target.Away?
    decreases |ops|
  {
    if ops != [] {
      AwayExit(w, ops[1..], if ops[0].Plain? then w.effect(ops[0].op, s) else s);
    }
  }

  lemma RunsOneMore(w: World, trace: seq<Block>, i: nat, s: int, mid: Key, s1: int, n: nat, key: Key, s': int)
    requires i < |trace| && ExitOf(w, trace[i].ops, s) == Goes(Away(mid), s1) && RunsTo(w, trace, mid, s1, n, key, s')
    ensures RunsTo(w, trace, trace[i].key, s, n + 1, key, s')
  {
    hide ExitOf;
  }

  /** The laid out trace follows the program: entered at block `i`, it gets to where the blocks
      run one after the other get to, unless it has left before that, and then it has left at
      a point the program goes through, in the state the program has there. */
  lemma {:induction false} TraceFollows(w: World, trace: seq<Block>, linked: seq<seq<Op>>, i: nat, s: int,
                                        n: nat, key: Key, s': int) returns (m: nat, key1: Key, s1: int, j: nat)
    requires IsTrace(trace) && IsLinked(trace, linked) && i < |trace| && RunsTo(w, trace, trace[i].key, s, n, key, s')
    ensures m <= n && RunsTo(w, trace, trace[i].key, s, m, key1, s1)
    ensures var code := Layout(linked, 0);
            var start := At(Find(code, i), s);
            Reaches(Stepper(w, code), start, Left(key1, s1)) ||
            (m == n && key1 == key && s1 == s' && j < |trace| && trace[j].key == key &&
             Reaches(Stepper(w, code), start, At(Find(code, j), s')))
    decreases n
  {
    hide Layout, Find, Reaches, ExitOf, IsLinked, Stepper;
    var code := Layout(linked, 0);
    var start := At(Find(code, i), s);
    if n == 0 {
      m, key1, s1, j := 0, key, s', i;
      Here(Stepper(w, code), start);
    } else {
      var i', mid, s2 :| 0 <= i' < |trace| && trace[i'].key == trace[i].key &&
        ExitOf(w, trace[i'].ops, s) == Goes(Away(mid), s2) && RunsTo(w, trace, mid, s2, n - 1, key, s');
      assert i' == i;
      var c := BlockExits(w, trace, linked, i, s);
      if c.Left? {
        m, key1, s1, j := 1, mid, s2, 0;
        RunsOneMore(w, trace, i, s, mid, s2, 0, mid, s2);
      } else {
        var i2 :| 0 <= i2 < |trace| && trace[i2].key == mid && c.pos == Find(code, i2);
        m, key1, s1, j := TraceFollows(w, trace, linked, i2, s2, n - 1, key, s');
        RunsOneMore(w, trace, i, s, mid, s2, m, key1, s1);
        if Reaches(Stepper(w, code), c, Left(key1, s1)) {
          ReachesVia(Stepper(w, code), start, c, Left(key1, s1));
        } else {
          ReachesVia(Stepper(w, code), start, c, At(Find(code, j), s'));
        }
        m := m + 1;
      }
    }
  }

  // ----- the traces that are built -----

  /** An instruction of a block: one without a direct target, or one of the block's direct
      branches, by its number.  A branch that is not a jump is taken or not. */
  datatype Item = Other(op: Op) | Direct(cti: nat, cond: int)

  predicate ItemOk(i: Item, b: Trace.Block) {
    match i
    case Other(op) => !op.HasTarget()
    case Direct(cti, _) => cti < |b.ctis|
  }

  predicate BodiesOk(trace: seq<Trace.Block>, bodies: seq<seq<Item>>) {
    && |bodies| == |trace|
    && forall i, k :: 0 <= i < |trace| && 0 <= k < |bodies[i]| ==> ItemOk(bodies[i][k], trace[i])
  }

  /** The block with a key. */
  ghost function IndexOf(trace: seq<Trace.Block>, key: Key): (i: nat)
    requires key in Trace.Keys(trace)
    ensures i < |trace| && trace[i].key == key
  {
    var i :| 0 <= i < |trace| && trace[i].key == key;
    i
  }

  /** Where a branch goes once it is linked; known targets are reached through the code cache. */
  ghost function LinkOf(trace: seq<Trace.Block>, c: Trace.Cti): Target {
    if c.link.ToBlock? && c.link.key in Trace.Keys(trace) then Inside(IndexOf(trace, c.link.key)) else Away(c.target)
  }

  function OpOf(c: Trace.Cti, cond: int, t: Target): Op { if c.kind.Jump? then Jmp(t) else Branch(cond, t) }

  function DecodedOp(b: Trace.Block, i: Item): Op
    requires ItemOk(i, b)
  {
    match i
    case Other(op) => op
    case Direct(cti, cond) => OpOf(b.ctis[cti], cond, Away(b.ctis[cti].target))
  }

  ghost function LinkedOpOf(trace: seq<Trace.Block>, b: Trace.Block, i: Item): Op
    requires ItemOk(i, b)
  {
    match i
    case Other(op) => op
    case Direct(cti, cond) => OpOf(b.ctis[cti], cond, LinkOf(trace, b.ctis[cti]))
  }

  /** The blocks as they were decoded, and their operations as they are linked. */
  ghost predicate Lowered(trace: seq<Trace.Block>, bodies: seq<seq<Item>>, blocks: seq<Block>, linked: seq<seq<Op>>)
    requires BodiesOk(trace, bodies)
  {
    && |blocks| == |linked| == |trace|
    && forall i :: 0 <= i < |trace| ==> LoweredBlock(trace, trace[i], bodies[i], blocks[i], linked[i])
  }

  ghost predicate LoweredBlock(trace: seq<Trace.Block>, b: Trace.Block, body: seq<Item>, block: Block, linked: seq<Op>)
    requires forall k :: 0 <= k < |body| ==> ItemOk(body[k], b)
  {
    && block.key == b.key && |block.ops| == |linked| == |body|
    && forall k :: 0 <= k < |body| ==>
         block.ops[k] == DecodedOp(b, body[k]) && linked[k] == LinkedOpOf(trace, b, body[k])
  }

  /** What the trace builder leaves is a trace with right links. */
  lemma BuiltIsLinked(w: Trace.World, trace: seq<Trace.Block>, bodies: seq<seq<Item>>,
                      blocks: seq<Block>, linked: seq<seq<Op>>)
    requires Trace.Inv(w, trace) && BodiesOk(trace, bodies) && Lowered(trace, bodies, blocks, linked)
    ensures IsTrace(blocks) && IsLinked(blocks, linked)
  {
    forall i | 0 <= i < |trace| ensures LinkedOps(blocks, blocks[i].ops, linked[i]) {
      assert LoweredBlock(trace, trace[i], bodies[i], blocks[i], linked[i]);
      forall k | 0 <= k < |blocks[i].ops| ensures LinkedOp(blocks, blocks[i].ops[k], linked[i][k]) {
        LoweredLink(w, trace, bodies, blocks, linked, i, k);
      }
    }
    forall i, k | 0 <= i < |blocks| && 0 <= k < |blocks[i].ops| && blocks[i].ops[k].HasTarget()
      ensures blocks[i].ops[k].target.Away?
    {
      assert LoweredBlock(trace, trace[i], bodies[i], blocks[i], linked[i]);
      assert ItemOk(bodies[i][k], trace[i]);
    }
    forall i, j | 0 <= i < j < |blocks| ensures blocks[i].key != blocks[j].key {
      assert LoweredBlock(trace, trace[i], bodies[i], blocks[i], linked[i]);
      assert LoweredBlock(trace, trace[j], bodies[j], blocks[j], linked[j]);
    }
  }

  lemma LoweredLink(w: Trace.World, trace: seq<Trace.Block>, bodies: seq<seq<Item>>,
                    blocks: seq<Block>, linked: seq<seq<Op>>, i: nat, k: nat)
    requires Trace.Inv(w, trace) && BodiesOk(trace, bodies) && Lowered(trace, bodies, blocks, linked)
    requires i < |trace| && k < |bodies[i]|
    ensures k < |blocks[i].ops| && k < |linked[i]| && LinkedOp(blocks, blocks[i].ops[k], linked[i][k])
  {
    assert LoweredBlock(trace, trace[i], bodies[i], blocks[i], linked[i]);
    assert ItemOk(bodies[i][k], trace[i]);
    if bodies[i][k].Direct? {
      var c := trace[i].ctis[bodies[i][k].cti];
      assert Trace.LinksOk(Trace.Keys(trace), trace[i].ctis);
      assert Trace.LinkOk(Trace.Keys(trace), c);
      if c.link.ToBlock? {
        var j := IndexOf(trace, c.link.key);
        assert LoweredBlock(trace, trace[j], bodies[j], blocks[j], linked[j]);
      }
    }
  }

  /** From the trace builder to execution: whatever `Trace.Builder.Build` leaves, laid out and
      optimised, follows the program. */
  lemma BuiltTraceFollows(tw: Trace.World, trace: seq<Trace.Block>, bodies: seq<seq<Item>>, blocks: seq<Block>,
                          linked: seq<seq<Op>>, w: World, i: nat, s: int, n: nat, key: Key, s': int)
      returns (m: nat, key1: Key, s1: int, j: nat)
    requires Trace.Inv(tw, trace) && BodiesOk(trace, bodies) && Lowered(trace, bodies, blocks, linked)
    requires i < |trace| && RunsTo(w, blocks, trace[i].key, s, n, key, s')
    ensures m <= n && RunsTo(w, blocks, trace[i].key, s, m, key1, s1)
    ensures var code := Layout(linked, 0);
            var start := At(Find(code, i), s);
            Reaches(Stepper(w, code), start, Left(key1, s1)) ||
            (m == n && key1 == key && s1 == s' && j < |trace| && trace[j].key == key &&
             Reaches(Stepper(w, code), start, At(Find(code, j), s')))
  {
    hide Layout, Find, Reaches, RunsTo, Trace.Inv;
    BuiltIsLinked(tw, trace, bodies, blocks, linked);
    assert LoweredBlock(trace, trace[i], bodies[i], blocks[i], linked[i]);
    m, key1, s1, j := TraceFollows(w, blocks, linked, i, s, n, key, s');
    if j < |trace| {
      assert LoweredBlock(trace, trace[j], bodies[j], blocks[j], linked[j]);
    }
  }
}
