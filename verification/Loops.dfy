/** Rewriting of LOOP, JECXZ and REP instructions: `translate_loops`.

    The rewritten code only uses branches that reach their target by a 32-bit displacement,
    except inside itself.  With `Reps`, string instructions with a REP prefix are unrolled
    into a loop too. */
module Loops {
  import opened Stepping

  /** A branch goes to an application address or to a node of the same list. */
  datatype Target = Pc(pc: int) | Node(id: nat)

  datatype LoopKind = Always | WhileZero | WhileNotZero

  /** `Plain` is any other instruction that falls through and `Branch` any other conditional
      branch.  `Dec` is the LEA that decrements the counter. */
  datatype Op =
    | Plain(op: int)
    | Label
    | Jmp(target: Target)
    | Branch(cond: int, target: Target)
    | Jcxz(target: Target)
    | Loop(kind: LoopKind, target: Target)
    | JumpZero(zero: bool, target: Target)
    | Dec
    | Str(op: int)
    | Rep(op: int)
    | RepWhile(op: int, zero: bool)
  {
    predicate HasTarget() { Jmp? || Branch? || Jcxz? || Loop? || JumpZero? }
  }

  datatype Instr = Instr(id: nat, op: Op)

  /** The counter register, the zero flag, and everything else. */
  datatype State = State(count: nat, zf: bool, rest: int)

  /** The values of the counter, and what instructions do.  String instructions do not touch
      the counter. */
  datatype World = World(counts: nat, effect: (int, State) -> State, taken: (int, State) -> bool,
                         str: (int, bool, int) -> (bool, int))
  {
    function Decremented(s: State): State {
      s.(count := if s.count > 0 then s.count - 1 else if counts > 0 then counts - 1 else 0)
    }
    function Strung(op: int, s: State): State {
      var (zf, rest) := str(op, s.zf, s.rest);
      s.(zf := zf, rest := rest)
    }
    /** The hardware iteration of a REP prefix. */
    function Repeated(op: int, s: State): State
      decreases s.count
    {
      if s.count == 0 then s else Repeated(op, Decremented(Strung(op, s)))
    }
    /** The hardware iteration of a REPE (`zero`) or REPNE prefix. */
    function RepeatedWhile(op: int, zero: bool, s: State): State
      decreases s.count
    {
      if s.count == 0 then s
      else
        var s' := Decremented(Strung(op, s));
        if s'.zf != zero then s' else RepeatedWhile(op, zero, s')
    }
    function Looping(kind: LoopKind, s: State): bool {
      s.count != 0 && (kind.WhileZero? ==> s.zf) && (kind.WhileNotZero? ==> !s.zf)
    }
  }

  // ----- running a list -----

  datatype Config = At(pos: nat, state: State) | Left(pc: int, state: State)

  function Find(code: seq<Instr>, id: nat): nat {
    if code == [] || code[0].id == id then 0 else 1 + Find(code[1..], id)
  }

  function Go(code: seq<Instr>, t: Target, s: State): Config {
    match t
    case Pc(pc) => Left(pc, s)
    case Node(id) => At(Find(code, id), s)
  }

  function Step(w: World, code: seq<Instr>, c: Config): Config {
    if c.Left? || c.pos >= |code| then c
    else
      var s, next := c.state, c.pos + 1;
      match code[c.pos].op
      case Plain(op) => At(next, w.effect(op, s))
      case Label => At(next, s)
      case Jmp(t) => Go(code, t, s)
      case Branch(cond, t) => if w.taken(cond, s) then Go(code, t, s) else At(next, s)
      case Jcxz(t) => if s.count == 0 then Go(code, t, s) else At(next, s)
      case Loop(kind, t) =>
        var s' := w.Decremented(s);
        if w.Looping(kind, s') then Go(code, t, s') else At(next, s')
      case JumpZero(zero, t) => if s.zf == zero then Go(code, t, s) else At(next, s)
      case Dec => At(next, w.Decremented(s))
      case Str(op) => At(next, w.Strung(op, s))
      case Rep(op) => At(next, w.Repeated(op, s))
      case RepWhile(op, zero) => At(next, w.RepeatedWhile(op, zero, s))
  }

  /** The step function of a list. */
  function Stepper(w: World, code: seq<Instr>): Config -> Config { (c: Config) => Step(w, code, c) }

  /** How a run of a list ends: it leaves for an application address, or it runs off the end. */
  datatype Outcome = Leaves(pc: int, state: State) | FallsThrough(state: State)

  function Final(code: seq<Instr>, o: Outcome): Config {
    match o
    case Leaves(pc, s) => Left(pc, s)
    case FallsThrough(s) => At(|code|, s)
  }

  ghost predicate Ends(w: World, code: seq<Instr>, s: State, o: Outcome) {
    Reaches(Stepper(w, code), At(0, s), Final(code, o))
  }

  // ----- the rewriting -----

  datatype Mode = Keep | LoopsOnly | LoopsAndReps

  /** New nodes that one instruction can need. */
  const STRIDE: nat := 9

  /** The nodes that replace an instruction; new ones are numbered from `f` as they are made. */
  function Expand(mode: Mode, i: Instr, f: nat): seq<Instr> {
    match i.op
    case Loop(_, t) => if mode.Keep? then [i] else ExpandBranch(i, t, f)
    case Jcxz(t) => if mode.Keep? then [i] else ExpandBranch(i, t, f)
    case Rep(op) => if mode.LoopsAndReps? then ExpandRep(i, op, f) else [i]
    case RepWhile(op, zero) => if mode.LoopsAndReps? then ExpandRepWhile(i, op, zero, f) else [i]
    case _ => [i]
  }

  function ExpandBranch(i: Instr, t: Target, f: nat): seq<Instr>
    requires i.op.HasTarget()
  {
    [Instr(f + 1, Jmp(Node(f))),
     Instr(f + 2, Label),
     Instr(f + 3, Jmp(t)),
     Instr(f, Label),
     i.(op := i.op.(target := Node(f + 2)))]
  }

  function ExpandRep(i: Instr, op: int, f: nat): seq<Instr> {
    [Instr(f + 3, Jcxz(Node(f + 1))),
     Instr(f + 4, Jmp(Node(f + 2))),
     Instr(f + 1, Jmp(Node(f))),
     Instr(f + 2, Label),
     i.(op := Str(op)),
     Instr(f + 5, Dec),
     Instr(f + 6, Jmp(Node(f + 3))),
     Instr(f, Label)]
  }

  function ExpandRepWhile(i: Instr, op: int, zero: bool, f: nat): seq<Instr> {
    [Instr(f + 3, Jcxz(Node(f + 2))),
     Instr(f + 4, Jmp(Node(f + 1))),
     Instr(f + 2, Jmp(Node(f))),
     Instr(f + 1, Label),
     i.(op := Str(op)),
     Instr(f + 5, Dec),
     Instr(f + 6, Jcxz(Node(f))),
     Instr(f + 7, JumpZero(!zero, Node(f))),
     Instr(f + 8, Jmp(Node(f + 1))),
     Instr(f, Label)]
  }

  function Translated(mode: Mode, ls: seq<Instr>, f: nat): seq<Instr> {
    if ls == [] then [] else Expand(mode, ls[0], f) + Translated(mode, ls[1..], f + STRIDE)
  }

  /** A list as `decode` makes it: branches go to application addresses. */
  predicate IsDecoded(ls: seq<Instr>) {
    forall k :: 0 <= k < |ls| ==> (ls[k].op.HasTarget() ==> ls[k].op.target.Pc?)
  }

  predicate UniqueIds(ls: seq<Instr>) {
    forall i, j :: 0 <= i < j < |ls| ==> ls[i].id != ls[j].id
  }

  predicate IdsBelow(ls: seq<Instr>, f: nat) {
    forall k :: 0 <= k < |ls| ==> ls[k].id < f
  }

  // ----- meaning of one instruction -----

  /** What one decoded instruction does. */
  function One(w: World, op: Op, s: State): Outcome
    requires op.HasTarget() ==> op.target.Pc?
  {
    match op
    case Plain(o) => FallsThrough(w.effect(o, s))
    case Label => FallsThrough(s)
    case Jmp(t) => Leaves(t.pc, s)
    case Branch(cond, t) => if w.taken(cond, s) then Leaves(t.pc, s) else FallsThrough(s)
    case Jcxz(t) => if s.count == 0 then Leaves(t.pc, s) else FallsThrough(s)
    case Loop(kind, t) =>
      var s' := w.Decremented(s);
      if w.Looping(kind, s') then Leaves(t.pc, s') else FallsThrough(s')
    case JumpZero(zero, t) => if s.zf == zero then Leaves(t.pc, s) else FallsThrough(s)
    case Dec => FallsThrough(w.Decremented(s))
    case Str(o) => FallsThrough(w.Strung(o, s))
    case Rep(o) => FallsThrough(w.Repeated(o, s))
    case RepWhile(o, zero) => FallsThrough(w.RepeatedWhile(o, zero, s))
  }

  function Meaning(w: World, ls: seq<Instr>, s: State): Outcome
    requires IsDecoded(ls)
  {
    if ls == [] then FallsThrough(s)
    else
      match One(w, ls[0].op, s)
      case Leaves(pc, s') => Leaves(pc, s')
      case FallsThrough(s') => Meaning(w, ls[1..], s')
  }

  // ----- reachability -----

  /** A list ends in one way at most. */
  lemma EndsOnce(w: World, code: seq<Instr>, s: State, o: Outcome, o': Outcome)
    requires Ends(w, code, s, o) && Ends(w, code, s, o')
    ensures o == o'
  {
    var m: nat :| Steps(Stepper(w, code), At(0, s), m) == Final(code, o);
    var n: nat :| Steps(Stepper(w, code), At(0, s), n) == Final(code, o');
    if m <= n {
      StepsAdd(Stepper(w, code), At(0, s), m, n - m);
      Stuck(Stepper(w, code), Final(code, o), n - m);
    } else {
      StepsAdd(Stepper(w, code), At(0, s), n, m - n);
      Stuck(Stepper(w, code), Final(code, o'), m - n);
    }
  }

  lemma {:induction false} FindAt(code: seq<Instr>, k: nat)
    requires UniqueIds(code) && k < |code|
    ensures Find(code, code[k].id) == k
  {
    if k > 0 {
      FindAt(code[1..], k - 1);
    }
  }

  // ----- the replacement of one instruction -----

  /** `part` stands at position `p` of the code, and its ids lead there. */
  predicate Located(code: seq<Instr>, p: nat, part: seq<Instr>) {
    && p + |part| <= |code|
    && forall k :: 0 <= k < |part| ==> code[p + k] == part[k] && Find(code, part[k].id) == p + k
  }

  /** Where an instruction at the end of `part` continues. */
  function After(end: nat, o: Outcome): Config {
    match o
    case Leaves(pc, s) => Left(pc, s)
    case FallsThrough(s) => At(end, s)
  }

  lemma BranchIsKept(w: World, code: seq<Instr>, p: nat, i: Instr, f: nat, s: State)
    requires (i.op.Loop? || i.op.Jcxz?) && i.op.target.Pc?
    requires Located(code, p, ExpandBranch(i, i.op.target, f))
    ensures Reaches(Stepper(w, code), At(p, s), After(p + 5, One(w, i.op, s)))
  {
    var part := ExpandBranch(i, i.op.target, f);
    var loop := At(p + 4, s);
    assert code[p] == part[0] && code[p + 3] == part[3] && Find(code, part[3].id) == p + 3;
    assert code[p + 4] == part[4] && Find(code, part[1].id) == p + 1;
    assert code[p + 1] == part[1] && code[p + 2] == part[2];
    var c := Step(w, code, loop);
    assert Step(w, code, At(p, s)) == At(p + 3, s) && Step(w, code, At(p + 3, s)) == loop;
    assert c == At(p + 5, c.state) || c == At(p + 1, c.state);
    var after := After(p + 5, One(w, i.op, s));
    Here(Stepper(w, code), after);
    if c.pos == p + 1 {
      assert Step(w, code, c) == At(p + 2, c.state) && Step(w, code, At(p + 2, c.state)) == after;
      StepReaches(Stepper(w, code), At(p + 2, c.state), after);
      StepReaches(Stepper(w, code), c, after);
    }
    StepReaches(Stepper(w, code), loop, after);
    StepReaches(Stepper(w, code), At(p + 3, s), after);
    StepReaches(Stepper(w, code), At(p, s), after);
  }

  lemma {:induction false} RepIsKept(w: World, code: seq<Instr>, p: nat, i: Instr, op: int, f: nat, s: State)
    requires Located(code, p, ExpandRep(i, op, f))
    ensures Reaches(Stepper(w, code), At(p, s), At(p + 8, w.Repeated(op, s)))
    decreases s.count
  {
    var part := ExpandRep(i, op, f);
    assert code[p] == part[0] && code[p + 1] == part[1] && code[p + 2] == part[2] && code[p + 3] == part[3];
    assert code[p + 4] == part[4] && code[p + 5] == part[5] && code[p + 6] == part[6] && code[p + 7] == part[7];
    assert Find(code, part[0].id) == p && Find(code, part[2].id) == p + 2;
    assert Find(code, part[3].id) == p + 3 && Find(code, part[7].id) == p + 7;
    var after := At(p + 8, w.Repeated(op, s));
    if s.count == 0 {
      Here(Stepper(w, code), after);
      StepReaches(Stepper(w, code), At(p + 7, s), after);
      StepReaches(Stepper(w, code), At(p + 2, s), after);
      StepReaches(Stepper(w, code), At(p, s), after);
    } else {
      var s1 := w.Strung(op, s);
      var s2 := w.Decremented(s1);
      RepIsKept(w, code, p, i, op, f, s2);
      StepReaches(Stepper(w, code), At(p + 6, s2), after);
      StepReaches(Stepper(w, code), At(p + 5, s1), after);
      StepReaches(Stepper(w, code), At(p + 4, s), after);
      StepReaches(Stepper(w, code), At(p + 3, s), after);
      StepReaches(Stepper(w, code), At(p + 1, s), after);
      StepReaches(Stepper(w, code), At(p, s), after);
    }
  }

  /** The body of a conditional repetition, from the point where the counter is known not to
      be zero. */
  lemma {:induction false} RepBodyIsKept(w: World, code: seq<Instr>, p: nat, i: Instr, op: int, zero: bool,
                                         f: nat, s: State)
    requires Located(code, p, ExpandRepWhile(i, op, zero, f)) && s.count > 0
    ensures Reaches(Stepper(w, code), At(p + 3, s), At(p + 10, w.RepeatedWhile(op, zero, s)))
    decreases s.count
  {
    var part := ExpandRepWhile(i, op, zero, f);
    assert code[p + 3] == part[3] && code[p + 4] == part[4] && code[p + 5] == part[5] && code[p + 6] == part[6];
    assert code[p + 7] == part[7] && code[p + 8] == part[8] && code[p + 9] == part[9];
    assert Find(code, part[3].id) == p + 3 && Find(code, part[9].id) == p + 9;
    var s1 := w.Strung(op, s);
    var s2 := w.Decremented(s1);
    var after := At(p + 10, w.RepeatedWhile(op, zero, s));
    if s2.count == 0 || s2.zf != zero {
      assert w.RepeatedWhile(op, zero, s) == s2 by { assert s2.count == 0 ==> w.RepeatedWhile(op, zero, s2) == s2; }
      assert Step(w, code, At(p + 9, s2)) == after;
      Here(Stepper(w, code), after);
      StepReaches(Stepper(w, code), At(p + 9, s2), after);
      if s2.count > 0 { StepReaches(Stepper(w, code), At(p + 7, s2), after); }
    } else {
      RepBodyIsKept(w, code, p, i, op, zero, f, s2);
      StepReaches(Stepper(w, code), At(p + 8, s2), after);
      StepReaches(Stepper(w, code), At(p + 7, s2), after);
    }
    StepReaches(Stepper(w, code), At(p + 6, s2), after);
    StepReaches(Stepper(w, code), At(p + 5, s1), after);
    StepReaches(Stepper(w, code), At(p + 4, s), after);
    StepReaches(Stepper(w, code), At(p + 3, s), after);
  }

  lemma RepWhileIsKept(w: World, code: seq<Instr>, p: nat, i: Instr, op: int, zero: bool, f: nat, s: State)
    requires Located(code, p, ExpandRepWhile(i, op, zero, f))
    ensures Reaches(Stepper(w, code), At(p, s), At(p + 10, w.RepeatedWhile(op, zero, s)))
  {
    var part := ExpandRepWhile(i, op, zero, f);
    assert code[p] == part[0] && code[p + 1] == part[1] && code[p + 2] == part[2] && code[p + 9] == part[9];
    assert Find(code, part[2].id) == p + 2 && Find(code, part[3].id) == p + 3 && Find(code, part[9].id) == p + 9;
    var after := At(p + 10, w.RepeatedWhile(op, zero, s));
    if s.count == 0 {
      Here(Stepper(w, code), after);
      StepReaches(Stepper(w, code), At(p + 9, s), after);
      StepReaches(Stepper(w, code), At(p + 2, s), after);
    } else {
      RepBodyIsKept(w, code, p, i, op, zero, f, s);
      StepReaches(Stepper(w, code), At(p + 1, s), after);
    }
    StepReaches(Stepper(w, code), At(p, s), after);
  }

  lemma OneIsKept(w: World, mode: Mode, code: seq<Instr>, p: nat, i: Instr, f: nat, s: State)
    requires Located(code, p, Expand(mode, i, f)) && (i.op.HasTarget() ==> i.op.target.Pc?)
    ensures Reaches(Stepper(w, code), At(p, s), After(p + |Expand(mode, i, f)|, One(w, i.op, s)))
  {
    if Expand(mode, i, f) == [i] {
      assert code[p] == [i][0];
      var after := After(p + 1, One(w, i.op, s));
      Here(Stepper(w, code), after);
      StepReaches(Stepper(w, code), At(p, s), after);
    } else {
      match i.op
      case Loop(_, t) => BranchIsKept(w, code, p, i, f, s);
      case Jcxz(t) => BranchIsKept(w, code, p, i, f, s);
      case Rep(op) => RepIsKept(w, code, p, i, op, f, s);
      case RepWhile(op, zero) => RepWhileIsKept(w, code, p, i, op, zero, f, s);
    }
  }

  lemma {:induction false} RestIsKept(w: World, mode: Mode, code: seq<Instr>, p: nat, ls: seq<Instr>, f: nat, s: State)
    requires IsDecoded(ls) && Located(code, p, Translated(mode, ls, f)) && p + |Translated(mode, ls, f)| == |code|
    ensures Reaches(Stepper(w, code), At(p, s), Final(code, Meaning(w, ls, s)))
    decreases ls
  {
    hide Expand, Reaches, One;
    if ls == [] {
      Here(Stepper(w, code), At(p, s));
    } else {
      var part, rest := Expand(mode, ls[0], f), Translated(mode, ls[1..], f + STRIDE);
      var q := p + |part|;
      assert Translated(mode, ls, f) == part + rest;
      assert Located(code, p, part) by {
        assert forall k :: 0 <= k < |part| ==> part[k] == (part + rest)[k];
      }
      OneIsKept(w, mode, code, p, ls[0], f, s);
      var o := One(w, ls[0].op, s);
      if o.FallsThrough? {
        assert Located(code, q, rest) by {
          forall k | 0 <= k < |rest| ensures code[q + k] == rest[k] && Find(code, rest[k].id) == q + k {
            assert rest[k] == (part + rest)[|part| + k];
          }
        }
        RestIsKept(w, mode, code, q, ls[1..], f + STRIDE, o.state);
        ReachesVia(Stepper(w, code), At(p, s), At(q, o.state), Final(code, Meaning(w, ls, s)));
      }
    }
  }

  // ----- new nodes are distinct -----

  lemma ExpandIds(mode: Mode, i: Instr, f: nat, k: nat)
    requires k < |Expand(mode, i, f)| && i.id < f
    ensures var id := Expand(mode, i, f)[k].id; id == i.id || f <= id < f + STRIDE
  {
  }

  lemma RepUnique(i: Instr, op: int, f: nat)
    requires i.id < f
    ensures UniqueIds(ExpandRep(i, op, f))
  {
  }

  lemma RepWhileUnique(i: Instr, op: int, zero: bool, f: nat)
    requires i.id < f
    ensures UniqueIds(ExpandRepWhile(i, op, zero, f))
  {
  }

  lemma ExpandUnique(mode: Mode, i: Instr, f: nat)
    requires i.id < f
    ensures UniqueIds(Expand(mode, i, f))
  {
    hide ExpandRep, ExpandRepWhile;
    if i.op.Rep? { RepUnique(i, i.op.op, f); }
    if i.op.RepWhile? { RepWhileUnique(i, i.op.op, i.op.zero, f); }
  }

  lemma {:induction false} TranslatedIds(mode: Mode, ls: seq<Instr>, f: nat, k: nat) returns (j: nat)
    requires k < |Translated(mode, ls, f)| && IdsBelow(ls, f)
    ensures var id := Translated(mode, ls, f)[k].id; (j < |ls| && id == ls[j].id) || f <= id
  {
    hide Expand;
    var part := Expand(mode, ls[0], f);
    if k < |part| {
      ExpandIds(mode, ls[0], f, k);
      j := 0;
    } else {
      j := TranslatedIds(mode, ls[1..], f + STRIDE, k - |part|);
      j := j + 1;
    }
  }

  lemma {:induction false} TranslatedUnique(mode: Mode, ls: seq<Instr>, f: nat)
    requires UniqueIds(ls) && IdsBelow(ls, f)
    ensures UniqueIds(Translated(mode, ls, f))
  {
    hide Expand;
    if ls != [] {
      var part, rest := Expand(mode, ls[0], f), Translated(mode, ls[1..], f + STRIDE);
      ExpandUnique(mode, ls[0], f);
      TranslatedUnique(mode, ls[1..], f + STRIDE);
      forall i, k | 0 <= i < |part| && 0 <= k < |rest| ensures part[i].id != rest[k].id {
        ExpandIds(mode, ls[0], f, i);
        var j := TranslatedIds(mode, ls[1..], f + STRIDE, k);
        assert j < |ls| - 1 ==> ls[1..][j] == ls[j + 1];
      }
    }
  }

  // ----- results -----

  lemma EndsAsMeant(w: World, mode: Mode, ls: seq<Instr>, f: nat, s: State)
    requires IsDecoded(ls) && UniqueIds(ls) && IdsBelow(ls, f)
    ensures Ends(w, Translated(mode, ls, f), s, Meaning(w, ls, s))
  {
    var code := Translated(mode, ls, f);
    TranslatedUnique(mode, ls, f);
    assert Located(code, 0, code) by {
      forall k | 0 <= k < |code| ensures Find(code, code[k].id) == k {
        FindAt(code, k);
      }
    }
    RestIsKept(w, mode, code, 0, ls, f, s);
  }

  lemma {:induction false} KeepIsIdentity(ls: seq<Instr>, f: nat)
    ensures Translated(Keep, ls, f) == ls
  {
    if ls != [] {
      KeepIsIdentity(ls[1..], f + STRIDE);
    }
  }

  /** The rewritten list ends exactly as the original list does, from every state: at the same
      address or the same end, with the same counter, flags and data. */
  lemma TranslationPreserves(w: World, mode: Mode, ls: seq<Instr>, f: nat, s: State, o: Outcome)
    requires IsDecoded(ls) && UniqueIds(ls) && IdsBelow(ls, f)
    ensures Ends(w, Translated(mode, ls, f), s, o) <==> Ends(w, ls, s, o)
  {
    hide Ends;
    KeepIsIdentity(ls, f);
    EndsAsMeant(w, Keep, ls, f, s);
    EndsAsMeant(w, mode, ls, f, s);
    var m := Meaning(w, ls, s);
    if Ends(w, Translated(mode, ls, f), s, o) { EndsOnce(w, Translated(mode, ls, f), s, o, m); }
    if Ends(w, ls, s, o) { EndsOnce(w, ls, s, o, m); }
  }

  /** The rewriting removes every instruction it is for, except the rewritten branch itself,
      which then stays inside the list. */
  predicate Rewritten(mode: Mode, i: Instr) {
    && (!mode.Keep? && (i.op.Loop? || i.op.Jcxz?) ==> i.op.target.Node?)
    && (mode.LoopsAndReps? ==> !i.op.Rep? && !i.op.RepWhile?)
  }

  lemma ExpandRewritten(mode: Mode, i: Instr, f: nat, k: nat)
    requires k < |Expand(mode, i, f)|
    ensures Rewritten(mode, Expand(mode, i, f)[k])
  {
  }

  lemma {:induction false} AllRewritten(mode: Mode, ls: seq<Instr>, f: nat, k: nat)
    requires k < |Translated(mode, ls, f)|
    ensures Rewritten(mode, Translated(mode, ls, f)[k])
  {
    hide Expand;
    var part := Expand(mode, ls[0], f);
    if k < |part| {
      ExpandRewritten(mode, ls[0], f, k);
    } else {
      AllRewritten(mode, ls[1..], f + STRIDE, k - |part|);
    }
  }

  // ----- the loop over the list -----

  /** `insert_before` the node at a position. */
  function Insert(ls: seq<Instr>, at: nat, i: Instr): seq<Instr>
    requires at <= |ls|
  {
    ls[..at] + [i] + ls[at..]
  }

  function Replaced(ls: seq<Instr>, at: nat, part: seq<Instr>): seq<Instr>
    requires at < |ls|
  {
    ls[..at] + part + ls[at + 1..]
  }

  /** Inserting inside the middle part of a list. */
  lemma InsertMid(a: seq<Instr>, mid: seq<Instr>, z: seq<Instr>, k: nat, i: Instr)
    requires k <= |mid|
    ensures Insert(a + mid + z, |a| + k, i) == a + Insert(mid, k, i) + z
  {
    var ls := a + mid + z;
    assert ls[..|a| + k] == a + mid[..k] && ls[|a| + k..] == mid[k..] + z;
  }

  lemma UpdateMid(a: seq<Instr>, mid: seq<Instr>, z: seq<Instr>, k: nat, i: Instr)
    requires k < |mid|
    ensures (a + mid + z)[|a| + k := i] == a + mid[k := i] + z
  {
  }

  /** A list being rewritten around one instruction: `mid` has replaced it so far. */
  ghost predicate IsMid(ls: seq<Instr>, at: nat, mid: seq<Instr>, r: seq<Instr>) {
    at < |ls| && r == ls[..at] + mid + ls[at + 1..]
  }

  method InsertAt(ghost ls: seq<Instr>, at: nat, ghost mid: seq<Instr>, r: seq<Instr>, k: nat, i: Instr)
      returns (r': seq<Instr>, ghost mid': seq<Instr>)
    requires IsMid(ls, at, mid, r) && k <= |mid|
    ensures mid' == Insert(mid, k, i) && IsMid(ls, at, mid', r')
  {
    InsertMid(ls[..at], mid, ls[at + 1..], k, i);
    r', mid' := Insert(r, at + k, i), Insert(mid, k, i);
  }

  method RewriteBranch(ls: seq<Instr>, at: nat, f: nat) returns (r: seq<Instr>)
    requires at < |ls| && ls[at].op.HasTarget()
    ensures r == Replaced(ls, at, ExpandBranch(ls[at], ls[at].op.target, f))
  {
    var i := ls[at];
    ghost var mid := [i];
    r := ls;
    assert IsMid(ls, at, mid, r);
    hide IsMid;
    r, mid := InsertAt(ls, at, mid, r, 0, Instr(f, Label));
    r, mid := InsertAt(ls, at, mid, r, 0, Instr(f + 1, Jmp(Node(f))));
    r, mid := InsertAt(ls, at, mid, r, 1, Instr(f + 2, Label));
    r, mid := InsertAt(ls, at, mid, r, 2, Instr(f + 3, Jmp(i.op.target)));
    r := Retarget(ls, at, mid, r, 4, i.(op := i.op.(target := Node(f + 2))), ExpandBranch(i, i.op.target, f));
  }

  /** Rewrites the instruction itself, at the end. */
  method Retarget(ghost ls: seq<Instr>, at: nat, ghost mid: seq<Instr>, r: seq<Instr>, k: nat, i: Instr,
                  ghost part: seq<Instr>) returns (r': seq<Instr>)
    requires IsMid(ls, at, mid, r) && k < |mid| && mid[k := i] == part
    ensures r' == Replaced(ls, at, part)
  {
    UpdateMid(ls[..at], mid, ls[at + 1..], k, i);
    r' := r[at + k := i];
  }

  method RewriteRep(ls: seq<Instr>, at: nat, f: nat) returns (r: seq<Instr>)
    requires at < |ls| && ls[at].op.Rep?
    ensures r == Replaced(ls, at, ExpandRep(ls[at], ls[at].op.op, f))
  {
    var i := ls[at];
    ghost var mid := [i];
    r := ls;
    assert IsMid(ls, at, mid, r);
    hide IsMid;
    r, mid := InsertAt(ls, at, mid, r, 0, Instr(f + 3, Jcxz(Node(f + 1))));
    r, mid := InsertAt(ls, at, mid, r, 1, Instr(f + 4, Jmp(Node(f + 2))));
    r, mid := InsertAt(ls, at, mid, r, 2, Instr(f + 1, Jmp(Node(f))));
    r, mid := InsertAt(ls, at, mid, r, 3, Instr(f + 2, Label));
    r, mid := InsertAt(ls, at, mid, r, 5, Instr(f, Label));
    r, mid := InsertAt(ls, at, mid, r, 5, Instr(f + 5, Dec));
    r, mid := InsertAt(ls, at, mid, r, 6, Instr(f + 6, Jmp(Node(f + 3))));
    r := Retarget(ls, at, mid, r, 4, i.(op := Str(i.op.op)), ExpandRep(i, i.op.op, f));
  }

  method RewriteRepWhile(ls: seq<Instr>, at: nat, f: nat) returns (r: seq<Instr>)
    requires at < |ls| && ls[at].op.RepWhile?
    ensures r == Replaced(ls, at, ExpandRepWhile(ls[at], ls[at].op.op, ls[at].op.zero, f))
  {
    var i := ls[at];
    ghost var mid := [i];
    r := ls;
    assert IsMid(ls, at, mid, r);
    hide IsMid;
    r, mid := InsertAt(ls, at, mid, r, 0, Instr(f + 3, Jcxz(Node(f + 2))));
    r, mid := InsertAt(ls, at, mid, r, 1, Instr(f + 4, Jmp(Node(f + 1))));
    r, mid := InsertAt(ls, at, mid, r, 2, Instr(f + 2, Jmp(Node(f))));
    r, mid := InsertAt(ls, at, mid, r, 3, Instr(f + 1, Label));
    r, mid := InsertAt(ls, at, mid, r, 5, Instr(f, Label));
    r, mid := InsertAt(ls, at, mid, r, 5, Instr(f + 5, Dec));
    r, mid := InsertAt(ls, at, mid, r, 6, Instr(f + 6, Jcxz(Node(f))));
    r, mid := InsertAt(ls, at, mid, r, 7, Instr(f + 7, JumpZero(!i.op.zero, Node(f))));
    r, mid := InsertAt(ls, at, mid, r, 8, Instr(f + 8, Jmp(Node(f + 1))));
    r := Retarget(ls, at, mid, r, 4, i.(op := Str(i.op.op)), ExpandRepWhile(i, i.op.op, i.op.zero, f));
  }

  lemma {:induction false} TranslatedSnoc(mode: Mode, ls: seq<Instr>, i: Instr, f: nat)
    ensures Translated(mode, ls + [i], f) == Translated(mode, ls, f) + Expand(mode, i, f + STRIDE * |ls|)
  {
    hide Expand;
    if ls == [] {
      assert [i][1..] == [] && [] + [i] == [i];
    } else {
      assert (ls + [i])[1..] == ls[1..] + [i];
      TranslatedSnoc(mode, ls[1..], i, f + STRIDE);
    }
  }

  method Rewrite(mode: Mode, ls: seq<Instr>, at: nat, f: nat) returns (r: seq<Instr>, n: nat)
    requires at < |ls|
    ensures n == |Expand(mode, ls[at], f)| && r == Replaced(ls, at, Expand(mode, ls[at], f))
  {
    var op := ls[at].op;
    r, n := ls, 1;
    if !mode.Keep? && (op.Loop? || op.Jcxz?) {
      r := RewriteBranch(ls, at, f);
      n := 5;
    } else if mode.LoopsAndReps? && op.Rep? {
      r := RewriteRep(ls, at, f);
      n := 8;
    } else if mode.LoopsAndReps? && op.RepWhile? {
      r := RewriteRepWhile(ls, at, f);
      n := 10;
    }
  }

  /** The list when the first `done` instructions are rewritten and the others are not. */
  ghost predicate Halfway(mode: Mode, input: seq<Instr>, f: nat, ls: seq<Instr>, at: nat, done: nat) {
    && done <= |input| && at == |Translated(mode, input[..done], f)|
    && ls == Translated(mode, input[..done], f) + input[done..]
  }

  lemma HalfwayStart(mode: Mode, input: seq<Instr>, f: nat)
    ensures Halfway(mode, input, f, input, 0, 0)
  {
  }

  lemma HalfwayEnd(mode: Mode, input: seq<Instr>, f: nat, ls: seq<Instr>, at: nat, done: nat)
    requires Halfway(mode, input, f, ls, at, done) && at >= |ls|
    ensures ls == Translated(mode, input, f)
  {
    assert input[done..] == [] && input[..done] == input;
  }

  lemma HalfwayOn(mode: Mode, input: seq<Instr>, f: nat, ls: seq<Instr>, at: nat, done: nat)
    requires Halfway(mode, input, f, ls, at, done) && at < |ls|
    ensures done < |input|
    ensures var part := Expand(mode, ls[at], f + STRIDE * done);
            Halfway(mode, input, f, Replaced(ls, at, part), at + |part|, done + 1)
  {
    hide Translated, Expand;
    var i, before := input[done], Translated(mode, input[..done], f);
    assert input[done..] == [i] + input[done + 1..] && input[..done + 1] == input[..done] + [i];
    assert ls[..at] == before && ls[at + 1..] == input[done + 1..];
    TranslatedSnoc(mode, input[..done], i, f);
  }

  /** `translate_loops` */
  method TranslateLoops(mode: Mode, input: seq<Instr>, f: nat) returns (ls: seq<Instr>)
    ensures ls == Translated(mode, input, f)
  {
    hide Translated, Expand, Replaced, Halfway;
    ls := input;
    var at: nat, done: nat := 0, 0;
    HalfwayStart(mode, input, f);
    while at < |ls|
      invariant done <= |input| && Halfway(mode, input, f, ls, at, done)
      decreases |input| - done
    {
      HalfwayOn(mode, input, f, ls, at, done);
      var n;
      ls, n := Rewrite(mode, ls, at, f + STRIDE * done);
      at, done := at + n, done + 1;
    }
    HalfwayEnd(mode, input, f, ls, at, done);
  }
}
