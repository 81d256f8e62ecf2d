/** Register liveness: `register_manager`.

    The 16-bit masks of the source are sets of register numbers, 0 for `rax` up to 15 for
    `r15`, which is the bit position. */
module RegisterManager {

  type RegNum = n: nat | n < 16

  const RAX: RegNum := 0
  const RCX: RegNum := 1
  const RSP: RegNum := 4
  const RSI: RegNum := 6
  const RDI: RegNum := 7

  const ALL: set<RegNum> := set n: RegNum | true

  datatype MaybeReg = Null | Found(n: RegNum)

  datatype Width = W8 | W16 | W32 | W64

  datatype RegName = NoReg | Gpr(n: RegNum, width: Width) {
    /** `REG_TO_REG64` */
    function Parent(): set<RegNum> { if Gpr? then {n} else {} }

    /** Writing 32 or 64 bits of a register replaces all of it. */
    predicate WritesAll() { Gpr? && (width == W32 || width == W64) }
  }

  datatype Operand = RegOperand(r: RegName) | BaseDisp(base: RegName, index: RegName) | OtherOperand {
    /** The registers that `revive(opnd_t)` revives. */
    function Regs(): set<RegNum> {
      match this
      case RegOperand(r) => r.Parent()
      case BaseDisp(base, index) => base.Parent() + index.Parent()
      case OtherOperand => {}
    }
  }

  /** `conditional` says of any other instruction whether the hardware may leave a register
      destination of it unchanged, as CMOVcc does. */
  datatype Opcode =
    | Bsf | Bsr
    | RepIns | RepStos | RepScas | RepneScas | RepOuts | RepLods | RepMovs | RepCmps | RepneCmps
    | Lar | Lsl | Vmread
    | OtherOpcode(id: int, conditional: bool)

  datatype Instr = Instr(opcode: Opcode, srcs: seq<Operand>, dsts: seq<Operand>, isNop: bool, isCti: bool)

  /** The registers that the switch at the end of `visit_dests` revives. */
  function RepRegs(op: Opcode): set<RegNum> {
    match op
    case RepIns | RepStos | RepScas | RepneScas => {RDI, RCX}
    case RepOuts | RepLods => {RSI, RCX}
    case RepMovs | RepCmps | RepneCmps => {RSI, RDI, RCX}
    case _ => {}
  }

  // ----- specification -----

  /** BSF and BSR leave their destination alone when the source is zero. */
  predicate MayKeep(op: Opcode) { op.Bsf? || op.Bsr? }

  predicate Kills(op: Opcode, d: Operand, n: RegNum) {
    !MayKeep(op) && d.RegOperand? && d.r.WritesAll() && n in d.Regs()
  }

  predicate Keeps(op: Opcode, d: Operand, n: RegNum) {
    MayKeep(op) && d.RegOperand? && n in d.Regs()
  }

  predicate Addresses(d: Operand, n: RegNum) { d.BaseDisp? && n in d.Regs() }

  ghost predicate SomeKills(op: Opcode, dsts: seq<Operand>, n: RegNum) { exists d :: d in dsts && Kills(op, d, n) }

  /** Registers that some destination replaces as a whole. */
  ghost function Killed(op: Opcode, dsts: seq<Operand>): set<RegNum> {
    set n: RegNum | SomeKills(op, dsts, n)
  }

  ghost predicate SomeKeeps(op: Opcode, dsts: seq<Operand>, n: RegNum) { exists d :: d in dsts && Keeps(op, d, n) }

  ghost function Kept(op: Opcode, dsts: seq<Operand>): set<RegNum> {
    set n: RegNum | SomeKeeps(op, dsts, n)
  }

  ghost predicate SomeAddresses(dsts: seq<Operand>, n: RegNum) { exists d :: d in dsts && Addresses(d, n) }

  ghost function Addressing(dsts: seq<Operand>): set<RegNum> {
    set n: RegNum | SomeAddresses(dsts, n)
  }

  ghost predicate SomeReads(srcs: seq<Operand>, n: RegNum) { exists s :: s in srcs && Reads(s, n) }

  ghost function SourceRegs(srcs: seq<Operand>): set<RegNum> {
    set n: RegNum | SomeReads(srcs, n)
  }

  predicate Reads(s: Operand, n: RegNum) { n in s.Regs() }

  /** Live registers before the destinations of `i`, in terms of those after. */
  ghost function BeforeDests(i: Instr, live: set<RegNum>): set<RegNum> {
    if i.isNop then live
    else (live - Killed(i.opcode, i.dsts)) + Kept(i.opcode, i.dsts) + Addressing(i.dsts) + {RSP} + RepRegs(i.opcode)
  }

  /** The order of the destinations is irrelevant, also where one of them is an address that
      uses a register which another one replaces. */
  lemma DestOrderIrrelevant(i: Instr, j: Instr, live: set<RegNum>)
    requires j == i.(dsts := j.dsts) && multiset(i.dsts) == multiset(j.dsts)
    ensures BeforeDests(i, live) == BeforeDests(j, live)
  {
    forall d ensures d in i.dsts <==> d in j.dsts {
      assert d in i.dsts <==> d in multiset(i.dsts);
      assert d in j.dsts <==> d in multiset(j.dsts);
    }
    assert Killed(i.opcode, i.dsts) == Killed(j.opcode, j.dsts);
    assert Kept(i.opcode, i.dsts) == Kept(j.opcode, j.dsts);
    assert Addressing(i.dsts) == Addressing(j.dsts);
  }

  lemma DestsExtend(op: Opcode, dsts: seq<Operand>, d: Operand)
    ensures Killed(op, dsts + [d]) == Killed(op, dsts) + set n: RegNum | Kills(op, d, n)
    ensures Kept(op, dsts + [d]) == Kept(op, dsts) + set n: RegNum | Keeps(op, d, n)
    ensures Addressing(dsts + [d]) == Addressing(dsts) + set n: RegNum | Addresses(d, n)
    ensures Killed(op, dsts + [d]) == {} || Kept(op, dsts + [d]) == {}
  {
    assert forall e :: e in dsts + [d] <==> e in dsts || e == d;
    assert d in dsts + [d];
  }

  /** Live registers before `i`. */
  ghost function Before(i: Instr, live: set<RegNum>): set<RegNum> {
    if i.isNop then live else if i.isCti then ALL else BeforeDests(i, live) + SourceRegs(i.srcs)
  }

  /** Live registers before a straight-line list, visited from its end. */
  ghost function BeforeAll(ls: seq<Instr>, live: set<RegNum>): set<RegNum> {
    if ls == [] then live else Before(ls[0], BeforeAll(ls[1..], live))
  }

  /** Killing and then keeping more registers, when one instruction does not do both. */
  lemma LiveExtends(old_: set<RegNum>, live: set<RegNum>, live': set<RegNum>,
                    killed: set<RegNum>, kept: set<RegNum>, kills: set<RegNum>, keeps: set<RegNum>)
    requires live + {RSP} == (old_ - killed) + kept + {RSP}
    requires live' + {RSP} == (live - kills) + keeps + {RSP}
    requires killed + kills == {} || kept + keeps == {}
    ensures live' + {RSP} == (old_ - (killed + kills)) + (kept + keeps) + {RSP}
  {
    forall n ensures n in live' + {RSP} <==> n in (old_ - (killed + kills)) + (kept + keeps) + {RSP} {
      assert n in live + {RSP} <==> n in (old_ - killed) + kept + {RSP};
      assert n in live' + {RSP} <==> n in (live - kills) + keeps + {RSP};
      assert killed + kills == {} ==> n !in killed && n !in kills;
      assert kept + keeps == {} ==> n !in kept && n !in keeps;
    }
  }

  // ----- the manager -----

  class Manager {
    var live: set<RegNum>
    var undead: set<RegNum>

    constructor ()
      ensures live == ALL && undead == {}
    {
      live, undead := ALL, {};
    }

    constructor Copy(that: Manager)
      ensures live == that.live && undead == that.undead
    {
      live, undead := that.live, that.undead;
    }

    method ReviveAll()
      modifies this
      ensures live == ALL && undead == {}
    {
      live, undead := ALL, {};
    }

    /** `kill_64`: narrow writes kill nothing, and nothing kills `rsp`. */
    method Kill64(r: RegName)
      modifies this
      ensures if r.WritesAll() then live == old(live) - r.Parent() + {RSP} && undead == old(undead) - r.Parent()
              else live == old(live) && undead == old(undead)
    {
      if r.WritesAll() {
        undead := undead - {r.n};
        live := live - {r.n};
        live := live + {RSP};
      }
    }

    method Revive64(r: RegName)
      modifies this
      ensures live == old(live) + r.Parent() && undead == old(undead) - r.Parent()
    {
      if r.Gpr? {
        undead := undead - {r.n};
        live := live + {r.n};
      }
    }

    /** `revive(opnd_t)` */
    method ReviveOperand(op: Operand)
      modifies this
      ensures live == old(live) + op.Regs() && undead == old(undead) - op.Regs()
    {
      match op
      case BaseDisp(base, index) =>
        Revive64(base);
        Revive64(index);
      case RegOperand(r) =>
        Revive64(r);
      case OtherOperand =>
    }

    /** The loop body of `visit_dests`: the mask is put aside while an address operand
        contributes to `mustLive`. */
    method VisitDest(opcode: Opcode, op: Operand, mustLive: set<RegNum>) returns (mustLive': set<RegNum>)
      modifies this
      ensures live + {RSP} ==
              (old(live) - set n: RegNum | Kills(opcode, op, n)) + (set n: RegNum | Keeps(opcode, op, n)) + {RSP}
      ensures mustLive' == mustLive + set n: RegNum | Addresses(op, n)
      ensures undead <= old(undead)
    {
      mustLive' := mustLive;
      match op
      case RegOperand(r) =>
        if opcode.Bsr? || opcode.Bsf? {
          ReviveOperand(op);
        } else {
          Kill64(r);
        }
      case BaseDisp(base, index) =>
        var prevLive := live;
        live := {};
        Revive64(base);
        Revive64(index);
        mustLive' := mustLive' + live;
        live := prevLive;
      case OtherOperand =>
    }

    /** `visit_dests` */
    method VisitDests(i: Instr)
      modifies this
      ensures live == BeforeDests(i, old(live)) && undead <= old(undead)
    {
      if i.isNop {
        return;
      }
      hide Killed, Kept, Addressing, Kills, Keeps, Addresses;
      var mustLive := {RSP};
      NoDests(i.opcode, i.dsts);
      for k := 0 to |i.dsts|
        invariant undead <= old(undead)
        invariant live + {RSP} ==
                    (old(live) - Killed(i.opcode, i.dsts[..k])) + Kept(i.opcode, i.dsts[..k]) + {RSP}
        invariant mustLive == Addressing(i.dsts[..k]) + {RSP}
      {
        assert i.dsts[..k + 1] == i.dsts[..k] + [i.dsts[k]];
        DestsExtend(i.opcode, i.dsts[..k], i.dsts[k]);
        ghost var before := live;
        mustLive := VisitDest(i.opcode, i.dsts[k], mustLive);
        LiveExtends(old(live), before, live, Killed(i.opcode, i.dsts[..k]), Kept(i.opcode, i.dsts[..k]),
                    set n: RegNum | Kills(i.opcode, i.dsts[k], n), set n: RegNum | Keeps(i.opcode, i.dsts[k], n));
      }
      assert i.dsts[..|i.dsts|] == i.dsts;
      live := live + mustLive;
      ReviveRep(i.opcode);
    }

    /** The switch at the end of `visit_dests`. */
    method ReviveRep(op: Opcode)
      modifies this
      ensures live == old(live) + RepRegs(op) && undead <= old(undead)
    {
      match op
      case RepIns | RepStos | RepScas | RepneScas =>
        Revive64(Gpr(RDI, W64));
        Revive64(Gpr(RCX, W64));
      case RepOuts | RepLods =>
        Revive64(Gpr(RSI, W64));
        Revive64(Gpr(RCX, W64));
      case RepMovs | RepCmps | RepneCmps =>
        Revive64(Gpr(RSI, W64));
        Revive64(Gpr(RDI, W64));
        Revive64(Gpr(RCX, W64));
      case _ =>
    }

    /** `visit` */
    method Visit(i: Instr)
      modifies this
      ensures live == Before(i, old(live))
    {
      if i.isNop {
        return;
      }
      if i.isCti {
        ReviveAll();
        return;
      }
      VisitDests(i);
      ghost var was := live;
      for k := 0 to |i.srcs|
        invariant live == was + SourceRegs(i.srcs[..k])
      {
        assert i.srcs[..k + 1] == i.srcs[..k] + [i.srcs[k]];
        SourcesExtend(i.srcs[..k], i.srcs[k]);
        ReviveOperand(i.srcs[k]);
      }
      assert i.srcs[..|i.srcs|] == i.srcs;
    }

    /** `get_zombie`: the lowest register that is neither live nor taken, which is now taken. */
    method GetZombie() returns (r: MaybeReg)
      modifies this`undead
      ensures r.Null? ==> live + undead == ALL && undead == old(undead)
      ensures r.Found? ==> r.n !in live + old(undead) && undead == old(undead) + {r.n}
      ensures r.Found? ==> forall m: RegNum :: m < r.n ==> m in live + old(undead)
    {
      var zombies := live + undead;
      for pos := 0 to 16
        invariant forall m: RegNum :: m < pos ==> m in zombies
      {
        if pos !in zombies {
          undead := undead + {pos};
          return Found(pos);
        }
      }
      return Null;
    }

    /** Visiting a straight-line list from its end. */
    method VisitAll(ls: seq<Instr>)
      modifies this
      ensures live == BeforeAll(ls, old(live))
    {
      for k := |ls| downto 0
        invariant live == BeforeAll(ls[k..], old(live))
      {
        assert ls[k..][1..] == ls[k + 1..];
        Visit(ls[k]);
      }
    }
  }

  lemma NoDests(op: Opcode, dsts: seq<Operand>)
    ensures Killed(op, dsts[..0]) == {} && Kept(op, dsts[..0]) == {} && Addressing(dsts[..0]) == {}
  {
  }

  lemma SourcesExtend(srcs: seq<Operand>, s: Operand)
    ensures SourceRegs(srcs + [s]) == SourceRegs(srcs) + s.Regs()
  {
    assert forall e :: e in srcs + [s] <==> e in srcs || e == s;
    forall n: RegNum ensures SomeReads(srcs + [s], n) <==> SomeReads(srcs, n) || Reads(s, n) {
      if Reads(s, n) { assert s in srcs + [s]; }
    }
  }
}
