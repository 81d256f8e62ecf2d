/** Instrumentation policies and policy-mangled addresses: `instrumentation_policy` and
    `mangled_address`. */
module Policy {

  /** A 64-bit machine word. */
  type Word = bv64

  /** The 16 policy bits: four temporary properties, four inherited ones, then the id. */
  type Bits = b: bv64 | b <= 0xFFFF

  const INDIRECT_TARGET: Bits := 0x0002
  const RETURN_TARGET: Bits := 0x0004
  const HOST_CONTEXT: Bits := 0x0020
  const TEMPORARY: Bits := 0x000F
  const ID: Bits := 0xFF00

  datatype Mode = User | Kernel

  datatype Inherit = InheritAll | InheritCall | InheritJmp | InheritReturn

  /** `base_policy` */
  function BasePolicy(p: Bits): Bits { p & 0xFFF0 }

  /** `inherit_properties`: the properties of `from`, the id of `p`. */
  function InheritProperties(p: Bits, from: Bits, how: Inherit): Bits {
    var properties := BasePolicy(from) & (if how.InheritCall? then 0x00BF else 0x00FF);
    properties | (p & ID)
  }

  /** `in_host_context(val)` */
  function WithHostContext(p: Bits, val: bool): Bits {
    if val then p | HOST_CONTEXT else p & 0xFFDF
  }

  predicate WantsExitRoutine(p: Bits) { p & (INDIRECT_TARGET | RETURN_TARGET) != 0 }

  lemma InheritKeepsIdDropsTemporary(p: Bits, from: Bits, how: Inherit)
    ensures InheritProperties(p, from, how) & ID == p & ID
    ensures InheritProperties(p, from, how) & TEMPORARY == 0
    ensures BasePolicy(InheritProperties(p, from, how)) == InheritProperties(p, from, how)
    ensures InheritProperties(p, BasePolicy(from), how) == InheritProperties(p, from, how)
    ensures !WantsExitRoutine(InheritProperties(p, from, how))
  {
    hide InheritProperties, Inherited, BasePolicy;
    var mask: Word := if how.InheritCall? then 0x00BF else 0x00FF;
    IsInherited(p, from, how);
    IsInherited(p, BasePolicy(from), how);
    InheritedBits(p, from, mask);
    InheritedBase(p, from, mask);
    AreBits(InheritProperties(p, from, how));
  }

  function Inherited(p: Word, from: Word, mask: Word): Word { (from & 0xFFF0 & mask) | (p & 0xFF00) }

  lemma IsInherited(p: Bits, from: Bits, how: Inherit)
    ensures InheritProperties(p, from, how) == Inherited(p, from, if how.InheritCall? then 0x00BF else 0x00FF)
  {
  }

  lemma InheritedBits(p: Word, from: Word, mask: Word)
    requires mask == 0x00BF || mask == 0x00FF
    ensures var b := Inherited(p, from, mask);
            b & 0xFF00 == p & 0xFF00 && b & 0xF == 0 && b & 0xFFF0 == b && b & 0x6 == 0
  {
  }

  lemma InheritedBase(p: Word, from: Bits, mask: Word)
    ensures Inherited(p, BasePolicy(from), mask) == Inherited(p, from, mask)
  {
  }

  lemma AreBits(b: Bits)
    ensures BasePolicy(b) == b & 0xFFF0 && (WantsExitRoutine(b) <==> b & 0x6 != 0)
  {
  }

  // ----- the bit-field view -----

  /** The bit-fields of a policy; ids of any kind. */
  datatype Fields<Id> = Fields(
    functional: bool, indirect: bool, ret: bool, forceAttach: bool,
    xmm: bool, host: bool, userData: bool, directReturn: bool, id: Id)
  {
    /** `base_policy` */
    function Base(): Fields<Id> { this.(functional := false, indirect := false, ret := false, forceAttach := false) }
    predicate WantsExit() { indirect || ret }
    /** `inherit_properties`: the lasting properties of another policy, with the own id. */
    function Inherit(from: Fields<Id>, how: Inherit): Fields<Id> {
      Fields(false, false, false, false, from.xmm, from.host, from.userData && !how.InheritCall?, from.directReturn, id)
    }
  }

  function Bit(b: bool, at: Bits): Bits { if b then at else 0 }

  function Pack(f: Fields<bv64>): Bits
    requires f.id <= 0xFF
  {
    Bit(f.functional, 0x01) | Bit(f.indirect, 0x02) | Bit(f.ret, 0x04) | Bit(f.forceAttach, 0x08) |
    Bit(f.xmm, 0x10) | Bit(f.host, 0x20) | Bit(f.userData, 0x40) | Bit(f.directReturn, 0x80) | (f.id << 8)
  }

  /** The operations on raw bits are the operations on bit-fields. */
  lemma PackBase(f: Fields<bv64>)
    requires f.id <= 0xFF
    ensures BasePolicy(Pack(f)) == Pack(f.Base())
  {
  }

  /** Which properties are inherited. */
  lemma PackInherit(f: Fields<bv64>, from: Fields<bv64>, how: Inherit)
    requires f.id <= 0xFF && from.id <= 0xFF
    ensures InheritProperties(Pack(f), Pack(from), how) == Pack(f.Inherit(from, how))
  {
    hide Pack, InheritProperties, Inherited, Lasting, LastingBits, IdBits, IdOf, Join;
    IsInherited(Pack(f), Pack(from), how);
    PackParts(f);
    PackParts(from);
    var g := f.Inherit(from, how);
    LastingOnly(g);
    SameLasting(if how.InheritCall? then from.(userData := false) else from, g);
    assert g.id == f.id;
    if how.InheritCall? {
      InheritedCall(Pack(f), Pack(from), from);
    } else {
      InheritedAll(Pack(f), Pack(from));
    }
  }

  /** The bits of the lasting properties. */
  function Lasting(f: Fields<bv64>): Word {
    Bit(f.xmm, 0x10) | Bit(f.host, 0x20) | Bit(f.userData, 0x40) | Bit(f.directReturn, 0x80)
  }

  function IdOf(id: Word): Word { id << 8 }
  function LastingBits(x: Word): Word { x & 0xF0 }
  function IdBits(x: Word): Word { x & 0xFF00 }
  function Join(x: Word, y: Word): Word { x | y }

  lemma PackParts(f: Fields<bv64>)
    requires f.id <= 0xFF
    ensures IdBits(Pack(f)) == IdOf(f.id) && LastingBits(Pack(f)) == Lasting(f)
  {
  }

  lemma LastingOnly(f: Fields<bv64>)
    requires f.id <= 0xFF && f.Base() == f
    ensures Pack(f) == Join(Lasting(f), IdOf(f.id))
  {
  }

  lemma SameLasting(f: Fields<bv64>, g: Fields<bv64>)
    requires f.xmm == g.xmm && f.host == g.host && f.userData == g.userData && f.directReturn == g.directReturn
    ensures Lasting(f) == Lasting(g)
  {
  }

  lemma InheritedCall(p: Word, from: Word, f: Fields<bv64>)
    requires LastingBits(from) == Lasting(f)
    ensures Inherited(p, from, 0xBF) == Join(Lasting(f.(userData := false)), IdBits(p))
  {
    assert from & 0xFFF0 & 0xBF == from & 0xF0 & 0xB0;
    assert Lasting(f) & 0xB0 == Lasting(f.(userData := false));
  }

  lemma InheritedAll(p: Word, from: Word)
    ensures Inherited(p, from, 0xFF) == Join(LastingBits(from), IdBits(p))
  {
  }

  lemma PackHost(f: Fields<bv64>, val: bool)
    requires f.id <= 0xFF
    ensures WithHostContext(Pack(f), val) == Pack(f.(host := val))
  {
  }

  lemma PackWantsExit(f: Fields<bv64>)
    requires f.id <= 0xFF
    ensures WantsExitRoutine(Pack(f)) == f.WantsExit()
  {
  }

  // ----- mangled addresses -----

  /** The 48 address bits of a word. */
  function Low(x: Word): Word { x & 0xFFFF_FFFF_FFFF }

  /** The 16 bits above them. */
  function High(x: Word): Bits { x >> 48 }

  /** The constructor of `mangled_address`: the policy replaces the top 16 bits. */
  function Mangle(addr: Word, p: Bits): Word { Low(addr) | (p << 48) }

  /** The policy of a mangled address. */
  function PolicyOf(m: Word): Bits { High(m) }

  /** `unmangled_address` */
  function Unmangle(mode: Mode, m: Word): Word {
    Mangle(m, CanonicalTop(mode))
  }

  function CanonicalTop(mode: Mode): Bits { if mode.User? then 0 else 0xFFFF }

  predicate Canonical(mode: Mode, addr: Word) { High(addr) == CanonicalTop(mode) }

  lemma MangleParts(addr: Word, p: Bits)
    ensures High(Mangle(addr, p)) == p
    ensures Low(Mangle(addr, p)) == Low(addr)
  {
  }

  lemma PartsDetermine(x: Word, y: Word)
    requires High(x) == High(y) && Low(x) == Low(y)
    ensures x == y
  {
  }

  /** A word is a mangled address when its parts are. */
  lemma MangledExactly(addr: Word, p: Bits, x: Word)
    ensures x == Mangle(addr, p) <==> High(x) == p && Low(x) == Low(addr)
  {
    hide High, Low, Mangle;
    MangleParts(addr, p);
    if High(x) == p && Low(x) == Low(addr) {
      PartsDetermine(x, Mangle(addr, p));
    }
  }

  /** Address and policy are both recovered from a mangled address, the address exactly
      when it was canonical. */
  lemma MangleRoundTrip(mode: Mode, addr: Word, p: Bits)
    ensures PolicyOf(Mangle(addr, p)) == p
    ensures Unmangle(mode, Mangle(addr, p)) == addr <==> Canonical(mode, addr)
  {
    hide High, Low, Mangle;
    MangleParts(addr, p);
    MangledExactly(Mangle(addr, p), CanonicalTop(mode), addr);
  }

  /** Two canonical addresses never share a key. */
  lemma MangleInjective(mode: Mode, a: Word, p: Bits, b: Word, q: Bits)
    requires Canonical(mode, a) && Canonical(mode, b) && Mangle(a, p) == Mangle(b, q)
    ensures a == b && p == q
  {
    hide High, Low, Mangle, Unmangle;
    MangleRoundTrip(mode, a, p);
    MangleRoundTrip(mode, b, q);
  }

  // ----- the emitted form -----

  function Bswap16(x: Bits): Bits { ((x << 8) & 0xFF00) | (x >> 8) }

  function Bswap(x: Word): Word {
    (x << 56) | ((x & 0xFF00) << 40) | ((x & 0xFF_0000) << 24) | ((x & 0xFF00_0000) << 8) |
    ((x >> 8) & 0xFF00_0000) | ((x >> 24) & 0xFF_0000) | ((x >> 40) & 0xFF00) | (x >> 56)
  }

  /** `or`/`and` of the low 16 bits with an immediate; the rest of the register is kept. */
  function Combine16(mode: Mode, x: Word, imm: Bits): Word {
    var low := x & 0xFFFF;
    (x & !0xFFFF) | if mode.User? then low | imm else low & imm
  }

  /** What the three emitted instructions leave in the target register. */
  function EmittedMangle(mode: Mode, addr: Word, p: Bits): Word {
    Bswap(Combine16(mode, Bswap(addr), Bswap16(p)))
  }

  lemma EmittedUser(addr: Word, p: Bits)
    ensures Bswap(Combine16(User, Bswap(addr), Bswap16(p))) == addr | (p << 48)
  {
  }

  lemma EmittedKernel(addr: Word, p: Bits)
    ensures Bswap(Combine16(Kernel, Bswap(addr), Bswap16(p))) == addr & (0xFFFF_FFFF_FFFF | (p << 48))
  {
  }

  lemma OrParts(addr: Word, p: Bits)
    ensures High(addr | (p << 48)) == High(addr) | p
    ensures Low(addr | (p << 48)) == Low(addr)
  {
  }

  lemma AndParts(addr: Word, p: Bits)
    ensures High(addr & (0xFFFF_FFFF_FFFF | (p << 48))) == High(addr) & p
    ensures Low(addr & (0xFFFF_FFFF_FFFF | (p << 48))) == Low(addr)
  {
  }

  function CombineTop(mode: Mode, top: Bits, p: Bits): Bits {
    if mode.User? then top | p else top & p
  }

  /** The emitted code changes the top bits alone. */
  lemma EmittedParts(mode: Mode, addr: Word, p: Bits)
    ensures High(EmittedMangle(mode, addr, p)) == CombineTop(mode, High(addr), p)
    ensures Low(EmittedMangle(mode, addr, p)) == Low(addr)
  {
    hide High, Low, Bswap, Bswap16, Combine16;
    if mode.User? {
      EmittedUser(addr, p);
      OrParts(addr, p);
    } else {
      EmittedKernel(addr, p);
      AndParts(addr, p);
    }
  }

  lemma AllOnes(p: Bits)
    ensures 0xFFFF & p == p
  {
  }

  lemma CanonicalTopCombines(mode: Mode, p: Bits)
    ensures CombineTop(mode, CanonicalTop(mode), p) == p
  {
    if mode.Kernel? {
      AllOnes(p);
    }
  }

  /** The emitted code agrees with the constructor exactly on those addresses whose top bits
      the `or` (user) or the `and` (kernel) turns into the policy: on all canonical ones. */
  lemma EmittedMangleAgrees(mode: Mode, addr: Word, p: Bits)
    ensures EmittedMangle(mode, addr, p) == Mangle(addr, p) <==> CombineTop(mode, High(addr), p) == p
    ensures Canonical(mode, addr) ==> EmittedMangle(mode, addr, p) == Mangle(addr, p)
  {
    hide High, Low, Mangle, EmittedMangle, CombineTop;
    EmittedParts(mode, addr, p);
    MangledExactly(addr, p, EmittedMangle(mode, addr, p));
    CanonicalTopCombines(mode, p);
  }

  // ----- the hash of the jump table -----

  const NUM_IBL_JUMP_TABLE_ENTRIES: Word := 2048

  /** `granary_ibl_hash`: `shr $5, %ax; movzwl %ax, %eax`. */
  function IblHash(m: Word): Word { (m & 0xFFFF) >> 5 }

  /** The stub computes the same index with two shifts of the whole register. */
  lemma EmittedHashAgrees(m: Word)
    ensures (m << 48) >> 53 == IblHash(m) < NUM_IBL_JUMP_TABLE_ENTRIES
  {
  }
}
