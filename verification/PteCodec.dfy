/** Page-table entries as 64-bit words: the Sv39 format (section 4.4 of the RISC-V Privileged
    Architecture, 20211203) and the ARMv8 long-descriptor format with 4 KiB granule (ARM ARM
    D8.3), behind one record of functions and the laws the table code relies on. */
module PteCodec {
  datatype Perm = Perm(read: bool, write: bool, exec: bool, user: bool)

  /** `leaf(w, level)`: the code treats the valid word `w` in a table of that level as a page and
      not as a pointer to the next table. `shown`: the permissions read back from a leaf made
      with the given ones. `leafy`: leaves made with these permissions are recognised as leaves. */
  datatype Codec = Codec(
    limit: nat,
    valid: nat -> bool,
    leaf: (nat, nat) -> bool,
    pa: nat -> nat,
    perm: nat -> Perm,
    user: nat -> bool,
    mkLeaf: (nat, Perm, bool) -> nat,
    mkBranch: nat -> nat,
    shown: Perm -> Perm,
    leafy: Perm -> bool)

  /** A frame address both formats can hold. */
  predicate Frame(pa: nat) { pa % 4096 == 0 && 0 < pa < 0x1_0000_0000_0000 }

  ghost predicate BranchLaw(c: Codec, f: nat) {
    Frame(f) ==>
      var w := c.mkBranch(f);
      c.valid(w) && c.pa(w) == f && forall l: nat {:trigger c.leaf(w, l)} :: l > 0 ==> !c.leaf(w, l)
  }

  ghost predicate LeafLaw(c: Codec, p: nat, perm: Perm, mmio: bool)
    requires c.limit > 0
  {
    p % 4096 == 0 ==>
      var w := c.mkLeaf(p, perm, mmio);
      && c.valid(w) && c.pa(w) == p % c.limit && c.perm(w) == c.shown(perm)
      && c.user(w) == perm.user && c.leaf(w, 0) == c.leafy(perm)
  }

  ghost predicate Laws(c: Codec) {
    && c.limit >= 0x1_0000_0000_0000 && !c.valid(0)
    && (forall f: nat {:trigger BranchLaw(c, f)} :: BranchLaw(c, f))
    && (forall p: nat, perm: Perm, mmio: bool {:trigger LeafLaw(c, p, perm, mmio)} :: LeafLaw(c, p, perm, mmio))
  }

  function Bit(b: bool, v: nat): (n: nat) { if b then v else 0 }

  predicate Has(w: nat, v: nat)
    requires v > 0
  {
    w / v % 2 == 1
  }

  // ---- Fields of a word ----

  lemma DivAdd(d: int, x: nat, y: nat)
    requires d > 0
    ensures (d * x + y) / d == x + y / d
  {
    var n := d * x + y;
    var e := x + y / d - n / d;
    assert d * e == n % d - y % d;
    assert e >= 1 ==> d * e >= d;
    assert e <= -1 ==> d * e <= -d;
  }

  lemma ModAdd(m: nat, x: nat, y: nat)
    requires m > 0
    ensures (m * x + y) % m == y % m
  {
    DivAdd(m, x, y);
    var n := m * x + y;
    assert n % m == n - m * (n / m) && m * (x + y / m) == m * x + m * (y / m);
  }

  /** A field that lies in the low twelve bits does not depend on the bits above. */
  lemma FieldOf(k: nat, low: nat, d: nat, m: nat, e: nat)
    requires d * m * e == 4096
    ensures d > 0 && m > 0 && (k * 4096 + low) / d % m == low / d % m
  {
    assert d == 0 || m == 0 ==> d * m == 0;
    assert k * 4096 == d * (m * (e * k));
    DivAdd(d, m * (e * k), low);
    ModAdd(m, e * k, low / d);
  }

  // ---- Sv39 ----

  function Sv39Flags(p: Perm): (n: nat) { 1 + Bit(p.read, 2) + Bit(p.write, 4) + Bit(p.exec, 8) + Bit(p.user, 16) }

  function Sv39Leaf(pa: nat, p: Perm): (w: nat) { pa / 4096 * 1024 + Sv39Flags(p) }

  function Sv39Branch(pa: nat): (w: nat) { pa / 4096 * 1024 + 1 }

  function Sv39Pa(w: nat): (pa: nat) { w / 1024 % 0x1000_0000_0000 * 4096 }

  function Sv39Perm(w: nat): (p: Perm) { Perm(Has(w, 2), Has(w, 4), Has(w, 8), Has(w, 16)) }

  function Sv39(): (c: Codec) {
    Codec(
      0x100_0000_0000_0000,
      (w: nat) => Has(w, 1),
      (w: nat, level: nat) => Has(w, 1) && (Has(w, 2) || Has(w, 4) || Has(w, 8)),
      (w: nat) => Sv39Pa(w),
      (w: nat) => Sv39Perm(w),
      (w: nat) => Has(w, 16),
      (pa: nat, p: Perm, mmio: bool) => Sv39Leaf(pa, p),
      (pa: nat) => Sv39Branch(pa),
      (p: Perm) => p,
      (p: Perm) => p.read || p.write || p.exec)
  }

  lemma Sv39Fields(n: nat, f: nat)
    requires f < 1024
    ensures var w := n * 1024 + f;
      && w / 1024 == n
      && Has(w, 1) == Has(f, 1) && Has(w, 2) == Has(f, 2) && Has(w, 4) == Has(f, 4)
      && Has(w, 8) == Has(f, 8) && Has(w, 16) == Has(f, 16)
  {
    var w := n * 1024 + f;
    assert w / 16 == n * 64 + f / 16;
    assert w / 8 == n * 128 + f / 8;
    assert w / 4 == n * 256 + f / 4;
    assert w / 2 == n * 512 + f / 2;
    Parity(n * 32, f / 16);
    Parity(n * 64, f / 8);
    Parity(n * 128, f / 4);
    Parity(n * 256, f / 2);
    Parity(n * 512, f);
  }

  lemma Parity(a: nat, b: nat)
    ensures (a * 2 + b) % 2 == b % 2
  {
  }

  lemma Sv39Round(pa: nat)
    requires pa % 4096 == 0
    ensures pa / 4096 % 0x1000_0000_0000 * 4096 == pa % 0x100_0000_0000_0000
  {
  }

  lemma Sv39BranchOk(f: nat)
    ensures BranchLaw(Sv39(), f)
  {
    Sv39Fields(f / 4096, 1);
    if f % 4096 == 0 { Sv39Round(f); }
  }

  lemma Sv39LeafOk(pa: nat, p: Perm, mmio: bool)
    ensures LeafLaw(Sv39(), pa, p, mmio)
  {
    Sv39Fields(pa / 4096, Sv39Flags(p));
    if pa % 4096 == 0 { Sv39Round(pa); }
  }

  lemma Sv39Laws()
    ensures Laws(Sv39())
  {
    forall f: nat ensures BranchLaw(Sv39(), f) { Sv39BranchOk(f); }
    forall p: nat, perm: Perm, mmio: bool ensures LeafLaw(Sv39(), p, perm, mmio) { Sv39LeafOk(p, perm, mmio); }
  }

  // ---- ARMv8 ----

  /** Access-permission field: bit 0 gives user access, bit 1 makes it read-only. */
  function ArmAp(p: Perm): (n: nat) { Bit(p.user, 1) + Bit(!p.write, 2) }

  /** Valid, table-or-page and access flag; memory attributes; access permissions; not-global. */
  function ArmLow(p: Perm, mmio: bool): (n: nat) {
    3 + 0x400 + Bit(!mmio, 4 + 0x300) + ArmAp(p) * 64 + Bit(p.user, 0x800)
  }

  /** The two execute-never bits, in units of bit 48. */
  function ArmHigh(p: Perm): (n: nat) {
    Bit(p.user || !p.exec, 32) + Bit(!p.user || !p.exec, 64)
  }

  function ArmWord(n: nat, low: nat, high: nat): (w: nat) {
    high * 0x1_0000_0000_0000 + n % 0x10_0000_0000 * 4096 + low
  }

  function ArmPa(w: nat): (pa: nat) { w / 4096 % 0x10_0000_0000 * 4096 }

  function ArmPerm(w: nat): (p: Perm) {
    var ap := w / 64 % 4;
    var user := ap == 1 || ap == 3;
    Perm(true, ap == 0 || ap == 1, !Has(w, if user then 0x40_0000_0000_0000 else 0x20_0000_0000_0000), user)
  }

  function Arm(): (c: Codec) {
    Codec(
      0x1_0000_0000_0000,
      (w: nat) => Has(w, 1),
      (w: nat, level: nat) => level == 0,
      (w: nat) => ArmPa(w),
      (w: nat) => ArmPerm(w),
      (w: nat) => Has(w, 0x800),
      (pa: nat, p: Perm, mmio: bool) => ArmWord(pa / 4096, ArmLow(p, mmio), ArmHigh(p)),
      (pa: nat) => ArmWord(pa / 4096, 3, 0),
      (p: Perm) => p.(read := true),
      (p: Perm) => true)
  }

  lemma ArmFields(n: nat, low: nat, high: nat)
    requires low < 4096 && high < 128
    ensures var w := ArmWord(n, low, high);
      && w / 4096 % 0x10_0000_0000 == n % 0x10_0000_0000
      && Has(w, 1) == Has(low, 1) && w / 64 % 4 == low / 64 % 4 && Has(w, 0x800) == Has(low, 0x800)
      && Has(w, 0x20_0000_0000_0000) == Has(high, 32) && Has(w, 0x40_0000_0000_0000) == Has(high, 64)
  {
    var m := n % 0x10_0000_0000;
    var k := high * 0x10_0000_0000 + m;
    assert ArmWord(n, low, high) == k * 4096 + low;
    LowFields(k, low);
    LowPart(high, m);
    HighFields(high, m * 4096 + low);
  }

  lemma LowFields(k: nat, low: nat)
    requires low < 4096
    ensures var w := k * 4096 + low;
      w / 4096 == k && Has(w, 1) == Has(low, 1) && w / 64 % 4 == low / 64 % 4 && Has(w, 0x800) == Has(low, 0x800)
  {
    DivAdd(4096, k, low);
    FieldOf(k, low, 1, 2, 0x800);
    FieldOf(k, low, 0x40, 4, 0x10);
    FieldOf(k, low, 0x800, 2, 1);
  }

  lemma LowPart(high: nat, m: nat)
    requires m < 0x10_0000_0000
    ensures (high * 0x10_0000_0000 + m) % 0x10_0000_0000 == m
  {
  }

  lemma HighFields(high: nat, rest: nat)
    requires rest < 0x1_0000_0000_0000
    ensures var w := high * 0x1_0000_0000_0000 + rest;
      Has(w, 0x20_0000_0000_0000) == Has(high, 32) && Has(w, 0x40_0000_0000_0000) == Has(high, 64)
  {
    var w := high * 0x1_0000_0000_0000 + rest;
    assert w / 0x1_0000_0000_0000 == high;
    assert w / 0x20_0000_0000_0000 == high / 32;
    assert w / 0x40_0000_0000_0000 == high / 64;
  }

  lemma ArmRound(pa: nat)
    requires pa % 4096 == 0
    ensures pa / 4096 % 0x10_0000_0000 * 4096 == pa % 0x1_0000_0000_0000
  {
  }

  lemma ArmBranchOk(f: nat)
    ensures BranchLaw(Arm(), f)
  {
    if Frame(f) {
      ArmFields(f / 4096, 3, 0);
      ArmFrame(f);
      assert Has(3, 1);
      assert ArmPa(ArmWord(f / 4096, 3, 0)) == f;
    }
  }

  lemma ArmFrame(f: nat)
    requires Frame(f)
    ensures f / 4096 % 0x10_0000_0000 * 4096 == f
  {
    ArmRound(f);
  }

  lemma ArmLowBits(p: Perm, mmio: bool)
    ensures var low := ArmLow(p, mmio);
      low < 4096 && Has(low, 1) && low / 64 % 4 == ArmAp(p) && Has(low, 0x800) == p.user
  {
  }

  lemma ArmHighBits(p: Perm)
    ensures var high := ArmHigh(p);
      high < 128 && Has(high, 32) == (p.user || !p.exec) && Has(high, 64) == (!p.user || !p.exec)
  {
  }

  lemma ArmLeafOk(pa: nat, p: Perm, mmio: bool)
    ensures LeafLaw(Arm(), pa, p, mmio)
  {
    ArmLowBits(p, mmio);
    ArmHighBits(p);
    ArmFields(pa / 4096, ArmLow(p, mmio), ArmHigh(p));
    if pa % 4096 == 0 { ArmRound(pa); }
  }

  lemma ArmLaws()
    ensures Laws(Arm())
  {
    forall f: nat ensures BranchLaw(Arm(), f) { ArmBranchOk(f); }
    forall p: nat, perm: Perm, mmio: bool ensures LeafLaw(Arm(), p, perm, mmio) { ArmLeafOk(p, perm, mmio); }
  }
}
