/** What the hardware makes of the tables: its own walk, with the indices, fields and permission bits of
    the two architectures written out, against the view that `PageTable` keeps. */
module Mmu {
  import opened Collections
  import opened PteCodec
  import opened PageTable

  datatype Access = Load | Store | Fetch

  // ---- Sv39: sections 4.3.2 and 4.4.1 of the RISC-V Privileged Architecture ----

  /** Bits 53 to 10 of an entry, as an address. */
  function Sv39Next(w: nat): (pa: nat) { w / 0x400 % 0x1000_0000_0000 * 0x1000 }

  /** V set, and R, W, X all clear. */
  predicate Sv39Pointer(w: nat) { w % 2 == 1 && w / 2 % 8 == 0 }

  /** The last-level entry for `va`, by bits 38 to 30, 29 to 21 and 20 to 12 of the address; 0 if an
      entry on the way is no pointer. */
  function Sv39Entry(mem: Memory, root: nat, va: nat): (w: nat) {
    var w2 := Read(mem, root, va / 0x4000_0000 % 512);
    if !Sv39Pointer(w2) then 0
    else
      var w1 := Read(mem, Sv39Next(w2), va / 0x20_0000 % 512);
      if !Sv39Pointer(w1) then 0 else Read(mem, Sv39Next(w1), va / 0x1000 % 512)
  }

  /** Bits 0 to 4 are V, R, W, X, U. A page that is writable but not readable is reserved. */
  predicate Sv39Allows(w: nat, a: Access, user: bool) {
    && w % 2 == 1 && !(w / 4 % 2 == 1 && w / 2 % 2 == 0)
    && (w / 16 % 2 == 1) == user
    && (match a case Load => w / 2 % 2 == 1 case Store => w / 4 % 2 == 1 case Fetch => w / 8 % 2 == 1)
  }

  /** The address an access to `va` ends at, if it does not fault. */
  function Sv39Access(mem: Memory, root: nat, va: nat, a: Access, user: bool): (pa: Option<nat>) {
    var w := Sv39Entry(mem, root, va);
    if Sv39Allows(w, a, user) then Some(Sv39Next(w) + va % 0x1000) else None
  }

  lemma Sv39Pointers(f: nat)
    requires Frame(f)
    ensures Sv39Pointer(Sv39().mkBranch(f)) && Sv39Next(Sv39().mkBranch(f)) == f && !Sv39Pointer(0)
  {
    var n := f / 4096;
    var w := n * 1024 + 1;
    assert Sv39().mkBranch(f) == w;
    assert w / 2 == n * 512;
    assert w / 1024 == n;
  }

  /** One level down: the entry is empty, or leads to the table for its part of the range. */
  lemma Sv39Down(root: nat, mem: Memory, at: map<Spot, nat>, s: Spot, i: nat)
    requires TreeOk(Sv39(), 2, root, mem, at) && s in at && s.level > 0 && i < 512
    ensures
      var w, down := Read(mem, at[s], i), Spot(s.level - 1, s.prefix * 512 + i);
      if down in at then Sv39Pointer(w) && Sv39Next(w) == at[down] else !Sv39Pointer(w)
  {
    var down := Spot(s.level - 1, s.prefix * 512 + i);
    assert EntryOk(Sv39(), mem, at, s, i) && SpotOk(Sv39(), 2, mem, at, down) && SpotOk(Sv39(), 2, mem, at, s);
    if down in at {
      assert down.prefix / 512 == s.prefix && down.prefix % 512 == i;
      Sv39Pointers(at[down]);
    }
  }

  lemma Sv39Parts(va: nat)
    requires va < 0x80_0000_0000
    ensures
      var v := va / 0x1000;
      && va / 0x4000_0000 % 512 == v / 512 / 512 && va / 0x20_0000 == v / 512
      && v / 512 / 512 * 512 + v / 512 % 512 == v / 512
  {
  }

  /** The hardware comes to the word that the tables are meant to give for the page. */
  lemma Sv39Walk(root: nat, mem: Memory, at: map<Spot, nat>, va: nat)
    requires TreeOk(Sv39(), 2, root, mem, at) && va < 0x80_0000_0000
    ensures Sv39Entry(mem, root, va) == View(mem, at, va / 0x1000)
  {
    var v := va / 0x1000;
    Sv39Parts(va);
    Sv39Down(root, mem, at, Spot(2, 0), v / 512 / 512);
    var s1, s0 := Spot(1, v / 512 / 512), Spot(0, v / 512);
    assert SpotOk(Sv39(), 2, mem, at, s0) && SpotOk(Sv39(), 2, mem, at, s1);
    if s1 in at {
      Sv39Down(root, mem, at, s1, v / 512 % 512);
    }
  }

  lemma Sv39LeafBits(pa: nat, perm: Perm, mmio: bool)
    ensures
      var w := Sv39().mkLeaf(pa, perm, mmio);
      && w % 2 == 1 && (w / 2 % 2 == 1) == perm.read && (w / 4 % 2 == 1) == perm.write
      && (w / 8 % 2 == 1) == perm.exec && (w / 16 % 2 == 1) == perm.user && w / 32 % 32 == 0 && w / 1024 == pa / 4096
  {
    var n, f := pa / 4096, Sv39Flags(perm);
    Sv39Fields(n, f);
    var w := n * 1024 + f;
    assert w / 32 == n * 32 + f / 32;
  }

  /** A mapped page on Sv39: the hardware lets an access through if and only if it comes from the side the
      page is for and the page has that permission, and is not the reserved kind; it then ends at the
      frame plus the offset. */
  lemma Sv39Means(root: nat, mem: Memory, at: map<Spot, nat>, va: nat, pa: nat, perm: Perm, mmio: bool,
                  a: Access, user: bool)
    requires TreeOk(Sv39(), 2, root, mem, at) && va < 0x80_0000_0000
    requires pa % 4096 == 0 && pa < 0x100_0000_0000_0000 && View(mem, at, va / 4096) == Sv39().mkLeaf(pa, perm, mmio)
    ensures Sv39Access(mem, root, va, a, user) ==
            if user == perm.user && (perm.write ==> perm.read) &&
               (match a case Load => perm.read case Store => perm.write case Fetch => perm.exec)
            then Some(pa + va % 4096) else None
  {
    Sv39Walk(root, mem, at, va);
    Sv39LeafAllows(pa, perm, mmio, a, user);
  }

  lemma Sv39LeafAllows(pa: nat, perm: Perm, mmio: bool, a: Access, user: bool)
    requires pa % 4096 == 0 && pa < 0x100_0000_0000_0000
    ensures
      var w := Sv39().mkLeaf(pa, perm, mmio);
      && Sv39Next(w) == pa
      && (Sv39Allows(w, a, user) <==>
            user == perm.user && (perm.write ==> perm.read) &&
            (match a case Load => perm.read case Store => perm.write case Fetch => perm.exec))
  {
    Sv39LeafBits(pa, perm, mmio);
  }

  /** So a user page mapped for writing only cannot be written, though `translate` shows it writable. */
  lemma WriteOnlyFaults(root: nat, mem: Memory, at: map<Spot, nat>, va: nat, pa: nat)
    requires TreeOk(Sv39(), 2, root, mem, at) && va < 0x80_0000_0000 && pa % 4096 == 0 && pa < 0x100_0000_0000_0000
    requires View(mem, at, va / 4096) == Sv39().mkLeaf(pa, Perm(false, true, false, true), false)
    ensures Sv39Access(mem, root, va, Store, true) == None
    ensures Meaning(Sv39(), View(mem, at, va / 4096), va) == Some((pa + va % 4096, Perm(false, true, false, true)))
  {
    Sv39Means(root, mem, at, va, pa, Perm(false, true, false, true), false, Store, true);
    Sv39LeafOk(pa, Perm(false, true, false, true), false);
  }

  /** A page without a valid word faults, whatever the access. */
  lemma Sv39Faults(root: nat, mem: Memory, at: map<Spot, nat>, va: nat, a: Access, user: bool)
    requires TreeOk(Sv39(), 2, root, mem, at) && va < 0x80_0000_0000 && !Sv39().valid(View(mem, at, va / 4096))
    ensures Sv39Access(mem, root, va, a, user) == None
  {
    Sv39Walk(root, mem, at, va);
  }

  // ---- ARMv8, 4 KiB granule: sections D8.3 and D8.4 of the Arm Architecture Reference Manual ----

  /** Bits 47 to 12 of a descriptor, as an address. */
  function ArmNext(w: nat): (pa: nat) { w / 0x1000 % 0x10_0000_0000 * 0x1000 }

  /** The last-level descriptor for `va`, by bits 47 to 39, 38 to 30, 29 to 21 and 20 to 12 of the
      address; 0 if a descriptor on the way is no table descriptor (bits 1 and 0 both set). */
  function ArmEntry(mem: Memory, root: nat, va: nat): (w: nat) {
    ArmReads(mem, root, va / 0x80_0000_0000 % 512, va / 0x4000_0000 % 512, va / 0x20_0000 % 512, va / 0x1000 % 512)
  }

  function ArmReads(mem: Memory, root: nat, i3: nat, i2: nat, i1: nat, i0: nat): (w: nat) {
    var w3 := Read(mem, root, i3);
    if w3 % 4 != 3 then 0
    else
      var w2 := Read(mem, ArmNext(w3), i2);
      if w2 % 4 != 3 then 0
      else
        var w1 := Read(mem, ArmNext(w2), i1);
        if w1 % 4 != 3 then 0 else Read(mem, ArmNext(w1), i0)
  }

  /** A page descriptor with its access flag, bit 10; bit 6 lets the user in, bit 7 makes it read-only,
      bit 53 forbids the kernel to execute, bit 54 the user. */
  predicate ArmAllows(w: nat, a: Access, user: bool) {
    && w % 4 == 3 && w / 0x400 % 2 == 1 && (user ==> w / 0x40 % 2 == 1)
    && (match a
        case Load => true
        case Store => w / 0x80 % 2 == 0
        case Fetch => w / (if user then 0x40_0000_0000_0000 else 0x20_0000_0000_0000) % 2 == 0)
  }

  function ArmAccess(mem: Memory, root: nat, va: nat, a: Access, user: bool): (pa: Option<nat>) {
    var w := ArmEntry(mem, root, va);
    if ArmAllows(w, a, user) then Some(ArmNext(w) + va % 0x1000) else None
  }

  lemma ArmPointers(f: nat)
    requires Frame(f)
    ensures Arm().mkBranch(f) % 4 == 3 && ArmNext(Arm().mkBranch(f)) == f
  {
    var n := f / 4096;
    assert n % 0x10_0000_0000 == n;
    assert Arm().mkBranch(f) == n * 4096 + 3;
    FieldOf(n, 3, 1, 4, 0x400);
    DivAdd(4096, n, 3);
  }

  lemma ArmDown(root: nat, mem: Memory, at: map<Spot, nat>, s: Spot, i: nat)
    requires TreeOk(Arm(), 3, root, mem, at) && s in at && s.level > 0 && i < 512
    ensures
      var w, down := Read(mem, at[s], i), Spot(s.level - 1, s.prefix * 512 + i);
      if down in at then w % 4 == 3 && ArmNext(w) == at[down] else w % 4 != 3
  {
    var down := Spot(s.level - 1, s.prefix * 512 + i);
    assert EntryOk(Arm(), mem, at, s, i) && SpotOk(Arm(), 3, mem, at, down) && SpotOk(Arm(), 3, mem, at, s);
    if down in at {
      assert down.prefix / 512 == s.prefix && down.prefix % 512 == i;
      ArmPointers(at[down]);
    }
  }

  lemma ArmParts(va: nat)
    requires va < 0x1_0000_0000_0000
    ensures
      var v, i3, i2, i1 := va / 0x1000, va / 0x80_0000_0000 % 512, va / 0x4000_0000 % 512, va / 0x20_0000 % 512;
      v / 512 == (i3 * 512 + i2) * 512 + i1
  {
    var a, b := va / 0x20_0000, va / 0x4000_0000;
    assert a == va / 0x1000 / 512 && b == a / 512 && va / 0x80_0000_0000 == b / 512;
  }

  lemma ArmTables(root: nat, mem: Memory, at: map<Spot, nat>, i3: nat, i2: nat, i1: nat, i0: nat)
    requires TreeOk(Arm(), 3, root, mem, at) && i3 < 512 && i2 < 512 && i1 < 512 && i0 < 512
    ensures
      var s := Spot(0, (i3 * 512 + i2) * 512 + i1);
      ArmReads(mem, root, i3, i2, i1, i0) == if s in at then Read(mem, at[s], i0) else 0
  {
    var p2, p1 := i3, i3 * 512 + i2;
    var s2, s1, s0 := Spot(2, p2), Spot(1, p1), Spot(0, p1 * 512 + i1);
    ArmDown(root, mem, at, Spot(3, 0), i3);
    assert SpotOk(Arm(), 3, mem, at, s0) && SpotOk(Arm(), 3, mem, at, s1);
    assert (p1 * 512 + i1) / 512 == p1 && p1 / 512 == p2;
    if s2 in at {
      ArmDown(root, mem, at, s2, i2);
      if s1 in at {
        ArmDown(root, mem, at, s1, i1);
      }
    }
  }

  lemma ArmWalk(root: nat, mem: Memory, at: map<Spot, nat>, va: nat)
    requires TreeOk(Arm(), 3, root, mem, at) && va < 0x1_0000_0000_0000
    ensures ArmEntry(mem, root, va) == View(mem, at, va / 0x1000)
  {
    ArmParts(va);
    ArmTables(root, mem, at, va / 0x80_0000_0000 % 512, va / 0x4000_0000 % 512, va / 0x20_0000 % 512,
              va / 0x1000 % 512);
  }

  /** The low twelve bits of a leaf: type, memory attribute, security, permissions, shareability, access
      flag, not-global. */
  lemma ArmLowFields(perm: Perm, mmio: bool)
    ensures
      var low := ArmLow(perm, mmio);
      && low < 4096 && low % 4 == 3 && low / 4 % 8 == (if mmio then 0 else 1) && low / 0x20 % 2 == 0
      && (low / 0x40 % 2 == 1) == perm.user && (low / 0x80 % 2 == 0) == perm.write
      && low / 0x100 % 4 == (if mmio then 0 else 3) && low / 0x400 % 2 == 1 && (low / 0x800 % 2 == 1) == perm.user
  {
  }

  /** Every bit of a leaf descriptor: device memory has attribute 0, other memory attribute 1 and is inner
      shareable. */
  lemma ArmLeafBits(pa: nat, perm: Perm, mmio: bool)
    ensures
      var w := Arm().mkLeaf(pa, perm, mmio);
      && w % 4 == 3 && w / 4 % 8 == (if mmio then 0 else 1) && w / 0x20 % 2 == 0
      && (w / 0x40 % 2 == 1) == perm.user && (w / 0x80 % 2 == 0) == perm.write
      && w / 0x100 % 4 == (if mmio then 0 else 3) && w / 0x400 % 2 == 1 && (w / 0x800 % 2 == 1) == perm.user
      && w / 0x1000 % 0x10_0000_0000 == pa / 4096 % 0x10_0000_0000 && w / 0x1_0000_0000_0000 % 32 == 0
      && (w / 0x20_0000_0000_0000 % 2 == 0) == (!perm.user && perm.exec)
      && (w / 0x40_0000_0000_0000 % 2 == 0) == (perm.user && perm.exec)
      && w / 0x80_0000_0000_0000 == 0
  {
    var low, high, m := ArmLow(perm, mmio), ArmHigh(perm), pa / 4096 % 0x10_0000_0000;
    ArmLowFields(perm, mmio);
    ArmHighBits(perm);
    ArmFields(pa / 4096, low, high);
    var k := high * 0x10_0000_0000 + m;
    FieldOf(k, low, 1, 4, 0x400);
    FieldOf(k, low, 4, 8, 0x80);
    FieldOf(k, low, 0x20, 2, 0x40);
    FieldOf(k, low, 0x40, 2, 0x20);
    FieldOf(k, low, 0x80, 2, 0x10);
    FieldOf(k, low, 0x100, 4, 4);
    FieldOf(k, low, 0x400, 2, 2);
    FieldOf(k, low, 0x800, 2, 1);
    ArmTop(high, m * 4096 + low);
    assert ArmWord(pa / 4096, low, high) == k * 4096 + low;
  }

  lemma ArmTop(high: nat, rest: nat)
    requires high < 128 && high % 32 == 0 && rest < 0x1_0000_0000_0000
    ensures
      var w := high * 0x1_0000_0000_0000 + rest;
      w / 0x1_0000_0000_0000 % 32 == 0 && w / 0x80_0000_0000_0000 == 0
  {
    var w := high * 0x1_0000_0000_0000 + rest;
    assert w / 0x1_0000_0000_0000 == high;
  }

  /** A mapped page on ARMv8: the user gets at it if and only if it is a user page with that permission, to
      which read always belongs; the kernel may read it, write it if it is writable, and execute it if it
      is executable and no user page. */
  lemma ArmMeans(root: nat, mem: Memory, at: map<Spot, nat>, va: nat, pa: nat, perm: Perm, mmio: bool,
                 a: Access, user: bool)
    requires TreeOk(Arm(), 3, root, mem, at) && va < 0x1_0000_0000_0000
    requires pa % 4096 == 0 && pa < 0x1_0000_0000_0000 && View(mem, at, va / 4096) == Arm().mkLeaf(pa, perm, mmio)
    ensures ArmAccess(mem, root, va, a, user) ==
            if (user ==> perm.user) &&
               (match a case Load => true case Store => perm.write case Fetch => perm.exec && user == perm.user)
            then Some(pa + va % 4096) else None
  {
    ArmWalk(root, mem, at, va);
    ArmLeafAllows(pa, perm, mmio, a, user);
  }

  lemma ArmLeafAllows(pa: nat, perm: Perm, mmio: bool, a: Access, user: bool)
    requires pa % 4096 == 0 && pa < 0x1_0000_0000_0000
    ensures
      var w := Arm().mkLeaf(pa, perm, mmio);
      && ArmNext(w) == pa
      && (ArmAllows(w, a, user) <==>
            (user ==> perm.user) &&
            (match a case Load => true case Store => perm.write case Fetch => perm.exec && user == perm.user))
  {
    ArmLeafBits(pa, perm, mmio);
    assert pa / 4096 % 0x10_0000_0000 * 4096 == pa;
  }

  lemma ArmFaults(root: nat, mem: Memory, at: map<Spot, nat>, va: nat, a: Access, user: bool)
    requires TreeOk(Arm(), 3, root, mem, at) && va < 0x1_0000_0000_0000 && !Arm().valid(View(mem, at, va / 4096))
    ensures ArmAccess(mem, root, va, a, user) == None
  {
    ArmWalk(root, mem, at, va);
    ArmInvalid(View(mem, at, va / 4096), a, user);
  }

  lemma ArmInvalid(w: nat, a: Access, user: bool)
    requires !Arm().valid(w)
    ensures !ArmAllows(w, a, user)
  {
    assert w / 1 == w && w % 4 % 2 == w % 2;
  }
}
