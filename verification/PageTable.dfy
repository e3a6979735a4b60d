/** Multi-level page tables in physical memory and the frame allocator under them. One model
    serves Sv39 (depth 2) and the ARMv8 tables (depth 3): the entry format is a record of
    functions and `depth` is the number of levels below the root. */
module PageTable {
  import opened Collections
  import opened PteCodec

  // ---- The frame allocator ----

  /** Free frames linked through their own first words; 0 is the end of the list. */
  class FrameAlloc {
    var head: nat
    var link: map<nat, nat>
    var count: nat
    ghost var list: seq<nat>

    ghost predicate Valid()
      reads this
    {
      && Distinct(list) && count == |list|
      && (forall i :: 0 <= i < |list| ==> Frame(list[i]))
      && head == HeadOf(list)
      && forall i: nat {:trigger LinkAt(i)} :: LinkAt(i)
    }

    static function HeadOf(s: seq<nat>): (h: nat) { if s == [] then 0 else s[0] }

    /** The word in list frame `i` is the next list frame. */
    ghost predicate LinkAt(i: nat)
      reads this
    {
      i < |list| ==> list[i] in link && link[list[i]] == HeadOf(list[i + 1..])
    }

    method Pop() returns (r: Option<nat>)
      requires Valid()
      modifies this
      ensures Valid()
      ensures old(list) == [] ==> r == None && list == []
      ensures old(list) != [] ==> r == Some(old(list)[0]) && list == old(list)[1..]
    {
      if head == 0 {
        return None;
      }
      assert LinkAt(0);
      r := Some(head);
      head := link[head];
      count := count - 1;
      list := list[1..];
      forall i: nat ensures LinkAt(i) {
        assert old(LinkAt(i + 1));
        assert i < |list| ==> old(list)[i + 1..][1..] == list[i + 1..];
      }
    }

    method Push(pa: nat)
      requires Valid() && Frame(pa) && pa !in list
      modifies this
      ensures Valid() && list == [pa] + old(list)
    {
      link := link[pa := head];
      head := pa;
      count := count + 1;
      list := [pa] + list;
      forall i: nat ensures LinkAt(i) {
        if i > 0 {
          assert old(LinkAt(i - 1));
          assert i < |list| ==> list[i + 1..] == old(list)[i..];
        } else {
          assert list[1..] == old(list);
        }
      }
    }
  }

  // ---- Addresses ----

  /** `v >> 9 * n`. */
  function Shift(v: nat, n: nat): (r: nat) { if n == 0 then v else Shift(v, n - 1) / 512 }

  // ---- The tree ----

  /** A table of a level covers the pages `v` with `Shift(v, level + 1) == prefix`. */
  datatype Spot = Spot(level: nat, prefix: nat)

  type Memory = map<nat, seq<nat>>

  function Read(mem: Memory, t: nat, i: nat): (w: nat) { if t in mem && i < |mem[t]| then mem[t][i] else 0 }

  function At(at: map<Spot, nat>, s: Spot): (t: nat) { if s in at then at[s] else 0 }

  /** The table at `s`, if any, is a table, and hangs where it should. */
  predicate SpotOk(c: Codec, depth: nat, mem: Memory, at: map<Spot, nat>, s: Spot) {
    s in at ==>
      && s.level <= depth && Frame(at[s]) && at[s] in mem && |mem[at[s]]| == 512
      && (s.level == depth ==> s.prefix == 0)
      && (s.level < depth ==>
            var up := Spot(s.level + 1, s.prefix / 512);
            up in at && Read(mem, at[up], s.prefix % 512) == c.mkBranch(at[s]))
  }

  /** Entry `i` of an upper table is empty or points at the table for its part of the range. */
  predicate EntryOk(c: Codec, mem: Memory, at: map<Spot, nat>, s: Spot, i: nat) {
    s in at && s.level > 0 && i < 512 ==>
      var w, down := Read(mem, at[s], i), Spot(s.level - 1, s.prefix * 512 + i);
      w == 0 || (down in at && w == c.mkBranch(at[down]))
  }

  /** `at` locates every table of the tree under `root`. */
  ghost predicate TreeOk(c: Codec, depth: nat, root: nat, mem: Memory, at: map<Spot, nat>) {
    && Spot(depth, 0) in at && at[Spot(depth, 0)] == root
    && (forall s {:trigger SpotOk(c, depth, mem, at, s)} :: SpotOk(c, depth, mem, at, s))
    && (forall s, i: nat {:trigger EntryOk(c, mem, at, s, i)} :: EntryOk(c, mem, at, s, i))
    && (forall s, t :: s in at && t in at && at[s] == at[t] ==> s == t)
  }

  /** The word that decides the translation of page `v`. */
  function View(mem: Memory, at: map<Spot, nat>, v: nat): (w: nat) {
    if Spot(0, v / 512) in at then Read(mem, at[Spot(0, v / 512)], v % 512) else 0
  }

  // ---- Translation ----

  /** The walk of `translate` from a table of the given level. */
  function TransFrom(c: Codec, mem: Memory, table: nat, level: nat, va: nat): (r: Option<(nat, Perm)>)
    decreases level
  {
    var w := Read(mem, table, Shift(va / 4096, level) % 512);
    if !c.valid(w) then None
    else if level == 0 then Some((c.pa(w) + va % 4096, c.perm(w)))
    else if c.leaf(w, level) then Some((c.pa(w) + Within(va, level), c.perm(w)))
    else TransFrom(c, mem, c.pa(w), level - 1, va)
  }

  /** The offset of `va` in the range one entry of a table of this level covers. */
  function Within(va: nat, level: nat): (off: nat) {
    if level == 0 then va % 4096 else if level == 1 then va % 0x20_0000 else va % 0x4000_0000
  }

  /** What the word `w` of its page says about `va`. */
  function Meaning(c: Codec, w: nat, va: nat): (r: Option<(nat, Perm)>) {
    if c.valid(w) then Some((c.pa(w) + va % 4096, c.perm(w))) else None
  }

  lemma Step(v: nat, level: nat)
    requires level > 0
    ensures Shift(v, level + 1) * 512 + Shift(v, level) % 512 == Shift(v, level)
    ensures Shift(v, level + 1) == Shift(v, level) / 512
  {
  }

  lemma {:induction false} NoTable(c: Codec, depth: nat, root: nat, mem: Memory, at: map<Spot, nat>, v: nat, level: nat)
    requires TreeOk(c, depth, root, mem, at) && level <= depth && Spot(level, Shift(v, level + 1)) !in at
    ensures Spot(0, v / 512) !in at
  {
    if level > 0 {
      assert SpotOk(c, depth, mem, at, Spot(level - 1, Shift(v, level)));
      NoTable(c, depth, root, mem, at, v, level - 1);
    } else {
      assert Shift(v, 1) == Shift(v, 0) / 512;
    }
  }

  /** On a tree the walk ends at the word the view gives. */
  lemma {:induction false} TransView(c: Codec, depth: nat, root: nat, mem: Memory, at: map<Spot, nat>, va: nat,
                                     level: nat)
    requires Laws(c) && TreeOk(c, depth, root, mem, at) && level <= depth
    requires Spot(level, Shift(va / 4096, level + 1)) in at
    ensures TransFrom(c, mem, at[Spot(level, Shift(va / 4096, level + 1))], level, va) ==
              Meaning(c, View(mem, at, va / 4096), va)
  {
    var v := va / 4096;
    var s := Spot(level, Shift(v, level + 1));
    if level == 0 {
      assert Shift(v, 1) == Shift(v, 0) / 512;
    } else {
      var i := Shift(v, level) % 512;
      var w := Read(mem, at[s], i);
      var down := Spot(level - 1, Shift(v, level));
      Step(v, level);
      assert EntryOk(c, mem, at, s, i) && SpotOk(c, depth, mem, at, down);
      assert BranchLaw(c, At(at, down));
      if w == 0 {
        NoTable(c, depth, root, mem, at, v, level - 1);
      } else {
        assert !c.leaf(w, level);
        TransView(c, depth, root, mem, at, va, level - 1);
      }
    }
  }

  // ---- Changing the tree ----

  function Zeros(): (z: seq<nat>) { seq(512, i => 0) }

  function Write(mem: Memory, t: nat, i: nat, w: nat): (mem': Memory)
    requires t in mem && i < |mem[t]|
  {
    var words: seq<nat> := mem[t][i := w];
    mem[t := words]
  }

  lemma ReadWrite(mem: Memory, t: nat, i: nat, w: nat, u: nat, j: nat)
    requires t in mem && i < |mem[t]|
    ensures Read(Write(mem, t, i, w), u, j) == if u == t && j == i then w else Read(mem, u, j)
  {
  }

  /** A fresh zeroed frame becomes the table below entry `i` of `up`. */
  ghost predicate Hung(c: Codec, mem: Memory, at: map<Spot, nat>, up: Spot, i: nat, new_: nat, mem': Memory,
                       at': map<Spot, nat>) {
    && up in at && up.level > 0 && i < 512 && at[up] in mem && |mem[at[up]]| == 512 && Read(mem, at[up], i) == 0
    && Frame(new_) && (forall s :: s in at ==> at[s] != new_)
    && mem' == Write(mem[new_ := Zeros()], at[up], i, c.mkBranch(new_))
    && at' == at[Spot(up.level - 1, up.prefix * 512 + i) := new_]
  }

  lemma HungFresh(c: Codec, depth: nat, root: nat, mem: Memory, at: map<Spot, nat>, up: Spot, i: nat)
    requires Laws(c) && TreeOk(c, depth, root, mem, at) && up in at && up.level > 0 && i < 512 &&
               Read(mem, at[up], i) == 0
    ensures Spot(up.level - 1, up.prefix * 512 + i) !in at
  {
    var down := Spot(up.level - 1, up.prefix * 512 + i);
    assert SpotOk(c, depth, mem, at, up) && SpotOk(c, depth, mem, at, down);
    assert BranchLaw(c, At(at, down));
  }

  lemma HungReads(c: Codec, mem: Memory, at: map<Spot, nat>, up: Spot, i: nat, new_: nat, mem': Memory,
                  at': map<Spot, nat>, s: Spot, j: nat)
    requires Hung(c, mem, at, up, i, new_, mem', at') && s in at && Spot(up.level - 1, up.prefix * 512 + i) !in at
    ensures Read(mem', at[s], j) == if at[s] == at[up] && j == i then c.mkBranch(new_) else Read(mem, at[s], j)
    ensures j < 512 ==> Read(mem', new_, j) == 0
  {
    ReadWrite(mem[new_ := Zeros()], at[up], i, c.mkBranch(new_), at[s], j);
    ReadWrite(mem[new_ := Zeros()], at[up], i, c.mkBranch(new_), new_, j);
  }

  lemma HungSpot(c: Codec, depth: nat, root: nat, mem: Memory, at: map<Spot, nat>, up: Spot, i: nat, new_: nat,
                 mem': Memory, at': map<Spot, nat>, s: Spot)
    requires Laws(c) && TreeOk(c, depth, root, mem, at) && Hung(c, mem, at, up, i, new_, mem', at')
    requires Spot(up.level - 1, up.prefix * 512 + i) !in at
    ensures SpotOk(c, depth, mem', at', s)
  {
    var down := Spot(up.level - 1, up.prefix * 512 + i);
    assert SpotOk(c, depth, mem, at, up) && SpotOk(c, depth, mem, at, s);
    var over := if s == down then up else Spot(s.level + 1, s.prefix / 512);
    if over in at { HungReads(c, mem, at, up, i, new_, mem', at', over, s.prefix % 512); }
  }

  lemma HungEntry(c: Codec, depth: nat, root: nat, mem: Memory, at: map<Spot, nat>, up: Spot, i: nat, new_: nat,
                  mem': Memory, at': map<Spot, nat>, s: Spot, j: nat)
    requires Laws(c) && TreeOk(c, depth, root, mem, at) && Hung(c, mem, at, up, i, new_, mem', at')
    requires Spot(up.level - 1, up.prefix * 512 + i) !in at
    ensures EntryOk(c, mem', at', s, j)
  {
    assert EntryOk(c, mem, at, s, j);
    HungReads(c, mem, at, up, i, new_, mem', at', if s in at then s else up, j);
  }

  lemma HungTree(c: Codec, depth: nat, root: nat, mem: Memory, at: map<Spot, nat>, up: Spot, i: nat, new_: nat,
                 mem': Memory, at': map<Spot, nat>)
    requires Laws(c) && TreeOk(c, depth, root, mem, at) && Hung(c, mem, at, up, i, new_, mem', at')
    ensures TreeOk(c, depth, root, mem', at') && Spot(up.level - 1, up.prefix * 512 + i) !in at
  {
    HungFresh(c, depth, root, mem, at, up, i);
    forall s ensures SpotOk(c, depth, mem', at', s) {
      HungSpot(c, depth, root, mem, at, up, i, new_, mem', at', s);
    }
    forall s, j: nat ensures EntryOk(c, mem', at', s, j) {
      HungEntry(c, depth, root, mem, at, up, i, new_, mem', at', s, j);
    }
  }

  /** An empty table changes no translation. */
  lemma HungView(c: Codec, mem: Memory, at: map<Spot, nat>, up: Spot, i: nat, new_: nat, mem': Memory,
                 at': map<Spot, nat>, v: nat)
    requires Hung(c, mem, at, up, i, new_, mem', at') && Spot(up.level - 1, up.prefix * 512 + i) !in at
    requires forall s, t :: s in at && t in at && at[s] == at[t] ==> s == t
    ensures View(mem', at', v) == View(mem, at, v)
  {
    var s := Spot(0, v / 512);
    HungReads(c, mem, at, up, i, new_, mem', at', if s in at then s else up, v % 512);
  }

  /** Writing a word of a lowest-level table changes the view of its page only. */
  lemma WriteLeaf(c: Codec, depth: nat, root: nat, mem: Memory, at: map<Spot, nat>, s: Spot, i: nat, w: nat)
    requires TreeOk(c, depth, root, mem, at) && s in at && s.level == 0 && i < 512 && depth > 0
    ensures at[s] in mem && i < |mem[at[s]]|
    ensures TreeOk(c, depth, root, Write(mem, at[s], i, w), at)
    ensures forall v: nat {:trigger View(Write(mem, at[s], i, w), at, v)} ::
      View(Write(mem, at[s], i, w), at, v) == if v == s.prefix * 512 + i then w else View(mem, at, v)
  {
    assert SpotOk(c, depth, mem, at, s);
    var mem' := Write(mem, at[s], i, w);
    forall t ensures SpotOk(c, depth, mem', at, t) {
      assert SpotOk(c, depth, mem, at, t);
      ReadWrite(mem, at[s], i, w, At(at, Spot(t.level + 1, t.prefix / 512)), t.prefix % 512);
    }
    forall t, j: nat ensures EntryOk(c, mem', at, t, j) {
      assert EntryOk(c, mem, at, t, j);
      ReadWrite(mem, at[s], i, w, At(at, t), j);
    }
    forall v: nat ensures View(mem', at, v) == if v == s.prefix * 512 + i then w else View(mem, at, v) {
      ReadWrite(mem, at[s], i, w, At(at, Spot(0, v / 512)), v % 512);
    }
  }

  // ---- What a tree owns ----

  /** A table of the tree, or a mapped user page. */
  datatype Item = Table(s: Spot) | Page(v: nat)

  /** User pages with permissions the entry format does not show as a leaf are not owned. */
  predicate IsItem(c: Codec, mem: Memory, at: map<Spot, nat>, x: Item) {
    match x
    case Table(s) => s in at
    case Page(v) => var w := View(mem, at, v); c.valid(w) && c.leaf(w, 0) && c.user(w)
  }

  function Addr(c: Codec, mem: Memory, at: map<Spot, nat>, x: Item): (pa: nat) {
    match x
    case Table(s) => At(at, s)
    case Page(v) => c.pa(View(mem, at, v))
  }

  /** `x` belongs to the table at (level, prefix) or to one below it. */
  predicate Under(x: Item, level: nat, prefix: nat) {
    match x
    case Table(s) => s.level <= level && Shift(s.prefix, level - s.level) == prefix
    case Page(v) => Shift(v, level + 1) == prefix
  }

  /** The entry of that table `x` hangs from. */
  function Index(x: Item, level: nat): (i: nat) {
    match x
    case Table(s) => if s.level < level then Shift(s.prefix, level - 1 - s.level) % 512 else 0
    case Page(v) => Shift(v, level) % 512
  }

  predicate UnderEntry(x: Item, level: nat, prefix: nat, i: nat) {
    Under(x, level, prefix) && x != Table(Spot(level, prefix)) && Index(x, level) == i
  }

  /** `x` hangs from an entry of the table before, or not before, entry `i`. */
  predicate Before(x: Item, level: nat, prefix: nat, i: nat) {
    Under(x, level, prefix) && x != Table(Spot(level, prefix)) && Index(x, level) < i
  }

  predicate After(x: Item, level: nat, prefix: nat, i: nat) {
    Under(x, level, prefix) && x != Table(Spot(level, prefix)) && Index(x, level) >= i
  }

  lemma UnderChild(x: Item, level: nat, prefix: nat, i: nat)
    requires level > 0 && i < 512
    ensures Under(x, level - 1, prefix * 512 + i) <==> UnderEntry(x, level, prefix, i)
  {
    match x {
      case Table(s) =>
        if s.level < level {
          assert Shift(s.prefix, level - s.level) == Shift(s.prefix, level - 1 - s.level) / 512;
        }
      case Page(v) =>
        assert Shift(v, level + 1) == Shift(v, level) / 512;
    }
  }

  lemma {:induction false} Ancestor(c: Codec, depth: nat, root: nat, mem: Memory, at: map<Spot, nat>, s: Spot, n: nat)
    requires TreeOk(c, depth, root, mem, at) && s in at && s.level + n <= depth
    ensures Spot(s.level + n, Shift(s.prefix, n)) in at
  {
    if n > 0 {
      Ancestor(c, depth, root, mem, at, s, n - 1);
      assert SpotOk(c, depth, mem, at, Spot(s.level + n - 1, Shift(s.prefix, n - 1)));
    }
  }

  lemma {:induction false} ShiftTwice(v: nat, n: nat)
    ensures Shift(v / 512, n) == Shift(v, n + 1)
  {
    if n > 0 { ShiftTwice(v, n - 1); }
  }

  /** Where there is no table there is nothing. */
  lemma NothingUnder(c: Codec, depth: nat, root: nat, mem: Memory, at: map<Spot, nat>, x: Item, level: nat, prefix: nat)
    requires Laws(c) && TreeOk(c, depth, root, mem, at) && level <= depth && Spot(level, prefix) !in at
    ensures !(IsItem(c, mem, at, x) && Under(x, level, prefix))
  {
    if IsItem(c, mem, at, x) && Under(x, level, prefix) {
      match x {
        case Table(s) => Ancestor(c, depth, root, mem, at, s, level - s.level);
        case Page(v) =>
          ShiftTwice(v, level);
          Ancestor(c, depth, root, mem, at, Spot(0, v / 512), level);
      }
    }
  }

  // ---- Pushing what is freed ----

  /** The free list after the items were pushed in order. */
  function Pushed(c: Codec, mem: Memory, at: map<Spot, nat>, list: seq<nat>, items: seq<Item>): (r: seq<nat>) {
    if items == [] then list
    else [Addr(c, mem, at, items[|items| - 1])] + Pushed(c, mem, at, list, items[..|items| - 1])
  }

  lemma {:induction false} PushedConcat(c: Codec, mem: Memory, at: map<Spot, nat>, list: seq<nat>, a: seq<Item>,
                                        b: seq<Item>)
    ensures Pushed(c, mem, at, list, a + b) == Pushed(c, mem, at, Pushed(c, mem, at, list, a), b)
  {
    if b == [] {
      assert a + b == a;
    } else {
      PushedConcat(c, mem, at, list, a, b[..|b| - 1]);
      assert (a + b)[..|a + b| - 1] == a + b[..|b| - 1];
    }
  }

  lemma {:induction false} PushedHas(c: Codec, mem: Memory, at: map<Spot, nat>, list: seq<nat>, items: seq<Item>,
                                     pa: nat)
    requires pa in Pushed(c, mem, at, list, items)
    ensures pa in list || exists x :: x in items && Addr(c, mem, at, x) == pa
  {
    if items != [] {
      var last := items[|items| - 1];
      if pa != Addr(c, mem, at, last) {
        PushedHas(c, mem, at, list, items[..|items| - 1], pa);
      }
    }
  }

  /** Every item has a frame of its own, a proper one. */
  ghost predicate Owned(c: Codec, mem: Memory, at: map<Spot, nat>) {
    && (forall x {:trigger OwnFrame(c, mem, at, x)} :: OwnFrame(c, mem, at, x))
    && (forall x, y {:trigger OwnFrame(c, mem, at, x), OwnFrame(c, mem, at, y)} ::
          IsItem(c, mem, at, x) && IsItem(c, mem, at, y) && Addr(c, mem, at, x) == Addr(c, mem, at, y) ==> x == y)
  }

  predicate OwnFrame(c: Codec, mem: Memory, at: map<Spot, nat>, x: Item) {
    IsItem(c, mem, at, x) ==> Frame(Addr(c, mem, at, x))
  }

  lemma NotPushed(c: Codec, mem: Memory, at: map<Spot, nat>, list: seq<nat>, items: seq<Item>, x: Item)
    requires Owned(c, mem, at) && IsItem(c, mem, at, x) && x !in items && Addr(c, mem, at, x) !in list
    requires forall y :: y in items ==> IsItem(c, mem, at, y)
    ensures Addr(c, mem, at, x) !in Pushed(c, mem, at, list, items)
    ensures forall y :: y in items ==> Addr(c, mem, at, y) != Addr(c, mem, at, x)
  {
    assert OwnFrame(c, mem, at, x);
    forall y | y in items ensures Addr(c, mem, at, y) != Addr(c, mem, at, x) {
      assert OwnFrame(c, mem, at, y);
    }
    if Addr(c, mem, at, x) in Pushed(c, mem, at, list, items) {
      PushedHas(c, mem, at, list, items, Addr(c, mem, at, x));
    }
  }

  // ---- Frames free and held ----

  /** Frame `p` is a table of the tree or a user page in it. */
  ghost predicate Held(c: Codec, mem: Memory, at: map<Spot, nat>, p: nat) {
    exists x :: HeldAs(c, mem, at, x, p)
  }

  predicate HeldAs(c: Codec, mem: Memory, at: map<Spot, nat>, x: Item, p: nat) {
    IsItem(c, mem, at, x) && Addr(c, mem, at, x) == p
  }

  /** The free list and the tree share out the frames of `frames`: each is free or held by one
      item, never both. */
  ghost predicate Balance(c: Codec, mem: Memory, at: map<Spot, nat>, list: seq<nat>, frames: set<nat>) {
    && Owned(c, mem, at)
    && (forall x {:trigger OwnFrame(c, mem, at, x)} :: IsItem(c, mem, at, x) ==> Addr(c, mem, at, x) !in list)
    && (forall p: nat {:trigger Held(c, mem, at, p)} :: p in frames <==> p in list || Held(c, mem, at, p))
    && (forall p :: p in list ==> p in frames)
  }

  lemma HungItems(c: Codec, mem: Memory, at: map<Spot, nat>, up: Spot, i: nat, new_: nat, mem': Memory,
                  at': map<Spot, nat>, x: Item)
    requires Hung(c, mem, at, up, i, new_, mem', at') && Spot(up.level - 1, up.prefix * 512 + i) !in at
    requires forall s, t :: s in at && t in at && at[s] == at[t] ==> s == t
    ensures
      var down := Table(Spot(up.level - 1, up.prefix * 512 + i));
      && (IsItem(c, mem', at', x) <==> IsItem(c, mem, at, x) || x == down)
      && Addr(c, mem', at', x) == if x == down then new_ else Addr(c, mem, at, x)
  {
    if x.Page? { HungView(c, mem, at, up, i, new_, mem', at', x.v); }
  }

  /** A frame that becomes a table moves from the free list to the tree. */
  lemma HungBalance(c: Codec, mem: Memory, at: map<Spot, nat>, up: Spot, i: nat, new_: nat, mem': Memory,
                    at': map<Spot, nat>,
                    list: seq<nat>, frames: set<nat>)
    requires Hung(c, mem, at, up, i, new_, mem', at') && Spot(up.level - 1, up.prefix * 512 + i) !in at
    requires forall s, t :: s in at && t in at && at[s] == at[t] ==> s == t
    requires list != [] && list[0] == new_ && Distinct(list) && Balance(c, mem, at, list, frames)
    ensures Balance(c, mem', at', list[1..], frames)
  {
    var down := Table(Spot(up.level - 1, up.prefix * 512 + i));
    assert new_ in list && new_ !in list[1..] && list == [new_] + list[1..];
    forall x ensures OwnFrame(c, mem', at', x) && (IsItem(c, mem', at', x) ==> Addr(c, mem', at', x) !in list[1..]) {
      HungItems(c, mem, at, up, i, new_, mem', at', x);
      assert OwnFrame(c, mem, at, x);
    }
    forall x, y | IsItem(c, mem', at', x) && IsItem(c, mem', at', y) &&
                  Addr(c, mem', at', x) == Addr(c, mem', at', y)
      ensures x == y
    {
      HungItems(c, mem, at, up, i, new_, mem', at', x);
      HungItems(c, mem, at, up, i, new_, mem', at', y);
      assert OwnFrame(c, mem, at, x) && OwnFrame(c, mem, at, y);
    }
    forall p: nat ensures Held(c, mem', at', p) <==> Held(c, mem, at, p) || p == new_ {
      HungItems(c, mem, at, up, i, new_, mem', at', down);
      assert HeldAs(c, mem', at', down, new_);
      forall x | HeldAs(c, mem, at, x, p) ensures HeldAs(c, mem', at', x, p) || p == new_ {
        HungItems(c, mem, at, up, i, new_, mem', at', x);
      }
      forall x | HeldAs(c, mem', at', x, p) ensures HeldAs(c, mem, at, x, p) || p == new_ {
        HungItems(c, mem, at, up, i, new_, mem', at', x);
      }
    }
    forall p: nat ensures p in frames <==> p in list[1..] || Held(c, mem', at', p) {
      assert p in list <==> p == new_ || p in list[1..];
      assert p in frames <==> p in list || Held(c, mem, at, p);
      assert Held(c, mem', at', p) <==> Held(c, mem, at, p) || p == new_;
    }
  }

  /** The word is a user page `drop` would free. */
  predicate Shows(c: Codec, w: nat) { c.valid(w) && c.leaf(w, 0) && c.user(w) }

  /** Only the word of page `v` changed. */
  ghost predicate OneWord(mem: Memory, mem': Memory, at: map<Spot, nat>, v: nat, w: nat) {
    forall u: nat {:trigger View(mem', at, u)} :: View(mem', at, u) == if u == v then w else View(mem, at, u)
  }

  lemma SetBalance(c: Codec, mem: Memory, mem': Memory, at: map<Spot, nat>, v: nat, w: nat, list: seq<nat>,
                   frames: set<nat>)
    requires OneWord(mem, mem', at, v, w) && Balance(c, mem, at, list, frames) && !Shows(c, View(mem, at, v))
    requires Shows(c, w) ==> Frame(c.pa(w)) && c.pa(w) !in frames
    ensures Balance(c, mem', at, list, if Shows(c, w) then frames + {c.pa(w)} else frames)
  {
    var page := Page(v);
    forall x ensures IsItem(c, mem', at, x) <==> if x == page then Shows(c, w) else IsItem(c, mem, at, x) {}
    forall x | x != page ensures Addr(c, mem', at, x) == Addr(c, mem, at, x) {}
    OtherHeld(c, mem, mem', at, v, w);
    forall x ensures OwnFrame(c, mem', at, x) && (IsItem(c, mem', at, x) ==> Addr(c, mem', at, x) !in list) {
      assert OwnFrame(c, mem, at, x);
    }
    forall x, y | IsItem(c, mem', at, x) && IsItem(c, mem', at, y) && Addr(c, mem', at, x) == Addr(c, mem', at, y)
      ensures x == y
    {
      assert OwnFrame(c, mem, at, x) && OwnFrame(c, mem, at, y);
      assert x != page ==> HeldAs(c, mem, at, x, Addr(c, mem, at, x)) && Held(c, mem, at, Addr(c, mem, at, x));
      assert y != page ==> HeldAs(c, mem, at, y, Addr(c, mem, at, y)) && Held(c, mem, at, Addr(c, mem, at, y));
    }
    var frames' := if Shows(c, w) then frames + {c.pa(w)} else frames;
    forall p: nat ensures p in frames' <==> p in list || Held(c, mem', at, p) {
      assert Held(c, mem, at, p) || !Held(c, mem, at, p);
    }
  }

  /** What is held after the word of an unowned page changed. */
  lemma OtherHeld(c: Codec, mem: Memory, mem': Memory, at: map<Spot, nat>, v: nat, w: nat)
    requires OneWord(mem, mem', at, v, w) && !Shows(c, View(mem, at, v))
    ensures forall p: nat {:trigger Held(c, mem', at, p)} ::
      Held(c, mem', at, p) <==> Held(c, mem, at, p) || (Shows(c, w) && p == c.pa(w))
  {
    forall p: nat ensures Held(c, mem', at, p) <==> Held(c, mem, at, p) || (Shows(c, w) && p == c.pa(w)) {
      assert Shows(c, w) ==> HeldAs(c, mem', at, Page(v), c.pa(w));
      forall x | HeldAs(c, mem, at, x, p) ensures HeldAs(c, mem', at, x, p) {}
      forall x | HeldAs(c, mem', at, x, p) && x != Page(v) ensures HeldAs(c, mem, at, x, p) {}
    }
  }

  /** Clearing the word of an owned page takes its frame out of the account. */
  lemma ClearBalance(c: Codec, mem: Memory, mem': Memory, at: map<Spot, nat>, v: nat, list: seq<nat>, frames: set<nat>)
    requires !c.valid(0) && OneWord(mem, mem', at, v, 0) && Balance(c, mem, at, list, frames)
    ensures
      var w := View(mem, at, v);
      Balance(c, mem', at, list, if Shows(c, w) then frames - {c.pa(w)} else frames)
  {
    var page, w := Page(v), View(mem, at, v);
    forall x ensures IsItem(c, mem', at, x) <==> IsItem(c, mem, at, x) && x != page {}
    forall x | x != page ensures Addr(c, mem', at, x) == Addr(c, mem, at, x) {}
    assert OwnFrame(c, mem, at, page);
    forall x ensures OwnFrame(c, mem', at, x) && (IsItem(c, mem', at, x) ==> Addr(c, mem', at, x) !in list) {
      assert OwnFrame(c, mem, at, x);
    }
    forall x, y | IsItem(c, mem', at, x) && IsItem(c, mem', at, y) && Addr(c, mem', at, x) == Addr(c, mem', at, y)
      ensures x == y
    {
      assert OwnFrame(c, mem, at, x) && OwnFrame(c, mem, at, y);
    }
    var frames' := if Shows(c, w) then frames - {c.pa(w)} else frames;
    forall p: nat ensures p in frames' <==> p in list || Held(c, mem', at, p) {
      assert p in frames <==> p in list || Held(c, mem, at, p);
      forall x | HeldAs(c, mem, at, x, p) && x != page
        ensures HeldAs(c, mem', at, x, p) && !(Shows(c, w) && p == c.pa(w))
      {
        assert OwnFrame(c, mem, at, x);
      }
      forall x | HeldAs(c, mem', at, x, p) ensures HeldAs(c, mem, at, x, p) && !(Shows(c, w) && p == c.pa(w)) {
        assert OwnFrame(c, mem, at, x);
      }
    }
  }

  /** The items that hang from entry `i` of the table at (level, prefix), as the code finds them. */
  lemma EntryItems(c: Codec, depth: nat, root: nat, m0: Memory, at: map<Spot, nat>, level: nat, prefix: nat, i: nat,
                   x: Item)
    requires Laws(c) && TreeOk(c, depth, root, m0, at) && Spot(level, prefix) in at && level <= depth && i < 512
    ensures
      var w := Read(m0, at[Spot(level, prefix)], i);
      IsItem(c, m0, at, x) && UnderEntry(x, level, prefix, i) <==>
        if level == 0 then x == Page(prefix * 512 + i) && c.valid(w) && c.leaf(w, 0) && c.user(w)
        else c.valid(w) && IsItem(c, m0, at, x) && Under(x, level - 1, prefix * 512 + i)
  {
    var s := Spot(level, prefix);
    if level > 0 {
      var down := Spot(level - 1, prefix * 512 + i);
      UnderChild(x, level, prefix, i);
      assert EntryOk(c, m0, at, s, i) && SpotOk(c, depth, m0, at, s) && SpotOk(c, depth, m0, at, down);
      assert BranchLaw(c, At(at, down));
      if down !in at {
        NothingUnder(c, depth, root, m0, at, x, level - 1, prefix * 512 + i);
      }
    } else {
      match x {
        case Table(t) =>
        case Page(v) => assert Shift(v, 1) == Shift(v, 0) / 512;
      }
    }
  }

  /** The items freed up to entry `i`, then those of entry `i`. */
  lemma MoreItems(c: Codec, m0: Memory, at: map<Spot, nat>, level: nat, prefix: nat, i: nat, items: seq<Item>,
                  more: seq<Item>)
    requires Distinct(items) && Distinct(more)
    requires forall x :: x in items <==> IsItem(c, m0, at, x) && Before(x, level, prefix, i)
    requires forall x :: x in more <==> IsItem(c, m0, at, x) && UnderEntry(x, level, prefix, i)
    ensures Distinct(items + more)
    ensures forall x :: x in items + more <==> IsItem(c, m0, at, x) && Before(x, level, prefix, i + 1)
  {
    var all := items + more;
    forall a, b | 0 <= a < b < |all| ensures all[a] != all[b] {
      if a < |items| <= b {
        assert all[a] in items && all[b] in more;
      }
    }
    forall x ensures x in all <==> IsItem(c, m0, at, x) && Before(x, level, prefix, i + 1) {
      assert x in all <==> x in items || x in more;
    }
  }

  function Members(s: seq<nat>): (r: set<nat>) { set p | p in s }

  /** A word that may be written: if it is an owned page its frame is a proper one outside the account. */
  predicate Addable(c: Codec, w: nat, frames: set<nat>) { Shows(c, w) ==> Frame(c.pa(w)) && c.pa(w) !in frames }

  /** Leaves with these permissions are owned by the tree. */
  predicate OwnedPerm(c: Codec, perm: Perm) { perm.user && c.leafy(perm) }

  /** `n` frames from `pa` on may be mapped: as user pages only if all of them are proper frames that
      are neither free nor held. */
  ghost predicate Mappable(c: Codec, pa: nat, n: nat, perm: Perm, frames: set<nat>) {
    OwnedPerm(c, perm) ==> forall i: nat {:trigger FrameAt(pa, i)} :: i < n ==>
      Frame(FrameAt(pa, i)) && FrameAt(pa, i) !in frames
  }

  function FrameAt(pa: nat, i: nat): (p: nat) { pa + i * 4096 }

  /** The frames the account gains when the first `k` pages of a range are mapped. */
  function Gained(c: Codec, pa: nat, k: nat, perm: Perm): (s: set<nat>) {
    if OwnedPerm(c, perm) then set i | 0 <= i < k :: FrameAt(pa, i) else {}
  }

  lemma NextGained(c: Codec, pa: nat, n: nat, k: nat, perm: Perm, mmio: bool, frames: set<nat>)
    requires Laws(c) && pa % 4096 == 0 && k < n && Mappable(c, pa, n, perm, frames)
    ensures
      var w, now := c.mkLeaf(pa + k * 4096, perm, mmio), frames + Gained(c, pa, k, perm);
      && Addable(c, w, now)
      && frames + Gained(c, pa, k + 1, perm) == if Shows(c, w) then now + {c.pa(w)} else now
  {
    var p := FrameAt(pa, k);
    assert p % 4096 == 0;
    assert LeafLaw(c, p, perm, mmio);
    if OwnedPerm(c, perm) {
      assert Frame(p) && p !in frames;
      Wraps(p, c.limit);
      assert Gained(c, pa, k + 1, perm) == Gained(c, pa, k, perm) + {p};
    }
  }

  lemma {:induction false} PushedAll(c: Codec, mem: Memory, at: map<Spot, nat>, list: seq<nat>, items: seq<Item>)
    ensures forall p :: p in list ==> p in Pushed(c, mem, at, list, items)
    ensures forall x :: x in items ==> Addr(c, mem, at, x) in Pushed(c, mem, at, list, items)
  {
    if items != [] {
      var init, last := items[..|items| - 1], items[|items| - 1];
      PushedAll(c, mem, at, list, init);
      assert items == init + [last];
    }
  }

  /** With all items pushed, the free list is the whole account. */
  lemma AllBack(c: Codec, mem: Memory, at: map<Spot, nat>, list: seq<nat>, items: seq<Item>, frames: set<nat>)
    requires Balance(c, mem, at, list, frames) && forall x :: x in items <==> IsItem(c, mem, at, x)
    ensures forall p: nat :: p in Pushed(c, mem, at, list, items) <==> p in frames
  {
    PushedAll(c, mem, at, list, items);
    forall p: nat ensures p in Pushed(c, mem, at, list, items) <==> p in frames {
      assert p in frames <==> p in list || Held(c, mem, at, p);
      if p in Pushed(c, mem, at, list, items) {
        PushedHas(c, mem, at, list, items, p);
        if p !in list {
          var x :| x in items && Addr(c, mem, at, x) == p;
          assert HeldAs(c, mem, at, x, p);
        }
      }
    }
  }

  /** A new root holds one frame and the rest is free. */
  lemma FreshBalance(c: Codec, depth: nat, mem: Memory, at: map<Spot, nat>, root: nat, list: seq<nat>)
    requires Laws(c) && list != [] && list[0] == root && Distinct(list) && Frame(root)
    requires at == map[Spot(depth, 0) := root] && root in mem && mem[root] == Zeros()
    ensures Balance(c, mem, at, list[1..], Members(list))
  {
    var top := Table(Spot(depth, 0));
    assert list == [root] + list[1..] && root !in list[1..];
    forall x ensures IsItem(c, mem, at, x) <==> x == top {}
    forall x ensures OwnFrame(c, mem, at, x) && (IsItem(c, mem, at, x) ==> Addr(c, mem, at, x) !in list[1..]) {}
    forall p: nat ensures p in Members(list) <==> p in list[1..] || Held(c, mem, at, p) {
      assert HeldAs(c, mem, at, top, root);
      forall x | HeldAs(c, mem, at, x, p) ensures p == root {}
    }
  }

  // ---- The operations ----

  datatype MapResult = Ok | Misaligned | OutOfRange | Oom | Remap

  /** The word `map` writes for page `v` of a range that starts at page `v0`, frame `pa0`. */
  function LeafFor(c: Codec, v0: nat, pa0: nat, perm: Perm, mmio: bool, v: nat): (w: nat)
    requires v >= v0
  {
    c.mkLeaf(pa0 + (v - v0) * 4096, perm, mmio)
  }

  /** The words of the `k` pages from `v0` on, invalid in (mem0, at0), are the leaves `map` writes; all
      other words are as they were. */
  ghost predicate Mapped(c: Codec, mem0: Memory, at0: map<Spot, nat>, mem: Memory, at: map<Spot, nat>,
                         v0: nat, k: nat, pa: nat, perm: Perm, mmio: bool) {
    && (forall u: nat {:trigger View(mem0, at0, u)} :: v0 <= u < v0 + k ==> !c.valid(View(mem0, at0, u)))
    && (forall u: nat {:trigger View(mem, at, u)} ::
          View(mem, at, u) == if v0 <= u < v0 + k then LeafFor(c, v0, pa, perm, mmio, u) else View(mem0, at0, u))
  }

  lemma MappedNext(c: Codec, mem0: Memory, at0: map<Spot, nat>, mem1: Memory, at1: map<Spot, nat>,
                   mem: Memory, at: map<Spot, nat>, v0: nat, k: nat, pa: nat, perm: Perm, mmio: bool, ok: bool)
    requires Mapped(c, mem0, at0, mem1, at1, v0, k, pa, perm, mmio) && (ok ==> !c.valid(View(mem1, at1, v0 + k)))
    requires forall u: nat {:trigger View(mem, at, u)} ::
               View(mem, at, u) == if u == v0 + k && ok then c.mkLeaf(pa + k * 4096, perm, mmio) else View(mem1, at1, u)
    ensures Mapped(c, mem0, at0, mem, at, v0, if ok then k + 1 else k, pa, perm, mmio)
  {
    assert View(mem1, at1, v0 + k) == View(mem0, at0, v0 + k);
  }

  /** A tree of this depth reaches all pages below the bound. */
  ghost predicate Reaches(depth: nat, pages: nat) {
    depth > 0 && forall v: nat {:trigger Shift(v, depth + 1)} :: v < pages ==> Shift(v, depth + 1) == 0
  }

  class Space {
    const c: Codec
    const depth: nat
    const pages: nat
    const kernbase: nat
    var root: nat
    var mem: Memory
    ghost var at: map<Spot, nat>

    /** Every page below the bound is reachable from the root; the tables are not free frames. */
    ghost predicate Valid(fa: FrameAlloc)
      reads this, fa
    {
      && Laws(c) && Reaches(depth, pages)
      && fa.Valid() && TreeOk(c, depth, root, mem, at)
      && forall s :: s in at ==> at[s] !in fa.list
    }

    ghost function Sees(v: nat): (w: nat)
      reads this
    {
      View(mem, at, v)
    }

    /** Every frame of `frames` is free or held by one item of the tree, and no other frame is. */
    ghost predicate Keeps(fa: FrameAlloc, frames: set<nat>)
      reads this, fa
    {
      Balance(c, mem, at, fa.list, frames)
    }

    /** Take a frame for the table below entry `i` of the table at `up`. */
    method Hang(fa: FrameAlloc, table: nat, i: nat, ghost up: Spot, ghost frames: set<nat>) returns (r: Option<nat>)
      requires Valid(fa) && up in at && up.level > 0 && at[up] == table && i < 512 && Read(mem, table, i) == 0
      modifies this, fa
      ensures Valid(fa) && root == old(root)
      ensures forall v: nat {:trigger Sees(v)} :: Sees(v) == old(Sees(v))
      ensures old(Keeps(fa, frames)) ==> Keeps(fa, frames)
      ensures r.None? ==> fa.list == old(fa.list) == []
      ensures r.Some? ==> |fa.list| + 1 == |old(fa.list)|
      ensures r.Some? ==> var down := Spot(up.level - 1, up.prefix * 512 + i); down in at && at[down] == r.value
    {
      assert SpotOk(c, depth, mem, at, up);
      ghost var list := fa.list;
      r := fa.Pop();
      if r.None? {
        return;
      }
      ghost var mem0, at0 := mem, at;
      mem := mem[r.value := Zeros()];
      mem := Write(mem, table, i, c.mkBranch(r.value));
      at := at[Spot(up.level - 1, up.prefix * 512 + i) := r.value];
      assert Hung(c, mem0, at0, up, i, r.value, mem, at);
      HungTree(c, depth, root, mem0, at0, up, i, r.value, mem, at);
      forall v: nat ensures Sees(v) == old(Sees(v)) {
        HungView(c, mem0, at0, up, i, r.value, mem, at, v);
      }
      if Balance(c, mem0, at0, list, frames) {
        HungBalance(c, mem0, at0, up, i, r.value, mem, at, list, frames);
      }
    }

    /** `walk` with an allocator: the lowest-level table for page `v`, missing tables created. */
    method Walk(fa: FrameAlloc, v: nat, ghost frames: set<nat>) returns (r: Option<nat>)
      requires Valid(fa) && v < pages
      modifies this, fa
      ensures Valid(fa) && root == old(root)
      ensures forall u: nat {:trigger Sees(u)} :: Sees(u) == old(Sees(u))
      ensures old(Keeps(fa, frames)) ==> Keeps(fa, frames)
      ensures r.None? ==> fa.list == [] && |old(fa.list)| < depth
      ensures |old(fa.list)| <= |fa.list| + depth
      ensures r.Some? ==> Spot(0, v / 512) in at && at[Spot(0, v / 512)] == r.value
    {
      var table, level: nat := root, depth;
      assert Shift(v, depth + 1) == 0;
      while level > 0
        invariant level <= depth && Valid(fa) && root == old(root) && |old(fa.list)| + level <= |fa.list| + depth
        invariant Spot(level, Shift(v, level + 1)) in at && at[Spot(level, Shift(v, level + 1))] == table
        invariant forall u: nat {:trigger Sees(u)} :: Sees(u) == old(Sees(u))
        invariant old(Keeps(fa, frames)) ==> Keeps(fa, frames)
      {
        ghost var s := Spot(level, Shift(v, level + 1));
        var i := Shift(v, level) % 512;
        Step(v, level);
        assert SpotOk(c, depth, mem, at, s) && EntryOk(c, mem, at, s, i);
        ghost var down := Spot(level - 1, Shift(v, level));
        assert SpotOk(c, depth, mem, at, down) && BranchLaw(c, At(at, down));
        var w := mem[table][i];
        if c.valid(w) {
          table := c.pa(w);
        } else {
          var new_ := Hang(fa, table, i, s, frames);
          if new_.None? {
            return None;
          }
          table := new_.value;
        }
        level := level - 1;
      }
      assert Shift(v, 1) == Shift(v, 0) / 512;
      r := Some(table);
    }

    /** `walk` without one. */
    method Find(fa: FrameAlloc, v: nat) returns (r: Option<nat>)
      requires Valid(fa) && v < pages
      ensures r.None? ==> Spot(0, v / 512) !in at
      ensures r.Some? ==> Spot(0, v / 512) in at && at[Spot(0, v / 512)] == r.value
    {
      var table, level: nat := root, depth;
      assert Shift(v, depth + 1) == 0;
      while level > 0
        invariant level <= depth
        invariant Spot(level, Shift(v, level + 1)) in at && at[Spot(level, Shift(v, level + 1))] == table
      {
        ghost var s := Spot(level, Shift(v, level + 1));
        var i := Shift(v, level) % 512;
        Step(v, level);
        assert SpotOk(c, depth, mem, at, s) && EntryOk(c, mem, at, s, i);
        ghost var down := Spot(level - 1, Shift(v, level));
        assert SpotOk(c, depth, mem, at, down) && BranchLaw(c, At(at, down));
        var w := mem[table][i];
        if !c.valid(w) {
          NoTable(c, depth, root, mem, at, v, level - 1);
          return None;
        }
        table := c.pa(w);
        level := level - 1;
      }
      assert Shift(v, 1) == Shift(v, 0) / 512;
      r := Some(table);
    }

    /** Map one page, if it is not mapped. A user page adds its frame to the account. */
    method MapPage(fa: FrameAlloc, v: nat, w: nat, ghost frames: set<nat>) returns (r: MapResult)
      requires Valid(fa) && v < pages
      modifies this, fa
      ensures Valid(fa) && root == old(root) && (r == Ok || r == Oom || r == Remap)
      ensures r == Ok ==> !c.valid(old(Sees(v)))
      ensures r == Oom ==> fa.list == [] && |old(fa.list)| < depth
      ensures |old(fa.list)| <= |fa.list| + depth
      ensures r == Remap ==> c.valid(old(Sees(v)))
      ensures forall u: nat {:trigger Sees(u)} :: Sees(u) == if u == v && r == Ok then w else old(Sees(u))
      ensures old(Keeps(fa, frames)) && Addable(c, w, frames) ==>
                Keeps(fa, if r == Ok && Shows(c, w) then frames + {c.pa(w)} else frames)
    {
      var table := Walk(fa, v, frames);
      if table.None? {
        return Oom;
      }
      ghost var s := Spot(0, v / 512);
      assert SpotOk(c, depth, mem, at, s);
      var existing := mem[table.value][v % 512];
      assert existing == Sees(v) == old(Sees(v));
      if c.valid(existing) {
        return Remap;
      }
      SetWord(fa, table.value, v, w, frames);
      r := Ok;
    }

    /** Write the word of page `v`, which holds no owned page, into its lowest-level table. */
    method SetWord(fa: FrameAlloc, table: nat, v: nat, w: nat, ghost frames: set<nat>)
      requires Valid(fa) && Spot(0, v / 512) in at && at[Spot(0, v / 512)] == table
      modifies this`mem
      ensures Valid(fa)
      ensures forall u: nat {:trigger Sees(u)} :: Sees(u) == if u == v then w else old(Sees(u))
      ensures OneWord(old(mem), mem, at, v, w)
      ensures !Shows(c, old(Sees(v))) && old(Keeps(fa, frames)) && Addable(c, w, frames) ==>
                Keeps(fa, if Shows(c, w) then frames + {c.pa(w)} else frames)
    {
      ghost var s, mem0 := Spot(0, v / 512), mem;
      assert SpotOk(c, depth, mem, at, s);
      WriteLeaf(c, depth, root, mem, at, s, v % 512, w);
      mem := Write(mem, table, v % 512, w);
      forall u: nat ensures View(mem, at, u) == if u == v then w else View(mem0, at, u) {
        assert View(Write(mem0, at[s], v % 512, w), at, u) == if u == v then w else View(mem0, at, u);
      }
      if !Shows(c, View(mem0, at, v)) && Balance(c, mem0, at, fa.list, frames) && Addable(c, w, frames) {
        SetBalance(c, mem0, mem, at, v, w, fa.list, frames);
      }
    }

    /** The loop of `map` over `n` pages from page `v0`; `k` pages got their words. */
    method MapRange(fa: FrameAlloc, v0: nat, pa: nat, n: nat, perm: Perm, mmio: bool, ghost frames: set<nat>)
        returns (r: MapResult, ghost k: nat)
      requires Valid(fa) && v0 + n <= pages && pa % 4096 == 0
      modifies this, fa
      ensures Valid(fa) && root == old(root) && k <= n && (r == Ok || r == Oom || r == Remap)
      ensures if r == Ok then k == n else k < n
      ensures r == Remap ==> c.valid(old(Sees(v0 + k)))
      ensures r == Oom ==> fa.list == [] && |old(fa.list)| < depth * (k + 1)
      ensures |old(fa.list)| <= |fa.list| + depth * (if r == Ok then k else k + 1)
      ensures forall u: nat {:trigger old(Sees(u))} :: v0 <= u < v0 + k ==> !c.valid(old(Sees(u)))
      ensures forall u: nat {:trigger Sees(u)} ::
        Sees(u) == if v0 <= u < v0 + k then LeafFor(c, v0, pa, perm, mmio, u) else old(Sees(u))
      ensures old(Keeps(fa, frames)) && Mappable(c, pa, n, perm, frames) ==> Keeps(fa, frames + Gained(c, pa, k, perm))
    {
      var v, p := v0, pa;
      k := 0;
      assert frames + Gained(c, pa, 0, perm) == frames;
      ghost var mem0, at0, kept := mem, at, Keeps(fa, frames) && Mappable(c, pa, n, perm, frames);
      while v < v0 + n
        invariant v == v0 + k && k <= n && p == pa + k * 4096
        invariant Valid(fa) && root == old(root)
        invariant Mapped(c, mem0, at0, mem, at, v0, k, pa, perm, mmio)
        invariant |old(fa.list)| <= |fa.list| + depth * k
        invariant kept ==> Keeps(fa, frames + Gained(c, pa, k, perm))
      {
        assert Sees(v) == View(mem0, at0, v);
        assert depth * (k + 1) == depth * k + depth;
        r := MapNext(fa, v, p, perm, mmio, v0, k, pa, n, frames, mem0, at0, kept);
        if r != Ok {
          return r, k;
        }
        v, p, k := v + 1, p + 4096, k + 1;
      }
      r := Ok;
    }

    /** One round of that loop. */
    method MapNext(fa: FrameAlloc, v: nat, p: nat, perm: Perm, mmio: bool, ghost v0: nat, ghost k: nat, ghost pa: nat,
                   ghost n: nat, ghost frames: set<nat>, ghost mem0: Memory, ghost at0: map<Spot, nat>,
                   ghost kept: bool)
        returns (r: MapResult)
      requires Valid(fa) && v < pages && v == v0 + k && k < n && p == pa + k * 4096 && pa % 4096 == 0
      requires Mapped(c, mem0, at0, mem, at, v0, k, pa, perm, mmio)
      requires kept ==> Mappable(c, pa, n, perm, frames) && Keeps(fa, frames + Gained(c, pa, k, perm))
      modifies this, fa
      ensures Valid(fa) && root == old(root) && (r == Ok || r == Oom || r == Remap)
      ensures Mapped(c, mem0, at0, mem, at, v0, if r == Ok then k + 1 else k, pa, perm, mmio)
      ensures r == Remap ==> c.valid(View(mem0, at0, v))
      ensures r == Oom ==> fa.list == [] && |old(fa.list)| < depth
      ensures |old(fa.list)| <= |fa.list| + depth
      ensures kept ==> Keeps(fa, frames + Gained(c, pa, if r == Ok then k + 1 else k, perm))
    {
      assert Sees(v) == View(mem0, at0, v);
      if kept { NextGained(c, pa, n, k, perm, mmio, frames); }
      ghost var mem1, at1 := mem, at;
      r := MapPage(fa, v, c.mkLeaf(p, perm, mmio), frames + Gained(c, pa, k, perm));
      forall u: nat
        ensures View(mem, at, u) == if u == v && r == Ok then c.mkLeaf(p, perm, mmio) else View(mem1, at1, u)
      {
        assert Sees(u) == if u == v && r == Ok then c.mkLeaf(p, perm, mmio) else old(Sees(u));
      }
      MappedNext(c, mem0, at0, mem1, at1, mem, at, v0, k, pa, perm, mmio, r == Ok);
    }

    /** Map a range of frames. On success exactly the pages of the range get new words; on an error
        after the checks a proper prefix of them does, and the next page is mapped already or no
        frame was left. In every case the account of frames gains exactly the user pages mapped, and
        each page costs at most `depth` frames for tables. */
    method Map(fa: FrameAlloc, va: nat, pa: nat, size: nat, perm: Perm, ghost frames: set<nat>)
        returns (r: MapResult, ghost k: nat)
      requires Valid(fa)
      modifies this, fa
      ensures Valid(fa) && root == old(root) && k <= size / 4096
      ensures r == Misaligned <==> va % 4096 != 0 || pa % 4096 != 0 || size % 4096 != 0 || size == 0
      ensures r == OutOfRange <==>
                !(va % 4096 != 0 || pa % 4096 != 0 || size % 4096 != 0 || size == 0) && va + size > 4096 * pages
      ensures r == Misaligned || r == OutOfRange ==> k == 0
      ensures r == Ok ==> k == size / 4096
      ensures r == Oom || r == Remap ==> k < size / 4096
      ensures r == Remap ==> c.valid(old(Sees(va / 4096 + k)))
      ensures r == Oom ==> fa.list == [] && |old(fa.list)| < depth * (k + 1)
      ensures |old(fa.list)| <= |fa.list| + depth * (if r == Oom || r == Remap then k + 1 else k)
      ensures forall u: nat {:trigger old(Sees(u))} :: va / 4096 <= u < va / 4096 + k ==> !c.valid(old(Sees(u)))
      ensures forall u: nat {:trigger Sees(u)} ::
        Sees(u) == if va / 4096 <= u < va / 4096 + k then LeafFor(c, va / 4096, pa, perm, pa < kernbase, u)
          else old(Sees(u))
      ensures old(Keeps(fa, frames)) && Mappable(c, pa, size / 4096, perm, frames) ==>
                Keeps(fa, frames + Gained(c, pa, k, perm))
    {
      k := 0;
      assert frames + Gained(c, pa, 0, perm) == frames;
      if va % 4096 != 0 || pa % 4096 != 0 || size % 4096 != 0 || size == 0 {
        return Misaligned, k;
      }
      var end := va + size;
      if end > 4096 * pages {
        return OutOfRange, k;
      }
      r, k := MapRange(fa, va / 4096, pa, size / 4096, perm, pa < kernbase, frames);
    }

    /** Remove exactly one page and return its frame, which leaves the account if it was owned. */
    method UnmapPage(fa: FrameAlloc, va: nat, ghost frames: set<nat>) returns (r: Option<nat>)
      requires Valid(fa)
      modifies this
      ensures Valid(fa) && root == old(root) && at == old(at)
      ensures
        var w := old(Sees(va / 4096));
        r == if va < 4096 * pages && va % 4096 == 0 && c.valid(w) && c.leaf(w, 0) then Some(c.pa(w)) else None
      ensures forall u: nat {:trigger Sees(u)} :: Sees(u) == if r.Some? && u == va / 4096 then 0 else old(Sees(u))
      ensures old(Keeps(fa, frames)) ==>
                Keeps(fa, if r.Some? && c.user(old(Sees(va / 4096))) then frames - {r.value} else frames)
    {
      if va >= 4096 * pages || va % 4096 != 0 {
        return None;
      }
      var v := va / 4096;
      var table := Find(fa, v);
      if table.None? {
        return None;
      }
      assert SpotOk(c, depth, mem, at, Spot(0, v / 512));
      var w := mem[table.value][v % 512];
      assert w == Sees(v);
      if !c.valid(w) || !c.leaf(w, 0) {
        return None;
      }
      ghost var mem0 := mem;
      SetWord(fa, table.value, v, 0, frames);
      if Balance(c, mem0, at, fa.list, frames) {
        ClearBalance(c, mem0, mem, at, v, fa.list, frames);
      }
      r := Some(c.pa(w));
    }

    /** The loop of `translate`, upper-level leaves included. */
    method Translate(fa: FrameAlloc, va: nat) returns (r: Option<(nat, Perm)>)
      requires Valid(fa)
      ensures va >= 4096 * pages ==> r == None
      ensures va < 4096 * pages ==> r == Meaning(c, Sees(va / 4096), va)
    {
      if va >= 4096 * pages {
        return None;
      }
      r := WalkDown(va);
      assert Shift(va / 4096, depth + 1) == 0;
      TransView(c, depth, root, mem, at, va, depth);
    }

    method WalkDown(va: nat) returns (r: Option<(nat, Perm)>)
      ensures r == TransFrom(c, mem, root, depth, va)
    {
      var table, level: nat := root, depth;
      while level > 0
        invariant TransFrom(c, mem, table, level, va) == TransFrom(c, mem, root, depth, va)
      {
        var w := Read(mem, table, Shift(va / 4096, level) % 512);
        if !c.valid(w) {
          return None;
        }
        if c.leaf(w, level) {
          return Some((c.pa(w) + Within(va, level), c.perm(w)));
        }
        table, level := c.pa(w), level - 1;
      }
      var w := Read(mem, table, va / 4096 % 512);
      if !c.valid(w) {
        return None;
      }
      r := Some((c.pa(w) + va % 4096, c.perm(w)));
    }

    // ---- Drop ----

    /** What `free_subtree` may rely on: the tables under (level, prefix) still read as they did when
        the drop began (`m0`), and no frame of an item there is free. */
    ghost predicate Intact(fa: FrameAlloc, m0: Memory, level: nat, prefix: nat)
      reads this, fa
    {
      && Laws(c) && TreeOk(c, depth, root, m0, at) && Owned(c, m0, at) && fa.Valid() && level <= depth
      && (forall x {:trigger Whole(fa, m0, x)} :: IsItem(c, m0, at, x) && Under(x, level, prefix) ==> Whole(fa, m0, x))
    }

    ghost predicate Whole(fa: FrameAlloc, m0: Memory, x: Item)
      reads this, fa
    {
      && Addr(c, m0, at, x) !in fa.list
      && (x.Table? && x.s in at ==> at[x.s] in m0 && at[x.s] in mem && mem[at[x.s]] == m0[at[x.s]])
    }

    /** Frames that belong to none of the items are as they were. */
    ghost predicate Untouched(m0: Memory, before: Memory, items: seq<Item>)
      reads this
    {
      forall t :: t in before && (forall x :: x in items ==> Addr(c, m0, at, x) != t) ==>
          t in mem && mem[t] == before[t]
    }

    ghost predicate UntouchedBut(m0: Memory, before: Memory, items: seq<Item>, table: nat)
      reads this
    {
      forall t :: t in before && t != table && (forall x :: x in items ==> Addr(c, m0, at, x) != t) ==>
          t in mem && mem[t] == before[t]
    }

    method FreeFrame(fa: FrameAlloc, pa: nat)
      requires fa.Valid() && Frame(pa) && pa !in fa.list
      modifies this`mem, fa
      ensures fa.Valid() && fa.list == [pa] + old(fa.list) && mem == old(mem) - {pa}
    {
      fa.Push(pa);
      mem := mem - {pa};
    }

    /** One round of the loop of `free_subtree`. */
    method FreeEntry(fa: FrameAlloc, table: nat, level: nat, i: nat, ghost prefix: nat, ghost m0: Memory)
      returns (ghost items: seq<Item>)
      requires Laws(c) && TreeOk(c, depth, root, m0, at) && Owned(c, m0, at) && fa.Valid() && level <= depth && i < 512
      requires Spot(level, prefix) in at && at[Spot(level, prefix)] == table
      requires table in mem && |mem[table]| == 512 && mem[table][i] == Read(m0, table, i)
      requires forall x {:trigger Whole(fa, m0, x)} :: IsItem(c, m0, at, x) && UnderEntry(x, level, prefix, i) ==>
                 Whole(fa, m0, x)
      modifies this`mem, fa
      ensures fa.Valid() && Distinct(items) && fa.list == Pushed(c, m0, at, old(fa.list), items)
      ensures forall x :: x in items <==> IsItem(c, m0, at, x) && UnderEntry(x, level, prefix, i)
      ensures Untouched(m0, old(mem), items)
      decreases level, 0
    {
      forall x ensures
        IsItem(c, m0, at, x) && UnderEntry(x, level, prefix, i) <==>
          var w := Read(m0, table, i);
          if level == 0 then x == Page(prefix * 512 + i) && c.valid(w) && c.leaf(w, 0) && c.user(w)
          else c.valid(w) && IsItem(c, m0, at, x) && Under(x, level - 1, prefix * 512 + i)
      {
        EntryItems(c, depth, root, m0, at, level, prefix, i, x);
      }
      items := [];
      var w := mem[table][i];
      if !c.valid(w) {
        return;
      }
      if level > 0 {
        ghost var down := Spot(level - 1, prefix * 512 + i);
        assert EntryOk(c, m0, at, Spot(level, prefix), i) && SpotOk(c, depth, m0, at, down);
        assert BranchLaw(c, At(at, down));
      }
      var target := c.pa(w);
      if c.leaf(w, level) {
        if c.user(w) {
          ghost var x := Page(prefix * 512 + i);
          assert IsItem(c, m0, at, x) && OwnFrame(c, m0, at, x) && Whole(fa, m0, x);
          FreeFrame(fa, target);
          items := [x];
        }
      } else if level > 0 {
        items := FreeSubtree(fa, target, level - 1, prefix * 512 + i, m0);
      }
    }

    /** The state of the loop of `free_subtree` before entry `i`: `items` are freed. */
    ghost predicate Sweep(fa: FrameAlloc, m0: Memory, before: Memory, list: seq<nat>,
                          table: nat, level: nat, prefix: nat, i: nat, items: seq<Item>)
      reads this, fa
    {
      && Laws(c) && TreeOk(c, depth, root, m0, at) && Owned(c, m0, at) && fa.Valid() && level <= depth && i <= 512
      && Spot(level, prefix) in at && at[Spot(level, prefix)] == table
      && Distinct(items) && fa.list == Pushed(c, m0, at, list, items)
      && (forall x :: x in items <==> IsItem(c, m0, at, x) && Before(x, level, prefix, i))
      && (forall x {:trigger Whole(fa, m0, x)} :: IsItem(c, m0, at, x) && After(x, level, prefix, i) ==>
          Whole(fa, m0, x))
      && table in mem && |mem[table]| == 512 && table !in fa.list
      && (forall j :: i <= j < 512 ==> mem[table][j] == Read(m0, table, j))
      && UntouchedBut(m0, before, items, table)
    }

    method FreeRound(fa: FrameAlloc, table: nat, level: nat, i: nat,
                     ghost prefix: nat, ghost m0: Memory, ghost before: Memory, ghost list: seq<nat>,
                     ghost items: seq<Item>)
        returns (ghost all: seq<Item>)
      requires i < 512 && Sweep(fa, m0, before, list, table, level, prefix, i, items)
      modifies this`mem, fa
      ensures Sweep(fa, m0, before, list, table, level, prefix, i + 1, all)
      decreases level, 1
    {
      ghost var mem1, list1, spot := mem, fa.list, Spot(level, prefix);
      assert IsItem(c, m0, at, Table(spot)) && OwnFrame(c, m0, at, Table(spot));
      ghost var more := FreeEntry(fa, table, level, i, prefix, m0);
      all := items + more;
      MoreItems(c, m0, at, level, prefix, i, items, more);
      PushedConcat(c, m0, at, list, items, more);
      NotPushed(c, m0, at, list1, more, Table(spot));
      assert mem[table] == mem1[table];
      if c.valid(mem[table][i]) {
        mem := Write(mem, table, i, 0);
      }
      forall x | IsItem(c, m0, at, x) && After(x, level, prefix, i + 1) ensures Whole(fa, m0, x) {
        assert old(Whole(fa, m0, x));
        NotPushed(c, m0, at, list1, more, x);
      }
      assert UntouchedBut(m0, before, all, table);
    }

    /** Frees every table and every user page under (level, prefix), each exactly once. */
    method FreeSubtree(fa: FrameAlloc, table: nat, level: nat, ghost prefix: nat, ghost m0: Memory)
      returns (ghost items: seq<Item>)
      requires Intact(fa, m0, level, prefix)
      requires Spot(level, prefix) in at && at[Spot(level, prefix)] == table
      modifies this`mem, fa
      ensures fa.Valid() && Distinct(items) && fa.list == Pushed(c, m0, at, old(fa.list), items)
      ensures forall x :: x in items <==> IsItem(c, m0, at, x) && Under(x, level, prefix)
      ensures Untouched(m0, old(mem), items)
      decreases level, 2
    {
      ghost var spot := Spot(level, prefix);
      assert SpotOk(c, depth, m0, at, spot);
      assert IsItem(c, m0, at, Table(spot)) && Whole(fa, m0, Table(spot)) && OwnFrame(c, m0, at, Table(spot));
      items := [];
      var i := 0;
      while i < 512
        invariant i <= 512 && Sweep(fa, m0, old(mem), old(fa.list), table, level, prefix, i, items)
      {
        items := FreeRound(fa, table, level, i, prefix, m0, old(mem), old(fa.list), items);
        i := i + 1;
      }
      assert Table(spot) !in items;
      FreeFrame(fa, table);
      ghost var all := items + [Table(spot)];
      assert all[..|all| - 1] == items;
      forall x ensures x in all <==> IsItem(c, m0, at, x) && Under(x, level, prefix) {
        assert x in all <==> x in items || x == Table(spot);
      }
      items := all;
    }

    /** Dropping the table frees every table frame and every user page the tree owns exactly once and
        nothing else, so that all frames of the account are free; the placeholder with root 0
        owns nothing. */
    method Drop(fa: FrameAlloc, ghost frames: set<nat>) returns (ghost items: seq<Item>)
      requires fa.Valid()
      requires root != 0 ==> Valid(fa) && Keeps(fa, frames)
      modifies this`mem, fa
      ensures fa.Valid() && Distinct(items)
      ensures root == 0 ==> items == []
      ensures root != 0 ==> forall x :: x in items <==> IsItem(c, old(mem), old(at), x)
      ensures fa.list == Pushed(c, old(mem), old(at), old(fa.list), items)
      ensures root != 0 ==> forall p: nat :: p in fa.list <==> p in frames
    {
      items := [];
      if root != 0 {
        ghost var m0, list := mem, fa.list;
        forall x | IsItem(c, m0, at, x) ensures Under(x, depth, 0) && Whole(fa, m0, x) {
          assert OwnFrame(c, m0, at, x);
          UnderRoot(c, depth, root, m0, at, x);
        }
        items := FreeSubtree(fa, root, depth, 0, m0);
        forall x ensures x in items <==> IsItem(c, m0, at, x) {
          if IsItem(c, m0, at, x) { UnderRoot(c, depth, root, m0, at, x); }
        }
        AllBack(c, m0, at, list, items, frames);
      }
    }

    /** `new`: one zeroed frame as the root, or out of memory. */
    static method New(c: Codec, depth: nat, pages: nat, kernbase: nat, mem: Memory, fa: FrameAlloc)
      returns (r: Option<Space>)
      requires Laws(c) && Reaches(depth, pages) && fa.Valid()
      modifies fa
      ensures r.None? <==> old(fa.list) == []
      ensures fa.Valid() && (r.None? ==> fa.list == [])
      ensures r.Some? ==>
                r.value.c == c && r.value.depth == depth && r.value.pages == pages && r.value.kernbase == kernbase
      ensures r.Some? ==>
                fresh(r.value) && r.value.Valid(fa) && r.value.root == old(fa.list)[0] && fa.list == old(fa.list)[1..]
      ensures r.Some? ==> forall v: nat {:trigger r.value.Sees(v)} :: r.value.Sees(v) == 0
      ensures r.Some? ==> r.value.Keeps(fa, Members(old(fa.list)))
    {
      ghost var list := fa.list;
      var f := fa.Pop();
      if f.None? {
        return None;
      }
      var space := new Space(c, depth, pages, kernbase, mem[f.value := Zeros()], f.value);
      forall s ensures SpotOk(c, depth, space.mem, space.at, s) {}
      forall s, i: nat ensures EntryOk(c, space.mem, space.at, s, i) {}
      assert space.Valid(fa);
      FreshBalance(c, depth, space.mem, space.at, f.value, list);
      r := Some(space);
    }

    constructor (c: Codec, depth: nat, pages: nat, kernbase: nat, mem: Memory, root: nat)
      ensures this.c == c && this.depth == depth && this.pages == pages && this.kernbase == kernbase
      ensures this.mem == mem && this.root == root && at == map[Spot(depth, 0) := root]
    {
      this.c, this.depth, this.pages, this.kernbase := c, depth, pages, kernbase;
      this.mem, this.root := mem, root;
      at := map[Spot(depth, 0) := root];
    }
  }

  lemma UnderRoot(c: Codec, depth: nat, root: nat, mem: Memory, at: map<Spot, nat>, x: Item)
    requires Laws(c) && TreeOk(c, depth, root, mem, at) && IsItem(c, mem, at, x)
    ensures Under(x, depth, 0)
    ensures x.Table? ==> x.s in at && at[x.s] in mem
  {
    var s := if x.Table? then x.s else Spot(0, x.v / 512);
    assert SpotOk(c, depth, mem, at, s);
    Ancestor(c, depth, root, mem, at, s, depth - s.level);
    var top := Spot(depth, Shift(s.prefix, depth - s.level));
    assert SpotOk(c, depth, mem, at, top);
    if x.Page? { ShiftTwice(x.v, depth); }
  }

  // ---- What a mapping means ----

  /** After a successful `map`, `translate` of an address of the range gives the frame address plus
      the offset, cut to the width of the format, and the permissions the format can show. */
  lemma MappedMeaning(c: Codec, va0: nat, pa0: nat, perm: Perm, mmio: bool, va: nat)
    requires Laws(c) && va0 % 4096 == 0 && pa0 % 4096 == 0 && va0 <= va
    ensures
      var w := LeafFor(c, va0 / 4096, pa0, perm, mmio, va / 4096);
      var frame := pa0 + (va / 4096 - va0 / 4096) * 4096;
      && Meaning(c, w, va) == Some((frame % c.limit + va % 4096, c.shown(perm)))
      && frame + va % 4096 == pa0 + (va - va0)
      && (frame % c.limit + va % 4096 == pa0 + (va - va0) <==> frame < c.limit)
      && c.user(w) == perm.user && c.leaf(w, 0) == c.leafy(perm)
  {
    var frame := pa0 + (va / 4096 - va0 / 4096) * 4096;
    FrameOffset(va0, pa0, va);
    assert LeafLaw(c, frame, perm, mmio);
    Wraps(frame, c.limit);
  }

  lemma FrameOffset(va0: nat, pa0: nat, va: nat)
    requires va0 % 4096 == 0 && pa0 % 4096 == 0 && va0 <= va
    ensures var frame := pa0 + (va / 4096 - va0 / 4096) * 4096;
      frame % 4096 == 0 && frame + va % 4096 == pa0 + (va - va0)
  {
  }

  lemma Wraps(n: nat, m: nat)
    requires m > 0
    ensures n % m == n <==> n < m
  {
  }

  /** Sv39 addresses below 2^38 and ARMv8 addresses below 2^47 are reachable from the root. */
  lemma Reachable(v: nat)
    ensures v < 0x400_0000 ==> Shift(v, 3) == 0
    ensures v < 0x8_0000_0000 ==> Shift(v, 4) == 0
  {
    assert Shift(v, 1) == v / 512;
    assert Shift(v, 2) == v / 512 / 512;
    assert Shift(v, 3) == v / 512 / 512 / 512;
    assert Shift(v, 4) == v / 512 / 512 / 512 / 512;
  }

  // ---- Whole lives of an address space ----

  /** What the kernel does with an address space: map a frame of its own taken from the free list, map
      frames that belong to someone else, or unmap a page. */
  datatype Command =
    | MapOwn(va: nat, perm: Perm)
    | MapForeign(va: nat, pa: nat, size: nat, perm: Perm)
    | Unmap(va: nat)

  lemma PopBalance(c: Codec, mem: Memory, at: map<Spot, nat>, list: seq<nat>, frames: set<nat>)
    requires Balance(c, mem, at, list, frames) && list != [] && Distinct(list)
    ensures Balance(c, mem, at, list[1..], frames - {list[0]})
  {
    var p := list[0];
    assert p in list && p !in list[1..] && list == [p] + list[1..];
    forall x ensures OwnFrame(c, mem, at, x) && (IsItem(c, mem, at, x) ==> Addr(c, mem, at, x) !in list[1..]) {
      assert OwnFrame(c, mem, at, x);
    }
    forall q: nat ensures q in frames - {p} <==> q in list[1..] || Held(c, mem, at, q) {
      assert q in frames <==> q in list || Held(c, mem, at, q);
      forall x | HeldAs(c, mem, at, x, q) ensures q != p {
        assert OwnFrame(c, mem, at, x);
      }
    }
  }

  lemma PushBalance(c: Codec, mem: Memory, at: map<Spot, nat>, list: seq<nat>, frames: set<nat>, p: nat)
    requires Balance(c, mem, at, list, frames) && p !in frames
    ensures p !in list && Balance(c, mem, at, [p] + list, frames + {p})
  {
    assert p in list || Held(c, mem, at, p) ==> p in frames;
    forall x ensures OwnFrame(c, mem, at, x) && (IsItem(c, mem, at, x) ==> Addr(c, mem, at, x) !in [p] + list) {
      assert OwnFrame(c, mem, at, x);
      assert IsItem(c, mem, at, x) ==>
          HeldAs(c, mem, at, x, Addr(c, mem, at, x)) && Held(c, mem, at, Addr(c, mem, at, x));
    }
    forall q: nat ensures q in frames + {p} <==> q in [p] + list || Held(c, mem, at, q) {
      assert q in frames <==> q in list || Held(c, mem, at, q);
    }
  }

  /** `own`: the pages the caller mapped as its own. */
  ghost predicate Tracks(c: Codec, mem: Memory, at: map<Spot, nat>, own: set<nat>) {
    forall v: nat {:trigger View(mem, at, v)} :: v in own <==> Shows(c, View(mem, at, v))
  }

  lemma TracksOne(c: Codec, mem0: Memory, at0: map<Spot, nat>, mem: Memory, at: map<Spot, nat>,
                  v: nat, w: nat, own: set<nat>, own': set<nat>)
    requires Tracks(c, mem0, at0, own)
    requires forall u: nat {:trigger View(mem, at, u)} :: View(mem, at, u) == if u == v then w else View(mem0, at0, u)
    requires forall u: nat :: u in own' <==> if u == v then Shows(c, w) else u in own
    ensures Tracks(c, mem, at, own')
  {
    forall u: nat ensures u in own' <==> Shows(c, View(mem, at, u)) {
      assert u in own <==> Shows(c, View(mem0, at0, u));
    }
  }

  lemma TracksSame(c: Codec, mem0: Memory, at0: map<Spot, nat>, mem: Memory, at: map<Spot, nat>, own: set<nat>)
    requires Tracks(c, mem0, at0, own)
    requires forall u: nat {:trigger View(mem, at, u)} ::
      View(mem, at, u) == View(mem0, at0, u) || (!Shows(c, View(mem, at, u)) && !Shows(c, View(mem0, at0, u)))
    ensures Tracks(c, mem, at, own)
  {
    forall u: nat ensures u in own <==> Shows(c, View(mem, at, u)) {
      assert u in own <==> Shows(c, View(mem0, at0, u));
    }
  }

  lemma TablesNotFree(c: Codec, mem: Memory, at: map<Spot, nat>, list: seq<nat>, frames: set<nat>)
    requires Balance(c, mem, at, list, frames)
    ensures forall s :: s in at ==> at[s] !in list
  {
    forall s | s in at ensures at[s] !in list {
      assert OwnFrame(c, mem, at, Table(s));
    }
  }

  /** Give a frame from outside the account back to the free list. */
  method GiveBack(s: Space, fa: FrameAlloc, p: nat, ghost frames: set<nat>)
    requires s.Valid(fa) && s.Keeps(fa, frames) && p !in frames && Frame(p)
    modifies fa
    ensures s.Valid(fa) && s.Keeps(fa, frames + {p})
  {
    PushBalance(s.c, s.mem, s.at, fa.list, frames, p);
    fa.Push(p);
    TablesNotFree(s.c, s.mem, s.at, fa.list, frames + {p});
  }

  /** Map frame `p`, which is outside the account, at `va`. */
  method MapFrame(s: Space, fa: FrameAlloc, va: nat, p: nat, perm: Perm, own: set<nat>, ghost frames: set<nat>)
      returns (ok: bool, own': set<nat>)
    requires s.Valid(fa) && s.Keeps(fa, frames) && Tracks(s.c, s.mem, s.at, own) && Frame(p) && p !in frames
    modifies s, fa
    ensures s.Valid(fa) && Tracks(s.c, s.mem, s.at, own') && s.root == old(s.root)
    ensures s.Keeps(fa, if ok && OwnedPerm(s.c, perm) then frames + {p} else frames)
    ensures !ok ==> va % 4096 != 0 || va + 4096 > 4096 * s.pages || s.c.valid(old(s.Sees(va / 4096))) ||
                    |old(fa.list)| < s.depth
  {
    ghost var mem0, at0 := s.mem, s.at;
    assert forall u: nat :: s.Sees(u) == View(mem0, at0, u);
    assert FrameAt(p, 0) == p;
    OneLeaf(s.c, va, p, perm, p < s.kernbase);
    assert Gained(s.c, p, 0, perm) == {} && frames + {} == frames;
    var r, k := s.Map(fa, va, p, 4096, perm, frames);
    ok := r == Ok;
    ghost var w := LeafFor(s.c, va / 4096, p, perm, p < s.kernbase, va / 4096);
    forall u: nat ensures View(s.mem, s.at, u) == if k == 1 && u == va / 4096 then w else View(mem0, at0, u) {
      assert s.Sees(u) == View(s.mem, s.at, u);
    }
    own' := if ok && OwnedPerm(s.c, perm) then own + {va / 4096} else own;
    if ok {
      assert !s.c.valid(View(mem0, at0, va / 4096));
      TracksOne(s.c, mem0, at0, s.mem, s.at, va / 4096, w, own, own');
    } else {
      TracksSame(s.c, mem0, at0, s.mem, s.at, own);
    }
  }

  /** Take a free frame and map it at `va`; if that fails, give it back. The frame stays in the account
      if it became an owned page; with other permissions it is the caller's to keep. */
  method DoMapOwn(s: Space, fa: FrameAlloc, va: nat, perm: Perm, own: set<nat>, ghost frames: set<nat>)
      returns (ok: bool, own': set<nat>, ghost kept: set<nat>)
    requires s.Valid(fa) && s.Keeps(fa, frames) && Tracks(s.c, s.mem, s.at, own)
    modifies s, fa
    ensures s.Valid(fa) && Tracks(s.c, s.mem, s.at, own') && s.root == old(s.root)
    ensures kept <= frames && s.Keeps(fa, frames - kept)
    ensures |kept| == if ok && !OwnedPerm(s.c, perm) then 1 else 0
    ensures !ok ==> va % 4096 != 0 || va + 4096 > 4096 * s.pages || s.c.valid(old(s.Sees(va / 4096))) ||
                    |old(fa.list)| <= s.depth
  {
    ghost var list := fa.list;
    ok, own', kept := false, own, {};
    assert frames - {} == frames;
    var f := fa.Pop();
    if f.None? {
      return;
    }
    PopBalance(s.c, s.mem, s.at, list, frames);
    assert list[0] in list && Frame(list[0]);
    ghost var rest := frames - {f.value};
    assert rest + {f.value} == frames;
    ok, own' := MapFrame(s, fa, va, f.value, perm, own, rest);
    if !ok {
      GiveBack(s, fa, f.value, rest);
    } else if !OwnedPerm(s.c, perm) {
      kept := {f.value};
    }
  }

  lemma OneLeaf(c: Codec, va: nat, pa: nat, perm: Perm, mmio: bool)
    requires Laws(c) && pa % 4096 == 0
    ensures Shows(c, LeafFor(c, va / 4096, pa, perm, mmio, va / 4096)) <==> OwnedPerm(c, perm)
    ensures OwnedPerm(c, perm) ==> Gained(c, pa, 1, perm) == {pa}
  {
    assert LeafLaw(c, pa, perm, mmio);
    assert FrameAt(pa, 0) == pa;
  }

  /** Map frames that belong to someone else: the account does not change, however far the map got. */
  method DoMapForeign(s: Space, fa: FrameAlloc, va: nat, pa: nat, size: nat, perm: Perm, own: set<nat>,
                      ghost frames: set<nat>)
    requires s.Valid(fa) && s.Keeps(fa, frames) && Tracks(s.c, s.mem, s.at, own) && !OwnedPerm(s.c, perm)
    modifies s, fa
    ensures s.Valid(fa) && s.Keeps(fa, frames) && Tracks(s.c, s.mem, s.at, own) && s.root == old(s.root)
  {
    ghost var mem0, at0 := s.mem, s.at;
    assert forall u: nat :: s.Sees(u) == View(mem0, at0, u);
    var r, k := s.Map(fa, va, pa, size, perm, frames);
    assert frames + Gained(s.c, pa, k, perm) == frames;
    forall u: nat ensures
      View(s.mem, s.at, u) == View(mem0, at0, u) ||
        (!Shows(s.c, View(s.mem, s.at, u)) && !Shows(s.c, View(mem0, at0, u)))
    {
      assert s.Sees(u) == View(s.mem, s.at, u);
      if va / 4096 <= u < va / 4096 + k {
        assert LeafLaw(s.c, pa + (u - va / 4096) * 4096, perm, pa < s.kernbase);
      }
    }
    TracksSame(s.c, mem0, at0, s.mem, s.at, own);
  }

  /** Unmap a page; the frame of an own page goes back to the free list. */
  method DoUnmap(s: Space, fa: FrameAlloc, va: nat, own: set<nat>, ghost frames: set<nat>) returns (own': set<nat>)
    requires s.Valid(fa) && s.Keeps(fa, frames) && Tracks(s.c, s.mem, s.at, own)
    modifies s, fa
    ensures s.Valid(fa) && s.Keeps(fa, frames) && Tracks(s.c, s.mem, s.at, own') && s.root == old(s.root)
  {
    ghost var mem0, at0, v := s.mem, s.at, va / 4096;
    assert forall u: nat :: s.Sees(u) == View(mem0, at0, u);
    assert OwnFrame(s.c, s.mem, s.at, Page(v)) && (v in own <==> Shows(s.c, View(mem0, at0, v)));
    assert IsItem(s.c, mem0, at0, Page(v)) ==> HeldAs(s.c, mem0, at0, Page(v), Addr(s.c, mem0, at0, Page(v)));
    assert IsItem(s.c, mem0, at0, Page(v)) ==> Held(s.c, mem0, at0, Addr(s.c, mem0, at0, Page(v)));
    var r := s.UnmapPage(fa, va, frames);
    own' := own;
    forall u: nat ensures View(s.mem, s.at, u) == if r.Some? && u == v then 0 else View(mem0, at0, u) {
      assert s.Sees(u) == View(s.mem, s.at, u);
    }
    if r.None? {
      TracksSame(s.c, mem0, at0, s.mem, s.at, own);
      return;
    }
    own' := own - {va / 4096};
    TracksOne(s.c, mem0, at0, s.mem, s.at, v, 0, own, own');
    if va / 4096 in own {
      assert frames - {r.value} + {r.value} == frames;
      GiveBack(s, fa, r.value, frames - {r.value});
    }
  }

  /** Which commands are in order: own permissions are for own frames. */
  predicate InOrder(c: Codec, cmds: seq<Command>) {
    forall i :: 0 <= i < |cmds| && cmds[i].MapForeign? ==> !OwnedPerm(c, cmds[i].perm)
  }

  /** The command mapped an own frame with permissions that the drop does not recognise as an owned page. */
  predicate Loses(c: Codec, cmd: Command, ok: bool) { cmd.MapOwn? && ok && !OwnedPerm(c, cmd.perm) }

  /** How many commands did. */
  function Lost(c: Codec, cmds: seq<Command>, oks: seq<bool>): (n: nat)
    requires |cmds| == |oks|
  {
    if cmds == [] then 0
    else
      Lost(c, cmds[..|cmds| - 1], oks[..|oks| - 1]) +
      if Loses(c, cmds[|cmds| - 1], oks[|oks| - 1]) then 1 else 0
  }

  lemma {:induction false} LostNone(c: Codec, cmds: seq<Command>, oks: seq<bool>)
    requires |cmds| == |oks|
    ensures Lost(c, cmds, oks) == 0 <==> forall i :: 0 <= i < |cmds| ==> !Loses(c, cmds[i], oks[i])
  {
    if cmds != [] {
      var n := |cmds| - 1;
      LostNone(c, cmds[..n], oks[..n]);
      assert forall i :: 0 <= i < n ==> Loses(c, cmds[i], oks[i]) == Loses(c, cmds[..n][i], oks[..n][i]);
    }
  }

  lemma LostSnoc(c: Codec, cmds: seq<Command>, oks: seq<bool>, ok: bool)
    requires |oks| < |cmds|
    ensures Lost(c, cmds[..|oks| + 1], oks + [ok]) ==
            Lost(c, cmds[..|oks|], oks) + if Loses(c, cmds[|oks|], ok) then 1 else 0
  {
    var cs, os := cmds[..|oks| + 1], oks + [ok];
    assert cs[..|cs| - 1] == cmds[..|oks|] && os[..|os| - 1] == oks;
  }

  lemma {:induction false} MembersSize(s: seq<nat>)
    requires Distinct(s)
    ensures |Members(s)| == |s|
  {
    if s != [] {
      var t := s[..|s| - 1];
      MembersSize(t);
      assert s == t + [s[|s| - 1]];
      assert Members(s) == Members(t) + {s[|s| - 1]};
    }
  }

  /** One command on an address space. */
  method Do(s: Space, fa: FrameAlloc, cmd: Command, own: set<nat>, ghost frames: set<nat>)
      returns (ok: bool, own': set<nat>, ghost kept: set<nat>)
    requires s.Valid(fa) && s.Keeps(fa, frames) && Tracks(s.c, s.mem, s.at, own)
    requires cmd.MapForeign? ==> !OwnedPerm(s.c, cmd.perm)
    modifies s, fa
    ensures s.Valid(fa) && Tracks(s.c, s.mem, s.at, own') && s.root == old(s.root)
    ensures kept <= frames && s.Keeps(fa, frames - kept) && |kept| == if Loses(s.c, cmd, ok) then 1 else 0
  {
    ok, own', kept := false, own, {};
    assert frames - {} == frames;
    match cmd {
      case MapOwn(va, perm) => ok, own', kept := DoMapOwn(s, fa, va, perm, own, frames);
      case MapForeign(va, pa, size, perm) => DoMapForeign(s, fa, va, pa, size, perm, own, frames);
      case Unmap(va) => own' := DoUnmap(s, fa, va, own, frames);
    }
  }

  /** Conservation over a whole life: create a table, run any commands, whether or not memory runs out
      on the way, and drop it. The free list then holds exactly the frames it held at the start, less
      one for every own frame that was mapped with permissions other than those of an owned page. */
  method Lifetime(c: Codec, depth: nat, pages: nat, kernbase: nat, mem: Memory, fa: FrameAlloc, cmds: seq<Command>)
      returns (oks: seq<bool>)
    requires Laws(c) && Reaches(depth, pages) && fa.Valid() && InOrder(c, cmds)
    modifies fa
    ensures fa.Valid() && |oks| == |cmds|
    ensures forall p :: p in fa.list ==> p in old(fa.list)
    ensures |fa.list| + Lost(c, cmds, oks) == |old(fa.list)|
  {
    ghost var all := Members(fa.list);
    MembersSize(fa.list);
    var r := Space.New(c, depth, pages, kernbase, mem, fa);
    if r.None? {
      oks := seq(|cmds|, _ => false);
      LostNone(c, cmds, oks);
      return;
    }
    var s := r.value;
    assert Tracks(s.c, s.mem, s.at, {}) by {
      assert forall u: nat :: s.Sees(u) == View(s.mem, s.at, u);
    }
    ghost var kept;
    oks, kept := RunAll(s, fa, cmds, all);
    DropAll(s, fa, all, kept);
  }

  lemma KeptMore(all: set<nat>, kept: set<nat>, more: set<nat>)
    requires kept <= all && more <= all - kept
    ensures kept + more <= all && all - kept - more == all - (kept + more) && |kept + more| == |kept| + |more|
  {
    assert kept !! more;
  }

  method RunAll(s: Space, fa: FrameAlloc, cmds: seq<Command>, ghost all: set<nat>)
      returns (oks: seq<bool>, ghost kept: set<nat>)
    requires s.Valid(fa) && s.Keeps(fa, all) && Tracks(s.c, s.mem, s.at, {}) && InOrder(s.c, cmds)
    modifies s, fa
    ensures s.Valid(fa) && |oks| == |cmds|
    ensures kept <= all && s.Keeps(fa, all - kept) && |kept| == Lost(s.c, cmds, oks)
  {
    var own: set<nat> := {};
    oks, kept := [], {};
    assert all - {} == all && cmds[..0] == [];
    while |oks| < |cmds|
      invariant |oks| <= |cmds| && s.Valid(fa) && Tracks(s.c, s.mem, s.at, own)
      invariant kept <= all && s.Keeps(fa, all - kept) && |kept| == Lost(s.c, cmds[..|oks|], oks)
    {
      var ok;
      ghost var more;
      ok, own, more := Do(s, fa, cmds[|oks|], own, all - kept);
      KeptMore(all, kept, more);
      LostSnoc(s.c, cmds, oks, ok);
      kept, oks := kept + more, oks + [ok];
    }
    assert cmds[..|cmds|] == cmds;
  }

  /** Drop a space that accounts for `all` but for `kept`. */
  method DropAll(s: Space, fa: FrameAlloc, ghost all: set<nat>, ghost kept: set<nat>)
    requires s.Valid(fa) && kept <= all && s.Keeps(fa, all - kept)
    modifies s, fa
    ensures fa.Valid() && |fa.list| + |kept| == |all| && forall p :: p in fa.list ==> p in all
  {
    assert SpotOk(s.c, s.depth, s.mem, s.at, Spot(s.depth, 0));
    var items := s.Drop(fa, all - kept);
    assert Members(fa.list) == all - kept;
    MembersSize(fa.list);
  }

  /** On both architectures, with the depth and the address bound of the code. */
  method Sv39Lifetime(kernbase: nat, mem: Memory, fa: FrameAlloc, cmds: seq<Command>) returns (oks: seq<bool>)
    requires fa.Valid() && InOrder(Sv39(), cmds)
    modifies fa
    ensures fa.Valid() && |oks| == |cmds| && |fa.list| + Lost(Sv39(), cmds, oks) == |old(fa.list)|
  {
    Sv39Laws();
    ReachesAll();
    oks := Lifetime(Sv39(), 2, 0x400_0000, kernbase, mem, fa, cmds);
  }

  method ArmLifetime(kernbase: nat, mem: Memory, fa: FrameAlloc, cmds: seq<Command>) returns (oks: seq<bool>)
    requires fa.Valid() && InOrder(Arm(), cmds)
    modifies fa
    ensures fa.Valid() && |oks| == |cmds| && |fa.list| + Lost(Arm(), cmds, oks) == |old(fa.list)|
  {
    ArmLaws();
    ReachesAll();
    oks := Lifetime(Arm(), 3, 0x8_0000_0000, kernbase, mem, fa, cmds);
  }

  lemma ReachesAll()
    ensures Reaches(2, 0x400_0000) && Reaches(3, 0x8_0000_0000)
  {
    forall v: nat ensures v < 0x400_0000 ==> Shift(v, 3) == 0 { Reachable(v); }
    forall v: nat ensures v < 0x8_0000_0000 ==> Shift(v, 4) == 0 { Reachable(v); }
  }

  /** Which leaves the code's bit tests take for owned pages: on Sv39 those for the user with read, write
      or execute permission; a user page with none of the three looks like a pointer to a table. On
      ARMv8 all those for the user. */
  lemma OwnedExactly(pa: nat, perm: Perm, mmio: bool)
    requires pa % 4096 == 0
    ensures Shows(Sv39(), Sv39().mkLeaf(pa, perm, mmio)) <==> perm.user && (perm.read || perm.write || perm.exec)
    ensures Shows(Arm(), Arm().mkLeaf(pa, perm, mmio)) <==> perm.user
    ensures OwnedPerm(Sv39(), perm) <==> Shows(Sv39(), Sv39().mkLeaf(pa, perm, mmio))
    ensures OwnedPerm(Arm(), perm) <==> Shows(Arm(), Arm().mkLeaf(pa, perm, mmio))
  {
    Sv39Laws();
    ArmLaws();
    assert LeafLaw(Sv39(), pa, perm, mmio) && LeafLaw(Arm(), pa, perm, mmio);
  }

  /** The code on such an input: with four free frames a user page without permissions is mapped on Sv39
      and the space is dropped; one frame fewer is free than before. */
  method PageLost(kernbase: nat, mem: Memory, fa: FrameAlloc)
    requires fa.Valid() && |fa.list| >= 4
    modifies fa
    ensures fa.Valid() && |fa.list| == |old(fa.list)| - 1
  {
    Sv39Laws();
    ReachesAll();
    ghost var all := Members(fa.list);
    MembersSize(fa.list);
    var perm := Perm(false, false, false, true);
    var r := Space.New(Sv39(), 2, 0x400_0000, kernbase, mem, fa);
    var s := r.value;
    assert Tracks(s.c, s.mem, s.at, {}) by {
      assert forall u: nat :: s.Sees(u) == View(s.mem, s.at, u);
    }
    var ok, own, kept := DoMapOwn(s, fa, 0, perm, {}, all);
    DropAll(s, fa, all, kept);
  }
}
