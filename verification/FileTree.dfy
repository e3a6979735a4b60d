/** Files as sparse trees of blocks: 12 direct, 128 indirect, 128 x 128 double-indirect.
    What a tree references, who owns each block, and which bytes a file has. */
module FileTree {
  import opened Layout
  import opened BlockFormat

  /** Where a block sits in its file's tree: six kinds of slot. */
  datatype Pos = Direct(i: nat) | Ind | IndLeaf(i: nat) | Root | Mid(o: nat) | Leaf(o: nat, i: nat) {
    predicate Valid() {
      match this
      case Direct(i) => i < 12
      case IndLeaf(i) => i < 128
      case Mid(o) => o < 128
      case Leaf(o, i) => o < 128 && i < 128
      case _ => true
    }
    predicate Data() { Direct? || IndLeaf? || Leaf? }
    /** The data blocks below this slot have file indices from `First` on. */
    function First(): (n: nat) {
      match this
      case Direct(i) => i
      case Ind => 12
      case IndLeaf(i) => 12 + i
      case Root => 140
      case Mid(o) => 140 + 128 * o
      case Leaf(o, i) => 140 + 128 * o + i
    }
  }

  /** The slot of file block `bn`. */
  function Slot(bn: nat): (p: Pos)
    requires bn < MAXFILE
    ensures p.Valid() && p.Data() && p.First() == bn
  {
    if bn < 12 then Direct(bn)
    else if bn < 140 then IndLeaf(bn - 12)
    else Leaf((bn - 140) / 128, (bn - 140) % 128)
  }

  datatype Inode = Inode(size: nat, addrs: seq<nat>)

  /** `size`, `bmapstart` and the first data block of the superblock's disk. */
  datatype Geo = Geo(size: nat, bmapstart: nat, datastart: nat)

  predicate GeoOk(g: Geo) {
    && g.datastart <= g.size < U32
    && g.bmapstart + g.size / 4096 < g.datastart
  }

  datatype Ctx = Ctx(fmt: Format, geo: Geo)

  /** The blocks as the log and the cache present them, and every file's inode. */
  datatype Tree = Tree(blocks: seq<Sector>, inodes: map<nat, Inode>)

  predicate Shape(c: Ctx, t: Tree) {
    && GeoOk(c.geo) && |t.blocks| == c.geo.size
    && forall f :: f in t.inodes ==> |t.inodes[f].addrs| == 14
  }

  /** Entry `k` of index block `b`; block number 0 stands for no block. */
  function Entry(c: Ctx, blocks: seq<Sector>, b: nat, k: nat): (v: nat) {
    if b == 0 || |blocks| <= b then 0 else c.fmt.word(blocks[b], k)
  }

  /** The block number stored at slot `p`, 0 for a hole at any level. */
  function Ref(c: Ctx, blocks: seq<Sector>, addrs: seq<nat>, p: Pos): (b: nat)
    requires |addrs| == 14 && p.Valid()
  {
    match p
    case Direct(i) => addrs[i]
    case Ind => addrs[12]
    case IndLeaf(i) => Entry(c, blocks, addrs[12], i)
    case Root => addrs[13]
    case Mid(o) => Entry(c, blocks, addrs[13], o)
    case Leaf(o, i) => Entry(c, blocks, Entry(c, blocks, addrs[13], o), i)
  }

  function At(c: Ctx, t: Tree, f: nat, p: Pos): (b: nat) {
    if f in t.inodes && |t.inodes[f].addrs| == 14 && p.Valid() then Ref(c, t.blocks, t.inodes[f].addrs, p) else 0
  }

  // ---------- the bitmap ----------

  function BitBlock(g: Geo, b: nat): (n: nat) { g.bmapstart + b / 4096 }

  predicate Used(c: Ctx, blocks: seq<Sector>, b: nat) {
    BitBlock(c.geo, b) < |blocks| && c.fmt.bit(blocks[BitBlock(c.geo, b)], b % 4096)
  }

  function Marked(c: Ctx, blocks: seq<Sector>, b: nat, v: bool): (r: seq<Sector>)
    requires BitBlock(c.geo, b) < |blocks|
    ensures |r| == |blocks|
  {
    var n := BitBlock(c.geo, b);
    blocks[n := c.fmt.mark(blocks[n], b % 4096, v)]
  }

  lemma UsedAfterMark(c: Ctx, blocks: seq<Sector>, b: nat, v: bool, d: nat)
    requires BitLaws(c.fmt) && BitBlock(c.geo, b) < |blocks|
    ensures Used(c, Marked(c, blocks, b, v), d) == if d == b then v else Used(c, blocks, d)
  {
    assert d == b <==> d / 4096 == b / 4096 && d % 4096 == b % 4096;
  }

  // ---------- ownership ----------

  predicate InData(g: Geo, b: nat) { g.datastart <= b < g.size }

  /** Every referenced block is marked used and lies in the data area. */
  ghost predicate RefsUsed(c: Ctx, t: Tree) {
    forall f: nat, p: Pos {:trigger At(c, t, f, p)} :: At(c, t, f, p) != 0 ==>
      InData(c.geo, At(c, t, f, p)) && Used(c, t.blocks, At(c, t, f, p))
  }

  /** No block is referenced twice, by one file or by two. */
  ghost predicate RefsDistinct(c: Ctx, t: Tree) {
    forall f: nat, p: Pos, g: nat, q: Pos {:trigger At(c, t, f, p), At(c, t, g, q)} ::
      At(c, t, f, p) == At(c, t, g, q) != 0 ==> f == g && p == q
  }

  /** The boot block, superblock, log, inode table and bitmap are marked used. */
  ghost predicate MetaUsed(c: Ctx, t: Tree) {
    forall b: nat {:trigger Used(c, t.blocks, b)} :: b < c.geo.datastart ==> Used(c, t.blocks, b)
  }

  ghost predicate Own(c: Ctx, t: Tree) {
    Laws(c.fmt) && Shape(c, t) &&
    var used, distinct, meta := RefsUsed(c, t), RefsDistinct(c, t), MetaUsed(c, t);
    used && distinct && meta
  }

  // ---------- contents ----------

  /** Byte `k` of file `f`; holes read as 0. */
  function ByteAt(c: Ctx, t: Tree, f: nat, k: nat): (v: Byte) {
    if k / 512 < MAXFILE then
      var b := At(c, t, f, Slot(k / 512));
      if b == 0 || |t.blocks| <= b then 0 else t.blocks[b].bytes[k % 512]
    else 0
  }

  /** Mapped bytes past the end of the file are zero. */
  ghost predicate ZeroTail(c: Ctx, t: Tree) {
    var zero := forall f: nat, k: nat {:trigger ByteAt(c, t, f, k)} ::
      f in t.inodes && t.inodes[f].size <= k ==> ByteAt(c, t, f, k) == 0;
    zero
  }

  /** A file as a flat byte string. */
  function Content(c: Ctx, t: Tree, f: nat): (s: seq<Byte>)
    requires f in t.inodes
  {
    seq(t.inodes[f].size, k requires 0 <= k => ByteAt(c, t, f, k))
  }

  // ---------- what one change of the tree does ----------

  /** `b` is not an index block of any file. */
  ghost predicate NotIndex(c: Ctx, t: Tree, b: nat) {
    forall f: nat, p: Pos {:trigger At(c, t, f, p)} :: At(c, t, f, p) == b != 0 ==> p.Data()
  }

  lemma AtParent(c: Ctx, t: Tree, f: nat, p: Pos)
    requires Shape(c, t)
    ensures At(c, t, f, p) != 0 ==> f in t.inodes && p.Valid()
    ensures At(c, t, f, p) != 0 && p.IndLeaf? ==> At(c, t, f, Ind) != 0
    ensures At(c, t, f, p) != 0 && p.Mid? ==> At(c, t, f, Root) != 0
    ensures At(c, t, f, p) != 0 && p.Leaf? ==> At(c, t, f, Mid(p.o)) != 0 && At(c, t, f, Root) != 0
  {
  }

  /** Changing a block that no tree uses as an index leaves every reference in place. */
  lemma RefsFrame(c: Ctx, t: Tree, b: nat, x: Sector, f: nat, p: Pos)
    requires Shape(c, t) && b < |t.blocks| && NotIndex(c, t, b)
    ensures At(c, t.(blocks := t.blocks[b := x]), f, p) == At(c, t, f, p)
  {
    assert At(c, t, f, Ind) == b != 0 ==> Ind.Data();
    assert At(c, t, f, Root) == b != 0 ==> Root.Data();
    if p.Leaf? {
      assert At(c, t, f, Mid(p.o)) != b || b == 0;
    }
  }

  /** A block stays out of every tree's way: nobody refers to it. */
  ghost predicate Unreferenced(c: Ctx, t: Tree, b: nat) {
    forall f: nat, p: Pos {:trigger At(c, t, f, p)} :: At(c, t, f, p) != b
  }

  ghost predicate SameRefs(c: Ctx, t: Tree, t': Tree) {
    forall f: nat, p: Pos {:trigger At(c, t', f, p)} :: At(c, t', f, p) == At(c, t, f, p)
  }

  ghost predicate SameBytes(c: Ctx, t: Tree, t': Tree) {
    forall f: nat, k: nat {:trigger ByteAt(c, t', f, k)} :: ByteAt(c, t', f, k) == ByteAt(c, t, f, k)
  }

  lemma FrameAll(c: Ctx, t: Tree, b: nat, x: Sector)
    requires Shape(c, t) && b < |t.blocks| && NotIndex(c, t, b)
    ensures SameRefs(c, t, t.(blocks := t.blocks[b := x]))
  {
    forall f: nat, p: Pos
      ensures At(c, t.(blocks := t.blocks[b := x]), f, p) == At(c, t, f, p)
    {
      RefsFrame(c, t, b, x, f, p);
    }
  }

  /** Changing a block that holds no file data either leaves all file bytes in place. */
  lemma BytesFrame(c: Ctx, t: Tree, b: nat, x: Sector)
    requires Shape(c, t) && b < |t.blocks| && (Unreferenced(c, t, b) || b == 0)
    ensures SameRefs(c, t, t.(blocks := t.blocks[b := x]))
    ensures SameBytes(c, t, t.(blocks := t.blocks[b := x]))
  {
    FrameAll(c, t, b, x);
  }

  /** Data-area blocks are not bitmap blocks. */
  lemma DataFrame(c: Ctx, blocks: seq<Sector>, b: nat, x: Sector, d: nat)
    requires GeoOk(c.geo) && c.geo.datastart <= b < |blocks| && d < c.geo.size
    ensures Used(c, blocks[b := x], d) == Used(c, blocks, d)
  {
    assert d / 4096 <= c.geo.size / 4096;
  }

  lemma MetaUnreferenced(c: Ctx, t: Tree, b: nat)
    requires Own(c, t) && (0 < b < c.geo.datastart || !Used(c, t.blocks, b)) && b != 0
    ensures Unreferenced(c, t, b)
  {
  }

  /** Marking a block used or free: references and bytes stay. */
  lemma MarkFrame(c: Ctx, t: Tree, b: nat, v: bool)
    requires Own(c, t) && b < c.geo.size
    ensures BitBlock(c.geo, b) < c.geo.datastart
    ensures var t' := t.(blocks := Marked(c, t.blocks, b, v));
      && Shape(c, t') && SameRefs(c, t, t') && SameBytes(c, t, t')
      && forall d: nat :: Used(c, t'.blocks, d) == if d == b then v else Used(c, t.blocks, d)
  {
    var n := BitBlock(c.geo, b);
    assert b / 4096 <= c.geo.size / 4096;
    if n != 0 {
      MetaUnreferenced(c, t, n);
    }
    BytesFrame(c, t, n, c.fmt.mark(t.blocks[n], b % 4096, v));
    forall d: nat
      ensures Used(c, Marked(c, t.blocks, b, v), d) == if d == b then v else Used(c, t.blocks, d)
    {
      UsedAfterMark(c, t.blocks, b, v, d);
    }
  }

  /** `balloc` claims a free block: its bit is set, its bytes are zeroed. */
  function Claimed(c: Ctx, t: Tree, b: nat): (t': Tree)
    requires BitBlock(c.geo, b) < |t.blocks| && b < |t.blocks|
  {
    t.(blocks := Marked(c, t.blocks, b, true)[b := ZERO])
  }

  /** A block that is claimed, clean and not yet part of a tree. */
  ghost predicate Loose(c: Ctx, t: Tree, b: nat) {
    && InData(c.geo, b) && b < |t.blocks| && t.blocks[b] == ZERO
    && Used(c, t.blocks, b) && Unreferenced(c, t, b)
  }

  lemma ClaimKeeps(c: Ctx, t: Tree, b: nat)
    requires Own(c, t) && b < c.geo.size && !Used(c, t.blocks, b)
    ensures BitBlock(c.geo, b) < |t.blocks|
    ensures var t' := Claimed(c, t, b);
      Own(c, t') && Loose(c, t', b) && SameRefs(c, t, t') && SameBytes(c, t, t')
  {
    MarkFrame(c, t, b, true);
    assert c.geo.datastart <= b;
    var t1 := t.(blocks := Marked(c, t.blocks, b, true));
    assert b != 0;
    MetaUnreferenced(c, t, b);
    assert Unreferenced(c, t1, b);
    BytesFrame(c, t1, b, ZERO);
    forall d: nat | d < c.geo.size
      ensures Used(c, Claimed(c, t, b).blocks, d) == Used(c, t1.blocks, d)
    {
      DataFrame(c, t1.blocks, b, ZERO, d);
    }
  }

  // ---------- linking a claimed block into a tree ----------

  function PutAddr(t: Tree, f: nat, k: nat, b: nat): (t': Tree)
    requires f in t.inodes && k < |t.inodes[f].addrs|
  {
    t.(inodes := t.inodes[f := t.inodes[f].(addrs := t.inodes[f].addrs[k := b])])
  }

  function PutIndex(c: Ctx, t: Tree, m: nat, k: nat, b: nat): (t': Tree)
    requires m < |t.blocks|
  {
    t.(blocks := t.blocks[m := c.fmt.put(t.blocks[m], k, b)])
  }

  predicate InInode(p: Pos) { p.Direct? || p.Ind? || p.Root? }

  function AddrSlot(p: Pos): (k: nat)
    requires InInode(p)
  {
    match p case Direct(i) => i case Ind => 12 case Root => 13
  }

  /** The slot above `p`, for a slot that lives in an index block, and the index there. */
  function Parent(p: Pos): (q: Pos)
    requires !InInode(p)
  {
    match p case IndLeaf(_) => Ind case Mid(_) => Root case Leaf(o, _) => Mid(o)
  }

  function IndexIn(p: Pos): (k: nat)
    requires !InInode(p)
  {
    match p case IndLeaf(i) => i case Mid(o) => o case Leaf(_, i) => i
  }

  /** Storing block number `b` at slot `p`. */
  function Linked(c: Ctx, t: Tree, f: nat, p: Pos, b: nat): (t': Tree)
    requires Shape(c, t) && f in t.inodes && p.Valid()
    requires !InInode(p) ==> At(c, t, f, Parent(p)) < |t.blocks|
  {
    if InInode(p) then PutAddr(t, f, AddrSlot(p), b) else PutIndex(c, t, At(c, t, f, Parent(p)), IndexIn(p), b)
  }

  /** Filling an empty slot with a loose block changes that one reference. */
  lemma LinkInInode(c: Ctx, t: Tree, f: nat, p: Pos, b: nat, g: nat, q: Pos)
    requires Own(c, t) && f in t.inodes && p.Valid() && InInode(p)
    requires At(c, t, f, p) == 0 && Loose(c, t, b)
    ensures At(c, Linked(c, t, f, p, b), g, q) == if g == f && q == p then b else At(c, t, g, q)
  {
  }

  lemma LinkInIndex(c: Ctx, t: Tree, f: nat, p: Pos, b: nat, g: nat, q: Pos)
    requires Own(c, t) && f in t.inodes && p.Valid() && !InInode(p)
    requires At(c, t, f, p) == 0 && At(c, t, f, Parent(p)) != 0 && Loose(c, t, b)
    ensures At(c, Linked(c, t, f, p, b), g, q) == if g == f && q == p then b else At(c, t, g, q)
  {
    var m := At(c, t, f, Parent(p));
    var t' := Linked(c, t, f, p, b);
    assert m != b && t'.blocks[b] == ZERO;
    if g in t.inodes && q.Valid() && !InInode(q) {
      assert At(c, t, g, Parent(q)) == m ==> g == f && Parent(q) == Parent(p);
      if q.Leaf? {
        assert At(c, t, g, Root) == m ==> g == f && Parent(p) == Root;
      }
    }
  }

  ghost predicate OneRef(c: Ctx, t: Tree, t': Tree, f: nat, p: Pos, b: nat) {
    forall g: nat, q: Pos {:trigger At(c, t', g, q)} ::
      At(c, t', g, q) == if g == f && q == p then b else At(c, t, g, q)
  }

  ghost predicate Linkable(c: Ctx, t: Tree, f: nat, p: Pos, b: nat) {
    && Own(c, t) && f in t.inodes && p.Valid() && At(c, t, f, p) == 0 && Loose(c, t, b)
    && (!InInode(p) ==> At(c, t, f, Parent(p)) != 0)
  }

  lemma LinkRefs(c: Ctx, t: Tree, f: nat, p: Pos, b: nat)
    requires Linkable(c, t, f, p, b)
    ensures OneRef(c, t, Linked(c, t, f, p, b), f, p, b)
  {
    forall g: nat, q: Pos
      ensures At(c, Linked(c, t, f, p, b), g, q) == if g == f && q == p then b else At(c, t, g, q)
    {
      if InInode(p) {
        LinkInInode(c, t, f, p, b, g, q);
      } else {
        LinkInIndex(c, t, f, p, b, g, q);
      }
    }
  }

  /** Away from bitmap and index blocks nothing moves. */
  lemma LinkBlocks(c: Ctx, t: Tree, f: nat, p: Pos, b: nat)
    requires Linkable(c, t, f, p, b)
    ensures var t' := Linked(c, t, f, p, b);
      && Shape(c, t') && t'.inodes.Keys == t.inodes.Keys
      && (forall d: nat :: d < c.geo.size ==> Used(c, t'.blocks, d) == Used(c, t.blocks, d))
      && (forall d: nat :: d < c.geo.size && (InInode(p) || d != At(c, t, f, Parent(p))) ==>
          t'.blocks[d] == t.blocks[d])
  {
    if !InInode(p) {
      var m := At(c, t, f, Parent(p));
      forall d: nat | d < c.geo.size
        ensures Used(c, Linked(c, t, f, p, b).blocks, d) == Used(c, t.blocks, d)
      {
        DataFrame(c, t.blocks, m, c.fmt.put(t.blocks[m], IndexIn(p), b), d);
      }
    }
  }

  lemma LinkBytes(c: Ctx, t: Tree, f: nat, p: Pos, b: nat, g: nat, k: nat)
    requires Linkable(c, t, f, p, b)
    ensures ByteAt(c, Linked(c, t, f, p, b), g, k) == ByteAt(c, t, g, k)
  {
    LinkRefs(c, t, f, p, b);
    LinkBlocks(c, t, f, p, b);
    if k / 512 < MAXFILE {
      var q := Slot(k / 512);
      var r := At(c, t, g, q);
      assert !InInode(p) ==> r == 0 || r != At(c, t, f, Parent(p));
      assert r != 0 ==> r < c.geo.size;
    }
  }

  /** Linking keeps ownership, and every byte of every file: a fresh block reads like
      the hole it fills. */
  lemma LinkKeeps(c: Ctx, t: Tree, f: nat, p: Pos, b: nat)
    requires Linkable(c, t, f, p, b)
    ensures var t' := Linked(c, t, f, p, b);
      && Own(c, t') && SameBytes(c, t, t') && OneRef(c, t, t', f, p, b) && t'.inodes.Keys == t.inodes.Keys
  {
    var t' := Linked(c, t, f, p, b);
    LinkRefs(c, t, f, p, b);
    LinkBlocks(c, t, f, p, b);
    forall g: nat, k: nat
      ensures ByteAt(c, t', g, k) == ByteAt(c, t, g, k)
    {
      LinkBytes(c, t, f, p, b, g, k);
    }
    OneRefOwn(c, t, t', f, p, b);
  }

  lemma OneRefOwn(c: Ctx, t: Tree, t': Tree, f: nat, p: Pos, b: nat)
    requires Own(c, t) && Shape(c, t') && OneRef(c, t, t', f, p, b)
    requires InData(c.geo, b) && Used(c, t.blocks, b) && Unreferenced(c, t, b)
    requires forall d: nat :: d < c.geo.size ==> Used(c, t'.blocks, d) == Used(c, t.blocks, d)
    ensures Own(c, t')
  {
    forall g: nat, q: Pos | At(c, t', g, q) != 0
      ensures InData(c.geo, At(c, t', g, q)) && Used(c, t'.blocks, At(c, t', g, q))
    {
      assert At(c, t, g, q) == At(c, t, g, q);
    }
    forall g: nat, q: Pos, h: nat, r: Pos | At(c, t', g, q) == At(c, t', h, r) != 0
      ensures g == h && q == r
    {
      assert At(c, t, g, q) != b && At(c, t, h, r) != b;
    }
  }

  // ---------- writing a data block ----------

  lemma WriteKeeps(c: Ctx, t: Tree, f: nat, bn: nat, x: Sector)
    requires Own(c, t) && bn < MAXFILE && At(c, t, f, Slot(bn)) != 0
    ensures At(c, t, f, Slot(bn)) < |t.blocks|
    ensures var t' := t.(blocks := t.blocks[At(c, t, f, Slot(bn)) := x]);
      && Own(c, t') && SameRefs(c, t, t')
      && forall g: nat, k: nat {:trigger ByteAt(c, t', g, k)} ::
           ByteAt(c, t', g, k) == if g == f && k / 512 == bn then x.bytes[k % 512] else ByteAt(c, t, g, k)
  {
    var r := At(c, t, f, Slot(bn));
    assert InData(c.geo, r);
    FrameAll(c, t, r, x);
    var t' := t.(blocks := t.blocks[r := x]);
    forall d: nat | d < c.geo.size
      ensures Used(c, t'.blocks, d) == Used(c, t.blocks, d)
    {
      DataFrame(c, t.blocks, r, x, d);
    }
    forall g: nat, k: nat
      ensures ByteAt(c, t', g, k) == if g == f && k / 512 == bn then x.bytes[k % 512] else ByteAt(c, t, g, k)
    {
      if k / 512 < MAXFILE {
        assert At(c, t', g, Slot(k / 512)) == At(c, t, g, Slot(k / 512));
        assert At(c, t, g, Slot(k / 512)) == r ==> g == f && Slot(k / 512) == Slot(bn);
      }
    }
  }

  /** `s` copied over the bytes of `x` from `o` on. */
  function Splice(x: Sector, o: nat, s: seq<Byte>): (r: Sector)
    requires o + |s| <= 512
    ensures forall k :: 0 <= k < 512 ==> r.bytes[k] == if o <= k < o + |s| then s[k - o] else x.bytes[k]
  {
    Sector(x.bytes[..o] + s + x.bytes[o + |s|..])
  }

  /** File bytes with `s` laid over them from offset `from` on, in file `f` only. */
  ghost predicate Overlaid(c: Ctx, t: Tree, t': Tree, f: nat, from: nat, s: seq<Byte>) {
    var over := forall g: nat, k: nat {:trigger ByteAt(c, t', g, k)} ::
      ByteAt(c, t', g, k) == if g == f && from <= k < from + |s| then s[k - from] else ByteAt(c, t, g, k);
    over
  }

  lemma ChunkKeeps(c: Ctx, t: Tree, f: nat, bn: nat, o: nat, s: seq<Byte>)
    requires Own(c, t) && bn < MAXFILE && At(c, t, f, Slot(bn)) != 0 && o + |s| <= 512
    ensures At(c, t, f, Slot(bn)) < |t.blocks|
    ensures var r := At(c, t, f, Slot(bn));
      var t' := t.(blocks := t.blocks[r := Splice(t.blocks[r], o, s)]);
      Own(c, t') && SameRefs(c, t, t') && Overlaid(c, t, t', f, 512 * bn + o, s)
  {
    var r := At(c, t, f, Slot(bn));
    assert InData(c.geo, r);
    var x := Splice(t.blocks[r], o, s);
    WriteKeeps(c, t, f, bn, x);
    var t' := t.(blocks := t.blocks[r := x]);
    forall g: nat, k: nat
      ensures ByteAt(c, t', g, k) ==
              if g == f && 512 * bn + o <= k < 512 * bn + o + |s| then s[k - (512 * bn + o)] else ByteAt(c, t, g, k)
    {
      if k / 512 == bn {
        assert k == 512 * bn + k % 512;
      }
    }
  }

  lemma OverlayAppend(c: Ctx, t0: Tree, t1: Tree, t2: Tree, t3: Tree, f: nat, from: nat, s: seq<Byte>, u: seq<Byte>)
    requires Overlaid(c, t0, t1, f, from, s) && SameBytes(c, t1, t2) && Overlaid(c, t2, t3, f, from + |s|, u)
    ensures Overlaid(c, t0, t3, f, from, s + u)
  {
  }

  lemma OverlaySlice(c: Ctx, t0: Tree, t1: Tree, t2: Tree, f: nat, from: nat, s: seq<Byte>, n: nat, m: nat)
    requires n <= m <= |s|
    requires Overlaid(c, t0, t1, f, from, s[..n]) && Overlaid(c, t1, t2, f, from + n, s[n..m])
    ensures Overlaid(c, t0, t2, f, from, s[..m])
  {
    OverlayAppend(c, t0, t1, t1, t2, f, from, s[..n], s[n..m]);
    assert s[..n] + s[n..m] == s[..m];
  }

  /** The bytes of a file, past its end included, determine its content. */
  lemma ContentOfOverlay(c: Ctx, t: Tree, t': Tree, f: nat, off: nat, s: seq<Byte>, g: nat)
    requires f in t.inodes && f in t'.inodes && g in t.inodes && g in t'.inodes
    requires ZeroTail(c, t) && Overlaid(c, t, t', f, off, s)
    requires t'.inodes[f].size == if off + |s| > t.inodes[f].size && |s| > 0 then off + |s| else t.inodes[f].size
    requires g != f ==> t'.inodes[g].size == t.inodes[g].size
    ensures g != f ==> Content(c, t', g) == Content(c, t, g)
    ensures |s| > 0 ==> Content(c, t', f) == Pwrite(Content(c, t, f), off, s)
    ensures |s| == 0 ==> Content(c, t', f) == Content(c, t, f)
  {
  }

  lemma OverlayKeepsTail(c: Ctx, t: Tree, t': Tree, f: nat, off: nat, s: seq<Byte>)
    requires f in t.inodes && t'.inodes.Keys == t.inodes.Keys && ZeroTail(c, t) && Overlaid(c, t, t', f, off, s)
    requires t'.inodes[f].size == if off + |s| > t.inodes[f].size && |s| > 0 then off + |s| else t.inodes[f].size
    requires forall g :: g in t.inodes && g != f ==> t'.inodes[g] == t.inodes[g]
    ensures ZeroTail(c, t')
  {
  }

  /** What writing `s` at `off` means for a byte string: zero-pad to `off`, then overlay. */
  function Pwrite(a: seq<Byte>, off: nat, s: seq<Byte>): (r: seq<Byte>) {
    var padded := if |a| < off then a + seq(off - |a|, _ => 0) else a;
    padded[..off] + s + (if off + |s| < |padded| then padded[off + |s|..] else [])
  }

  function Resized(t: Tree, f: nat, size: nat): (t': Tree)
    requires f in t.inodes
  {
    t.(inodes := t.inodes[f := t.inodes[f].(size := size)])
  }

  lemma ResizeKeeps(c: Ctx, t: Tree, f: nat, size: nat)
    requires Own(c, t) && f in t.inodes
    ensures var t' := Resized(t, f, size); Own(c, t') && SameRefs(c, t, t') && SameBytes(c, t, t')
  {
    var t' := Resized(t, f, size);
    assert forall g: nat, p: Pos :: At(c, t', g, p) == At(c, t, g, p);
  }
}
