/** What `itrunc_to` does to the tree: which slots it drops, which blocks it frees, and the
    bytes that remain. `t0` is always the tree before the truncation of file `f`. */
module FileTrim {
  import opened Layout
  import opened BlockFormat
  import opened FileTree

  /** The three parts of the tree, in the order in which they are trimmed. */
  function Family(p: Pos): (n: nat) {
    match p case Direct(_) => 0 case Ind => 1 case IndLeaf(_) => 1 case _ => 2
  }

  /** Slots of the first `n` families whose data blocks all lie at or past block `keep`. */
  ghost function Dropped(keep: nat, n: nat): (s: iset<Pos>) {
    iset p: Pos | p.Valid() && Family(p) < n && keep <= p.First()
  }

  ghost predicate Freed(c: Ctx, t0: Tree, f: nat, done: iset<Pos>, d: nat) {
    d != 0 && exists p :: p in done && At(c, t0, f, p) == d
  }

  /** Exactly the blocks at the slots `done` have been given back. */
  ghost predicate FreedBy(c: Ctx, t0: Tree, f: nat, done: iset<Pos>, blocks: seq<Sector>) {
    && |blocks| == c.geo.size
    && forall d: nat {:trigger Used(c, blocks, d)} :: d < c.geo.size ==>
         Used(c, blocks, d) == (Used(c, t0.blocks, d) && !Freed(c, t0, f, done, d))
  }

  lemma FreeOne(c: Ctx, t0: Tree, f: nat, done: iset<Pos>, p: Pos, blocks: seq<Sector>)
    requires Own(c, t0) && FreedBy(c, t0, f, done, blocks) && p !in done && At(c, t0, f, p) != 0
    ensures var b := At(c, t0, f, p);
      && b < c.geo.size && Used(c, blocks, b) && BitBlock(c.geo, b) < c.geo.datastart
      && FreedBy(c, t0, f, done + iset{p}, Marked(c, blocks, b, false))
  {
    var b := At(c, t0, f, p);
    assert b / 4096 <= c.geo.size / 4096;
    assert !Freed(c, t0, f, done, b);
    forall d: nat | d < c.geo.size
      ensures Used(c, Marked(c, blocks, b, false), d) ==
              (Used(c, t0.blocks, d) && !Freed(c, t0, f, done + iset{p}, d))
    {
      UsedAfterMark(c, blocks, b, false, d);
      assert Used(c, blocks, d) == (Used(c, t0.blocks, d) && !Freed(c, t0, f, done, d));
      if d == b {
        assert p in done + iset{p};
        assert Freed(c, t0, f, done + iset{p}, d);
      }
    }
  }

  /** Empty slots count as freed. */
  lemma FreeNone(c: Ctx, t0: Tree, f: nat, done: iset<Pos>, more: iset<Pos>, blocks: seq<Sector>)
    requires FreedBy(c, t0, f, done, blocks)
    requires forall p :: p in more ==> p in done || At(c, t0, f, p) == 0
    requires forall p :: p in done ==> p in more
    ensures FreedBy(c, t0, f, more, blocks)
  {
    forall d: nat | d < c.geo.size
      ensures Freed(c, t0, f, done, d) == Freed(c, t0, f, more, d)
    {
    }
  }

  /** Changes in the data area free nothing. */
  lemma FreedFrame(c: Ctx, t0: Tree, f: nat, done: iset<Pos>, a: seq<Sector>, b: seq<Sector>)
    requires GeoOk(c.geo) && FreedBy(c, t0, f, done, a) && |b| == |a|
    requires forall d: nat :: d < c.geo.datastart ==> b[d] == a[d]
    ensures FreedBy(c, t0, f, done, b)
  {
    forall d: nat | d < c.geo.size
      ensures Used(c, b, d) == Used(c, a, d)
    {
      assert d / 4096 <= c.geo.size / 4096;
    }
  }

  /** Two states of the blocks agree in the data area, but for the blocks `s`. */
  ghost predicate DataSame(c: Ctx, a: seq<Sector>, b: seq<Sector>, s: set<nat>) {
    |a| == |b| == c.geo.size &&
    forall d: nat {:trigger b[d]} :: InData(c.geo, d) && d !in s ==> b[d] == a[d]
  }

  /** The entry for slot `p` in a kept index block: as before if the slot is kept, else 0. */
  predicate TrimmedAt(c: Ctx, t0: Tree, f: nat, keep: nat, blocks: seq<Sector>, p: Pos)
    requires !InInode(p)
  {
    var m := At(c, t0, f, Parent(p));
    p.Valid() && Parent(p).First() < keep && m != 0 ==>
      Entry(c, blocks, m, IndexIn(p)) == if p.First() < keep then At(c, t0, f, p) else 0
  }

  /** A kept index block that was cut at entry `from`, where the slots from there on are
      the dropped ones, is trimmed; later changes elsewhere do not matter. */
  lemma CutIsTrimmed(c: Ctx, t0: Tree, f: nat, keep: nat, cut: seq<Sector>, blocks: seq<Sector>, p: Pos, from: nat)
    requires !InInode(p) && p.Valid() && f in t0.inodes && Shape(c, t0)
    requires var m := At(c, t0, f, Parent(p));
      && m != 0 && m < |cut| == |blocks| && cut[m] == blocks[m]
      && Entry(c, cut, m, IndexIn(p)) == if IndexIn(p) < from then Entry(c, t0.blocks, m, IndexIn(p)) else 0
    requires IndexIn(p) < from <==> p.First() < keep
    ensures TrimmedAt(c, t0, f, keep, blocks, p)
  {
  }

  ghost predicate TrimmedAll(c: Ctx, t0: Tree, f: nat, keep: nat, blocks: seq<Sector>) {
    forall p: Pos {:trigger TrimmedAt(c, t0, f, keep, blocks, p)} :: !InInode(p) ==>
        TrimmedAt(c, t0, f, keep, blocks, p)
  }

  predicate AddrsTrimmed(c: Ctx, t0: Tree, f: nat, keep: nat, addrs: seq<nat>) {
    && |addrs| == 14
    && (forall i :: 0 <= i < 12 ==> addrs[i] == if i < keep then At(c, t0, f, Direct(i)) else 0)
    && addrs[12] == (if 12 < keep then At(c, t0, f, Ind) else 0)
    && addrs[13] == (if 140 < keep then At(c, t0, f, Root) else 0)
  }

  /** The blocks `s` all belong to file `f`. */
  ghost predicate OwnedBy(c: Ctx, t0: Tree, f: nat, s: set<nat>) {
    forall d :: d in s ==> d != 0 && exists q :: At(c, t0, f, q) == d
  }

  /** The tree once the trimmed inode is stored. */
  function Trimmed(t0: Tree, f: nat, blocks: seq<Sector>, addrs: seq<nat>, size: nat): (t: Tree) {
    Tree(blocks, t0.inodes[f := Inode(size, addrs)])
  }

  ghost predicate TrimOk(c: Ctx, t0: Tree, f: nat, keep: nat, blocks: seq<Sector>, addrs: seq<nat>, s: set<nat>) {
    && Own(c, t0) && f in t0.inodes
    && AddrsTrimmed(c, t0, f, keep, addrs) && TrimmedAll(c, t0, f, keep, blocks)
    && DataSame(c, t0.blocks, blocks, s) && OwnedBy(c, t0, f, s)
  }

  lemma TrimmedRefOther(c: Ctx, t0: Tree, f: nat, keep: nat, blocks: seq<Sector>, addrs: seq<nat>, s: set<nat>,
                        size: nat, g: nat, q: Pos)
    requires TrimOk(c, t0, f, keep, blocks, addrs, s) && g != f
    ensures At(c, Trimmed(t0, f, blocks, addrs, size), g, q) == At(c, t0, g, q)
  {
    OtherBlock(c, t0, f, keep, blocks, addrs, s, g, Ind);
    OtherBlock(c, t0, f, keep, blocks, addrs, s, g, Root);
    if q.Leaf? {
      OtherBlock(c, t0, f, keep, blocks, addrs, s, g, Mid(q.o));
    }
  }

  lemma OtherBlock(c: Ctx, t0: Tree, f: nat, keep: nat, blocks: seq<Sector>, addrs: seq<nat>, s: set<nat>, g: nat,
                   q: Pos)
    requires TrimOk(c, t0, f, keep, blocks, addrs, s) && g != f
    ensures var r := At(c, t0, g, q); r != 0 ==> r < |blocks| == |t0.blocks| && blocks[r] == t0.blocks[r]
  {
    var r := At(c, t0, g, q);
    assert r != 0 ==> r !in s;
  }

  lemma TrimmedRefSame(c: Ctx, t0: Tree, f: nat, keep: nat, blocks: seq<Sector>, addrs: seq<nat>, s: set<nat>,
                       size: nat, q: Pos)
    requires TrimOk(c, t0, f, keep, blocks, addrs, s)
    ensures At(c, Trimmed(t0, f, blocks, addrs, size), f, q) == if keep <= q.First() then 0 else At(c, t0, f, q)
  {
    if q.Valid() && !InInode(q) {
      assert TrimmedAt(c, t0, f, keep, blocks, q);
      if q.Leaf? {
        assert TrimmedAt(c, t0, f, keep, blocks, Mid(q.o));
      }
    }
  }

  ghost predicate RefsTrimmed(c: Ctx, t0: Tree, t: Tree, f: nat, keep: nat) {
    forall g: nat, q: Pos {:trigger At(c, t, g, q)} ::
      At(c, t, g, q) == if g == f && keep <= q.First() then 0 else At(c, t0, g, q)
  }

  lemma TrimRefs(c: Ctx, t0: Tree, f: nat, keep: nat, blocks: seq<Sector>, addrs: seq<nat>, s: set<nat>, size: nat)
    requires TrimOk(c, t0, f, keep, blocks, addrs, s)
    ensures RefsTrimmed(c, t0, Trimmed(t0, f, blocks, addrs, size), f, keep)
  {
    forall g: nat, q: Pos
      ensures At(c, Trimmed(t0, f, blocks, addrs, size), g, q) ==
              if g == f && keep <= q.First() then 0 else At(c, t0, g, q)
    {
      if g == f {
        TrimmedRefSame(c, t0, f, keep, blocks, addrs, s, size, q);
      } else {
        TrimmedRefOther(c, t0, f, keep, blocks, addrs, s, size, g, q);
      }
    }
  }

  /** After the truncation no block in use is free, and none is owned twice. */
  lemma TrimOwn(c: Ctx, t0: Tree, f: nat, keep: nat, blocks: seq<Sector>, addrs: seq<nat>, s: set<nat>, size: nat)
    requires TrimOk(c, t0, f, keep, blocks, addrs, s)
    requires FreedBy(c, t0, f, Dropped(keep, 3), blocks)
    ensures Own(c, Trimmed(t0, f, blocks, addrs, size))
  {
    var t := Trimmed(t0, f, blocks, addrs, size);
    TrimRefs(c, t0, f, keep, blocks, addrs, s, size);
    forall g: nat, q: Pos | At(c, t, g, q) != 0
      ensures InData(c.geo, At(c, t, g, q)) && Used(c, blocks, At(c, t, g, q))
    {
      var r := At(c, t0, g, q);
      assert At(c, t, g, q) == r;
      assert !Freed(c, t0, f, Dropped(keep, 3), r);
    }
    forall d: nat | d < c.geo.datastart
      ensures Used(c, blocks, d)
    {
      assert Used(c, t0.blocks, d);
      assert !Freed(c, t0, f, Dropped(keep, 3), d);
    }
  }

  lemma TrimBytes(c: Ctx, t0: Tree, f: nat, keep: nat, blocks: seq<Sector>, addrs: seq<nat>, s: set<nat>, size: nat,
                  g: nat, k: nat)
    requires TrimOk(c, t0, f, keep, blocks, addrs, s)
    requires forall p: Pos :: p.Data() && At(c, t0, f, p) != 0 ==> At(c, t0, f, p) !in s
    ensures ByteAt(c, Trimmed(t0, f, blocks, addrs, size), g, k) ==
            if g == f && keep <= k / 512 then 0 else ByteAt(c, t0, g, k)
  {
    TrimRefs(c, t0, f, keep, blocks, addrs, s, size);
    if k / 512 < MAXFILE {
      var p := Slot(k / 512);
      var r := At(c, t0, g, p);
      assert At(c, Trimmed(t0, f, blocks, addrs, size), g, p) == if g == f && keep <= k / 512 then 0 else r;
      if r != 0 {
        assert r !in s;
      }
    }
  }

  // ---------- the last kept block ----------

  /** The block `x` with its bytes from `o` on zeroed. */
  function ZeroedFrom(x: Sector, o: nat): (r: Sector)
    requires o <= 512
    ensures forall k :: 0 <= k < 512 ==> r.bytes[k] == if k < o then x.bytes[k] else 0
  {
    Splice(x, o, seq(512 - o, _ => 0))
  }

  /** Cutting the tree at block `keep` and zeroing the tail of the last block cuts the
      bytes at `size`, if the bytes past the old end were zero. */
  lemma CutBytes(c: Ctx, t0: Tree, t1: Tree, t2: Tree, f: nat, size: nat, keep: nat)
    requires ZeroTail(c, t0) && f in t0.inodes && keep == (size + 511) / 512
    requires forall g: nat, k: nat {:trigger ByteAt(c, t1, g, k)} ::
               ByteAt(c, t1, g, k) == if g == f && keep <= k / 512 then 0 else ByteAt(c, t0, g, k)
    requires forall g: nat, k: nat {:trigger ByteAt(c, t2, g, k)} ::
               ByteAt(c, t2, g, k) == if g == f && k / 512 == keep - 1 && size % 512 != 0 && size % 512 <= k % 512
                                         && size < t0.inodes[f].size then 0 else ByteAt(c, t1, g, k)
    ensures forall g: nat, k: nat {:trigger ByteAt(c, t2, g, k)} ::
              ByteAt(c, t2, g, k) == if g == f && size <= k then 0 else ByteAt(c, t0, g, k)
  {
    forall g: nat, k: nat
      ensures ByteAt(c, t2, g, k) == if g == f && size <= k then 0 else ByteAt(c, t0, g, k)
    {
      var v := ByteAt(c, t2, g, k);
      var w := ByteAt(c, t1, g, k);
      var u := ByteAt(c, t0, g, k);
      CutIndex(size, keep, k);
    }
  }

  lemma CutIndex(size: nat, keep: nat, k: nat)
    requires keep == (size + 511) / 512
    ensures keep <= k / 512 ==> size <= k
    ensures k / 512 < keep ==> (size <= k <==> k / 512 == keep - 1 && size % 512 != 0 && size % 512 <= k % 512)
  {
  }

  // ---------- rows of an index block ----------

  /** The entries of one leaf-level index block. */
  datatype Row = RowInd | RowLeaf(o: nat) {
    function At(j: nat): (p: Pos) { if RowInd? then IndLeaf(j) else Leaf(o, j) }
    predicate Valid() { RowInd? || o < 128 }
    predicate Has(p: Pos) { if RowInd? then p.IndLeaf? else p.Leaf? && p.o == o }
  }

  ghost function Entries(row: Row, from: nat, upto: nat): (s: iset<Pos>) {
    iset p: Pos | row.Has(p) && from <= p.i < upto
  }

  lemma EntriesSnoc(row: Row, from: nat, j: nat)
    requires from <= j
    ensures Entries(row, from, j + 1) == Entries(row, from, j) + iset{row.At(j)}
    ensures row.At(j) !in Entries(row, from, j)
  {
  }

  /** The leaf-level index blocks `from..upto` of the double-indirect tree, with their
      entries. */
  ghost function Leaves(from: nat, upto: nat): (s: iset<Pos>) {
    iset p: Pos | p.Valid() && (p.Mid? || p.Leaf?) && from <= p.o < upto
  }

  lemma LeavesSnoc(from: nat, j: nat)
    requires from <= j < 128
    ensures Leaves(from, j + 1) == Leaves(from, j) + Entries(RowLeaf(j), 0, 128) + iset{Mid(j)}
    ensures Mid(j) !in Leaves(from, j) + Entries(RowLeaf(j), 0, 128)
  {
  }

  /** How `itrunc_to` splits a cutoff inside the double-indirect range. */
  function DiKeep(keep: nat): (n: nat) { if keep <= 140 then 0 else keep - 140 }
  function LeavesKeep(keep: nat): (n: nat) { (DiKeep(keep) + 127) / 128 }
  function InnerKeep(keep: nat): (n: int) {
    DiKeep(keep) - (if LeavesKeep(keep) == 0 then 0 else LeavesKeep(keep) - 1) * 128
  }

  lemma InnerRange(keep: nat)
    requires 140 < keep <= MAXFILE
    ensures 1 <= LeavesKeep(keep) <= 128 && 1 <= InnerKeep(keep) <= 128
    ensures keep == 140 + 128 * (LeavesKeep(keep) - 1) + InnerKeep(keep)
  {
  }

  lemma DroppedAll(keep: nat)
    requires keep <= 140
    ensures Dropped(keep, 3) == Dropped(keep, 2) + Leaves(0, 128) + iset{Root}
  {
    assert forall p: Pos :: p.Valid() && Family(p) == 2 ==> keep <= p.First();
  }

  lemma DroppedPart(keep: nat)
    requires 140 < keep <= MAXFILE
    ensures InnerKeep(keep) >= 0 && LeavesKeep(keep) >= 1
    ensures Dropped(keep, 3) ==
            Dropped(keep, 2) + Leaves(LeavesKeep(keep), 128) +
              Entries(RowLeaf(LeavesKeep(keep) - 1), InnerKeep(keep), 128)
  {
    InnerRange(keep);
    var l, n := LeavesKeep(keep), InnerKeep(keep);
    forall p: Pos
      ensures p in Dropped(keep, 3) <==> p in Dropped(keep, 2) + Leaves(l, 128) + Entries(RowLeaf(l - 1), n, 128)
    {
    }
  }

  /** The bytes of `t2` are those of `t0` with file `f` cut to zeros from `size` on. */
  ghost predicate CutAt(c: Ctx, t0: Tree, t2: Tree, f: nat, size: nat) {
    forall g: nat, k: nat {:trigger ByteAt(c, t2, g, k)} ::
      ByteAt(c, t2, g, k) == if g == f && size <= k then 0 else ByteAt(c, t0, g, k)
  }

  /** A byte string cut or zero-extended to `n` bytes. */
  function Resize(a: seq<Byte>, n: nat): (r: seq<Byte>) {
    if n <= |a| then a[..n] else a + seq(n - |a|, _ => 0)
  }

  lemma ContentOfCut(c: Ctx, t0: Tree, t2: Tree, f: nat, size: nat, g: nat)
    requires f in t0.inodes && f in t2.inodes && g in t0.inodes && g in t2.inodes
    requires ZeroTail(c, t0) && CutAt(c, t0, t2, f, size) && t2.inodes[f].size == size
    requires g != f ==> t2.inodes[g].size == t0.inodes[g].size
    ensures Content(c, t2, f) == Resize(Content(c, t0, f), size)
    ensures g != f ==> Content(c, t2, g) == Content(c, t0, g)
  {
  }

  /** `t` is `t0` with `f` cut to `size` bytes and `keep` blocks, and is well-formed. */
  ghost predicate CutOk(c: Ctx, t0: Tree, t: Tree, f: nat, keep: nat, size: nat) {
    var a, b, d := Own(c, t), RefsTrimmed(c, t0, t, f, keep), CutAt(c, t0, t, f, size);
    a && b && d
  }

  ghost predicate CutDone(c: Ctx, t0: Tree, f: nat, keep: nat, size: nat, blocks: seq<Sector>, addrs: seq<nat>) {
    var cut, freed := CutOk(c, t0, Trimmed(t0, f, blocks, addrs, size), f, keep, size),
      FreedBy(c, t0, f, Dropped(keep, 3), blocks);
    cut && freed
  }

  /** Trimming followed by zeroing the tail of block `keep - 1`, when there is a tail. */
  lemma TrimThenZero(c: Ctx, t0: Tree, f: nat, size: nat, keep: nat, blocks: seq<Sector>, blocks': seq<Sector>,
                     addrs: seq<nat>, s: set<nat>)
    requires keep == (size + 511) / 512 <= MAXFILE && ZeroTail(c, t0)
    requires TrimOk(c, t0, f, keep, blocks, addrs, s) && FreedBy(c, t0, f, Dropped(keep, 3), blocks)
    requires forall p: Pos :: p.Data() && At(c, t0, f, p) != 0 ==> At(c, t0, f, p) !in s
    requires keep > 0 && size % 512 != 0 && size < t0.inodes[f].size
    requires var r := At(c, Trimmed(t0, f, blocks, addrs, size), f, Slot(keep - 1));
      blocks' == if r == 0 || r >= |blocks| then blocks else blocks[r := ZeroedFrom(blocks[r], size % 512)]
    ensures CutOk(c, t0, Trimmed(t0, f, blocks', addrs, size), f, keep, size)
  {
    var t1 := Trimmed(t0, f, blocks, addrs, size);
    var t2 := Trimmed(t0, f, blocks', addrs, size);
    TrimOwn(c, t0, f, keep, blocks, addrs, s, size);
    TrimRefs(c, t0, f, keep, blocks, addrs, s, size);
    TrimAllBytes(c, t0, f, keep, blocks, addrs, s, size);
    var r := At(c, t1, f, Slot(keep - 1));
    if r != 0 {
      var x := ZeroedFrom(blocks[r], size % 512);
      WriteKeeps(c, t1, f, keep - 1, x);
      assert t2 == t1.(blocks := t1.blocks[r := x]);
      TailBytes(c, t1, t2, f, keep, size % 512, x);
    } else {
      assert t2 == t1;
      assert forall k: nat :: k / 512 == keep - 1 ==> ByteAt(c, t1, f, k) == 0;
    }
    CutBytes(c, t0, t1, t2, f, size, keep);
  }

  lemma TailInData(c: Ctx, t0: Tree, f: nat, size: nat, keep: nat, blocks: seq<Sector>, addrs: seq<nat>, s: set<nat>)
    requires 0 < keep <= MAXFILE
    requires TrimOk(c, t0, f, keep, blocks, addrs, s) && FreedBy(c, t0, f, Dropped(keep, 3), blocks)
    ensures var r := Ref(c, blocks, addrs, Slot(keep - 1));
      && r == At(c, Trimmed(t0, f, blocks, addrs, size), f, Slot(keep - 1)) == At(c, t0, f, Slot(keep - 1))
      && (r != 0 ==> InData(c.geo, r))
  {
    TrimOwn(c, t0, f, keep, blocks, addrs, s, size);
    TrimmedRefSame(c, t0, f, keep, blocks, addrs, s, size, Slot(keep - 1));
  }

  lemma ZeroKeepsFreed(c: Ctx, t0: Tree, f: nat, size: nat, keep: nat, blocks: seq<Sector>, blocks': seq<Sector>,
                       addrs: seq<nat>, s: set<nat>)
    requires 0 < keep <= MAXFILE
    requires TrimOk(c, t0, f, keep, blocks, addrs, s) && FreedBy(c, t0, f, Dropped(keep, 3), blocks)
    requires var r := At(c, Trimmed(t0, f, blocks, addrs, size), f, Slot(keep - 1));
      blocks' == if r == 0 || r >= |blocks| then blocks else blocks[r := ZeroedFrom(blocks[r], size % 512)]
    ensures FreedBy(c, t0, f, Dropped(keep, 3), blocks')
  {
    TailInData(c, t0, f, size, keep, blocks, addrs, s);
    FreedFrame(c, t0, f, Dropped(keep, 3), blocks, blocks');
  }

  lemma RestZeroed(c: Ctx, t0: Tree, f: nat, size: nat, keep: nat, blocks: seq<Sector>, blocks': seq<Sector>,
                   addrs: seq<nat>, s: set<nat>)
    requires keep == (size + 511) / 512 <= MAXFILE && ZeroTail(c, t0)
    requires TrimOk(c, t0, f, keep, blocks, addrs, s) && FreedBy(c, t0, f, Dropped(keep, 3), blocks)
    requires forall p: Pos :: p.Data() && At(c, t0, f, p) != 0 ==> At(c, t0, f, p) !in s
    requires keep > 0 && size % 512 != 0 && size < t0.inodes[f].size
    requires var r := At(c, Trimmed(t0, f, blocks, addrs, size), f, Slot(keep - 1));
      blocks' == if r == 0 || r >= |blocks| then blocks else blocks[r := ZeroedFrom(blocks[r], size % 512)]
    ensures CutDone(c, t0, f, keep, size, blocks', addrs)
  {
    TrimThenZero(c, t0, f, size, keep, blocks, blocks', addrs, s);
    ZeroKeepsFreed(c, t0, f, size, keep, blocks, blocks', addrs, s);
  }

  lemma TailBytes(c: Ctx, t1: Tree, t2: Tree, f: nat, keep: nat, o: nat, x: Sector)
    requires 0 < keep <= MAXFILE && o <= 512
    requires var r := At(c, t1, f, Slot(keep - 1)); r != 0 && r < |t1.blocks| && x == ZeroedFrom(t1.blocks[r], o)
    requires forall g: nat, k: nat {:trigger ByteAt(c, t2, g, k)} ::
               ByteAt(c, t2, g, k) == if g == f && k / 512 == keep - 1 then x.bytes[k % 512] else ByteAt(c, t1, g, k)
    ensures forall g: nat, k: nat {:trigger ByteAt(c, t2, g, k)} ::
              ByteAt(c, t2, g, k) == if g == f && k / 512 == keep - 1 && o <= k % 512 then 0 else ByteAt(c, t1, g, k)
  {
  }

  lemma TrimAllBytes(c: Ctx, t0: Tree, f: nat, keep: nat, blocks: seq<Sector>, addrs: seq<nat>, s: set<nat>, size: nat)
    requires TrimOk(c, t0, f, keep, blocks, addrs, s)
    requires forall p: Pos :: p.Data() && At(c, t0, f, p) != 0 ==> At(c, t0, f, p) !in s
    ensures var t1 := Trimmed(t0, f, blocks, addrs, size);
      forall g: nat, k: nat {:trigger ByteAt(c, t1, g, k)} ::
        ByteAt(c, t1, g, k) == if g == f && keep <= k / 512 then 0 else ByteAt(c, t0, g, k)
  {
    forall g: nat, k: nat
      ensures ByteAt(c, Trimmed(t0, f, blocks, addrs, size), g, k) ==
              if g == f && keep <= k / 512 then 0 else ByteAt(c, t0, g, k)
    {
      TrimBytes(c, t0, f, keep, blocks, addrs, s, size, g, k);
    }
  }

  /** Trimming alone, when the cut falls on a block boundary or the file does not shrink. */
  lemma TrimOnly(c: Ctx, t0: Tree, f: nat, size: nat, keep: nat, blocks: seq<Sector>, addrs: seq<nat>, s: set<nat>)
    requires keep == (size + 511) / 512 && ZeroTail(c, t0)
    requires TrimOk(c, t0, f, keep, blocks, addrs, s) && FreedBy(c, t0, f, Dropped(keep, 3), blocks)
    requires forall p: Pos :: p.Data() && At(c, t0, f, p) != 0 ==> At(c, t0, f, p) !in s
    requires size % 512 == 0 || size >= t0.inodes[f].size
    ensures CutOk(c, t0, Trimmed(t0, f, blocks, addrs, size), f, keep, size)
  {
    var t2 := Trimmed(t0, f, blocks, addrs, size);
    TrimOwn(c, t0, f, keep, blocks, addrs, s, size);
    TrimRefs(c, t0, f, keep, blocks, addrs, s, size);
    TrimAllBytes(c, t0, f, keep, blocks, addrs, s, size);
    CutBytes(c, t0, t2, t2, f, size, keep);
  }
}
