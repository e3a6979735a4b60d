/** `balloc`, `bfree`, `bmap`, `bmap_or_alloc`, `readi`, `writei` and `itrunc_to`, run on the
    block tree and proved against the flat byte string a file stands for. */
module FileOps {
  import opened Collections
  import opened Layout
  import opened BlockFormat
  import opened FileTree
  import opened FileTrim

  /** The slots on the way to file block `bn`. */
  function Path(bn: nat): (s: set<Pos>)
    requires bn < MAXFILE
  {
    match Slot(bn)
    case Direct(i) => {Direct(i)}
    case IndLeaf(i) => {Ind, IndLeaf(i)}
    case Leaf(o, i) => {Root, Mid(o), Leaf(o, i)}
  }

  /** From `t` to `t'` only empty slots of `f` among `ps` were filled; no byte changed. */
  ghost predicate Grown(c: Ctx, t: Tree, t': Tree, f: nat, ps: set<Pos>) {
    && Own(c, t') && SameBytes(c, t, t') && SameSizes(t, t') && OthersSame(t, t', f)
    && forall g: nat, q: Pos {:trigger At(c, t', g, q)} ::
         At(c, t', g, q) == At(c, t, g, q) || (g == f && q in ps && At(c, t, g, q) == 0)
  }

  ghost predicate SameSizes(t: Tree, t': Tree) {
    && t'.inodes.Keys == t.inodes.Keys
    && forall g :: g in t.inodes ==> t'.inodes[g].size == t.inodes[g].size
  }

  ghost predicate OthersSame(t: Tree, t': Tree, f: nat) {
    t'.inodes.Keys == t.inodes.Keys && forall g :: g in t.inodes && g != f ==> t'.inodes[g] == t.inodes[g]
  }

  // ---------- free blocks, and those a file lacks ----------

  function FreeSet(c: Ctx, blocks: seq<Sector>): (s: set<nat>) { set b: nat | b < c.geo.size && !Used(c, blocks, b) }

  function FreeCount(c: Ctx, blocks: seq<Sector>): (n: nat) { |FreeSet(c, blocks)| }

  ghost predicate Full(c: Ctx, blocks: seq<Sector>) { FreeCount(c, blocks) == 0 }

  lemma AllUsed(c: Ctx, blocks: seq<Sector>)
    requires forall b: nat {:trigger Used(c, blocks, b)} :: b < c.geo.size ==> Used(c, blocks, b)
    ensures Full(c, blocks)
  {
    assert FreeSet(c, blocks) == {};
  }

  function Gap(c: Ctx, t: Tree, f: nat, p: Pos): (n: nat) { if At(c, t, f, p) == 0 then 1 else 0 }

  /** How many blocks are missing on the way to file block `bn`, itself included. */
  function Missing(c: Ctx, t: Tree, f: nat, bn: nat): (n: nat)
    requires bn < MAXFILE
  {
    match Slot(bn)
    case Direct(i) => Gap(c, t, f, Direct(i))
    case IndLeaf(i) => Gap(c, t, f, Ind) + Gap(c, t, f, IndLeaf(i))
    case Leaf(o, i) => Gap(c, t, f, Root) + Gap(c, t, f, Mid(o)) + Gap(c, t, f, Leaf(o, i))
  }

  /** A term that lets a proof look into `Took` and `Found`. */
  predicate Peek(k: int) { k == k }

  /** A term that lets a proof look into `Reached`, `Wrote` and the like. */
  predicate Look(k: int) { k == k }

  /** `k` blocks were asked for: they were taken, or all that were free and those were too few. */
  ghost predicate Took(c: Ctx, t: Tree, t': Tree, k: nat, ok: bool) {
    var took := forall l {:trigger Peek(l)} :: Peek(l) ==>
      var n, n' := FreeCount(c, t.blocks), FreeCount(c, t'.blocks);
      ok == (k <= n) && n' == (if ok then n - k else 0) && (n == 0 || k == 0 ==> t' == t);
    took
  }

  /** The blocks missing on the way to file block `bn` were asked for; unless there were as many, the
      tree stayed as it was exactly when none was free. */
  ghost predicate Found(c: Ctx, t: Tree, t': Tree, f: nat, bn: nat, ok: bool)
    requires bn < MAXFILE
  {
    var found := forall l {:trigger Peek(l)} :: Peek(l) ==>
      var n := FreeCount(c, t.blocks);
      ok == (Missing(c, t, f, bn) <= n) && (!ok ==> (t' == t <==> n == 0));
    found
  }

  lemma TookNone(c: Ctx, t: Tree)
    ensures Took(c, t, t, 0, true)
  {
  }

  lemma TookFull(c: Ctx, t: Tree)
    requires Full(c, t.blocks)
    ensures Took(c, t, t, 1, false)
  {
  }

  /** Claiming a free block and linking it. */
  lemma TookOne(c: Ctx, t: Tree, f: nat, p: Pos, b: nat)
    requires Own(c, t) && b < c.geo.size && !Used(c, t.blocks, b)
    requires BitBlock(c.geo, b) < |t.blocks| && Linkable(c, Claimed(c, t, b), f, p, b)
    ensures Took(c, t, Linked(c, Claimed(c, t, b), f, p, b), 1, true)
  {
    var t1 := Claimed(c, t, b);
    var t2 := Linked(c, t1, f, p, b);
    LinkBlocks(c, t1, f, p, b);
    forall d: nat | d < c.geo.size ensures Used(c, t2.blocks, d) == (d == b || Used(c, t.blocks, d)) {
      UsedAfterMark(c, t.blocks, b, true, d);
      assert d / 4096 <= c.geo.size / 4096;
    }
    assert b in FreeSet(c, t.blocks);
    assert FreeSet(c, t2.blocks) == FreeSet(c, t.blocks) - {b};
  }

  lemma TookThen(c: Ctx, t: Tree, t1: Tree, t2: Tree, k1: nat, k2: nat, ok: bool)
    requires Took(c, t, t1, k1, true) && Took(c, t1, t2, k2, ok)
    ensures Took(c, t, t2, k1 + k2, ok)
  {
    assert Peek(0);
  }

  lemma TookTooFew(c: Ctx, t: Tree, t': Tree, k1: nat, k2: nat)
    requires Took(c, t, t', k1, false)
    ensures Took(c, t, t', k1 + k2, false)
  {
    assert Peek(0);
  }

  lemma TookFound(c: Ctx, t: Tree, t1: Tree, t': Tree, f: nat, bn: nat, ok: bool)
    requires bn < MAXFILE && Took(c, t, t1, Missing(c, t, f, bn), ok) && (!ok ==> t' == t1)
    ensures Found(c, t, t', f, bn, ok)
  {
    assert Peek(0);
  }

  /** A write that finds no room is one for which fewer blocks are free than the first block of its
      range lacks; it changes the tree, though no byte, exactly when some block was free. */
  lemma FoundMeans(c: Ctx, t: Tree, t': Tree, f: nat, bn: nat, ok: bool)
    requires bn < MAXFILE && Found(c, t, t', f, bn, ok)
    ensures ok <==> Missing(c, t, f, bn) <= FreeCount(c, t.blocks)
    ensures !ok ==> (t' == t <==> FreeCount(c, t.blocks) == 0)
  {
    assert Peek(0);
  }

  /** What the loop of `writei` knows of its first round. */
  ghost predicate Underway(c: Ctx, t0: Tree, t: Tree, f: nat, off: nat, n: nat)
    requires off / 512 < MAXFILE
  {
    var room := forall l {:trigger Peek(l)} :: Peek(l) ==> Missing(c, t0, f, off / 512) <= FreeCount(c, t0.blocks);
    if n == 0 then t == t0 else room
  }

  lemma FoundMore(c: Ctx, t0: Tree, t: Tree, t': Tree, f: nat, off: nat, n: nat, chunk: nat, ok: bool)
    requires (off + n) / 512 < MAXFILE && Underway(c, t0, t, f, off, n) && Found(c, t, t', f, (off + n) / 512, ok) &&
               chunk > 0
    ensures ok ==> Underway(c, t0, t', f, off, n + chunk)
    ensures !ok ==> Found(c, t0, t', f, off / 512, n > 0)
  {
    assert Peek(0);
  }

  lemma UnderwayFound(c: Ctx, t0: Tree, t: Tree, f: nat, off: nat, n: nat)
    requires off / 512 < MAXFILE && Underway(c, t0, t, f, off, n) && n > 0
    ensures Found(c, t0, t, f, off / 512, true)
  {
    assert Peek(0);
  }

  /** The bitmap's blocks, and the blocks at the slots `ps` of file `f`. */
  predicate IsBitBlock(g: Geo, n: nat) { g.bmapstart <= n <= g.bmapstart + g.size / 4096 }

  function BitBlocks(g: Geo): (s: set<nat>) {
    set n: nat | n < g.datastart && IsBitBlock(g, n)
  }

  function BlocksAt(c: Ctx, t: Tree, f: nat, ps: set<Pos>): (s: set<nat>) {
    set p | p in ps && At(c, t, f, p) != 0 :: At(c, t, f, p)
  }

  /** All slots on the way to the file blocks from `lo` up to `hi`. */
  function Paths(lo: nat, hi: nat): (s: set<Pos>)
    requires hi <= MAXFILE
    decreases hi
  {
    if hi <= lo then {} else Paths(lo, hi - 1) + Path(hi - 1)
  }

  lemma {:induction false} PathInPaths(lo: nat, hi: nat, bn: nat)
    requires lo <= bn < hi <= MAXFILE
    ensures Path(bn) <= Paths(lo, hi)
  {
    if bn < hi - 1 {
      PathInPaths(lo, hi - 1, bn);
    }
  }

  lemma BlocksAtGrows(c: Ctx, t: Tree, t': Tree, f: nat, ps: set<Pos>, qs: set<Pos>)
    requires KeepsFilled(c, t, t', f) && qs <= ps
    ensures BlocksAt(c, t, f, ps) <= BlocksAt(c, t', f, ps)
    ensures BlocksAt(c, t', f, qs) <= BlocksAt(c, t', f, ps)
  {
    forall b | b in BlocksAt(c, t, f, ps)
      ensures b in BlocksAt(c, t', f, ps)
    {
      var p :| p in ps && At(c, t, f, p) == b;
      assert At(c, t', f, p) == b;
    }
  }

  lemma BlocksAtFrame(c: Ctx, t: Tree, t': Tree, f: nat, ps: set<Pos>)
    requires SameRefs(c, t, t')
    ensures BlocksAt(c, t', f, ps) == BlocksAt(c, t, f, ps)
  {
    forall p
      ensures At(c, t', f, p) == At(c, t, f, p)
    {
    }
  }

  /** Filled slots of `f` stay as they are. */
  ghost predicate KeepsFilled(c: Ctx, t: Tree, t': Tree, f: nat) {
    var kept := forall q: Pos {:trigger At(c, t', f, q)} :: At(c, t, f, q) != 0 ==> At(c, t', f, q) == At(c, t, f, q);
    kept
  }

  ghost predicate WithinLog(c: Ctx, t: Tree, f: nat, l0: set<nat>, l: set<nat>, ps: set<Pos>) {
    l <= l0 + BitBlocks(c.geo) + BlocksAt(c, t, f, ps)
  }

  function WithParent(p: Pos): (ps: set<Pos>) { if InInode(p) then {p} else {Parent(p), p} }

  /** The outcome `r` of asking for the block at slot `p`: empty slots among `ps` filled with `k` blocks,
      bitmap blocks and those at the slots `ls` logged. */
  ghost predicate Reached(c: Ctx, t: Tree, t': Tree, f: nat, ps: set<Pos>, ls: set<Pos>, k: nat,
                          l: set<nat>, l': set<nat>, p: Pos, r: Option<nat>) {
    var reached := forall x {:trigger Look(x)} :: Look(x) ==>
      && Grown(c, t, t', f, ps) && Took(c, t, t', k, r.Some?) && WithinLog(c, t', f, l, l', ls)
      && (if r.Some? then At(c, t', f, p) == r.value != 0 else Full(c, t'.blocks));
    reached
  }

  lemma ReachedThere(c: Ctx, t: Tree, f: nat, p: Pos, l: set<nat>)
    requires Own(c, t) && At(c, t, f, p) != 0
    ensures Reached(c, t, t, f, {p}, WithParent(p), Gap(c, t, f, p), l, l, p, Some(At(c, t, f, p)))
  {
    TookNone(c, t);
  }

  lemma ReachedFull(c: Ctx, t: Tree, f: nat, p: Pos, l: set<nat>)
    requires Own(c, t) && At(c, t, f, p) == 0 && Full(c, t.blocks)
    ensures Reached(c, t, t, f, {p}, WithParent(p), Gap(c, t, f, p), l, l, p, None)
  {
    TookFull(c, t);
  }

  /** Slot `p` is filled with the free block `b`; bitmap, block and, if it is one, index block are logged. */
  lemma ReachedNew(c: Ctx, t: Tree, f: nat, p: Pos, b: nat, l: set<nat>)
    requires Own(c, t) && f in t.inodes && p.Valid() && At(c, t, f, p) == 0
    requires b < c.geo.size && !Used(c, t.blocks, b) && BitBlock(c.geo, b) < |t.blocks|
    requires !InInode(p) ==> At(c, t, f, Parent(p)) != 0
    ensures
      var t1 := Claimed(c, t, b);
      && Linkable(c, t1, f, p, b)
      && var l' := l + {BitBlock(c.geo, b), b} + (if InInode(p) then {} else {At(c, t1, f, Parent(p))});
      Reached(c, t, Linked(c, t1, f, p, b), f, {p}, WithParent(p), Gap(c, t, f, p), l, l', p, Some(b))
  {
    var t1 := Claimed(c, t, b);
    ClaimKeeps(c, t, b);
    LinkKeeps(c, t1, f, p, b);
    TookOne(c, t, f, p, b);
    var t2 := Linked(c, t1, f, p, b);
    GrownNew(c, t, t1, t2, f, p, b);
    LoggedNew(c, t2, f, p, b, l);
  }

  lemma GrownNew(c: Ctx, t: Tree, t1: Tree, t2: Tree, f: nat, p: Pos, b: nat)
    requires f in t.inodes && p.Valid() && At(c, t, f, p) == 0
    requires SameRefs(c, t, t1) && SameBytes(c, t, t1) && t1.inodes == t.inodes
    requires Linkable(c, t1, f, p, b) && t2 == Linked(c, t1, f, p, b)
    requires Own(c, t2) && SameBytes(c, t1, t2) && OneRef(c, t1, t2, f, p, b) && t2.inodes.Keys == t1.inodes.Keys
    ensures Grown(c, t, t2, f, {p}) && At(c, t2, f, p) == b != 0
    ensures !InInode(p) ==> At(c, t2, f, Parent(p)) == At(c, t1, f, Parent(p)) == At(c, t, f, Parent(p))
  {
  }

  lemma LoggedNew(c: Ctx, t: Tree, f: nat, p: Pos, b: nat, l: set<nat>)
    requires GeoOk(c.geo) && b < c.geo.size && At(c, t, f, p) == b != 0
    requires !InInode(p) ==> At(c, t, f, Parent(p)) != 0
    ensures WithinLog(c, t, f, l, l + {BitBlock(c.geo, b), b} + (if InInode(p) then {} else {At(c, t, f, Parent(p))}),
                      WithParent(p))
  {
    assert b / 4096 <= c.geo.size / 4096;
    assert IsBitBlock(c.geo, BitBlock(c.geo, b));
    assert p in WithParent(p) && (!InInode(p) ==> Parent(p) in WithParent(p));
  }

  lemma ReachedKeeps(c: Ctx, t: Tree, t': Tree, f: nat, p: Pos, k: nat, l: set<nat>, l': set<nat>, r: Option<nat>,
                     q: Pos)
    requires Reached(c, t, t', f, {p}, WithParent(p), k, l, l', p, r) && r.Some? && f in t.inodes && q != p
    ensures Own(c, t') && f in t'.inodes && At(c, t', f, p) != 0 && Gap(c, t', f, q) == Gap(c, t, f, q)
  {
    assert Look(0);
    assert At(c, t', f, q) == At(c, t, f, q);
  }

  lemma ReachedNot(c: Ctx, t: Tree, t': Tree, f: nat, p: Pos, k1: nat, k2: nat, l: set<nat>, l': set<nat>,
                   ps: set<Pos>, ls: set<Pos>, q: Pos)
    requires Reached(c, t, t', f, {p}, WithParent(p), k1, l, l', p, None) && p in ps && WithParent(p) <= ls
    ensures Reached(c, t, t', f, ps, ls, k1 + k2, l, l', q, None)
  {
    assert Look(0);
    TookTooFew(c, t, t', k1, k2);
    assert BlocksAt(c, t', f, WithParent(p)) <= BlocksAt(c, t', f, ls);
  }

  /** One slot after the other. */
  lemma ReachedThen(c: Ctx, t: Tree, t1: Tree, t2: Tree, f: nat, p: Pos, k1: nat, l: set<nat>, l1: set<nat>,
                    r1: Option<nat>, qs: set<Pos>, ls: set<Pos>, k2: nat, l2: set<nat>, q: Pos, r: Option<nat>)
    requires Reached(c, t, t1, f, {p}, WithParent(p), k1, l, l1, p, r1) && r1.Some?
    requires Reached(c, t1, t2, f, qs, ls, k2, l1, l2, q, r)
    ensures Reached(c, t, t2, f, {p} + qs, WithParent(p) + ls, k1 + k2, l, l2, q, r)
  {
    assert Look(0);
    TookThen(c, t, t1, t2, k1, k2, r.Some?);
    GrownThen(c, t, t1, t2, f, {p}, qs);
    FilledStays(c, t1, t2, f, qs);
    BlocksAtGrows(c, t1, t2, f, WithParent(p), WithParent(p));
    BlocksAtGrows(c, t2, t2, f, WithParent(p) + ls, WithParent(p));
    BlocksAtGrows(c, t2, t2, f, WithParent(p) + ls, ls);
  }

  lemma GrownThen(c: Ctx, t: Tree, t1: Tree, t2: Tree, f: nat, ps: set<Pos>, qs: set<Pos>)
    requires Grown(c, t, t1, f, ps) && Grown(c, t1, t2, f, qs)
    ensures Grown(c, t, t2, f, ps + qs)
  {
    forall g: nat, q: Pos
      ensures At(c, t2, g, q) == At(c, t, g, q) || (g == f && q in ps + qs && At(c, t, g, q) == 0)
    {
      assert At(c, t1, g, q) == At(c, t1, g, q);
    }
  }

  lemma FilledStays(c: Ctx, t: Tree, t': Tree, f: nat, ps: set<Pos>)
    requires Grown(c, t, t', f, ps)
    ensures KeepsFilled(c, t, t', f)
  {
  }

  lemma ReachedMeans(c: Ctx, t: Tree, t': Tree, f: nat, ps: set<Pos>, k: nat, l: set<nat>, l': set<nat>, p: Pos,
                     r: Option<nat>)
    requires Reached(c, t, t', f, ps, ps, k, l, l', p, r)
    ensures Grown(c, t, t', f, ps) && Took(c, t, t', k, r.Some?) && WithinLog(c, t', f, l, l', ps)
    ensures if r.Some? then At(c, t', f, p) == r.value != 0 else Full(c, t'.blocks)
  {
    assert Look(0);
  }

  /** `want`: how much of a write of `len` bytes at `off` the size cap admits. */
  function Clip(off: nat, len: nat): (n: nat)
    requires off < 512 * MAXFILE
    ensures n <= len && off + n <= 512 * MAXFILE
    ensures n == len || off + n == 512 * MAXFILE
  {
    if len < 512 * MAXFILE - off then len else 512 * MAXFILE - off
  }

  function WritePaths(off: nat, len: nat): (ps: set<Pos>)
    requires off < 512 * MAXFILE
  {
    Paths(off / 512, (off + Clip(off, len) + 511) / 512)
  }

  ghost predicate Covers(off: nat, want: nat, ps: set<Pos>) {
    forall bn: nat {:trigger Path(bn)} :: bn < MAXFILE && want > 0 && off / 512 <= bn <= (off + want - 1) / 512 ==>
        Path(bn) <= ps
  }

  lemma PathsCover(off: nat, len: nat)
    requires off < 512 * MAXFILE
    ensures Covers(off, Clip(off, len), WritePaths(off, len))
  {
    var want := Clip(off, len);
    forall bn: nat | bn < MAXFILE && want > 0 && off / 512 <= bn <= (off + want - 1) / 512
      ensures Path(bn) <= WritePaths(off, len)
    {
      PathInPaths(off / 512, (off + want + 511) / 512, bn);
    }
  }

  /** The blocks that a write of `len` bytes at `off` may log: bitmap, tree and inode. */
  function WriteSet(c: Ctx, t: Tree, f: nat, off: nat, len: nat, inodestart: nat): (s: set<nat>) {
    if off >= 512 * MAXFILE then {}
    else BitBlocks(c.geo) + BlocksAt(c, t, f, WritePaths(off, len)) + {inodestart + f / IPB}
  }

  lemma {:induction false} ImageSize(c: Ctx, t: Tree, f: nat, ps: set<Pos>)
    ensures |BlocksAt(c, t, f, ps)| <= |ps|
  {
    if ps != {} {
      var p :| p in ps;
      ImageSize(c, t, f, ps - {p});
      assert BlocksAt(c, t, f, ps) <= BlocksAt(c, t, f, ps - {p}) + {At(c, t, f, p)};
      SubsetSize(BlocksAt(c, t, f, ps), BlocksAt(c, t, f, ps - {p}) + {At(c, t, f, p)});
    }
  }

  /** The index slots above up to four consecutive file blocks: at most three. */
  function IndexSlots(lo: nat): (s: set<Pos>)
    requires lo < MAXFILE
  {
    if lo < 137 then {Ind}
    else if lo < 140 then {Ind, Root, Mid(0)}
    else {Root, Mid((lo - 140) / 128), Mid((lo - 137) / 128)}
  }

  lemma PathIndex(lo: nat, bn: nat)
    requires lo <= bn < MAXFILE && bn < lo + 4
    ensures Path(bn) <= IndexSlots(lo) + {Slot(bn)}
  {
    if bn >= 140 && lo >= 140 {
      var o := (bn - 140) / 128;
      assert o == (lo - 140) / 128 || o == (lo - 137) / 128;
    }
  }

  lemma {:induction false} PathsSize(lo: nat, hi: nat)
    requires lo < hi <= MAXFILE && hi <= lo + 4
    ensures |Paths(lo, hi) + IndexSlots(lo)| <= hi - lo + 3
  {
    PathIndex(lo, hi - 1);
    if hi - 1 == lo {
      assert Paths(lo, lo) == {};
      SubsetSize(Paths(lo, hi) + IndexSlots(lo), IndexSlots(lo) + {Slot(lo)});
    } else {
      PathsSize(lo, hi - 1);
      SubsetSize(Paths(lo, hi) + IndexSlots(lo), (Paths(lo, hi - 1) + IndexSlots(lo)) + {Slot(hi - 1)});
    }
  }

  lemma WritePathsSize(off: nat, len: nat)
    requires len <= 1536 && off < 512 * MAXFILE
    ensures |WritePaths(off, len)| <= 7
  {
    var lo, hi := off / 512, (off + Clip(off, len) + 511) / 512;
    assert hi <= lo + 4;
    if lo < hi {
      PathsSize(lo, hi);
      SubsetSize(Paths(lo, hi), Paths(lo, hi) + IndexSlots(lo));
    }
  }

  lemma OneBitBlock(g: Geo)
    requires g.size < 4096
    ensures BitBlocks(g) <= {g.bmapstart}
  {
    assert g.size / 4096 == 0;
  }

  /** One `writei` of at most WRITE_CHUNK (1536) bytes, at any offset of any sparse tree,
      logs at most 9 blocks on a disk with one bitmap block: fewer than MAXOPBLOCKS. */
  lemma WriteFitsBudget(c: Ctx, t: Tree, f: nat, off: nat, len: nat, inodestart: nat)
    requires len <= 1536 && c.geo.size < 4096
    ensures |WriteSet(c, t, f, off, len, inodestart)| <= 9 < MAXOPBLOCKS
  {
    if off < 512 * MAXFILE {
      var ps := WritePaths(off, len);
      WritePathsSize(off, len);
      ImageSize(c, t, f, ps);
      var a := BlocksAt(c, t, f, ps);
      OneBitBlock(c.geo);
      SubsetSize(WriteSet(c, t, f, off, len, inodestart), a + {c.geo.bmapstart} + {inodestart + f / IPB});
    }
  }

  /** The blocks of `f` on the way to the last block that a truncation to `keep` blocks keeps. */
  ghost function CutBlocks(c: Ctx, t: Tree, f: nat, keep: nat): (s: set<nat>)
    requires keep <= MAXFILE
  {
    if keep == 0 then {} else BlocksAt(c, t, f, Path(keep - 1))
  }

  lemma CutBlocksOf(c: Ctx, t: Tree, f: nat, keep: nat)
    requires keep <= MAXFILE
    ensures 12 < keep < 140 && At(c, t, f, Ind) != 0 ==> At(c, t, f, Ind) in CutBlocks(c, t, f, keep)
    ensures 140 < keep && At(c, t, f, Root) != 0 ==> At(c, t, f, Root) in CutBlocks(c, t, f, keep)
    ensures 140 < keep ==>
              var m := At(c, t, f, Mid(LeavesKeep(keep) - 1)); m != 0 ==> m in CutBlocks(c, t, f, keep)
  {
    if 12 < keep < 140 {
      assert Ind in Path(keep - 1);
    } else if 140 < keep {
      InnerRange(keep);
      assert Root in Path(keep - 1) && Mid(LeavesKeep(keep) - 1) in Path(keep - 1);
    }
  }

  lemma TailInCut(c: Ctx, t: Tree, f: nat, keep: nat)
    requires 0 < keep <= MAXFILE && At(c, t, f, Slot(keep - 1)) != 0
    ensures At(c, t, f, Slot(keep - 1)) in CutBlocks(c, t, f, keep)
  {
    assert Slot(keep - 1) in Path(keep - 1);
  }

  /** The blocks that a truncation to `size` bytes may log, however many it frees: bitmap, the way to
      the last kept block, inode. */
  ghost function TruncSet(c: Ctx, t: Tree, f: nat, size: nat, inodestart: nat): (s: set<nat>)
    requires size <= 512 * MAXFILE
  {
    BitBlocks(c.geo) + CutBlocks(c, t, f, (size + 511) / 512) + {inodestart + f / IPB}
  }

  /** Any truncation of any tree logs at most 5 blocks on a disk with one bitmap block. */
  lemma TruncFitsBudget(c: Ctx, t: Tree, f: nat, size: nat, inodestart: nat)
    requires size <= 512 * MAXFILE && c.geo.size < 4096
    ensures |TruncSet(c, t, f, size, inodestart)| <= 5 < MAXOPBLOCKS
  {
    var keep := (size + 511) / 512;
    CutBlocksSize(c, t, f, keep);
    OneBitBlock(c.geo);
    TwoMore(TruncSet(c, t, f, size, inodestart), CutBlocks(c, t, f, keep), c.geo.bmapstart, inodestart + f / IPB);
  }

  lemma TwoMore<T>(a: set<T>, b: set<T>, x: T, y: T)
    requires a <= b + {x} + {y}
    ensures |a| <= |b| + 2
  {
    SubsetSize(a, b + {x} + {y});
  }

  lemma CutBlocksSize(c: Ctx, t: Tree, f: nat, keep: nat)
    requires keep <= MAXFILE
    ensures |CutBlocks(c, t, f, keep)| <= 3
  {
    if keep > 0 {
      ImageSize(c, t, f, Path(keep - 1));
    }
  }

  lemma LoggedGrows(l0: set<nat>, l1: set<nat>, l2: set<nat>, bits: set<nat>, a: set<nat>, b: set<nat>, d: set<nat>)
    requires l1 <= l0 + bits + a && l2 <= l1 + bits + b && a <= d && b <= d
    ensures l2 <= l0 + bits + d
  {
  }

  /** How far into its block a stretch of `n` bytes from `off` on ends. */
  function EndsAt(off: nat, n: nat): (k: nat) { (off + n) % 512 }

  /** The bytes from `cur` on that lie in one block: all that are left, or up to the block boundary. */
  function ChunkLen(cur: nat, left: nat): (n: nat)
    ensures n <= left && cur % 512 + n <= 512 && (left > 0 ==> n > 0)
    ensures n == left || EndsAt(cur, n) == 0
  {
    if 512 - cur % 512 < left then 512 - cur % 512 else left
  }

  lemma RoundInRange(off: nat, want: nat, n: nat, ps: set<Pos>)
    requires n < want && off + want <= 512 * MAXFILE && Covers(off, want, ps)
    ensures (off + n) / 512 < MAXFILE && Path((off + n) / 512) <= ps
  {
    assert off / 512 <= (off + n) / 512 <= (off + want - 1) / 512 < MAXFILE;
  }

  /** Allocation followed by the copy into the block: only the copied bytes change. */
  lemma ChunkStep(c: Ctx, t0: Tree, t: Tree, f: nat, cur: nat, piece: seq<Byte>)
    requires cur / 512 < MAXFILE && cur % 512 + |piece| <= 512
    requires Grown(c, t0, t, f, Path(cur / 512)) && At(c, t, f, Slot(cur / 512)) != 0
    ensures At(c, t, f, Slot(cur / 512)) < |t.blocks|
    ensures var r := At(c, t, f, Slot(cur / 512));
      var t' := t.(blocks := t.blocks[r := Splice(t.blocks[r], cur % 512, piece)]);
      && Own(c, t') && Overlaid(c, t0, t', f, cur, piece) && KeepsFilled(c, t0, t', f)
      && BlocksAt(c, t', f, Path(cur / 512)) == BlocksAt(c, t, f, Path(cur / 512))
      && r in BlocksAt(c, t, f, Path(cur / 512))
  {
    ChunkKeeps(c, t, f, cur / 512, cur % 512, piece);
    var r := At(c, t, f, Slot(cur / 512));
    var t' := t.(blocks := t.blocks[r := Splice(t.blocks[r], cur % 512, piece)]);
    BlocksAtFrame(c, t, t', f, Path(cur / 512));
    assert Slot(cur / 512) in Path(cur / 512);
  }

  /** `n` bytes of `src` are written at `off` and nothing else changed; the blocks on the slots `ps`
      and bitmap blocks are all that was logged. */
  ghost predicate Wrote(c: Ctx, t0: Tree, t: Tree, f: nat, off: nat, src: seq<Byte>, n: nat,
                        l0: set<nat>, l: set<nat>, ps: set<Pos>) {
    && n <= |src| && f in t.inodes
    && var wrote := forall x {:trigger Look(x)} :: Look(x) ==>
         && Own(c, t) && Overlaid(c, t0, t, f, off, src[..n]) && SameSizes(t0, t) && OthersSame(t0, t, f)
         && KeepsFilled(c, t0, t, f) && WithinLog(c, t, f, l0, l, ps);
    wrote
  }

  lemma WroteOwn(c: Ctx, t0: Tree, t: Tree, f: nat, off: nat, src: seq<Byte>, n: nat,
                 l0: set<nat>, l: set<nat>, ps: set<Pos>)
    requires Wrote(c, t0, t, f, off, src, n, l0, l, ps)
    ensures Own(c, t)
  {
    assert Look(0);
  }

  lemma WroteMeans(c: Ctx, t0: Tree, t: Tree, f: nat, off: nat, src: seq<Byte>, n: nat,
                   l0: set<nat>, l: set<nat>, ps: set<Pos>)
    requires Wrote(c, t0, t, f, off, src, n, l0, l, ps)
    ensures Own(c, t) && Overlaid(c, t0, t, f, off, src[..n]) && SameSizes(t0, t) && OthersSame(t0, t, f)
    ensures KeepsFilled(c, t0, t, f) && WithinLog(c, t, f, l0, l, ps)
  {
    assert Look(0);
  }

  /** What a round of the loop keeps, whether or not it finds room; it logs blocks on the way `ps`. */
  ghost predicate Touched(c: Ctx, t: Tree, t': Tree, f: nat, l: set<nat>, l': set<nat>, ps: set<Pos>) {
    var own, sizes, others, filled, logged :=
      Own(c, t'), SameSizes(t, t'), OthersSame(t, t', f), KeepsFilled(c, t, t', f), WithinLog(c, t', f, l, l', ps);
    own && sizes && others && filled && logged
  }

  /** A round that copies `piece` to `cur`, if it finds room. */
  ghost predicate Rounded(c: Ctx, t: Tree, t': Tree, f: nat, l: set<nat>, l': set<nat>,
                          cur: nat, piece: seq<Byte>, ok: bool)
    requires cur / 512 < MAXFILE
  {
    var rounded := forall x {:trigger Look(x)} :: Look(x) ==>
      && Touched(c, t, t', f, l, l', Path(cur / 512))
      && if ok then Overlaid(c, t, t', f, cur, piece) else SameBytes(c, t, t');
    rounded
  }

  lemma LoggedMore(c: Ctx, t1: Tree, t2: Tree, f: nat, l0: set<nat>, l1: set<nat>, l2: set<nat>, ps: set<Pos>,
                   path: set<Pos>)
    requires WithinLog(c, t1, f, l0, l1, ps) && KeepsFilled(c, t1, t2, f) && path <= ps
    requires l2 <= l1 + BitBlocks(c.geo) + BlocksAt(c, t2, f, path)
    ensures WithinLog(c, t2, f, l0, l2, ps)
  {
    BlocksAtGrows(c, t1, t2, f, ps, path);
    LoggedGrows(l0, l1, l2, BitBlocks(c.geo), BlocksAt(c, t1, f, ps), BlocksAt(c, t2, f, path), BlocksAt(c, t2, f, ps));
  }

  lemma WroteMore(c: Ctx, t0: Tree, t1: Tree, t2: Tree, f: nat, off: nat, src: seq<Byte>, n: nat, piece: seq<Byte>,
                  l0: set<nat>, l1: set<nat>, l2: set<nat>, ps: set<Pos>)
    requires Wrote(c, t0, t1, f, off, src, n, l0, l1, ps)
    requires n + |piece| <= |src| && piece == src[n..n + |piece|]
    requires (off + n) / 512 < MAXFILE && Path((off + n) / 512) <= ps
    requires Touched(c, t1, t2, f, l1, l2, Path((off + n) / 512)) && Overlaid(c, t1, t2, f, off + n, piece)
    ensures Wrote(c, t0, t2, f, off, src, n + |piece|, l0, l2, ps)
  {
    assert Look(0);
    LoggedMore(c, t1, t2, f, l0, l1, l2, ps, Path((off + n) / 512));
    OverlaySlice(c, t0, t1, t2, f, off, src, n, n + |piece|);
  }

  lemma WroteNothing(c: Ctx, t0: Tree, t1: Tree, t2: Tree, f: nat, off: nat, src: seq<Byte>, n: nat,
                     l0: set<nat>, l1: set<nat>, l2: set<nat>, ps: set<Pos>)
    requires Wrote(c, t0, t1, f, off, src, n, l0, l1, ps)
    requires (off + n) / 512 < MAXFILE && Path((off + n) / 512) <= ps
    requires Touched(c, t1, t2, f, l1, l2, Path((off + n) / 512)) && SameBytes(c, t1, t2)
    ensures Wrote(c, t0, t2, f, off, src, n, l0, l2, ps)
  {
    assert Look(0);
    LoggedMore(c, t1, t2, f, l0, l1, l2, ps, Path((off + n) / 512));
  }

  lemma WroteRound(c: Ctx, t0: Tree, t1: Tree, t2: Tree, f: nat, off: nat, src: seq<Byte>, n: nat, piece: seq<Byte>,
                   l0: set<nat>, l1: set<nat>, l2: set<nat>, ps: set<Pos>, ok: bool)
    requires Wrote(c, t0, t1, f, off, src, n, l0, l1, ps)
    requires n + |piece| <= |src| && piece == src[n..n + |piece|]
    requires (off + n) / 512 < MAXFILE && Path((off + n) / 512) <= ps
    requires Rounded(c, t1, t2, f, l1, l2, off + n, piece, ok)
    ensures Wrote(c, t0, t2, f, off, src, if ok then n + |piece| else n, l0, l2, ps)
  {
    assert Look(0);
    if ok {
      WroteMore(c, t0, t1, t2, f, off, src, n, piece, l0, l1, l2, ps);
    } else {
      WroteNothing(c, t0, t1, t2, f, off, src, n, l0, l1, l2, ps);
    }
  }

  /** Leaf-level blocks before the last kept one are untouched, those after it dropped. */
  lemma LeavesTrimmed(c: Ctx, t0: Tree, f: nat, keep: nat, was: seq<Sector>, blocks: seq<Sector>, s: set<nat>)
    requires Own(c, t0) && f in t0.inodes && 140 < keep <= MAXFILE
    requires s <= {At(c, t0, f, Ind), At(c, t0, f, Root)} && DataSame(c, t0.blocks, was, s)
    requires LeavesKeep(keep) >= 1 && DataSame(c, was, blocks, {At(c, t0, f, Mid(LeavesKeep(keep) - 1))})
    requires var last := LeavesKeep(keep) - 1;
      || (forall i: nat :: i < 128 ==> TrimmedAt(c, t0, f, keep, blocks, Leaf(last, i)))
      || ((InnerKeep(keep) == 128 || At(c, t0, f, Mid(last)) == 0) && DataSame(c, was, blocks, {}))
    ensures forall o: nat, i: nat {:trigger TrimmedAt(c, t0, f, keep, blocks, Leaf(o, i))} ::
              TrimmedAt(c, t0, f, keep, blocks, Leaf(o, i))
  {
    InnerRange(keep);
    var last := LeavesKeep(keep) - 1;
    forall o: nat, i: nat
      ensures TrimmedAt(c, t0, f, keep, blocks, Leaf(o, i))
    {
      var m := At(c, t0, f, Mid(o));
      if Leaf(o, i).Valid() && m != 0 && o <= last {
        assert InData(c.geo, m) && m !in s;
        if o < last {
          assert m != At(c, t0, f, Mid(last));
          assert blocks[m] == t0.blocks[m];
        }
      }
    }
  }

  /** Overlaid bytes and the new size give the flat content after a write. */
  lemma WriteRefines(c: Ctx, t: Tree, t': Tree, f: nat, off: nat, s: seq<Byte>)
    requires f in t.inodes && ZeroTail(c, t) && Overlaid(c, t, t', f, off, s) && OthersSame(t, t', f)
    requires t'.inodes[f].size == if |s| > 0 && off + |s| > t.inodes[f].size then off + |s| else t.inodes[f].size
    ensures ZeroTail(c, t')
    ensures Content(c, t', f) == if |s| > 0 then Pwrite(Content(c, t, f), off, s) else Content(c, t, f)
    ensures forall g {:trigger Content(c, t', g)} :: g in t.inodes && g != f ==> Content(c, t', g) == Content(c, t, g)
  {
    OverlayKeepsTail(c, t, t', f, off, s);
    ContentOfOverlay(c, t, t', f, off, s, f);
    forall g | g in t.inodes && g != f
      ensures Content(c, t', g) == Content(c, t, g)
    {
      ContentOfOverlay(c, t, t', f, off, s, g);
    }
  }

  lemma CutRefines(c: Ctx, t: Tree, t': Tree, f: nat, size: nat)
    requires f in t.inodes && ZeroTail(c, t) && CutAt(c, t, t', f, size) && OthersSame(t, t', f)
    requires t'.inodes[f].size == size
    ensures ZeroTail(c, t')
    ensures Content(c, t', f) == Resize(Content(c, t, f), size)
    ensures forall g {:trigger Content(c, t', g)} :: g in t.inodes && g != f ==> Content(c, t', g) == Content(c, t, g)
  {
    ContentOfCut(c, t, t', f, size, f);
    forall g | g in t.inodes && g != f
      ensures Content(c, t', g) == Content(c, t, g)
    {
      ContentOfCut(c, t, t', f, size, g);
    }
  }

  /** The index blocks of `f` that a truncation may rewrite. */
  ghost function Rewritten(c: Ctx, t0: Tree, f: nat, keep: nat): (s: set<nat>) {
    {At(c, t0, f, Ind), At(c, t0, f, Root)} +
    (if LeavesKeep(keep) == 0 then {} else {At(c, t0, f, Mid(LeavesKeep(keep) - 1))}) - {0}
  }

  lemma RewrittenOwned(c: Ctx, t0: Tree, f: nat, keep: nat)
    requires Own(c, t0)
    ensures OwnedBy(c, t0, f, Rewritten(c, t0, f, keep))
    ensures forall p: Pos :: p.Data() && At(c, t0, f, p) != 0 ==> At(c, t0, f, p) !in Rewritten(c, t0, f, keep)
  {
  }

  lemma IndirectStaysTrimmed(c: Ctx, t0: Tree, f: nat, keep: nat, a: seq<Sector>, b: seq<Sector>, s: set<nat>)
    requires Own(c, t0) && f in t0.inodes && DataSame(c, a, b, s)
    requires At(c, t0, f, Ind) == 0 || At(c, t0, f, Ind) !in s
    requires forall j: nat {:trigger TrimmedAt(c, t0, f, keep, a, IndLeaf(j))} ::
               TrimmedAt(c, t0, f, keep, a, IndLeaf(j))
    ensures forall j: nat {:trigger TrimmedAt(c, t0, f, keep, b, IndLeaf(j))} ::
              TrimmedAt(c, t0, f, keep, b, IndLeaf(j))
  {
    forall j: nat
      ensures TrimmedAt(c, t0, f, keep, b, IndLeaf(j))
    {
      assert TrimmedAt(c, t0, f, keep, a, IndLeaf(j));
    }
  }

  class FileSystem {
    const c: Ctx
    const inodestart: nat
    var blocks: seq<Sector>
    /** Inode states in memory, and the inode table as `iupdate` left it. */
    var inodes: map<nat, Inode>
    var table: map<nat, Inode>
    /** Blocks handed to `log_write`, and the blocks as they were when the operation began. */
    ghost var logged: set<nat>
    ghost var begun: seq<Sector>

    /** A mounted disk: the inodes in memory are those of the table. */
    constructor (c: Ctx, inodestart: nat, blocks: seq<Sector>, inodes: map<nat, Inode>)
      ensures this.c == c && this.inodestart == inodestart
      ensures this.blocks == blocks && this.inodes == inodes && table == inodes && logged == {} && begun == blocks
    {
      this.c, this.inodestart := c, inodestart;
      this.blocks, this.inodes, this.table := blocks, inodes, inodes;
      this.logged, this.begun := {}, blocks;
    }

    ghost function T(): (t: Tree)
      reads this
    {
      Tree(blocks, inodes)
    }

    /** Every block that differs from what it was when the operation began has been logged. */
    ghost predicate AllLogged()
      reads this
    {
      var all := |blocks| == |begun| && forall b: nat :: b < |blocks| && blocks[b] != begun[b] ==> b in logged;
      all
    }

    /** `begin_op`, as far as the ghost record goes. */
    ghost method Begin()
      modifies this`logged, this`begun
      ensures logged == {} && begun == blocks && AllLogged()
    {
      logged, begun := {}, blocks;
    }

    method Balloc() returns (r: Option<nat>)
      requires Own(c, T())
      modifies this`blocks, this`logged
      ensures old(AllLogged()) ==> AllLogged()
      ensures r.None? ==> blocks == old(blocks) && logged == old(logged) && Full(c, blocks)
      ensures r.Some? ==>
                && r.value < c.geo.size && !Used(c, old(blocks), r.value)
                && (forall d: nat :: d < r.value ==> Used(c, old(blocks), d))
                && BitBlock(c.geo, r.value) < |old(blocks)|
                && blocks == Claimed(c, old(T()), r.value).blocks
                && logged == old(logged) + {BitBlock(c.geo, r.value), r.value}
    {
      var b, n := 0, 0;
      while b < c.geo.size
        invariant old(AllLogged()) ==> AllLogged()
        invariant b == 4096 * n
        invariant blocks == old(blocks) && logged == old(logged)
        invariant forall d: nat {:trigger Used(c, blocks, d)} :: d < b && d < c.geo.size ==> Used(c, blocks, d)
      {
        var blkno := c.geo.bmapstart + b / 4096;
        assert b / 4096 <= c.geo.size / 4096;
        var upto := if 4096 <= c.geo.size - b then 4096 else c.geo.size - b;
        for bi := 0 to upto
          invariant old(AllLogged()) ==> AllLogged()
          invariant blocks == old(blocks) && logged == old(logged)
          invariant forall d: nat {:trigger Used(c, blocks, d)} :: d < b + bi ==> Used(c, blocks, d)
        {
          assert (b + bi) / 4096 == b / 4096 && (b + bi) % 4096 == bi;
          if !c.fmt.bit(blocks[blkno], bi) {
            blocks := blocks[blkno := c.fmt.mark(blocks[blkno], bi, true)];
            logged := logged + {blkno};
            var blk := b + bi;
            blocks := blocks[blk := ZERO];
            logged := logged + {blk};
            return Some(blk);
          }
          assert Used(c, blocks, b + bi);
        }
        b, n := b + 4096, n + 1;
      }
      AllUsed(c, blocks);
      return None;
    }

    method Bfree(b: nat)
      requires GeoOk(c.geo) && |blocks| == c.geo.size && b < c.geo.size && Used(c, blocks, b)
      modifies this`blocks, this`logged
      ensures old(AllLogged()) ==> AllLogged()
      ensures BitBlock(c.geo, b) < |old(blocks)|
      ensures blocks == Marked(c, old(blocks), b, false)
      ensures logged == old(logged) + {BitBlock(c.geo, b)} && BitBlock(c.geo, b) in BitBlocks(c.geo)
    {
      var blkno := c.geo.bmapstart + b / 4096;
      assert IsBitBlock(c.geo, blkno);
      blocks := blocks[blkno := c.fmt.mark(blocks[blkno], b % 4096, false)];
      logged := logged + {blkno};
    }

      /** The block at slot `p`, allocated and stored there first if the slot is empty. */
    method Ensure(f: nat, p: Pos) returns (r: Option<nat>)
      requires Own(c, T()) && f in inodes && p.Valid()
      requires !InInode(p) ==> At(c, T(), f, Parent(p)) != 0
      modifies this`blocks, this`inodes, this`logged
      ensures old(AllLogged()) ==> AllLogged()
      ensures Reached(c, old(T()), T(), f, {p}, WithParent(p), Gap(c, old(T()), f, p), old(logged), logged, p, r)
    {
      var cur := At(c, Tree(blocks, inodes), f, p);
      if cur != 0 {
        ReachedThere(c, T(), f, p, logged);
        return Some(cur);
      }
      var a := Balloc();
      if a.None? {
        ReachedFull(c, T(), f, p, logged);
        return None;
      }
      ghost var t0 := old(T());
      ClaimKeeps(c, t0, a.value);
      ReachedNew(c, t0, f, p, a.value, old(logged));
      assert a.value / 4096 <= c.geo.size / 4096;
      ghost var t1 := T();
      assert t1 == Claimed(c, t0, a.value);
      if InInode(p) {
        var ino := inodes[f];
        inodes := inodes[f := ino.(addrs := ino.addrs[AddrSlot(p) := a.value])];
      } else {
        var m := At(c, Tree(blocks, inodes), f, Parent(p));
        blocks := blocks[m := c.fmt.put(blocks[m], IndexIn(p), a.value)];
        logged := logged + {m};
      }
      assert T() == Linked(c, t1, f, p, a.value);
      return a;
    }

    /** Fills only empty slots on the way to file block `bn`, as many as are missing; fails exactly
        when fewer blocks are free, and has then taken those. */
    method BmapOrAlloc(f: nat, bn: nat) returns (r: Option<nat>)
      requires Own(c, T()) && f in inodes && bn < MAXFILE
      modifies this`blocks, this`inodes, this`logged
      ensures old(AllLogged()) ==> AllLogged()
      ensures Grown(c, old(T()), T(), f, Path(bn))
      ensures r.Some? ==> At(c, T(), f, Slot(bn)) == r.value != 0
      ensures r.None? ==> Full(c, blocks)
      ensures logged <= old(logged) + BitBlocks(c.geo) + BlocksAt(c, T(), f, Path(bn))
      ensures Took(c, old(T()), T(), Missing(c, old(T()), f, bn), r.Some?)
    {
      if bn < 12 {
        r := Ensure(f, Direct(bn));
      } else if bn < 140 {
        r := EnsureIndirect(f, bn - 12);
      } else {
        r := EnsureDouble(f, (bn - 140) / 128, (bn - 140) % 128);
      }
      ReachedMeans(c, old(T()), T(), f, Path(bn), Missing(c, old(T()), f, bn), old(logged), logged, Slot(bn), r);
    }

    method EnsureIndirect(f: nat, i: nat) returns (r: Option<nat>)
      requires Own(c, T()) && f in inodes && i < 128
      modifies this`blocks, this`inodes, this`logged
      ensures old(AllLogged()) ==> AllLogged()
      ensures Reached(c, old(T()), T(), f, {Ind, IndLeaf(i)}, {Ind, IndLeaf(i)},
                      Gap(c, old(T()), f, Ind) + Gap(c, old(T()), f, IndLeaf(i)), old(logged), logged, IndLeaf(i), r)
    {
      ghost var k1, k2 := Gap(c, T(), f, Ind), Gap(c, T(), f, IndLeaf(i));
      var ind := Ensure(f, Ind);
      ghost var t1, l1 := T(), logged;
      if ind.None? {
        ReachedNot(c, old(T()), T(), f, Ind, k1, k2, old(logged), logged, {Ind, IndLeaf(i)}, {Ind, IndLeaf(i)},
                   IndLeaf(i));
        return None;
      }
      ReachedKeeps(c, old(T()), t1, f, Ind, k1, old(logged), l1, ind, IndLeaf(i));
      r := Ensure(f, IndLeaf(i));
      ReachedThen(c, old(T()), t1, T(), f, Ind, k1, old(logged), l1, ind,
                  {IndLeaf(i)}, WithParent(IndLeaf(i)), k2, logged, IndLeaf(i), r);
      assert {Ind} + {IndLeaf(i)} == {Ind, IndLeaf(i)} && WithParent(Ind) + WithParent(IndLeaf(i)) == {Ind, IndLeaf(i)};
    }

    method EnsureDouble(f: nat, o: nat, i: nat) returns (r: Option<nat>)
      requires Own(c, T()) && f in inodes && o < 128 && i < 128
      modifies this`blocks, this`inodes, this`logged
      ensures old(AllLogged()) ==> AllLogged()
      ensures Reached(c, old(T()), T(), f, {Root, Mid(o), Leaf(o, i)}, {Root, Mid(o), Leaf(o, i)},
                      Gap(c, old(T()), f, Root) + (Gap(c, old(T()), f, Mid(o)) + Gap(c, old(T()), f, Leaf(o, i))),
                      old(logged), logged, Leaf(o, i), r)
    {
      ghost var k1, k2 := Gap(c, T(), f, Root), Gap(c, T(), f, Mid(o)) + Gap(c, T(), f, Leaf(o, i));
      ghost var ps, qs := {Root, Mid(o), Leaf(o, i)}, {Mid(o), Leaf(o, i)};
      var root := Ensure(f, Root);
      ghost var t1, l1 := T(), logged;
      if root.None? {
        ReachedNot(c, old(T()), T(), f, Root, k1, k2, old(logged), logged, ps, ps, Leaf(o, i));
        return None;
      }
      ReachedKeeps(c, old(T()), t1, f, Root, k1, old(logged), l1, root, Mid(o));
      ReachedKeeps(c, old(T()), t1, f, Root, k1, old(logged), l1, root, Leaf(o, i));
      r := EnsureBelowRoot(f, o, i);
      ReachedThen(c, old(T()), t1, T(), f, Root, k1, old(logged), l1, root, qs, ps, k2, logged, Leaf(o, i), r);
      assert {Root} + qs == ps && WithParent(Root) + ps == ps;
    }

    method EnsureBelowRoot(f: nat, o: nat, i: nat) returns (r: Option<nat>)
      requires Own(c, T()) && f in inodes && o < 128 && i < 128 && At(c, T(), f, Root) != 0
      modifies this`blocks, this`inodes, this`logged
      ensures old(AllLogged()) ==> AllLogged()
      ensures Reached(c, old(T()), T(), f, {Mid(o), Leaf(o, i)}, {Root, Mid(o), Leaf(o, i)},
                      Gap(c, old(T()), f, Mid(o)) + Gap(c, old(T()), f, Leaf(o, i)),
                      old(logged), logged, Leaf(o, i), r)
    {
      ghost var k1, k2 := Gap(c, T(), f, Mid(o)), Gap(c, T(), f, Leaf(o, i));
      ghost var ps, qs := {Root, Mid(o), Leaf(o, i)}, {Mid(o), Leaf(o, i)};
      var mid := Ensure(f, Mid(o));
      ghost var t1, l1 := T(), logged;
      if mid.None? {
        ReachedNot(c, old(T()), T(), f, Mid(o), k1, k2, old(logged), logged, qs, ps, Leaf(o, i));
        return None;
      }
      ReachedKeeps(c, old(T()), t1, f, Mid(o), k1, old(logged), l1, mid, Leaf(o, i));
      r := Ensure(f, Leaf(o, i));
      ReachedThen(c, old(T()), t1, T(), f, Mid(o), k1, old(logged), l1, mid,
                  {Leaf(o, i)}, WithParent(Leaf(o, i)), k2, logged, Leaf(o, i), r);
      assert {Mid(o)} + {Leaf(o, i)} == qs && WithParent(Mid(o)) + WithParent(Leaf(o, i)) == ps;
    }

    /** Flush the inode in memory to the inode table, through the log. */
    method Iupdate(f: nat)
      requires f in inodes
      modifies this`table, this`logged
      ensures old(AllLogged()) ==> AllLogged()
      ensures table == old(table)[f := inodes[f]]
      ensures logged == old(logged) + {inodestart + f / IPB}
    {
      table := table[f := inodes[f]];
      logged := logged + {inodestart + f / IPB};
    }

    method Bmap(f: nat, bn: nat) returns (r: nat)
      requires Shape(c, T()) && f in inodes
      ensures r == if bn < MAXFILE then At(c, T(), f, Slot(bn)) else 0
    {
      r := Lookup(inodes[f].addrs, bn);
    }

    method Lookup(addrs: seq<nat>, bn: nat) returns (r: nat)
      requires |addrs| == 14
      ensures r == if bn < MAXFILE then Ref(c, blocks, addrs, Slot(bn)) else 0
    {
      if bn < 12 {
        return addrs[bn];
      }
      if bn < 140 {
        if addrs[12] == 0 {
          return 0;
        }
        return Entry(c, blocks, addrs[12], bn - 12);
      }
      if bn >= MAXFILE {
        return 0;
      }
      var outer, inner := (bn - 140) / 128, (bn - 140) % 128;
      if addrs[13] == 0 {
        return 0;
      }
      var leaf := Entry(c, blocks, addrs[13], outer);
      if leaf == 0 {
        return 0;
      }
      return Entry(c, blocks, leaf, inner);
    }

    /** `len` is the length of the caller's buffer; the code narrows it to 32 bits. */
    method Readi(f: nat, len: nat, off: nat) returns (dst: seq<Byte>)
      requires Own(c, T()) && f in inodes
      ensures off >= inodes[f].size ==> dst == []
      ensures off < inodes[f].size ==>
                |dst| == if len % U32 < inodes[f].size - off then len % U32 else inodes[f].size - off
      ensures off < inodes[f].size ==> dst == Content(c, T(), f)[off..off + |dst|]
    {
      var size := inodes[f].size;
      dst := [];
      if off >= size {
        return;
      }
      var limit := if len % U32 < size - off then len % U32 else size - off;
      while |dst| < limit
        invariant |dst| <= limit
        invariant forall k :: 0 <= k < |dst| ==> dst[k] == ByteAt(c, T(), f, off + k)
      {
        var cur := off + |dst|;
        var piece := ReadPiece(f, cur, ChunkLen(cur, limit - |dst|));
        dst := dst + piece;
      }
    }

    /** One round of that loop: the part that lies in one block, zeros for a hole. */
    method ReadPiece(f: nat, cur: nat, chunk: nat) returns (piece: seq<Byte>)
      requires Own(c, T()) && f in inodes && cur % 512 + chunk <= 512
      ensures |piece| == chunk && forall k :: 0 <= k < chunk ==> piece[k] == ByteAt(c, T(), f, cur + k)
    {
      var blkno := Bmap(f, cur / 512);
      var o := cur % 512;
      if blkno == 0 {
        piece := seq(chunk, _ => 0);
      } else {
        assert InData(c.geo, blkno);
        piece := blocks[blkno].bytes[o..o + chunk];
      }
      forall k | 0 <= k < chunk
        ensures piece[k] == ByteAt(c, T(), f, cur + k)
      {
        assert (cur + k) / 512 == cur / 512 && (cur + k) % 512 == o + k;
      }
    }

    /** One round of `writei`'s loop: the part of the data that falls into one block. */
    method WriteChunk(f: nat, cur: nat, piece: seq<Byte>, ghost t: Tree, ghost l: set<nat>) returns (ok: bool)
      requires T() == t && logged == l
      requires Own(c, t) && f in t.inodes && cur / 512 < MAXFILE && cur % 512 + |piece| <= 512
      modifies this`blocks, this`inodes, this`logged
      ensures old(AllLogged()) ==> AllLogged()
      ensures Rounded(c, t, T(), f, l, logged, cur, piece, ok) && (!ok ==> Full(c, blocks))
      ensures Found(c, t, T(), f, cur / 512, ok)
    {
      var blk := BmapOrAlloc(f, cur / 512);
      if blk.None? {
        TookFound(c, t, T(), T(), f, cur / 512, false);
        return false;
      }
      ghost var t1 := T();
      ChunkStep(c, t, t1, f, cur, piece);
      blocks := blocks[blk.value := Splice(blocks[blk.value], cur % 512, piece)];
      logged := logged + {blk.value};
      TookFound(c, t, t1, T(), f, cur / 512, true);
      return true;
    }

    /** The loop of `writei`; `ps` covers the slots on the way to the blocks it touches. */
    method WriteBlocks(f: nat, src: seq<Byte>, off: nat, want: nat, ghost ps: set<Pos>) returns (n: nat)
      requires Own(c, T()) && f in inodes && want <= |src| && off + want <= 512 * MAXFILE
      requires Covers(off, want, ps)
      modifies this`blocks, this`inodes, this`logged
      ensures old(AllLogged()) ==> AllLogged()
      ensures n <= want && Wrote(c, old(T()), T(), f, off, src, n, old(logged), logged, ps)
      ensures n < want ==> Full(c, blocks)
      ensures 0 < n < want ==> EndsAt(off, n) == 0
      ensures want > 0 ==> Found(c, old(T()), T(), f, off / 512, n > 0)
      ensures want == 0 ==> T() == old(T())
    {
      n := 0;
      while n < want
        invariant old(AllLogged()) ==> AllLogged()
        invariant n == 0 || n == want || EndsAt(off, n) == 0
        invariant n <= want && Wrote(c, old(T()), T(), f, off, src, n, old(logged), logged, ps)
        invariant if want > 0 then Underway(c, old(T()), T(), f, off, n) else T() == old(T())
      {
        var chunk := ChunkLen(off + n, want - n);
        RoundInRange(off, want, n, ps);
        ghost var t := T();
        var ok := WriteRound(f, src, off, n, chunk, ps, old(T()), old(logged), t, logged);
        FoundMore(c, old(T()), t, T(), f, off, n, chunk, ok);
        if !ok {
          return;
        }
        n := n + chunk;
      }
      if want > 0 {
        UnderwayFound(c, old(T()), T(), f, off, n);
      }
    }

    /** One round of that loop. */
    method WriteRound(f: nat, src: seq<Byte>, off: nat, n: nat, chunk: nat,
                      ghost ps: set<Pos>, ghost t0: Tree, ghost l0: set<nat>, ghost t: Tree, ghost l: set<nat>)
      returns (ok: bool)
      requires n + chunk <= |src| && (off + n) % 512 + chunk <= 512
      requires (off + n) / 512 < MAXFILE && Path((off + n) / 512) <= ps
      requires T() == t && logged == l && Wrote(c, t0, t, f, off, src, n, l0, l, ps)
      modifies this`blocks, this`inodes, this`logged
      ensures old(AllLogged()) ==> AllLogged()
      ensures ok ==> Wrote(c, t0, T(), f, off, src, n + chunk, l0, logged, ps)
      ensures !ok ==> Wrote(c, t0, T(), f, off, src, n, l0, logged, ps) && Full(c, blocks)
      ensures Found(c, t, T(), f, (off + n) / 512, ok)
    {
      WroteOwn(c, t0, t, f, off, src, n, l0, l, ps);
      var piece := src[n..n + chunk];
      ok := WriteChunk(f, off + n, piece, t, l);
      WroteRound(c, t0, t, T(), f, off, src, n, piece, l0, l, logged, ps, ok);
    }

    method ExtendTo(f: nat, end: nat)
      requires Own(c, T()) && f in inodes
      modifies this`inodes
      ensures old(AllLogged()) ==> AllLogged()
      ensures T() == if end > old(inodes)[f].size then Resized(old(T()), f, end) else old(T())
      ensures Own(c, T()) && SameRefs(c, old(T()), T()) && SameBytes(c, old(T()), T())
    {
      ResizeKeeps(c, T(), f, end);
      if end > inodes[f].size {
        inodes := inodes[f := inodes[f].(size := end)];
      }
    }

    /** `writei` past its check of the offset, in terms of bytes. */
    method WriteRange(f: nat, src: seq<Byte>, off: nat) returns (n: nat)
      requires Own(c, T()) && f in inodes && off < 512 * MAXFILE
      modifies this`blocks, this`inodes, this`table, this`logged
      ensures old(AllLogged()) ==> AllLogged()
      ensures Own(c, T()) && n <= Clip(off, |src|)
      ensures Overlaid(c, old(T()), T(), f, off, src[..n]) && OthersSame(old(T()), T(), f)
      ensures KeepsFilled(c, old(T()), T(), f)
      ensures n < Clip(off, |src|) ==> Full(c, blocks)
      ensures 0 < n < Clip(off, |src|) ==> EndsAt(off, n) == 0
      ensures src != [] ==> Found(c, old(T()), T(), f, off / 512, n > 0)
      ensures src == [] ==> T() == old(T())
      ensures inodes[f].size == if n > 0 && off + n > old(inodes)[f].size then off + n else old(inodes)[f].size
      ensures table == if n > 0 then old(table)[f := inodes[f]] else old(table)
      ensures logged <= old(logged) + WriteSet(c, T(), f, off, |src|, inodestart)
      ensures n > 0 ==> inodestart + f / IPB in logged
    {
      var want := Clip(off, |src|);
      ghost var ps := WritePaths(off, |src|);
      PathsCover(off, |src|);
      n := WriteBlocks(f, src, off, want, ps);
      WroteMeans(c, old(T()), T(), f, off, src, n, old(logged), logged, ps);
      if n > 0 {
        ghost var t := T();
        ExtendTo(f, off + n);
        BlocksAtFrame(c, t, T(), f, ps);
        Iupdate(f);
      }
    }

    /** Returns how many bytes of `src` were written: all, unless the disk is full or the
        size cap is reached. A short write stops at a block boundary. It writes nothing exactly
        when fewer blocks are free than the first block of the range lacks; it takes those
        blocks all the same, if there are any. */
    method Writei(f: nat, src: seq<Byte>, off: nat) returns (n: nat)
      requires Own(c, T()) && ZeroTail(c, T()) && f in inodes
      modifies this`blocks, this`inodes, this`table, this`logged
      ensures old(AllLogged()) ==> AllLogged()
      ensures Own(c, T()) && ZeroTail(c, T()) && n <= |src|
      ensures Overlaid(c, old(T()), T(), f, off, src[..n])
      ensures OthersSame(old(T()), T(), f) && KeepsFilled(c, old(T()), T(), f)
      ensures n > 0 ==> Content(c, T(), f) == Pwrite(old(Content(c, T(), f)), off, src[..n])
      ensures n == 0 ==> Content(c, T(), f) == old(Content(c, T(), f))
      ensures forall g {:trigger Content(c, T(), g)} :: g in inodes && g != f ==>
                Content(c, T(), g) == old(Content(c, T(), g))
      ensures off >= 512 * MAXFILE ==> n == 0
      ensures off < 512 * MAXFILE ==> n <= Clip(off, |src|) && (n < Clip(off, |src|) ==> Full(c, blocks))
      ensures off < 512 * MAXFILE && 0 < n < Clip(off, |src|) ==> EndsAt(off, n) == 0
      ensures off < 512 * MAXFILE && src != [] ==>
                (n == 0 <==> FreeCount(c, old(blocks)) < Missing(c, old(T()), f, off / 512))
      ensures off < 512 * MAXFILE && src != [] && n == 0 ==> (T() == old(T()) <==> FreeCount(c, old(blocks)) == 0)
      ensures off >= 512 * MAXFILE || src == [] ==> T() == old(T())
      ensures inodes[f].size == if n > 0 && off + n > old(inodes)[f].size then off + n else old(inodes)[f].size
      ensures table == if n > 0 then old(table)[f := inodes[f]] else old(table)
      ensures logged <= old(logged) + WriteSet(c, T(), f, off, |src|, inodestart)
      ensures n > 0 ==> inodestart + f / IPB in logged
    {
      if off >= 512 * MAXFILE {
        n := 0;
        WriteRefines(c, T(), T(), f, off, []);
        return;
      }
      n := WriteRange(f, src, off);
      WriteRefines(c, old(T()), T(), f, off, src[..n]);
      if src != [] {
        FoundMeans(c, old(T()), T(), f, off / 512, n > 0);
      }
    }

    // ---------- itrunc_to ----------

    /** Free the blocks named by the entries of index block content `x` from `from` on. */
    method FreeRow(x: Sector, from: nat, ghost t0: Tree, ghost f: nat, ghost row: Row, ghost done: iset<Pos>)
      requires Own(c, t0) && FreedBy(c, t0, f, done, blocks) && row.Valid()
      requires forall j: nat :: from <= j < 128 ==> c.fmt.word(x, j) == At(c, t0, f, row.At(j)) && row.At(j) !in done
      modifies this`blocks, this`logged
      ensures old(AllLogged()) ==> AllLogged()
      ensures FreedBy(c, t0, f, done + Entries(row, from, 128), blocks)
      ensures DataSame(c, old(blocks), blocks, {}) && logged <= old(logged) + BitBlocks(c.geo)
    {
      assert done + Entries(row, from, from) == done;
      var j := from;
      while j < 128
        invariant old(AllLogged()) ==> AllLogged()
        invariant from <= j && (from < 128 ==> j <= 128)
        invariant FreedBy(c, t0, f, done + Entries(row, from, j), blocks)
        invariant DataSame(c, old(blocks), blocks, {}) && logged <= old(logged) + BitBlocks(c.geo)
      {
        var b := c.fmt.word(x, j);
        ghost var now := done + Entries(row, from, j);
        EntriesSnoc(row, from, j);
        assert now + iset{row.At(j)} == done + Entries(row, from, j + 1);
        if b != 0 {
          FreeOne(c, t0, f, now, row.At(j), blocks);
          Bfree(b);
        } else {
          FreeNone(c, t0, f, now, now + iset{row.At(j)}, blocks);
        }
        j := j + 1;
      }
      assert from >= 128 ==> Entries(row, from, 128) == Entries(row, from, from);
    }

    /** Direct blocks beyond the cutoff. */
    method TruncDirect(f: nat, keep: nat) returns (addrs: seq<nat>)
      requires Own(c, T()) && f in inodes
      modifies this`blocks, this`logged
      ensures old(AllLogged()) ==> AllLogged()
      ensures FreedBy(c, old(T()), f, Dropped(keep, 1), blocks)
      ensures DataSame(c, old(blocks), blocks, {}) && logged <= old(logged) + BitBlocks(c.geo)
      ensures |addrs| == 14 && addrs[12..] == inodes[f].addrs[12..]
      ensures forall i :: 0 <= i < 12 ==> addrs[i] == if i < keep then inodes[f].addrs[i] else 0
    {
      addrs := inodes[f].addrs;
      ghost var t0 := T();
      ghost var seen: iset<Pos> := iset{};
      for i := 0 to 12
        invariant old(AllLogged()) ==> AllLogged()
        invariant |addrs| == 14 && addrs[i..] == inodes[f].addrs[i..]
        invariant forall j :: 0 <= j < i ==> addrs[j] == if j < keep then inodes[f].addrs[j] else 0
        invariant seen == iset p: Pos | p.Direct? && p.i < i && keep <= p.i
        invariant FreedBy(c, t0, f, seen, blocks)
        invariant DataSame(c, old(blocks), blocks, {}) && logged <= old(logged) + BitBlocks(c.geo)
      {
        assert addrs[i] == inodes[f].addrs[i] == At(c, t0, f, Direct(i));
        ghost var was := seen;
        if i >= keep {
          seen := seen + iset{Direct(i)};
        }
        if i >= keep && addrs[i] != 0 {
          FreeOne(c, t0, f, was, Direct(i), blocks);
          Bfree(addrs[i]);
          addrs := addrs[i := 0];
        } else {
          FreeNone(c, t0, f, was, seen, blocks);
        }
      }
      assert seen == Dropped(keep, 1);
    }

    /** Zero the entries of an index block from `from` on. */
    method ClearEntries(m: nat, from: nat)
      requires Laws(c.fmt) && GeoOk(c.geo) && |blocks| == c.geo.size && InData(c.geo, m) && from <= 128
      modifies this`blocks, this`logged
      ensures old(AllLogged()) ==> AllLogged()
      ensures DataSame(c, old(blocks), blocks, {m})
      ensures forall d: nat :: d < c.geo.datastart ==> blocks[d] == old(blocks)[d]
      ensures forall j: nat :: j < 128 ==> Entry(c, blocks, m, j) == if j < from then Entry(c, old(blocks), m, j) else 0
      ensures logged == old(logged) + {m}
    {
      var x := blocks[m];
      for j := from to 128
        invariant forall i: nat :: i < 128 ==>
                    c.fmt.word(x, i) == if from <= i < j then 0 else c.fmt.word(old(blocks)[m], i)
      {
        if c.fmt.word(x, j) != 0 {
          x := c.fmt.put(x, j, 0);
        }
      }
      blocks := blocks[m := x];
      logged := logged + {m};
    }

    /** The indirect block and its leaves. Returns the trimmed `addrs[NDIRECT]`. */
    method TruncIndirect(f: nat, keep: nat, ind: nat, ghost t0: Tree) returns (ind': nat)
      requires Own(c, t0) && f in t0.inodes && ind == At(c, t0, f, Ind)
      requires FreedBy(c, t0, f, Dropped(keep, 1), blocks) && DataSame(c, t0.blocks, blocks, {})
      modifies this`blocks, this`logged
      ensures old(AllLogged()) ==> AllLogged()
      ensures FreedBy(c, t0, f, Dropped(keep, 2), blocks)
      ensures ind' == if 12 < keep then ind else 0
      ensures DataSame(c, t0.blocks, blocks, {ind})
      ensures logged <= old(logged) + BitBlocks(c.geo) + (if 12 < keep < 140 && ind != 0 then {ind} else {})
      ensures forall j: nat {:trigger TrimmedAt(c, t0, f, keep, blocks, IndLeaf(j))} ::
                TrimmedAt(c, t0, f, keep, blocks, IndLeaf(j))
    {
      ind' := ind;
      var indKeep := if keep <= 12 then 0 else if keep - 12 < 128 then keep - 12 else 128;
      if ind == 0 {
        FreeNone(c, t0, f, Dropped(keep, 1), Dropped(keep, 2), blocks);
        return;
      }
      assert InData(c.geo, ind);
      var x := blocks[ind];
      assert forall j: nat :: j < 128 ==> c.fmt.word(x, j) == At(c, t0, f, IndLeaf(j));
      if indKeep == 0 {
        FreeRow(x, 0, t0, f, RowInd, Dropped(keep, 1));
        ghost var done := Dropped(keep, 1) + Entries(RowInd, 0, 128);
        FreeOne(c, t0, f, done, Ind, blocks);
        Bfree(ind);
        assert done + iset{Ind} == Dropped(keep, 2);
        ind' := 0;
      } else if indKeep < 128 {
        ghost var was := blocks;
        ClearEntries(ind, indKeep);
        ghost var cut := blocks;
        FreedFrame(c, t0, f, Dropped(keep, 1), was, blocks);
        FreeRow(x, indKeep, t0, f, RowInd, Dropped(keep, 1));
        assert Dropped(keep, 1) + Entries(RowInd, indKeep, 128) == Dropped(keep, 2);
        forall j: nat
          ensures TrimmedAt(c, t0, f, keep, blocks, IndLeaf(j))
        {
          assert j < 128 ==> Entry(c, cut, ind, j) == if j < indKeep then Entry(c, was, ind, j) else 0;
        }
      } else {
        assert Dropped(keep, 1) == Dropped(keep, 2);
        assert forall j: nat :: TrimmedAt(c, t0, f, keep, blocks, IndLeaf(j));
      }
    }

    /** Free the leaf-level index blocks named by `x` from `from` on, with all they name. */
    method FreeLeaves(x: Sector, from: nat, ghost t0: Tree, ghost f: nat, ghost done: iset<Pos>, ghost s: set<nat>)
      requires Own(c, t0) && FreedBy(c, t0, f, done, blocks) && from <= 128 && f in t0.inodes
      requires DataSame(c, t0.blocks, blocks, s)
      requires forall j: nat :: from <= j < 128 ==>
                 (c.fmt.word(x, j) == At(c, t0, f, Mid(j)) && (At(c, t0, f, Mid(j)) == 0 || At(c, t0, f, Mid(j)) !in s))
      requires forall p :: p in Leaves(from, 128) ==> p !in done
      modifies this`blocks, this`logged
      ensures old(AllLogged()) ==> AllLogged()
      ensures FreedBy(c, t0, f, done + Leaves(from, 128), blocks)
      ensures DataSame(c, old(blocks), blocks, {}) && logged <= old(logged) + BitBlocks(c.geo)
    {
      assert done + Leaves(from, from) == done;
      for j := from to 128
        invariant old(AllLogged()) ==> AllLogged()
        invariant FreedBy(c, t0, f, done + Leaves(from, j), blocks)
        invariant DataSame(c, old(blocks), blocks, {}) && logged <= old(logged) + BitBlocks(c.geo)
      {
        var leaf := c.fmt.word(x, j);
        ghost var now := done + Leaves(from, j);
        LeavesSnoc(from, j);
        assert now + Entries(RowLeaf(j), 0, 128) + iset{Mid(j)} == done + Leaves(from, j + 1);
        if leaf != 0 {
          assert InData(c.geo, leaf);
          FreeRow(blocks[leaf], 0, t0, f, RowLeaf(j), now);
          FreeOne(c, t0, f, now + Entries(RowLeaf(j), 0, 128), Mid(j), blocks);
          Bfree(leaf);
        } else {
          FreeNone(c, t0, f, now, done + Leaves(from, j + 1), blocks);
        }
      }
    }

    /** The double-indirect tree when all of it goes. */
    method DropDouble(f: nat, keep: nat, root: nat, ghost t0: Tree, ghost ind: nat)
      requires Own(c, t0) && f in t0.inodes && root == At(c, t0, f, Root) != 0 && ind == At(c, t0, f, Ind)
      requires keep <= 140
      requires FreedBy(c, t0, f, Dropped(keep, 2), blocks) && DataSame(c, t0.blocks, blocks, {ind})
      modifies this`blocks, this`logged
      ensures old(AllLogged()) ==> AllLogged()
      ensures FreedBy(c, t0, f, Dropped(keep, 3), blocks)
      ensures DataSame(c, old(blocks), blocks, {}) && logged <= old(logged) + BitBlocks(c.geo)
    {
      assert InData(c.geo, root) && root != ind;
      DroppedAll(keep);
      FreeLeaves(blocks[root], 0, t0, f, Dropped(keep, 2), {ind});
      FreeOne(c, t0, f, Dropped(keep, 2) + Leaves(0, 128), Root, blocks);
      Bfree(root);
    }

    /** The double-indirect tree when a part of it stays: free whole leaf-level blocks past
        the cutoff, then trim the last kept one. */
    method TrimDouble(f: nat, keep: nat, root: nat, ghost t0: Tree, ghost ind: nat)
      requires Own(c, t0) && f in t0.inodes && root == At(c, t0, f, Root) != 0 && ind == At(c, t0, f, Ind)
      requires 140 < keep <= MAXFILE
      requires FreedBy(c, t0, f, Dropped(keep, 2), blocks) && DataSame(c, t0.blocks, blocks, {ind})
      modifies this`blocks, this`logged
      ensures old(AllLogged()) ==> AllLogged()
      ensures FreedBy(c, t0, f, Dropped(keep, 3), blocks)
      ensures DataSame(c, old(blocks), blocks, {root, At(c, t0, f, Mid(LeavesKeep(keep) - 1))})
      ensures logged <= old(logged) + BitBlocks(c.geo) + {root} + ({At(c, t0, f, Mid(LeavesKeep(keep) - 1))} - {0})
      ensures forall p: Pos {:trigger TrimmedAt(c, t0, f, keep, blocks, p)} ::
                p.Mid? || p.Leaf? ==> TrimmedAt(c, t0, f, keep, blocks, p)
    {
      InnerRange(keep);
      DroppedPart(keep);
      assert InData(c.geo, root) && root != ind;
      var leavesKeep := LeavesKeep(keep);
      ghost var last := At(c, t0, f, Mid(leavesKeep - 1));
      var x := blocks[root];
      ghost var was := blocks;
      ClearEntries(root, leavesKeep);
      FreedFrame(c, t0, f, Dropped(keep, 2), was, blocks);
      ghost var cut := blocks;
      FreeLeaves(x, leavesKeep, t0, f, Dropped(keep, 2), {ind, root});
      assert Entry(c, cut, root, leavesKeep - 1) == last;
      TrimLast(f, keep, blocks, root, t0, {ind, root});
      forall p: Pos | p.Mid? || p.Leaf?
        ensures TrimmedAt(c, t0, f, keep, blocks, p)
      {
        if p.Mid? && p.Valid() {
          CutIsTrimmed(c, t0, f, keep, cut, blocks, p, leavesKeep);
        }
      }
    }

    /** Trim the last kept leaf-level block. */
    method TrimLast(f: nat, keep: nat, ghost was: seq<Sector>, root: nat, ghost t0: Tree, ghost s: set<nat>)
      requires Own(c, t0) && f in t0.inodes && root == At(c, t0, f, Root) != 0 && 140 < keep <= MAXFILE
      requires was == blocks && DataSame(c, t0.blocks, blocks, s) && root in s && s <= {At(c, t0, f, Ind), root}
      requires Entry(c, blocks, root, LeavesKeep(keep) - 1) == At(c, t0, f, Mid(LeavesKeep(keep) - 1))
      requires FreedBy(c, t0, f, Dropped(keep, 2) + Leaves(LeavesKeep(keep), 128), blocks)
      modifies this`blocks, this`logged
      ensures old(AllLogged()) ==> AllLogged()
      ensures FreedBy(c, t0, f, Dropped(keep, 3), blocks)
      ensures DataSame(c, old(blocks), blocks, {At(c, t0, f, Mid(LeavesKeep(keep) - 1))})
      ensures logged <= old(logged) + BitBlocks(c.geo) + ({At(c, t0, f, Mid(LeavesKeep(keep) - 1))} - {0})
      ensures forall o: nat, i: nat {:trigger TrimmedAt(c, t0, f, keep, blocks, Leaf(o, i))} ::
                TrimmedAt(c, t0, f, keep, blocks, Leaf(o, i))
    {
      InnerRange(keep);
      DroppedPart(keep);
      var last, inner := LeavesKeep(keep) - 1, InnerKeep(keep);
      ghost var done := Dropped(keep, 2) + Leaves(LeavesKeep(keep), 128);
      var leaf := Entry(c, blocks, root, last);
      if inner < 128 && leaf != 0 {
        assert InData(c.geo, leaf) && leaf !in s;
        var y := blocks[leaf];
        ghost var before := blocks;
        ClearEntries(leaf, inner);
        FreedFrame(c, t0, f, done, before, blocks);
        ghost var cut := blocks;
        FreeRow(y, inner, t0, f, RowLeaf(last), done);
        forall i: nat | i < 128
          ensures TrimmedAt(c, t0, f, keep, blocks, Leaf(last, i))
        {
          CutIsTrimmed(c, t0, f, keep, cut, blocks, Leaf(last, i), inner);
        }
      } else {
        FreeNone(c, t0, f, done, Dropped(keep, 3), blocks);
      }
      LeavesTrimmed(c, t0, f, keep, was, blocks, s);
    }

    /** The three stages of `itrunc_to` that free blocks. Returns the trimmed `addrs`. */
    method TruncTree(f: nat, keep: nat) returns (addrs: seq<nat>)
      requires Own(c, T()) && f in inodes && keep <= MAXFILE
      modifies this`blocks, this`logged
      ensures old(AllLogged()) ==> AllLogged()
      ensures TrimOk(c, old(T()), f, keep, blocks, addrs, Rewritten(c, old(T()), f, keep))
      ensures FreedBy(c, old(T()), f, Dropped(keep, 3), blocks)
      ensures logged <= old(logged) + BitBlocks(c.geo) + CutBlocks(c, old(T()), f, keep)
    {
      ghost var t0 := T();
      addrs := TruncDirect(f, keep);
      var ind, root := addrs[12], addrs[13];
      assert ind == inodes[f].addrs[12..][0] && root == inodes[f].addrs[12..][1];
      var ind' := TruncIndirect(f, keep, ind, t0);
      var root' := TruncDouble(f, keep, root, t0, ind);
      addrs := addrs[12 := ind'][13 := root'];
      RewrittenOwned(c, t0, f, keep);
      CutBlocksOf(c, t0, f, keep);
    }

    /** The double-indirect tree. Returns the trimmed `addrs[NDOUBLE_SLOT]`. */
    method TruncDouble(f: nat, keep: nat, root: nat, ghost t0: Tree, ghost ind: nat) returns (root': nat)
      requires Own(c, t0) && f in t0.inodes && root == At(c, t0, f, Root) && ind == At(c, t0, f, Ind) && keep <= MAXFILE
      requires FreedBy(c, t0, f, Dropped(keep, 2), blocks) && DataSame(c, t0.blocks, blocks, {ind})
      requires forall j: nat {:trigger TrimmedAt(c, t0, f, keep, blocks, IndLeaf(j))} ::
                 TrimmedAt(c, t0, f, keep, blocks, IndLeaf(j))
      modifies this`blocks, this`logged
      ensures old(AllLogged()) ==> AllLogged()
      ensures FreedBy(c, t0, f, Dropped(keep, 3), blocks)
      ensures root' == if 140 < keep then root else 0
      ensures DataSame(c, t0.blocks, blocks, Rewritten(c, t0, f, keep))
      ensures logged <= old(logged) + BitBlocks(c.geo) +
                        (if 140 < keep then {root, At(c, t0, f, Mid(LeavesKeep(keep) - 1))} - {0} else {})
      ensures TrimmedAll(c, t0, f, keep, blocks)
    {
      root' := root;
      ghost var was := blocks;
      if root == 0 {
        FreeNone(c, t0, f, Dropped(keep, 2), Dropped(keep, 3), blocks);
      } else if keep <= 140 {
        DropDouble(f, keep, root, t0, ind);
        IndirectStaysTrimmed(c, t0, f, keep, was, blocks, {});
        root' := 0;
      } else {
        InnerRange(keep);
        TrimDouble(f, keep, root, t0, ind);
        IndirectStaysTrimmed(c, t0, f, keep, was, blocks, {root, At(c, t0, f, Mid(LeavesKeep(keep) - 1))});
      }
    }

    /** Zero the bytes past `size` in the last block that is kept. */
    method ZeroRest(f: nat, size: nat, keep: nat, addrs: seq<nat>, ghost t0: Tree, ghost s: set<nat>)
      requires 0 < keep == (size + 511) / 512 <= MAXFILE && ZeroTail(c, t0)
      requires TrimOk(c, t0, f, keep, blocks, addrs, s) && FreedBy(c, t0, f, Dropped(keep, 3), blocks)
      requires forall p: Pos :: p.Data() && At(c, t0, f, p) != 0 ==> At(c, t0, f, p) !in s
      requires size % 512 != 0 && size < t0.inodes[f].size
      modifies this`blocks, this`logged
      ensures old(AllLogged()) ==> AllLogged()
      ensures CutDone(c, t0, f, keep, size, blocks, addrs)
      ensures logged <= old(logged) + CutBlocks(c, t0, f, keep)
    {
      TailInData(c, t0, f, size, keep, blocks, addrs, s);
      var r := Lookup(addrs, keep - 1);
      if r != 0 {
        TailInCut(c, t0, f, keep);
        blocks := blocks[r := ZeroedFrom(blocks[r], size % 512)];
        logged := logged + {r};
      }
      RestZeroed(c, t0, f, size, keep, old(blocks), blocks, addrs, s);
    }

    /** Truncate or extend `f` to exactly `size` bytes; callers cap `size` at the largest
        addressable length. */
    method ItruncTo(f: nat, size: nat)
      requires Own(c, T()) && ZeroTail(c, T()) && f in inodes && size <= 512 * MAXFILE
      modifies this`blocks, this`inodes, this`table, this`logged
      ensures old(AllLogged()) ==> AllLogged()
      ensures Own(c, T()) && ZeroTail(c, T())
      ensures OthersSame(old(T()), T(), f) && inodes[f].size == size
      ensures Content(c, T(), f) == Resize(old(Content(c, T(), f)), size)
      ensures forall g {:trigger Content(c, T(), g)} :: g in inodes && g != f ==>
                Content(c, T(), g) == old(Content(c, T(), g))
      ensures CutAt(c, old(T()), T(), f, size)
      ensures RefsTrimmed(c, old(T()), T(), f, (size + 511) / 512)
      ensures FreedBy(c, old(T()), f, Dropped((size + 511) / 512, 3), blocks)
      ensures table == old(table)[f := inodes[f]]
      ensures logged <= old(logged) + TruncSet(c, old(T()), f, size, inodestart)
      ensures inodestart + f / IPB in logged
    {
      ghost var t0 := T();
      var keep := (size + 511) / 512;
      var cur := inodes[f].size;
      var addrs := TruncTree(f, keep);
      ghost var s := Rewritten(c, t0, f, keep);
      RewrittenOwned(c, t0, f, keep);
      if size < cur && keep > 0 && size % 512 > 0 {
        ZeroRest(f, size, keep, addrs, t0, s);
      } else {
        TrimOnly(c, t0, f, size, keep, blocks, addrs, s);
      }
      inodes := inodes[f := Inode(size, addrs)];
      assert T() == Trimmed(t0, f, blocks, addrs, size);
      CutRefines(c, t0, T(), f, size);
      Iupdate(f);
    }
  }
}
