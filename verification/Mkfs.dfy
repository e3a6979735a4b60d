/** The image builder: files are written front to back with their index blocks kept in memory
    and flushed at the end. What it builds is a tree the kernel reads back byte for byte. */
module Mkfs {
  import opened Collections
  import opened Layout
  import opened BlockFormat
  import opened FileTree
  import FileOps

  /** The inode and the index blocks of the file being written, in memory. */
  datatype Draft = Draft(addrs: seq<nat>, ind: Option<Sector>, root: Option<Sector>, leaves: seq<Option<Sector>>)

  const EMPTY := Draft(seq(14, _ => 0), None, None, seq(128, _ => None))

  /** Blocks a file of `n` data blocks takes, index blocks included. */
  function Needs(n: nat): (m: nat) {
    n + (if n > 12 then 1 else 0) + (if n > 140 then 1 + (n - 140 + 127) / 128 else 0)
  }

  /** What the index block at `p` is on disk once flushed. */
  ghost predicate Holds(c: Ctx, t: Tree, f: nat, p: Pos, x: Option<Sector>) {
    if x.None? then At(c, t, f, p) == 0
    else 0 < At(c, t, f, p) < |t.blocks| && t.blocks[At(c, t, f, p)] == x.value
  }

  predicate IndexAt(c: Ctx, t: Tree, f: nat, p: Pos, b: nat) { !p.Data() && At(c, t, f, p) == b }

  ghost predicate IsIndex(c: Ctx, t: Tree, f: nat, b: nat) { exists p: Pos :: IndexAt(c, t, f, p, b) }

  /** Block `b` of the image is what the tree has there, unless it is an index block still in memory. */
  ghost predicate Written(c: Ctx, t: Tree, f: nat, img: seq<Sector>, hole: nat, b: nat) {
    0 < b < |img| && b < |t.blocks| && b != c.geo.bmapstart && b != hole && !IsIndex(c, t, f, b) ==>
      img[b] == t.blocks[b]
  }

  /** The image, the bitmap and the draft together are the tree `t`, except for block `hole`. */
  ghost predicate Matches(c: Ctx, t: Tree, f: nat, img: seq<Sector>, bitmap: Sector, d: Draft, hole: nat) {
    && Own(c, t) && f in t.inodes && t.inodes[f].addrs == d.addrs && |img| == c.geo.size <= 4096 && |d.leaves| == 128
    && 0 < c.geo.bmapstart < |img| && t.blocks[c.geo.bmapstart] == bitmap && img[0] == t.blocks[0]
    && Holds(c, t, f, Ind, d.ind) && Holds(c, t, f, Root, d.root) &&
    var leaves := forall o: nat {:trigger Mid(o)} :: o < 128 ==> Holds(c, t, f, Mid(o), d.leaves[o]);
    var written := forall b: nat {:trigger Written(c, t, f, img, hole, b)} :: Written(c, t, f, img, hole, b);
    leaves && written
  }

  /** Nothing is used from `next` on. */
  ghost predicate FreeFrom(c: Ctx, t: Tree, img: seq<Sector>, next: nat) {
    var free := forall b: nat {:trigger Used(c, t.blocks, b)} :: next <= b < c.geo.size && b < |img| ==>
        !Used(c, t.blocks, b) && img[b] == ZERO;
    free
  }

  // ---- Claiming a block ----

  lemma ClaimFree(c: Ctx, t: Tree, img: seq<Sector>, b: nat)
    requires Own(c, t) && FreeFrom(c, t, img, b) && b < c.geo.size && |img| == c.geo.size
    ensures BitBlock(c.geo, b) < |t.blocks| && FreeFrom(c, Claimed(c, t, b), img, b + 1)
    ensures forall e: nat :: e < c.geo.size && e != b ==> Used(c, Claimed(c, t, b).blocks, e) == Used(c, t.blocks, e)
  {
    assert !Used(c, t.blocks, b);
    MarkFrame(c, t, b, true);
    assert c.geo.datastart <= b;
    forall e: nat | e < c.geo.size && e != b ensures Used(c, Claimed(c, t, b).blocks, e) == Used(c, t.blocks, e) {
      DataFrame(c, Marked(c, t.blocks, b, true), b, ZERO, e);
    }
  }

  lemma ClaimMatches(c: Ctx, t: Tree, f: nat, img: seq<Sector>, bitmap: Sector, d: Draft, hole: nat, b: nat)
    requires Matches(c, t, f, img, bitmap, d, hole) && FreeFrom(c, t, img, b) && b < c.geo.size && b != hole
    ensures BitBlock(c.geo, b) < |t.blocks|
    ensures var t' := Claimed(c, t, b);
      && Matches(c, t', f, img, c.fmt.mark(bitmap, b % 4096, true), d, hole)
      && FreeFrom(c, t', img, b + 1) && Loose(c, t', b) && SameRefs(c, t, t') && SameBytes(c, t, t')
  {
    assert !Used(c, t.blocks, b);
    ClaimFree(c, t, img, b);
    ClaimKeeps(c, t, b);
    var t' := Claimed(c, t, b);
    assert c.geo.datastart <= b;
    forall e: nat ensures Written(c, t', f, img, hole, e) {
      assert Written(c, t, f, img, hole, e);
      forall p: Pos | IndexAt(c, t, f, p, e) ensures IndexAt(c, t', f, p, e) {}
    }
    forall p: Pos | At(c, t, f, p) != 0 ensures At(c, t, f, p) != b && At(c, t, f, p) != c.geo.bmapstart {
      assert InData(c.geo, At(c, t, f, p)) && Used(c, t.blocks, At(c, t, f, p));
    }
    forall o: nat | o < 128 ensures Holds(c, t', f, Mid(o), d.leaves[o]) {
      assert Holds(c, t, f, Mid(o), d.leaves[o]);
    }
  }

  /** A block waiting to be linked stays ready while another is claimed or linked. */
  lemma LooseAfterClaim(c: Ctx, t: Tree, b: nat, x: nat)
    requires Own(c, t) && Loose(c, t, x) && b < c.geo.size && !Used(c, t.blocks, b)
    ensures BitBlock(c.geo, b) < |t.blocks| && Loose(c, Claimed(c, t, b), x)
  {
    ClaimKeeps(c, t, b);
    MarkFrame(c, t, b, true);
    DataFrame(c, Marked(c, t.blocks, b, true), b, ZERO, x);
  }

  lemma LooseAfterLink(c: Ctx, t: Tree, f: nat, p: Pos, b: nat, x: nat)
    requires Linkable(c, t, f, p, b) && Loose(c, t, x) && x != b
    ensures Loose(c, Linked(c, t, f, p, b), x)
  {
    LinkRefs(c, t, f, p, b);
    LinkBlocks(c, t, f, p, b);
  }

  lemma StillLoose(c: Ctx, t: Tree, f: nat, p: Pos, b: nat)
    requires Linkable(c, t, f, p, b)
    ensures forall x: nat {:trigger Loose(c, t, x)} :: Loose(c, t, x) && x != b ==> Loose(c, Linked(c, t, f, p, b), x)
  {
    forall x: nat | Loose(c, t, x) && x != b ensures Loose(c, Linked(c, t, f, p, b), x) {
      LooseAfterLink(c, t, f, p, b, x);
    }
  }

  lemma StillFree(c: Ctx, t: Tree, f: nat, p: Pos, b: nat, img: seq<Sector>, next: nat)
    requires Linkable(c, t, f, p, b) && FreeFrom(c, t, img, next)
    ensures FreeFrom(c, Linked(c, t, f, p, b), img, next)
  {
    LinkBlocks(c, t, f, p, b);
    forall e: nat | next <= e < c.geo.size && e < |img|
      ensures !Used(c, Linked(c, t, f, p, b).blocks, e) && img[e] == ZERO
    {
      assert !Used(c, t.blocks, e);
    }
  }

  // ---- Linking it in ----

  predicate CanStore(d: Draft, p: Pos) {
    && |d.addrs| == 14 && |d.leaves| == 128 && p.Valid()
    && (p.IndLeaf? ==> d.ind.Some?) && (p.Mid? ==> d.root.Some?) && (p.Leaf? ==> d.leaves[p.o].Some?)
  }

  /** The draft after block `b` was stored at slot `p`; a new index block starts out zeroed. */
  function Stored(c: Ctx, d: Draft, p: Pos, b: nat): (d': Draft)
    requires CanStore(d, p)
  {
    match p
    case Direct(i) => d.(addrs := d.addrs[i := b])
    case Ind => d.(addrs := d.addrs[12 := b], ind := Some(ZERO))
    case IndLeaf(i) => d.(ind := Some(c.fmt.put(d.ind.value, i, b)))
    case Root => d.(addrs := d.addrs[13 := b], root := Some(ZERO))
    case Mid(o) => d.(root := Some(c.fmt.put(d.root.value, o, b)), leaves := d.leaves[o := Some(ZERO)])
    case Leaf(o, i) => d.(leaves := d.leaves[o := Some(c.fmt.put(d.leaves[o].value, i, b))])
  }

  lemma HasDraft(c: Ctx, t: Tree, f: nat, img: seq<Sector>, bitmap: Sector, d: Draft, hole: nat, p: Pos)
    requires Matches(c, t, f, img, bitmap, d, hole) && p.Valid() && !InInode(p) && At(c, t, f, Parent(p)) != 0
    ensures CanStore(d, p)
  {
    if p.Leaf? { assert Holds(c, t, f, Mid(p.o), d.leaves[p.o]); }
  }

  /** Which draft sector stands for index slot `q`. */
  function SectorAt(d: Draft, q: Pos): (x: Option<Sector>)
    requires !q.Data() && q.Valid() && |d.leaves| == 128
  {
    match q case Ind => d.ind case Root => d.root case Mid(o) => d.leaves[o]
  }

  lemma HoldsAt(c: Ctx, t: Tree, f: nat, img: seq<Sector>, bitmap: Sector, d: Draft, hole: nat, q: Pos)
    requires Matches(c, t, f, img, bitmap, d, hole) && !q.Data() && q.Valid()
    ensures Holds(c, t, f, q, SectorAt(d, q))
  {
    if q.Mid? { assert Holds(c, t, f, Mid(q.o), d.leaves[q.o]); }
  }

  lemma LinkHoldsInode(c: Ctx, t: Tree, f: nat, d: Draft, p: Pos, b: nat, q: Pos)
    requires Linkable(c, t, f, p, b) && !q.Data() && q.Valid() && CanStore(d, p) && InInode(p)
    requires Holds(c, t, f, q, SectorAt(d, q))
    ensures Holds(c, Linked(c, t, f, p, b), f, q, SectorAt(Stored(c, d, p, b), q))
  {
    LinkRefs(c, t, f, p, b);
    assert At(c, Linked(c, t, f, p, b), f, q) == if q == p then b else At(c, t, f, q);
  }

  lemma LinkHoldsIndex(c: Ctx, t: Tree, f: nat, d: Draft, p: Pos, b: nat, q: Pos)
    requires Linkable(c, t, f, p, b) && !q.Data() && q.Valid() && CanStore(d, p) && !InInode(p)
    requires Holds(c, t, f, q, SectorAt(d, q)) && Holds(c, t, f, Parent(p), SectorAt(d, Parent(p)))
    ensures Holds(c, Linked(c, t, f, p, b), f, q, SectorAt(Stored(c, d, p, b), q))
  {
    LinkRefs(c, t, f, p, b);
    LinkBlocks(c, t, f, p, b);
    assert At(c, Linked(c, t, f, p, b), f, q) == if q == p then b else At(c, t, f, q);
    assert At(c, t, f, q) == At(c, t, f, Parent(p)) ==> q == Parent(p);
    assert At(c, t, f, Parent(p)) != b;
  }

  lemma LinkHolds(c: Ctx, t: Tree, f: nat, img: seq<Sector>, bitmap: Sector, d: Draft, hole: nat, p: Pos, b: nat,
                  q: Pos)
    requires Matches(c, t, f, img, bitmap, d, hole) && Linkable(c, t, f, p, b) && !q.Data() && q.Valid()
    requires CanStore(d, p)
    ensures Holds(c, Linked(c, t, f, p, b), f, q, SectorAt(Stored(c, d, p, b), q))
  {
    HoldsAt(c, t, f, img, bitmap, d, hole, q);
    if InInode(p) {
      LinkHoldsInode(c, t, f, d, p, b, q);
    } else {
      HoldsAt(c, t, f, img, bitmap, d, hole, Parent(p));
      LinkHoldsIndex(c, t, f, d, p, b, q);
    }
  }

  /** Linking makes no index block cease to be one. */
  lemma LinkIndex(c: Ctx, t: Tree, f: nat, p: Pos, b: nat, e: nat)
    requires Own(c, t) && Linkable(c, t, f, p, b) && e != 0
    ensures IsIndex(c, t, f, e) ==> IsIndex(c, Linked(c, t, f, p, b), f, e)
  {
    var t' := Linked(c, t, f, p, b);
    LinkRefs(c, t, f, p, b);
    forall q: Pos | IndexAt(c, t, f, q, e) ensures IndexAt(c, t', f, q, e) {
      assert At(c, t', f, q) == At(c, t, f, q);
    }
  }

  lemma LinkWritten(c: Ctx, t: Tree, f: nat, img: seq<Sector>, bitmap: Sector, d: Draft, hole: nat, p: Pos, b: nat,
                    e: nat)
    requires Matches(c, t, f, img, bitmap, d, hole) && Linkable(c, t, f, p, b) && (p.Data() ==> b == hole)
    ensures Written(c, Linked(c, t, f, p, b), f, img, hole, e)
  {
    assert Written(c, t, f, img, hole, e);
    LinkBlocks(c, t, f, p, b);
    if e != 0 {
      LinkIndex(c, t, f, p, b, e);
      if !InInode(p) {
        assert IndexAt(c, t, f, Parent(p), At(c, t, f, Parent(p)));
      }
    }
  }

  lemma LinkMatches(c: Ctx, t: Tree, f: nat, img: seq<Sector>, bitmap: Sector, d: Draft, hole: nat, p: Pos, b: nat)
    requires Matches(c, t, f, img, bitmap, d, hole) && Linkable(c, t, f, p, b) && (p.Data() ==> b == hole)
    ensures CanStore(d, p)
    ensures Matches(c, Linked(c, t, f, p, b), f, img, bitmap, Stored(c, d, p, b), hole)
  {
    var t' := Linked(c, t, f, p, b);
    if !InInode(p) { HasDraft(c, t, f, img, bitmap, d, hole, p); }
    LinkKeeps(c, t, f, p, b);
    LinkBlocks(c, t, f, p, b);
    LinkHolds(c, t, f, img, bitmap, d, hole, p, b, Ind);
    LinkHolds(c, t, f, img, bitmap, d, hole, p, b, Root);
    forall o: nat | o < 128 ensures Holds(c, t', f, Mid(o), Stored(c, d, p, b).leaves[o]) {
      LinkHolds(c, t, f, img, bitmap, d, hole, p, b, Mid(o));
    }
    forall e: nat ensures Written(c, t', f, img, hole, e) {
      LinkWritten(c, t, f, img, bitmap, d, hole, p, b, e);
    }
    if !InInode(p) { assert InData(c.geo, At(c, t, f, Parent(p))); }
  }

  /** Once linked, the data block the image already holds is what the tree has. */
  lemma FillMatches(c: Ctx, t: Tree, f: nat, img: seq<Sector>, bitmap: Sector, d: Draft, bn: nat)
    requires bn < MAXFILE && At(c, t, f, Slot(bn)) != 0
    requires Matches(c, t, f, img, bitmap, d, At(c, t, f, Slot(bn)))
    ensures var b := At(c, t, f, Slot(bn));
      && b < |t.blocks| && b < |img|
      && Matches(c, t.(blocks := t.blocks[b := img[b]]), f, img, bitmap, d, 0)
  {
    var slot := Slot(bn);
    var b := At(c, t, f, slot);
    WriteKeeps(c, t, f, bn, if b < |img| then img[b] else ZERO);
    assert InData(c.geo, b);
    var t' := t.(blocks := t.blocks[b := img[b]]);
    forall q: Pos | !q.Data()
      ensures At(c, t', f, q) == At(c, t, f, q) && (At(c, t, f, q) == 0 || At(c, t, f, q) != b)
    {
      assert At(c, t, f, q) == b != 0 ==> q == slot;
    }
    forall o: nat | o < 128 ensures Holds(c, t', f, Mid(o), d.leaves[o]) {
      assert Holds(c, t, f, Mid(o), d.leaves[o]);
    }
    forall e: nat ensures Written(c, t', f, img, 0, e) {
      assert Written(c, t, f, img, b, e);
      forall p: Pos | IndexAt(c, t, f, p, e) ensures IndexAt(c, t', f, p, e) {}
    }
  }

  // ---- The builder ----

  lemma FreshImage(c: Ctx, img: seq<Sector>, bitmap: Sector)
    requires Laws(c.fmt) && GeoOk(c.geo) && |img| == c.geo.size <= 4096 && 1 < c.geo.bmapstart < |img|
    requires forall k: nat :: k < 4096 ==> (c.fmt.bit(bitmap, k) <==> k < c.geo.datastart)
    requires forall b: nat :: 1 < b < |img| ==> img[b] == ZERO
    ensures var t := Tree(img[c.geo.bmapstart := bitmap], map[]);
      Own(c, t) && ZeroTail(c, t) && FreeFrom(c, t, img, c.geo.datastart)
  {
    var t := Tree(img[c.geo.bmapstart := bitmap], map[]);
    forall b: nat | b < c.geo.size ensures Used(c, t.blocks, b) <==> b < c.geo.datastart {
      assert b / 4096 == 0 && b % 4096 == b;
    }
    forall b: nat | b < c.geo.datastart ensures Used(c, t.blocks, b) {}
  }

  /** An inode that maps nothing joins the others. */
  lemma FreshInode(c: Ctx, t: Tree, f: nat)
    requires Own(c, t) && ZeroTail(c, t) && f !in t.inodes
    ensures var t' := t.(inodes := t.inodes[f := Inode(0, EMPTY.addrs)]);
      && Own(c, t') && ZeroTail(c, t')
      && forall g :: g in t.inodes ==> Content(c, t', g) == Content(c, t, g)
  {
    var t' := t.(inodes := t.inodes[f := Inode(0, EMPTY.addrs)]);
    forall g: nat, p: Pos ensures At(c, t', g, p) == At(c, t, g, p) {}
    forall g: nat, k: nat ensures ByteAt(c, t', g, k) == ByteAt(c, t, g, k) {}
    forall g: nat, k: nat | g in t'.inodes && t'.inodes[g].size <= k ensures ByteAt(c, t', g, k) == 0 {
      assert ByteAt(c, t, g, k) == ByteAt(c, t', g, k);
    }
  }

  /** Data block `i` of `data`, zero-padded. */
  function Chunk(data: seq<Byte>, i: nat): (x: Sector)
    requires 512 * i < |data|
  {
    var end := if 512 * i + 512 < |data| then 512 * i + 512 else |data|;
    Splice(ZERO, 0, data[512 * i..end])
  }

  class FsBuilder {
    const c: Ctx
    var img: seq<Sector>
    var nextInum: nat
    var next: nat
    var bitmap: Sector
    var inodes: map<nat, Inode>
    /** The file being written, and the tree built so far with its index blocks in place. */
    var d: Draft
    ghost var t: Tree

    /** Between files the image with the bitmap in its block is a tree that owns its blocks. */
    ghost function Image(): (r: Tree)
      requires c.geo.bmapstart < |img|
      reads this
    {
      Tree(img[c.geo.bmapstart := bitmap], inodes)
    }

    ghost predicate Valid()
      reads this
    {
      && |img| == c.geo.size <= 4096 && 0 < c.geo.bmapstart < |img|
      && Own(c, Image()) && ZeroTail(c, Image()) && FreeFrom(c, Image(), img, next)
    }

    ghost predicate Drafting(f: nat, hole: nat)
      reads this
    {
      Matches(c, t, f, img, bitmap, d, hole) && FreeFrom(c, t, img, next)
    }

    /** A new image: everything before the data area is marked used, nothing else is. */
    constructor (c: Ctx, superblock: Sector)
      requires Laws(c.fmt) && GeoOk(c.geo) && c.geo.size <= 4096 && 1 < c.geo.bmapstart && Blank(c.fmt)
      ensures Valid() && this.c == c && next == c.geo.datastart && inodes == map[] && nextInum == 1
    {
      this.c := c;
      this.img := seq(c.geo.size, _ => ZERO)[1 := superblock];
      this.next, this.nextInum := c.geo.datastart, 1;
      this.bitmap, this.inodes := ZERO, map[];
      this.d := EMPTY;
      new;
      var b := 0;
      while b < c.geo.datastart
        invariant b <= c.geo.datastart && this.c == c && next == c.geo.datastart && inodes == map[] && nextInum == 1
        invariant img == seq(c.geo.size, _ => ZERO)[1 := superblock]
        invariant forall k: nat :: k < 4096 ==> (c.fmt.bit(bitmap, k) <==> k < b)
      {
        bitmap := c.fmt.mark(bitmap, b % 4096, true);
        b := b + 1;
      }
      FreshImage(c, img, bitmap);
    }

    /** The next inode number, with an inode that maps nothing. */
    method AllocInode() returns (f: nat)
      requires Valid() && nextInum !in inodes
      modifies this`inodes, this`nextInum
      ensures Valid() && f == old(nextInum) && nextInum == f + 1 && inodes == old(inodes)[f := Inode(0, EMPTY.addrs)]
      ensures forall g :: g in old(inodes) ==> Content(c, Image(), g) == Content(c, old(Image()), g)
    {
      f := nextInum;
      nextInum := nextInum + 1;
      FreshInode(c, Image(), f);
      inodes := inodes[f := Inode(0, EMPTY.addrs)];
    }

    method AllocBlock(ghost f: nat, ghost hole: nat) returns (b: nat)
      requires Drafting(f, hole) && next < c.geo.size && hole < next
      modifies this`next, this`bitmap, this`t
      ensures Drafting(f, hole) && b == old(next) && next == b + 1
      ensures Loose(c, t, b) && SameRefs(c, old(t), t) && SameBytes(c, old(t), t) && t.inodes == old(t).inodes
      ensures forall x: nat {:trigger Loose(c, old(t), x)} :: Loose(c, old(t), x) ==> Loose(c, t, x)
    {
      b := next;
      ClaimMatches(c, t, f, img, bitmap, d, hole, b);
      forall x: nat | Loose(c, t, x) ensures Loose(c, Claimed(c, t, b), x) {
        assert !Used(c, t.blocks, b);
        LooseAfterClaim(c, t, b, x);
      }
      next := next + 1;
      bitmap := c.fmt.mark(bitmap, b % 4096, true);
      t := Claimed(c, t, b);
    }

    /** Store block `b` at slot `p` of the draft. */
    method Store(f: nat, p: Pos, b: nat, ghost hole: nat)
      requires Drafting(f, hole) && Linkable(c, t, f, p, b) && (p.Data() ==> b == hole)
      modifies this`d, this`t
      ensures CanStore(old(d), p) && d == Stored(c, old(d), p, b)
      ensures Drafting(f, hole) && OneRef(c, old(t), t, f, p, b) && SameBytes(c, old(t), t)
      ensures t.inodes.Keys == old(t).inodes.Keys
      ensures forall x: nat {:trigger Loose(c, old(t), x)} :: Loose(c, old(t), x) && x != b ==> Loose(c, t, x)
      ensures forall g :: g in t.inodes && g != f ==> t.inodes[g] == old(t).inodes[g]
      ensures t.inodes[f].size == old(t).inodes[f].size
    {
      LinkMatches(c, t, f, img, bitmap, d, hole, p, b);
      LinkKeeps(c, t, f, p, b);
      StillLoose(c, t, f, p, b);
      StillFree(c, t, f, p, b, img, next);
      d := Stored(c, d, p, b);
      t := Linked(c, t, f, p, b);
    }

    /** Allocate an index block for the empty slot `p`; data block `blk` still waits for its place. */
    method AddIndex(f: nat, p: Pos, ghost blk: nat)
      requires Drafting(f, blk) && Loose(c, t, blk) && blk < next < c.geo.size
      requires !p.Data() && p.Valid() && At(c, t, f, p) == 0 && (!InInode(p) ==> At(c, t, f, Parent(p)) != 0)
      modifies this`next, this`bitmap, this`d, this`t
      ensures Drafting(f, blk) && Loose(c, t, blk) && next == old(next) + 1
      ensures CanStore(old(d), p) && d == Stored(c, old(d), p, old(next))
      ensures OneRef(c, old(t), t, f, p, old(next)) && old(next) != 0 && SameBytes(c, old(t), t)
      ensures t.inodes.Keys == old(t).inodes.Keys && t.inodes[f].size == old(t).inodes[f].size
      ensures forall g :: g in t.inodes && g != f ==> t.inodes[g] == old(t).inodes[g]
    {
      var b := AllocBlock(f, blk);
      ghost var t1 := t;
      Store(f, p, b, blk);
      assert SameBytes(c, t1, t);
    }

    /** Give data block number `i`, already in the image at `blk`, its place: an index block that is
        missing is allocated first. */
    method Place(f: nat, i: nat, blk: nat)
      requires Drafting(f, blk) && Loose(c, t, blk) && blk < next && i < MAXFILE && Progress(d, i)
      requires At(c, t, f, Slot(i)) == 0 && next + Needs(i + 1) - Needs(i) - 1 <= c.geo.size
      modifies this`next, this`bitmap, this`d, this`t
      ensures Placed(c, old(t), t, f, i, blk, old(next), next)
      ensures Drafting(f, blk) && Progress(d, i + 1)
    {
      if i < 12 {
        Store(f, Direct(i), blk, blk);
      } else if i < 140 {
        PlaceIndirect(f, i, blk);
      } else {
        PlaceDouble(f, i, blk);
      }
    }

    method PlaceIndirect(f: nat, i: nat, blk: nat)
      requires Drafting(f, blk) && Loose(c, t, blk) && blk < next && 12 <= i < 140 && Progress(d, i)
      requires At(c, t, f, Slot(i)) == 0 && next + Needs(i + 1) - Needs(i) - 1 <= c.geo.size
      modifies this`next, this`bitmap, this`d, this`t
      ensures Placed(c, old(t), t, f, i, blk, old(next), next)
      ensures Drafting(f, blk) && Progress(d, i + 1)
    {
      if d.ind.None? {
        AddIndex(f, Ind, blk);
      }
      Store(f, IndLeaf(i - 12), blk, blk);
    }

    method PlaceDouble(f: nat, i: nat, blk: nat)
      requires Drafting(f, blk) && Loose(c, t, blk) && blk < next && 140 <= i < MAXFILE && Progress(d, i)
      requires At(c, t, f, Slot(i)) == 0 && next + Needs(i + 1) - Needs(i) - 1 <= c.geo.size
      modifies this`next, this`bitmap, this`d, this`t
      ensures Placed(c, old(t), t, f, i, blk, old(next), next)
      ensures Drafting(f, blk) && Progress(d, i + 1)
    {
      var outer, inner := (i - 140) / 128, (i - 140) % 128;
      assert Slot(i) == Leaf(outer, inner);
      EnsureMid(f, i, blk);
      ghost var t1, d1 := t, d;
      Store(f, Leaf(outer, inner), blk, blk);
      PlacedAfter(c, old(t), t1, t, f, i, blk, old(next), next);
      ProgressAfter(c, d1, Leaf(outer, inner), blk, i + 1);
    }

    /** The root and the middle index block above data block `i` exist afterwards. */
    method EnsureMid(f: nat, i: nat, ghost blk: nat)
      requires Drafting(f, blk) && Loose(c, t, blk) && blk < next && 140 <= i < MAXFILE && Progress(d, i)
      requires next + Needs(i + 1) - Needs(i) - 1 <= c.geo.size
      modifies this`next, this`bitmap, this`d, this`t
      ensures Drafting(f, blk) && Loose(c, t, blk) && IndexOnly(c, old(t), t, f) && Progress(d, i + 1)
      ensures next == old(next) + Needs(i + 1) - Needs(i) - 1 && At(c, t, f, Mid((i - 140) / 128)) != 0
    {
      var outer := (i - 140) / 128;
      NeedsStep(i);
      IndexOnlyTrans(c, t, t, t, f);
      if d.root.None? {
        AddRoot(f, i, blk);
      }
      ghost var t1 := t;
      IndexOnlyTrans(c, t1, t1, t1, f);
      if d.leaves[outer].None? {
        AddMid(f, i, blk);
      }
      IndexOnlyTrans(c, old(t), t1, t, f);
      MidProgress(old(d), d, i);
      assert Holds(c, t, f, Mid(outer), d.leaves[outer]);
    }

    method AddRoot(f: nat, i: nat, ghost blk: nat)
      requires Drafting(f, blk) && Loose(c, t, blk) && blk < next < c.geo.size && i == 140 && Progress(d, i)
      modifies this`next, this`bitmap, this`d, this`t
      ensures Drafting(f, blk) && Loose(c, t, blk) && next == old(next) + 1 && IndexOnly(c, old(t), t, f)
      ensures d.root.Some? && d.ind == old(d).ind && d.leaves == old(d).leaves
    {
      AddIndex(f, Root, blk);
    }

    method AddMid(f: nat, i: nat, ghost blk: nat)
      requires Drafting(f, blk) && Loose(c, t, blk) && blk < next < c.geo.size && 140 <= i < MAXFILE
      requires d.root.Some? && |d.leaves| == 128 && d.leaves[(i - 140) / 128].None?
      modifies this`next, this`bitmap, this`d, this`t
      ensures Drafting(f, blk) && Loose(c, t, blk) && next == old(next) + 1 && IndexOnly(c, old(t), t, f)
      ensures d.root.Some? && d.ind == old(d).ind && |d.leaves| == 128 && d.leaves[(i - 140) / 128].Some?
      ensures forall o: nat {:trigger d.leaves[o]} :: o < 128 && o != (i - 140) / 128 ==>
                d.leaves[o] == old(d).leaves[o]
    {
      var outer := (i - 140) / 128;
      assert Holds(c, t, f, Mid(outer), d.leaves[outer]);
      AddIndex(f, Mid(outer), blk);
    }

    /** Write `data` as the contents of the fresh inode `f`. The two preconditions on sizes are the two
        assertions of the code: the file is not too big, and the image has room. */
    method WriteFile(f: nat, data: seq<Byte>)
      requires Valid() && f in inodes && inodes[f] == Inode(0, EMPTY.addrs)
      requires |data| <= 512 * MAXFILE && 0 < next && next + Needs((|data| + 511) / 512) <= c.geo.size
      modifies this
      ensures Valid() && next == old(next) + Needs((|data| + 511) / 512) && nextInum == old(nextInum)
      ensures inodes.Keys == old(inodes).Keys && inodes[f].size == |data| && Content(c, Image(), f) == data
      ensures forall g :: g in inodes && g != f ==>
                inodes[g] == old(inodes)[g] && Content(c, Image(), g) == Content(c, old(Image()), g)
    {
      ghost var t0 := Image();
      var n := (|data| + 511) / 512;
      WriteBlocks(f, data, n);
      Flush(f);
      Landed(t0, t, f, |data|, d.addrs, img, c.geo.bmapstart, bitmap);
      Finished(c, t0, t, f, data, n);
      inodes := inodes[f := Inode(|data|, d.addrs)];
    }

    method WriteBlocks(f: nat, data: seq<Byte>, n: nat)
      requires Valid() && f in inodes && inodes[f] == Inode(0, EMPTY.addrs)
      requires n == (|data| + 511) / 512 <= MAXFILE && 0 < next && next + Needs(n) <= c.geo.size
      modifies this`img, this`next, this`bitmap, this`d, this`t
      ensures Drafting(f, 0) && next == old(next) + Needs(n) && SoFar(c, old(Image()), t, f, data, n)
    {
      d := EMPTY;
      t := Image();
      ghost var t0 := t;
      Begin(c, t, f, img, bitmap);
      var i := 0;
      while i < n
        invariant i <= n && Drafting(f, 0) && Progress(d, i) && NoneFrom(c, t, f, i)
        invariant next == old(next) + Needs(i)
        invariant SoFar(c, t0, t, f, data, i)
      {
        ghost var t1 := t;
        NeedsMonotone(i + 1, n);
        WriteOne(f, data, i);
        SoFarStep(c, t0, t1, t, f, data, i);
        i := i + 1;
      }
    }

    /** One round of the loop of `write_file`: allocate, write, and give data block `i` its place. */
    method WriteOne(f: nat, data: seq<Byte>, i: nat)
      requires Drafting(f, 0) && Progress(d, i) && 512 * i < |data| && i < MAXFILE && NoneFrom(c, t, f, i)
      requires 0 < next && next + Needs(i + 1) - Needs(i) <= c.geo.size
      modifies this`img, this`next, this`bitmap, this`d, this`t
      ensures Drafting(f, 0) && Progress(d, i + 1) && next == old(next) + Needs(i + 1) - Needs(i) &&
                NoneFrom(c, t, f, i + 1)
      ensures OneMore(c, old(t), t, f, i, Chunk(data, i))
    {
      var blk := AllocBlock(f, 0);
      img := img[blk := Chunk(data, i)];
      HoleMatches(c, t, f, old(img), img, bitmap, d, blk, next);
      ghost var t1 := t;
      assert At(c, t1, f, Slot(i)) == 0;
      Place(f, i, blk);
      ghost var t2 := t;
      FillMatches(c, t2, f, img, bitmap, d, i);
      t := t2.(blocks := t2.blocks[blk := img[blk]]);
      Filled(c, old(t), t1, t2, f, i, blk, Chunk(data, i), img, next);
    }

    /** Write the index blocks from memory to the image. */
    method Flush(f: nat)
      requires Drafting(f, 0)
      modifies this`img
      ensures |img| == |t.blocks| && forall b: nat :: b < |img| && b != c.geo.bmapstart ==> img[b] == t.blocks[b]
      ensures FreeFrom(c, t, img, next)
    {
      ghost var img0 := img;
      if d.ind.Some? {
        PutBlock(d.addrs[12], d.ind.value);
      }
      assert Agree(t, img, At(c, t, f, Ind));
      if d.root.Some? {
        FlushLeaves(f, img0);
        PutBlock(d.addrs[13], d.root.value);
      }
      assert Agree(t, img, At(c, t, f, Root));
      forall o: nat | o < 128 ensures Agree(t, img, At(c, t, f, Mid(o))) {
        if d.root.None? { AtParent(c, t, f, Mid(o)); }
      }
      AllFlushed(c, t, f, img0, img, bitmap, d);
      FlushedFree(c, t, f, img0, img, bitmap, d, next);
    }

    method FlushLeaves(f: nat, ghost img0: seq<Sector>)
      requires Drafting0(f, img0) && d.root.Some? && |img| == |img0| && Agrees(t, img0, img)
      modifies this`img
      ensures |img| == |img0| && Agrees(t, img0, img) && Agrees(t, old(img), img)
      ensures forall o: nat {:trigger Mid(o)} :: o < 128 ==> Agree(t, img, At(c, t, f, Mid(o)))
    {
      var o := 0;
      while o < 128
        invariant o <= 128 && Agrees(t, img0, img) && Agrees(t, old(img), img) && |img| == |img0|
        invariant forall k: nat {:trigger Mid(k)} :: k < o ==> Agree(t, img, At(c, t, f, Mid(k)))
      {
        assert Holds(c, t, f, Mid(o), d.leaves[o]);
        if d.leaves[o].Some? {
          PutBlock(c.fmt.word(d.root.value, o), d.leaves[o].value);
        } else {
          assert Agree(t, img0, 0);
        }
        o := o + 1;
      }
    }

    ghost predicate Drafting0(f: nat, img0: seq<Sector>)
      reads this
    {
      Matches(c, t, f, img0, bitmap, d, 0)
    }

    /** `write_block` of what the tree has there. */
    method PutBlock(b: nat, x: Sector)
      requires b < |img| && b < |t.blocks| && t.blocks[b] == x
      modifies this`img
      ensures |img| == |old(img)| && Agrees(t, old(img), img) && Agree(t, img, b)
    {
      img := img[b := x];
    }
  }

  lemma NeedsMonotone(i: nat, n: nat)
    requires i <= n
    ensures Needs(i) <= Needs(n)
  {
  }

  /** A fresh inode matches the empty draft. */
  lemma Begin(c: Ctx, t: Tree, f: nat, img: seq<Sector>, bitmap: Sector)
    requires Own(c, t) && f in t.inodes && t.inodes[f] == Inode(0, EMPTY.addrs) && ZeroTail(c, t)
    requires |img| == c.geo.size <= 4096 && 0 < c.geo.bmapstart < |img| && t.blocks == img[c.geo.bmapstart := bitmap]
    ensures Matches(c, t, f, img, bitmap, EMPTY, 0) && Progress(EMPTY, 0) && NoneFrom(c, t, f, 0)
    ensures forall p: Pos {:trigger At(c, t, f, p)} :: At(c, t, f, p) == 0
  {
    forall p: Pos ensures At(c, t, f, p) == 0 {}
    forall o: nat | o < 128 ensures Holds(c, t, f, Mid(o), EMPTY.leaves[o]) {}
    forall e: nat ensures Written(c, t, f, img, 0, e) {}
  }

  /** The first `i` data blocks of `f` are written; the other files are untouched. */
  ghost predicate SoFar(c: Ctx, t0: Tree, t: Tree, f: nat, data: seq<Byte>, i: nat) {
    && f in t0.inodes && t.inodes.Keys == t0.inodes.Keys && t.inodes[f].size == t0.inodes[f].size
    && (forall g :: g in t0.inodes && g != f ==> t.inodes[g] == t0.inodes[g])
    && forall g: nat, k: nat {:trigger ByteAt(c, t, g, k)} ::
         ByteAt(c, t, g, k) == if g != f then ByteAt(c, t0, g, k) else if k < 512 * i && k < |data| then data[k] else 0
  }

  lemma SoFarStep(c: Ctx, t0: Tree, t1: Tree, t2: Tree, f: nat, data: seq<Byte>, i: nat)
    requires SoFar(c, t0, t1, f, data, i) && 512 * i < |data| && OneMore(c, t1, t2, f, i, Chunk(data, i))
    ensures SoFar(c, t0, t2, f, data, i + 1)
  {
    forall g: nat, k: nat
      ensures ByteAt(c, t2, g, k) ==
              if g != f then ByteAt(c, t0, g, k) else if k < 512 * (i + 1) && k < |data| then data[k] else 0
    {
      assert ByteAt(c, t1, g, k) ==
             if g != f then ByteAt(c, t0, g, k) else if k < 512 * i && k < |data| then data[k] else 0;
      if k / 512 == i {
        assert k == 512 * i + k % 512;
        assert ZERO.bytes[k % 512] == 0;
      }
    }
  }

  /** What is on the image, with the new inode, is the tree that was built. */
  lemma Landed(t0: Tree, t: Tree, f: nat, size: nat, addrs: seq<nat>, img: seq<Sector>, at: nat, bitmap: Sector)
    requires f in t0.inodes && t.inodes.Keys == t0.inodes.Keys && t.inodes[f].addrs == addrs
    requires forall g :: g in t0.inodes && g != f ==> t.inodes[g] == t0.inodes[g]
    requires |img| == |t.blocks| && at < |img| && t.blocks[at] == bitmap
    requires forall b: nat :: b < |img| && b != at ==> img[b] == t.blocks[b]
    ensures Tree(img[at := bitmap], t0.inodes[f := Inode(size, addrs)]) == Resized(t, f, size)
  {
    assert img[at := bitmap] == t.blocks;
    assert t0.inodes[f := Inode(size, addrs)] == Resized(t, f, size).inodes;
  }

  lemma Finished(c: Ctx, t0: Tree, t: Tree, f: nat, data: seq<Byte>, n: nat)
    requires Own(c, t) && SoFar(c, t0, t, f, data, n) && ZeroTail(c, t0) && n == (|data| + 511) / 512
    ensures var r := Resized(t, f, |data|);
      && Own(c, r) && ZeroTail(c, r) && Content(c, r, f) == data
      && forall g :: g in t0.inodes && g != f ==> r.inodes[g] == t0.inodes[g] && Content(c, r, g) == Content(c, t0, g)
  {
    var r := Resized(t, f, |data|);
    ResizeKeeps(c, t, f, |data|);
    forall g: nat, k: nat | g in r.inodes && r.inodes[g].size <= k ensures ByteAt(c, r, g, k) == 0 {
      assert ByteAt(c, t, g, k) == ByteAt(c, r, g, k);
      if g != f { assert ByteAt(c, t0, g, k) == 0; }
    }
    forall k: nat | k < |data| ensures ByteAt(c, r, f, k) == data[k] {
      assert ByteAt(c, t, f, k) == ByteAt(c, r, f, k);
    }
    forall g | g in t0.inodes && g != f ensures Content(c, r, g) == Content(c, t0, g) {
      forall k: nat ensures ByteAt(c, r, g, k) == ByteAt(c, t0, g, k) {
        assert ByteAt(c, t, g, k) == ByteAt(c, t0, g, k);
      }
    }
  }

  /** No data block from number `i` on is mapped. */
  ghost predicate NoneFrom(c: Ctx, t: Tree, f: nat, i: nat) {
    forall bn: nat {:trigger Slot(bn)} :: i <= bn < MAXFILE ==> At(c, t, f, Slot(bn)) == 0
  }

  /** Data block `i` of `f` now holds `x`; all other bytes and inodes are as before. */
  ghost predicate OneMore(c: Ctx, t0: Tree, t1: Tree, f: nat, i: nat, x: Sector) {
    && f in t0.inodes && t1.inodes.Keys == t0.inodes.Keys && t1.inodes[f].size == t0.inodes[f].size
    && (forall g :: g in t0.inodes && g != f ==> t1.inodes[g] == t0.inodes[g])
    && forall g: nat, k: nat {:trigger ByteAt(c, t1, g, k)} ::
         ByteAt(c, t1, g, k) == if g == f && k / 512 == i then x.bytes[k % 512] else ByteAt(c, t0, g, k)
  }

  /** The image may already hold the data of a block the tree has just claimed. */
  lemma HoleMatches(c: Ctx, t: Tree, f: nat, img: seq<Sector>, img': seq<Sector>, bitmap: Sector, d: Draft, b: nat,
                    next: nat)
    requires Matches(c, t, f, img, bitmap, d, 0) && FreeFrom(c, t, img, next) && 0 < b < next && b < |img|
    requires |img'| == |img| && img' == img[b := img'[b]]
    ensures Matches(c, t, f, img', bitmap, d, b) && FreeFrom(c, t, img', next)
  {
    forall o: nat | o < 128 ensures Holds(c, t, f, Mid(o), d.leaves[o]) {}
    forall e: nat ensures Written(c, t, f, img', b, e) {
      assert Written(c, t, f, img, 0, e);
    }
    forall e: nat | next <= e < c.geo.size && e < |img'| ensures !Used(c, t.blocks, e) && img'[e] == ZERO {
      assert !Used(c, t.blocks, e) && img[e] == ZERO;
    }
  }

  lemma Filled(c: Ctx, t0: Tree, t1: Tree, t2: Tree, f: nat, i: nat, blk: nat, x: Sector, img: seq<Sector>, next: nat)
    requires i < MAXFILE && Own(c, t2) && SameRefs(c, t0, t1) && SameBytes(c, t0, t1) && t1.inodes == t0.inodes
    requires NoneFrom(c, t0, f, i) && blk != 0 && At(c, t2, f, Slot(i)) == blk && SameBytes(c, t1, t2)
    requires f in t1.inodes && t2.inodes.Keys == t1.inodes.Keys && t2.inodes[f].size == t1.inodes[f].size
    requires forall g :: g in t1.inodes && g != f ==> t2.inodes[g] == t1.inodes[g]
    requires forall bn: nat {:trigger Slot(bn)} :: bn < MAXFILE && bn != i ==>
               At(c, t2, f, Slot(bn)) == At(c, t1, f, Slot(bn))
    requires FreeFrom(c, t2, img, next) && blk < |img| == c.geo.size && img[blk] == x && blk < next
    ensures blk < |t2.blocks|
    ensures var t3 := t2.(blocks := t2.blocks[blk := x]);
      OneMore(c, t0, t3, f, i, x) && NoneFrom(c, t3, f, i + 1) && FreeFrom(c, t3, img, next)
  {
    WriteKeeps(c, t2, f, i, x);
    assert InData(c.geo, blk);
    var t3 := t2.(blocks := t2.blocks[blk := x]);
    forall bn: nat | i + 1 <= bn < MAXFILE ensures At(c, t3, f, Slot(bn)) == 0 {
      assert At(c, t0, f, Slot(bn)) == 0;
      assert At(c, t1, f, Slot(bn)) == 0;
    }
    forall e: nat | next <= e < c.geo.size ensures !Used(c, t3.blocks, e) && img[e] == ZERO {
      assert !Used(c, t2.blocks, e);
      DataFrame(c, t2.blocks, blk, x, e);
    }
  }

  lemma FlushedFree(c: Ctx, t: Tree, f: nat, img0: seq<Sector>, img: seq<Sector>, bitmap: Sector, d: Draft, next: nat)
    requires Matches(c, t, f, img0, bitmap, d, 0) && FreeFrom(c, t, img0, next) && |img| == |t.blocks|
    requires forall b: nat :: b < |img| && b != c.geo.bmapstart ==> img[b] == t.blocks[b]
    ensures FreeFrom(c, t, img, next)
  {
    forall b: nat | next <= b < c.geo.size ensures !Used(c, t.blocks, b) && img[b] == ZERO {
      assert !Used(c, t.blocks, b);
      assert b >= c.geo.datastart;
      MetaUnreferenced(c, t, b);
      assert Written(c, t, f, img0, 0, b);
    }
  }

  /** After the flush the image is the tree, bitmap block apart. */
  lemma AllFlushed(c: Ctx, t: Tree, f: nat, img0: seq<Sector>, img: seq<Sector>, bitmap: Sector, d: Draft)
    requires Matches(c, t, f, img0, bitmap, d, 0) && |img| == |img0| && Agrees(t, img0, img)
    requires Agree(t, img, At(c, t, f, Ind)) && Agree(t, img, At(c, t, f, Root))
    requires forall o: nat {:trigger Mid(o)} :: o < 128 ==> Agree(t, img, At(c, t, f, Mid(o)))
    ensures |img| == |t.blocks| && forall b: nat :: b < |img| && b != c.geo.bmapstart ==> img[b] == t.blocks[b]
  {
    forall b: nat | b < |img| && b != c.geo.bmapstart ensures img[b] == t.blocks[b] {
      assert Written(c, t, f, img0, 0, b) && Agree(t, img0, 0);
      if b > 0 && IsIndex(c, t, f, b) {
        var p: Pos :| IndexAt(c, t, f, p, b);
        assert p.Mid? ==> Agree(t, img, At(c, t, f, Mid(p.o)));
      } else {
        assert Agree(t, img0, b);
      }
      assert Agree(t, img, b);
    }
  }

  lemma NeedsStep(i: nat)
    requires 140 <= i < MAXFILE
    ensures Needs(i + 1) - Needs(i) - 1 == (if i == 140 then 1 else 0) + (if (i - 140) % 128 == 0 then 1 else 0)
  {
    assert (i - 140) % 128 == 0 <==> (i - 140 + 127) / 128 == (i - 140) / 128;
  }

  predicate Agree(t: Tree, img: seq<Sector>, b: nat) { b < |img| && b < |t.blocks| ==> img[b] == t.blocks[b] }

  /** Where the image agreed with the tree it still does. */
  ghost predicate Agrees(t: Tree, img: seq<Sector>, img': seq<Sector>) {
    forall b: nat {:trigger Agree(t, img', b)} :: Agree(t, img, b) ==> Agree(t, img', b)
  }

  /** File `f` got data block `i`; every byte, other data reference and other inode is as before. */
  ghost predicate Placed(c: Ctx, t0: Tree, t1: Tree, f: nat, i: nat, blk: nat, next0: nat, next1: nat)
    requires i < MAXFILE
  {
    var placed :=
      && f in t0.inodes && t1.inodes.Keys == t0.inodes.Keys && t1.inodes[f].size == t0.inodes[f].size
      && (forall g :: g in t0.inodes && g != f ==> t1.inodes[g] == t0.inodes[g])
      && At(c, t1, f, Slot(i)) == blk && SameBytes(c, t0, t1)
      && (forall bn: nat {:trigger Slot(bn)} :: bn < MAXFILE && bn != i ==>
          At(c, t1, f, Slot(bn)) == At(c, t0, f, Slot(bn)))
      && next1 == next0 + Needs(i + 1) - Needs(i) - 1;
    placed
  }

  /** Only index slots changed. */
  ghost predicate IndexOnly(c: Ctx, t0: Tree, t1: Tree, f: nat) {
    && f in t0.inodes && t1.inodes.Keys == t0.inodes.Keys && t1.inodes[f].size == t0.inodes[f].size
    && (forall g :: g in t0.inodes && g != f ==> t1.inodes[g] == t0.inodes[g])
    && SameBytes(c, t0, t1)
    && (forall p: Pos {:trigger At(c, t1, f, p)} :: p.Data() ==> At(c, t1, f, p) == At(c, t0, f, p))
  }

  lemma IndexOnlyTrans(c: Ctx, t0: Tree, t1: Tree, t2: Tree, f: nat)
    requires f in t0.inodes && (t0 == t1 || IndexOnly(c, t0, t1, f)) && (t1 == t2 || IndexOnly(c, t1, t2, f))
    ensures IndexOnly(c, t0, t2, f)
  {
  }

  lemma PlacedAfter(c: Ctx, t0: Tree, t1: Tree, t2: Tree, f: nat, i: nat, blk: nat, next0: nat, next1: nat)
    requires i < MAXFILE && IndexOnly(c, t0, t1, f) && OneRef(c, t1, t2, f, Slot(i), blk) && SameBytes(c, t1, t2)
    requires t2.inodes.Keys == t1.inodes.Keys && t2.inodes[f].size == t1.inodes[f].size
    requires forall g :: g in t2.inodes && g != f ==> t2.inodes[g] == t1.inodes[g]
    requires next1 == next0 + Needs(i + 1) - Needs(i) - 1
    ensures Placed(c, t0, t2, f, i, blk, next0, next1)
  {
    forall bn: nat | bn < MAXFILE && bn != i ensures At(c, t2, f, Slot(bn)) == At(c, t0, f, Slot(bn)) {
      assert At(c, t1, f, Slot(bn)) == At(c, t0, f, Slot(bn));
    }
  }

  lemma MidProgress(d0: Draft, d: Draft, i: nat)
    requires 140 <= i < MAXFILE && Progress(d0, i) && d.ind == d0.ind && d.root.Some? && |d.leaves| == 128
    requires d.leaves[(i - 140) / 128].Some?
    requires forall o: nat {:trigger d.leaves[o]} :: o < 128 && o != (i - 140) / 128 ==> d.leaves[o] == d0.leaves[o]
    ensures Progress(d, i + 1)
  {
    forall o: nat | o < 128 ensures d.leaves[o].Some? <==> i + 1 > 140 + 128 * o {
      assert d0.leaves[o].Some? <==> i > 140 + 128 * o;
    }
  }

  lemma ProgressAfter(c: Ctx, d: Draft, p: Pos, b: nat, i: nat)
    requires CanStore(d, p) && p.Data() && Progress(d, i)
    ensures Progress(Stored(c, d, p, b), i)
  {
    var d' := Stored(c, d, p, b);
    forall o: nat | o < 128 ensures d'.leaves[o].Some? <==> i > 140 + 128 * o {
      assert d.leaves[o].Some? <==> i > 140 + 128 * o;
    }
  }

  /** Which index blocks exist after `i` data blocks. */
  ghost predicate Progress(d: Draft, i: nat) {
    && |d.leaves| == 128 &&
    var made :=
      && (d.ind.Some? <==> i > 12) && (d.root.Some? <==> i > 140)
      && forall o: nat {:trigger d.leaves[o]} :: o < 128 ==> (d.leaves[o].Some? <==> i > 140 + 128 * o);
    made
  }

  /** For every byte string that fits, what `write_file` builds is read back by the kernel's `readi`
      byte for byte, at every offset and length. */
  method RoundTrip(b: FsBuilder, fs: FileOps.FileSystem, f: nat, data: seq<Byte>, len: nat, off: nat)
    returns (dst: seq<Byte>)
    requires b.Valid() && fs.c == b.c && f in b.inodes && b.inodes[f] == Inode(0, EMPTY.addrs)
    requires |data| <= 512 * MAXFILE && 0 < b.next && b.next + Needs((|data| + 511) / 512) <= b.c.geo.size
    modifies b, fs
    ensures off >= |data| ==> dst == []
    ensures off < |data| ==> |dst| == if len % U32 < |data| - off then len % U32 else |data| - off
    ensures off < |data| ==> dst == data[off..off + |dst|]
  {
    b.WriteFile(f, data);
    fs.blocks := b.img[b.c.geo.bmapstart := b.bitmap];
    fs.inodes := b.inodes;
    assert fs.T() == b.Image();
    dst := fs.Readi(f, len, off);
  }

  /** The blocks that a list of files takes. */
  function AllNeeds(files: seq<seq<Byte>>): (n: nat) {
    if files == [] then 0 else AllNeeds(files[..|files| - 1]) + Needs((|files[|files| - 1]| + 511) / 512)
  }

  lemma {:induction false} NeedsPrefix(files: seq<seq<Byte>>, i: nat)
    requires i <= |files|
    ensures AllNeeds(files[..i]) <= AllNeeds(files)
  {
    if i < |files| {
      NeedsPrefix(files[..|files| - 1], i);
      assert files[..|files| - 1][..i] == files[..i];
    } else {
      assert files[..i] == files;
    }
  }

  /** The builder has written `files[i]` as file `i + 1`, for all of `files` and nothing else. */
  ghost predicate Holding(b: FsBuilder, files: seq<seq<Byte>>)
    reads b
  {
    && b.Valid() && b.nextInum == |files| + 1 && b.next == b.c.geo.datastart + AllNeeds(files)
    && (forall f :: f in b.inodes ==> f < b.nextInum) && AllHeld(b.c, b.Image(), files)
  }

  /** File `i + 1` holds `files[i]`. */
  ghost predicate AllHeld(c: Ctx, t: Tree, files: seq<seq<Byte>>) {
    var held := forall i: nat {:trigger HeldAt(c, t, files, i)} :: HeldAt(c, t, files, i);
    held
  }

  ghost predicate HeldAt(c: Ctx, t: Tree, files: seq<seq<Byte>>, i: nat) {
    i < |files| ==> i + 1 in t.inodes && Content(c, t, i + 1) == files[i]
  }

  lemma {:induction false} OneMoreHeld(c: Ctx, t: Tree, t': Tree, files: seq<seq<Byte>>, data: seq<Byte>)
    requires AllHeld(c, t, files) && |files| + 1 !in t.inodes
    requires |files| + 1 in t'.inodes && Content(c, t', |files| + 1) == data
    requires forall g :: g in t.inodes ==> g in t'.inodes && Content(c, t', g) == Content(c, t, g)
    ensures AllHeld(c, t', files + [data])
  {
    forall i: nat ensures HeldAt(c, t', files + [data], i) {
      assert HeldAt(c, t, files, i);
    }
  }

  /** An image of any files that fit, in the on-disk format. */
  method Build(geo: Geo, superblock: Sector, files: seq<seq<Byte>>) returns (b: FsBuilder)
    requires GeoOk(geo) && geo.size <= 4096 && 1 < geo.bmapstart
    requires forall i :: 0 <= i < |files| ==> |files[i]| <= 512 * MAXFILE
    requires geo.datastart + AllNeeds(files) <= geo.size
    ensures fresh(b) && b.c == Ctx(BYTES, geo) && Holding(b, files)
  {
    b := Blanked(geo, superblock);
    assert files[..0] == [];
    for i := 0 to |files|
      invariant fresh(b) && b.c == Ctx(BYTES, geo) && Holding(b, files[..i])
    {
      NeedsPrefix(files, i + 1);
      assert files[..i + 1][..i] == files[..i];
      AddFile(b, files[..i], files[i]);
      assert files[..i + 1] == files[..i] + [files[i]];
    }
    assert files[..|files|] == files;
  }

  method Blanked(geo: Geo, superblock: Sector) returns (b: FsBuilder)
    requires GeoOk(geo) && geo.size <= 4096 && 1 < geo.bmapstart
    ensures fresh(b) && b.c == Ctx(BYTES, geo) && Holding(b, [])
  {
    BytesLaws();
    BytesBlank();
    b := new FsBuilder(Ctx(BYTES, geo), superblock);
  }

  /** One more file. */
  method AddFile(b: FsBuilder, ghost files: seq<seq<Byte>>, data: seq<Byte>)
    requires Holding(b, files) && |data| <= 512 * MAXFILE
    requires b.c.geo.datastart + AllNeeds(files) + Needs((|data| + 511) / 512) <= b.c.geo.size
    modifies b
    ensures Holding(b, files + [data])
  {
    ghost var t := b.Image();
    var f := b.AllocInode();
    b.WriteFile(f, data);
    ghost var more := files + [data];
    assert more[..|more| - 1] == files;
    OneMoreHeld(b.c, t, b.Image(), files, data);
  }

  /** Build an image of any files, mount it, and read file `i + 1`. */
  method BuildAndRead(geo: Geo, superblock: Sector, files: seq<seq<Byte>>, i: nat, len: nat, off: nat)
    returns (dst: seq<Byte>)
    requires GeoOk(geo) && geo.size <= 4096 && 1 < geo.bmapstart && i < |files|
    requires forall k :: 0 <= k < |files| ==> |files[k]| <= 512 * MAXFILE
    requires geo.datastart + AllNeeds(files) <= geo.size
    ensures off >= |files[i]| ==> dst == []
    ensures off < |files[i]| ==> |dst| == if len % U32 < |files[i]| - off then len % U32 else |files[i]| - off
    ensures off < |files[i]| ==> dst == files[i][off..off + |dst|]
  {
    var b := Build(geo, superblock, files);
    assert HeldAt(b.c, b.Image(), files, i);
    var fs := new FileOps.FileSystem(b.c, 0, b.img[geo.bmapstart := b.bitmap], b.inodes);
    assert fs.T() == b.Image();
    dst := fs.Readi(i + 1, len, off);
  }
}
