/** The file system over the log: what the files are after a crash. */
module FsCrash {
  import opened Collections
  import opened Layout
  import opened FileTree
  import opened FileOps
  import opened FileTrim
  import opened InodeTable
  import W = WriteAheadLog
  import CrashSafety

  /** Where things are on the disk: log, inode blocks, bitmap, data, in this order. */
  datatype Geom = Geom(c: Ctx, logstart: nat, inodestart: nat)

  predicate GeomOk(g: Geom) {
    && GeoOk(g.c.geo) && g.logstart + LOGSIZE < g.inodestart <= g.c.geo.bmapstart
  }

  /** Between two operations: the blocks, the inodes in memory, and those in the inode table. */
  datatype Snap = Snap(blocks: seq<Sector>, inodes: map<nat, Inode>, table: map<nat, Inode>, metas: map<nat, Meta>)

  function Live(s: Snap): (t: Tree) { Tree(s.blocks, s.inodes) }

  /** The table has the inode's block numbers, or not yet. */
  predicate BehindAt(a: Inode, b: Inode) {
    && a.size == b.size && |a.addrs| == 14 == |b.addrs|
    && forall i :: 0 <= i < 14 ==> a.addrs[i] == 0 || a.addrs[i] == b.addrs[i]
  }

  ghost predicate Behind(table: map<nat, Inode>, inodes: map<nat, Inode>) {
    table.Keys == inodes.Keys && forall f :: f in table ==> BehindAt(table[f], inodes[f])
  }

  ghost function States(s: Snap): (m: map<nat, State>) {
    map f | f in s.table && f in s.metas :: State(s.metas[f], s.table[f])
  }

  /** A well-formed file system, whose inode table shows every byte that memory shows. */
  ghost predicate Good(g: Geom, s: Snap) {
    var good :=
      && GeomOk(g) && Own(g.c, Live(s)) && ZeroTail(g.c, Live(s))
      && Behind(s.table, s.inodes) && SameBytes(g.c, Live(s), Tree(s.blocks, s.table))
      && s.metas.Keys == s.table.Keys && AllFit(States(s))
      && forall f :: f in s.table ==> BlockOf(g.inodestart, f) < g.c.geo.bmapstart;
    good
  }

  /** After a mount memory has what the table has: a well-formed tree is a good state. */
  lemma MountedGood(g: Geom, blocks: seq<Sector>, inodes: map<nat, Inode>, metas: map<nat, Meta>)
    requires GeomOk(g) && Own(g.c, Tree(blocks, inodes)) && ZeroTail(g.c, Tree(blocks, inodes))
    requires metas.Keys == inodes.Keys && forall f :: f in inodes ==> State(metas[f], inodes[f]).Fits()
    requires forall f :: f in inodes ==> BlockOf(g.inodestart, f) < g.c.geo.bmapstart
    ensures Good(g, Snap(blocks, inodes, inodes, metas))
  {
  }

  /** The disk: the blocks, with the inode table in its place. */
  ghost function DiskOf(g: Geom, s: Snap): (d: seq<Sector>)
    requires AllFit(States(s))
    ensures |d| == |s.blocks|
  {
    Image(g.inodestart, g.c.geo.bmapstart, s.blocks, States(s))
  }

  /** The files `fs` as a kernel that mounts `disk` sees them. */
  ghost function Mounted(g: Geom, disk: seq<Sector>, fs: set<nat>): (t: Tree)
    requires forall f :: f in fs ==> BlockOf(g.inodestart, f) < |disk|
  {
    Tree(disk, map f | f in fs :: LoadAt(g.inodestart, disk, f).inode)
  }

  // ---- What the table shows ----

  lemma BehindRef(c: Ctx, blocks: seq<Sector>, inodes: map<nat, Inode>, table: map<nat, Inode>, f: nat, p: Pos)
    requires Behind(table, inodes)
    ensures var a := At(c, Tree(blocks, table), f, p); a == 0 || a == At(c, Tree(blocks, inodes), f, p)
  {
  }

  lemma TableOwns(c: Ctx, blocks: seq<Sector>, inodes: map<nat, Inode>, table: map<nat, Inode>)
    requires Own(c, Tree(blocks, inodes)) && ZeroTail(c, Tree(blocks, inodes))
    requires Behind(table, inodes) && SameBytes(c, Tree(blocks, inodes), Tree(blocks, table))
    ensures Own(c, Tree(blocks, table)) && ZeroTail(c, Tree(blocks, table))
  {
    var t, t' := Tree(blocks, inodes), Tree(blocks, table);
    forall f: nat, p: Pos ensures At(c, t', f, p) == 0 || At(c, t', f, p) == At(c, t, f, p) {
      BehindRef(c, blocks, inodes, table, f, p);
    }
    forall f: nat, k: nat | f in table && table[f].size <= k ensures ByteAt(c, t', f, k) == 0 {
      assert ByteAt(c, t', f, k) == ByteAt(c, t, f, k);
    }
  }

  /** Nothing before the bitmap matters to a tree. */
  lemma MetaFrame(c: Ctx, blocks: seq<Sector>, disk: seq<Sector>, inodes: map<nat, Inode>)
    requires Own(c, Tree(blocks, inodes)) && |disk| == |blocks|
    requires forall b: nat :: c.geo.bmapstart <= b < |blocks| ==> disk[b] == blocks[b]
    ensures var t, t' := Tree(blocks, inodes), Tree(disk, inodes);
      Own(c, t') && SameRefs(c, t, t') && SameBytes(c, t, t')
  {
    var t, t' := Tree(blocks, inodes), Tree(disk, inodes);
    forall f: nat, p: Pos ensures At(c, t', f, p) == At(c, t, f, p) {
      RefFrame(c, t, t', f, p);
    }
    forall b: nat | b < c.geo.size ensures Used(c, disk, b) == Used(c, blocks, b) {
      assert b / 4096 <= c.geo.size / 4096;
    }
    forall f: nat, k: nat ensures ByteAt(c, t', f, k) == ByteAt(c, t, f, k) {
      if k / 512 < MAXFILE {
        assert At(c, t, f, Slot(k / 512)) != 0 ==> InData(c.geo, At(c, t, f, Slot(k / 512)));
      }
    }
  }

  lemma RefFrame(c: Ctx, t: Tree, t': Tree, f: nat, p: Pos)
    requires Own(c, t) && |t'.blocks| == |t.blocks| && t'.inodes == t.inodes
    requires forall b: nat :: c.geo.bmapstart <= b < |t.blocks| ==> t'.blocks[b] == t.blocks[b]
    ensures At(c, t', f, p) == At(c, t, f, p)
  {
    if p.Valid() && !InInode(p) {
      assert At(c, t, f, Parent(p)) != 0 ==> InData(c.geo, At(c, t, f, Parent(p)));
      if p.Leaf? {
        assert At(c, t, f, Root) != 0 ==> InData(c.geo, At(c, t, f, Root));
      }
    }
  }

  lemma MountsInodes(g: Geom, s: Snap, disk: seq<Sector>)
    requires GeomOk(g) && AllFit(States(s)) && s.metas.Keys == s.table.Keys && |disk| == |s.blocks| == g.c.geo.size
    requires forall f :: f in s.table ==> BlockOf(g.inodestart, f) < g.c.geo.bmapstart
    requires forall b: nat :: g.inodestart <= b < |disk| ==> disk[b] == DiskOf(g, s)[b]
    ensures forall f :: f in s.table ==> BlockOf(g.inodestart, f) < |disk|
    ensures Mounted(g, disk, s.table.Keys).inodes == s.table
  {
    forall f | f in s.table
      ensures BlockOf(g.inodestart, f) < |disk| && LoadAt(g.inodestart, disk, f).inode == s.table[f]
    {
      var b := BlockOf(g.inodestart, f);
      assert disk[b] == DiskOf(g, s)[b];
      ImageLoads(g.inodestart, g.c.geo.bmapstart, s.blocks, States(s), f);
    }
  }

  lemma MountsBlocks(g: Geom, s: Snap, disk: seq<Sector>)
    requires GeomOk(g) && AllFit(States(s)) && |disk| == |s.blocks|
    requires forall b: nat :: g.inodestart <= b < |disk| ==> disk[b] == DiskOf(g, s)[b]
    ensures forall b: nat :: g.c.geo.bmapstart <= b < |disk| ==> disk[b] == s.blocks[b]
  {
    forall b: nat | g.c.geo.bmapstart <= b < |disk| ensures disk[b] == s.blocks[b] {
      assert disk[b] == DiskOf(g, s)[b];
    }
  }

  /** A disk that has the inode table, the bitmap and the data of a good state mounts to its files. */
  lemma MountsGood(g: Geom, s: Snap, disk: seq<Sector>)
    requires Good(g, s) && |disk| == |s.blocks|
    requires forall b: nat :: g.inodestart <= b < |disk| ==> disk[b] == DiskOf(g, s)[b]
    ensures (forall f :: f in s.table ==> BlockOf(g.inodestart, f) < |disk|)
    ensures
      var t := Mounted(g, disk, s.table.Keys);
      && t.inodes == s.table && Own(g.c, t) && ZeroTail(g.c, t) && SameBytes(g.c, Live(s), t)
  {
    var c := g.c;
    MountsInodes(g, s, disk);
    MountsBlocks(g, s, disk);
    var t := Mounted(g, disk, s.table.Keys);
    TableOwns(c, s.blocks, s.inodes, s.table);
    MetaFrame(c, s.blocks, disk, s.table);
    TailFrame(c, Tree(s.blocks, s.table), t);
    BytesTrans(c, Live(s), Tree(s.blocks, s.table), t);
  }

  lemma TailFrame(c: Ctx, t: Tree, t': Tree)
    requires ZeroTail(c, t) && SameBytes(c, t, t') && t'.inodes == t.inodes
    ensures ZeroTail(c, t')
  {
    forall f: nat, k: nat | f in t'.inodes && t'.inodes[f].size <= k ensures ByteAt(c, t', f, k) == 0 {
      assert ByteAt(c, t', f, k) == ByteAt(c, t, f, k);
    }
  }

  lemma BytesTrans(c: Ctx, t0: Tree, t1: Tree, t2: Tree)
    requires SameBytes(c, t0, t1) && SameBytes(c, t1, t2)
    ensures SameBytes(c, t0, t2)
  {
    forall f: nat, k: nat ensures ByteAt(c, t2, f, k) == ByteAt(c, t0, f, k) {
      assert ByteAt(c, t1, f, k) == ByteAt(c, t0, f, k);
    }
  }

  // ---- Operations in the log ----

  function Concat(groups: seq<seq<W.Event>>): (h: seq<W.Event>) {
    if groups == [] then [] else Concat(groups[..|groups| - 1]) + groups[|groups| - 1]
  }

  /** All writes of the group are of one operation. */
  ghost predicate OneOp(groups: seq<seq<W.Event>>, k: nat)
    requires k < |groups|
  {
    forall a, b :: 0 <= a < |groups[k]| && 0 <= b < |groups[k]| ==> groups[k][a].op == groups[k][b].op
  }

  /** Operation `k` takes the files from `states[k]` to `states[k + 1]` by the writes `groups[k]`. */
  ghost predicate Carries(g: Geom, states: seq<Snap>, groups: seq<seq<W.Event>>, k: nat)
    requires k < |groups| == |states| - 1
  {
    var all :=
      && Good(g, states[k]) && Good(g, states[k + 1]) && OneOp(groups, k)
      && W.SameHome(g.logstart, W.Replay(DiskOf(g, states[k]), groups[k]), DiskOf(g, states[k + 1]));
    all
  }

  ghost predicate Carried(g: Geom, states: seq<Snap>, groups: seq<seq<W.Event>>) {
    && |states| == |groups| + 1 &&
    var all := Good(g, states[0]) && forall k: nat {:trigger groups[k]} :: k < |groups| ==>
        Carries(g, states, groups, k);
    all
  }

  lemma {:induction false} ReplayConcat(base: seq<Sector>, a: seq<W.Event>, b: seq<W.Event>)
    ensures W.Replay(base, a + b) == W.Replay(W.Replay(base, a), b)
  {
    if b == [] {
      assert a + b == a;
    } else {
      ReplayConcat(base, a, b[..|b| - 1]);
      assert (a + b)[..|a + b| - 1] == a + b[..|b| - 1];
    }
  }

  lemma {:induction false} ReplayHome(start: nat, x: seq<Sector>, y: seq<Sector>, h: seq<W.Event>)
    requires W.SameHome(start, x, y)
    ensures W.SameHome(start, W.Replay(x, h), W.Replay(y, h))
  {
    if h != [] {
      ReplayHome(start, x, y, h[..|h| - 1]);
    }
  }

  lemma {:induction false} CarriedTo(g: Geom, base: seq<Sector>, states: seq<Snap>, groups: seq<seq<W.Event>>, k: nat)
    requires Carried(g, states, groups) && k <= |groups| && W.SameHome(g.logstart, base, DiskOf(g, states[0]))
    ensures Good(g, states[k])
    ensures W.SameHome(g.logstart, W.Replay(base, Concat(groups[..k])), DiskOf(g, states[k]))
  {
    if k == 0 {
      assert Concat(groups[..0]) == [];
    } else {
      CarriedTo(g, base, states, groups, k - 1);
      assert Carries(g, states, groups, k - 1) by { var group := groups[k - 1]; }
      var h := Concat(groups[..k - 1]);
      assert groups[..k][..k - 1] == groups[..k - 1] && groups[..k][k - 1] == groups[k - 1];
      ReplayConcat(base, h, groups[k - 1]);
      ReplayHome(g.logstart, W.Replay(base, h), DiskOf(g, states[k - 1]), groups[k - 1]);
    }
  }

  /** A cut of the history that splits no operation falls between two groups. */
  lemma {:induction false} CutBetween(groups: seq<seq<W.Event>>, n: nat) returns (k: nat)
    requires n <= |Concat(groups)| && forall k: nat :: k < |groups| ==> OneOp(groups, k)
    requires var h := Concat(groups); forall a, b :: 0 <= a < n <= b < |h| ==> h[a].op != h[b].op
    ensures k <= |groups| && Concat(groups)[..n] == Concat(groups[..k])
  {
    var h := Concat(groups);
    if n == |h| {
      k := |groups|;
      assert groups[..k] == groups && h[..n] == h;
    } else {
      var init := groups[..|groups| - 1];
      var h' := Concat(init);
      LastGroup(groups, n);
      forall k: nat | k < |init| ensures OneOp(init, k) { assert OneOp(groups, k); }
      assert forall a :: 0 <= a < |h'| ==> h'[a] == h[a];
      k := CutBetween(init, n);
      assert init[..k] == groups[..k] && h[..n] == h'[..n];
    }
  }

  lemma LastGroup(groups: seq<seq<W.Event>>, n: nat)
    requires groups != [] && OneOp(groups, |groups| - 1) && n < |Concat(groups)|
    ensures var h, h' := Concat(groups), Concat(groups[..|groups| - 1]);
      h' <= h && (|h'| < n ==> h[n - 1].op == h[n].op)
  {
    var h', last := Concat(groups[..|groups| - 1]), groups[|groups| - 1];
    if |h'| < n {
      assert Concat(groups)[n - 1] == last[n - 1 - |h'|] && Concat(groups)[n] == last[n - |h'|];
    }
  }

  /** The theorem: operations carry the files from state to state; the power fails at any point, also
      inside an operation, whose writes are `rest`, or inside recovery, any number of times. When
      the log serves again, the disk mounts to the files as they were after some number `k` of
      operations: those whole, the others not at all. Ownership of blocks and zero tails hold. */
  lemma FilesSurvive(ws: seq<W.World>, xs: seq<W.Step>, i: nat, j: nat,
                     g: Geom, states: seq<Snap>, groups: seq<seq<W.Event>>, rest: seq<W.Event>) returns (k: nat)
    requires W.Run(ws, xs) && i < j < |ws| && xs[i] == W.Crash && ws[j].pc.Serving?
    requires forall m :: i < m < j ==> ws[m].pc.Recovering()
    requires Carried(g, states, groups) && ws[i].hist == Concat(groups) + rest
    requires forall e :: e in rest ==> Open(ws[i], e.op)
    requires g.logstart == ws[i].start && W.SameHome(g.logstart, ws[i].base, DiskOf(g, states[0]))
    ensures k <= |groups| && ws[j].hist == Concat(groups[..k]) && Good(g, states[k])
    ensures |ws[j].bio.disk| == |states[k].blocks|
    ensures forall f :: f in states[k].table ==> BlockOf(g.inodestart, f) < |ws[j].bio.disk|
    ensures
      var t := Mounted(g, ws[j].bio.disk, states[k].table.Keys);
      Own(g.c, t) && ZeroTail(g.c, t) && t.inodes == states[k].table && SameBytes(g.c, Live(states[k]), t)
  {
    CrashSafety.CrashThenRecover(ws, xs, i, j);
    k := CommittedGroups(ws, xs, i, groups, rest);
    CarriedTo(g, ws[i].base, states, groups, k);
    HomeAbove(g, ws[j].bio.disk, W.Replay(ws[i].base, Concat(groups[..k])), DiskOf(g, states[k]));
    MountsGood(g, states[k], ws[j].bio.disk);
  }

  /** Operation `id` has begun and not ended. */
  ghost predicate Open(w: W.World, id: nat) { exists k :: 0 <= k < |w.ops| && w.ops[k].id == id }

  lemma CommittedGroups(ws: seq<W.World>, xs: seq<W.Step>, i: nat, groups: seq<seq<W.Event>>, rest: seq<W.Event>)
      returns (k: nat)
    requires W.Run(ws, xs) && i < |ws| && ws[i].hist == Concat(groups) + rest
    requires forall e :: e in rest ==> Open(ws[i], e.op)
    requires forall k: nat :: k < |groups| ==> OneOp(groups, k)
    ensures ws[i].durable <= |ws[i].hist|
    ensures k <= |groups| && ws[i].hist[..ws[i].durable] == Concat(groups[..k])
  {
    W.RunInv(ws, xs, i);
    var w, h := ws[i], Concat(groups);
    assert |h| < |w.hist| ==> w.hist[|h|] in rest;
    OpenUncommitted(w, |h|);
    assert forall a :: 0 <= a < |h| ==> w.hist[a] == h[a];
    k := CutBetween(groups, w.durable);
    assert w.hist[..w.durable] == h[..w.durable];
  }

  /** The writes of an operation that has not ended are not committed. */
  lemma OpenUncommitted(w: W.World, n: nat)
    requires W.Inv(w) && n <= |w.hist| && (n < |w.hist| ==> Open(w, w.hist[n].op))
    ensures w.durable <= n
  {
  }

  lemma HomeAbove(g: Geom, x: seq<Sector>, y: seq<Sector>, z: seq<Sector>)
    requires GeomOk(g) && W.SameHome(g.logstart, x, y) && W.SameHome(g.logstart, y, z)
    ensures |x| == |z| && forall b: nat :: g.inodestart <= b < |x| ==> x[b] == z[b]
  {
    forall b: nat | g.inodestart <= b < |x| ensures x[b] == z[b] {
      assert W.Home(g.logstart, |x|, b);
    }
  }

  // ---- The operations keep the table good, and log what they change ----

  /** Only blocks of `l` changed. */
  ghost predicate ChangedIn(a: seq<Sector>, b: seq<Sector>, l: set<nat>) {
    |a| == |b| &&
    var all := forall i: nat :: i < |a| && b[i] != a[i] ==> i in l;
    all
  }

  ghost predicate PastLog(g: Geom, l: set<nat>, size: nat) {
    var past := forall b :: b in l ==> g.inodestart <= b < size;
    past
  }

  /** From `s` to `s'` the disk changed in blocks of `l` only, which lie past the log. */
  ghost predicate Logs(g: Geom, s: Snap, s': Snap, l: set<nat>)
    requires AllFit(States(s)) && AllFit(States(s'))
  {
    PastLog(g, l, |s.blocks|) && ChangedIn(DiskOf(g, s), DiskOf(g, s'), l)
  }

  /** A table entry that stayed while the file's bytes stayed still shows them. */
  lemma StaysShown(c: Ctx, t: Tree, t': Tree, table: map<nat, Inode>, table': map<nat, Inode>, f: nat)
    requires Behind(table, t.inodes) && Behind(table', t'.inodes) && f in table && f in table' && table'[f] == table[f]
    requires forall k: nat :: ByteAt(c, t, f, k) == ByteAt(c, Tree(t.blocks, table), f, k)
    requires forall k: nat :: ByteAt(c, t', f, k) == ByteAt(c, t, f, k)
    ensures forall k: nat :: ByteAt(c, t', f, k) == ByteAt(c, Tree(t'.blocks, table'), f, k)
  {
    forall k: nat ensures ByteAt(c, t', f, k) == ByteAt(c, Tree(t'.blocks, table'), f, k) {
      assert ByteAt(c, t', f, k) == ByteAt(c, t, f, k) == ByteAt(c, Tree(t.blocks, table), f, k);
      if k / 512 < MAXFILE {
        TopSlot(c, t'.blocks, t'.inodes, table', f, Slot(k / 512));
        TopSlot(c, t.blocks, t.inodes, table, f, Slot(k / 512));
      }
    }
  }

  /** The slot of the inode that `p` hangs on. */
  function Top(p: Pos): (k: nat) {
    match p
    case Direct(i) => i
    case Ind => 12
    case IndLeaf(_) => 12
    case _ => 13
  }

  /** A slot is reached through the table, or hangs on an address the table does not have. */
  lemma TopSlot(c: Ctx, blocks: seq<Sector>, inodes: map<nat, Inode>, table: map<nat, Inode>, f: nat, p: Pos)
    requires Behind(table, inodes) && f in table && p.Valid()
    ensures
      var a := At(c, Tree(blocks, table), f, p);
      if table[f].addrs[Top(p)] == 0 then a == 0 else a == At(c, Tree(blocks, inodes), f, p)
  {
  }

  /** An operation on file `f`: other inodes and their bytes stay; the table gets the inode, or the
      inode has at most gained blocks that hold no byte. */
  ghost predicate Operated(c: Ctx, s: Snap, s': Snap, f: nat, wrote: bool, m: Meta) {
    && f in s.inodes && OthersSame(Live(s), Live(s'), f)
    && (var bytes := forall h: nat, k: nat {:trigger ByteAt(c, Live(s'), h, k)} ::
          h != f || !wrote ==> ByteAt(c, Live(s'), h, k) == ByteAt(c, Live(s), h, k);
        bytes)
    && s'.table == (if wrote then s.table[f := s'.inodes[f]] else s.table)
    && s'.metas == (if wrote then s.metas[f := m] else s.metas)
    && (!wrote ==> KeepsFilled(c, Live(s), Live(s'), f) && s'.inodes[f].size == s.inodes[f].size)
  }

  lemma BehindAfter(c: Ctx, s: Snap, s': Snap, f: nat, wrote: bool, m: Meta)
    requires Own(c, Live(s)) && Own(c, Live(s')) && Behind(s.table, s.inodes) && Operated(c, s, s', f, wrote, m)
    ensures Behind(s'.table, s'.inodes)
  {
    if !wrote {
      var a, b, d := s.table[f].addrs, s.inodes[f].addrs, s'.inodes[f].addrs;
      forall i: nat | i < 14 ensures a[i] == 0 || a[i] == d[i] {
        var p := if i < 12 then Direct(i) else if i == 12 then Ind else Root;
        assert At(c, Live(s), f, p) == b[i] && At(c, Live(s'), f, p) == d[i];
      }
    }
  }

  lemma ShownAfter(c: Ctx, s: Snap, s': Snap, f: nat, wrote: bool, m: Meta)
    requires Operated(c, s, s', f, wrote, m) && Behind(s.table, s.inodes) && Behind(s'.table, s'.inodes)
    requires SameBytes(c, Live(s), Tree(s.blocks, s.table))
    ensures SameBytes(c, Live(s'), Tree(s'.blocks, s'.table))
  {
    var t, t', u := Live(s), Live(s'), Tree(s'.blocks, s'.table);
    forall h: nat, k: nat ensures ByteAt(c, u, h, k) == ByteAt(c, t', h, k) {
      if h in s'.table && (h != f || !wrote) {
        forall k: nat ensures ByteAt(c, t, h, k) == ByteAt(c, Tree(s.blocks, s.table), h, k) {
          assert ByteAt(c, Tree(s.blocks, s.table), h, k) == ByteAt(c, t, h, k);
        }
        StaysShown(c, t, t', s.table, s'.table, h);
      }
    }
  }

  lemma FitAfter(g: Geom, s: Snap, s': Snap, f: nat, wrote: bool, m: Meta)
    requires GeomOk(g) && Own(g.c, Live(s')) && Operated(g.c, s, s', f, wrote, m) && AllFit(States(s)) && m.Fits()
    requires s.metas.Keys == s.table.Keys == s.inodes.Keys && s'.inodes[f].size < U32
    ensures s'.metas.Keys == s'.table.Keys && AllFit(States(s'))
    ensures States(s') == if wrote then States(s)[f := State(m, s'.inodes[f])] else States(s)
    ensures wrote ==> State(m, s'.inodes[f]).Fits()
  {
    if wrote {
      forall i: nat | i < 14 ensures s'.inodes[f].addrs[i] < U32 {
        var p := if i < 12 then Direct(i) else if i == 12 then Ind else Root;
        assert At(g.c, Live(s'), f, p) == s'.inodes[f].addrs[i];
      }
      assert States(s') == States(s)[f := State(m, s'.inodes[f])];
    }
  }

  /** Every operation leaves a good state. */
  lemma GoodAfter(g: Geom, s: Snap, s': Snap, f: nat, wrote: bool, m: Meta)
    requires Good(g, s) && Own(g.c, Live(s')) && ZeroTail(g.c, Live(s')) && Operated(g.c, s, s', f, wrote, m)
    requires m.Fits() && s'.inodes[f].size < U32
    ensures Good(g, s')
  {
    BehindAfter(g.c, s, s', f, wrote, m);
    ShownAfter(g.c, s, s', f, wrote, m);
    FitAfter(g, s, s', f, wrote, m);
  }

  /** If every changed block was logged, and the inode block with the inode, the disk changed in logged
      blocks only. */
  lemma LogsAfter(g: Geom, s: Snap, s': Snap, f: nat, wrote: bool, m: Meta, l: set<nat>)
    requires Good(g, s) && Own(g.c, Live(s')) && Operated(g.c, s, s', f, wrote, m)
    requires m.Fits() && s'.inodes[f].size < U32
    requires ChangedIn(s.blocks, s'.blocks, l)
    requires PastLog(g, l, |s.blocks|) && (wrote ==> BlockOf(g.inodestart, f) in l)
    ensures AllFit(States(s')) && Logs(g, s, s', l)
  {
    FitAfter(g, s, s', f, wrote, m);
    var start, end := g.inodestart, g.c.geo.bmapstart;
    forall b: nat | b < |s.blocks| && b !in l ensures DiskOf(g, s')[b] == DiskOf(g, s)[b] {
      assert s'.blocks[b] == s.blocks[b];
      if wrote {
        ImageEdit(start, end, s'.blocks, States(s), f, State(m, s'.inodes[f]), b);
      }
    }
  }

  // ---- Any sequence of file operations ----

  datatype Command = Write(f: nat, src: seq<Byte>, off: nat) | Truncate(f: nat, size: nat)

  /** Callers cap the size. */
  predicate InBounds(cmd: Command) { cmd.Truncate? ==> cmd.size <= 512 * MAXFILE }

  /** Callers write in chunks. */
  predicate Chunk(cmd: Command) { cmd.Write? ==> |cmd.src| <= 1536 }

  ghost function Taken(fs: FileSystem, metas: map<nat, Meta>): (s: Snap)
    reads fs
  {
    Snap(fs.blocks, fs.inodes, fs.table, metas)
  }

  lemma WriteRange(g: Geom, t: Tree, f: nat, off: nat, len: nat, l: set<nat>)
    requires GeomOk(g) && Own(g.c, t) && BlockOf(g.inodestart, f) < g.c.geo.bmapstart
    requires l <= WriteSet(g.c, t, f, off, len, g.inodestart)
    ensures PastLog(g, l, g.c.geo.size)
  {
    assert f / IPB == f / 4;
  }

  lemma TruncRange(g: Geom, t: Tree, f: nat, size: nat, l: set<nat>)
    requires GeomOk(g) && Own(g.c, t) && BlockOf(g.inodestart, f) < g.c.geo.bmapstart && size <= 512 * MAXFILE
    requires l <= TruncSet(g.c, t, f, size, g.inodestart)
    ensures PastLog(g, l, g.c.geo.size)
  {
    assert f / IPB == f / 4;
  }

  lemma WriteCount(g: Geom, t: Tree, f: nat, off: nat, len: nat, l: set<nat>)
    requires l <= WriteSet(g.c, t, f, off, len, g.inodestart)
    ensures g.c.geo.size < 4096 && len <= 1536 ==> |l| <= 9
  {
    if g.c.geo.size < 4096 && len <= 1536 {
      WriteFitsBudget(g.c, t, f, off, len, g.inodestart);
      SubsetSize(l, WriteSet(g.c, t, f, off, len, g.inodestart));
    }
  }

  lemma TruncCount(g: Geom, t: Tree, f: nat, size: nat, l: set<nat>)
    requires size <= 512 * MAXFILE && l <= TruncSet(g.c, t, f, size, g.inodestart)
    ensures g.c.geo.size < 4096 ==> |l| <= 5
  {
    if g.c.geo.size < 4096 {
      TruncFitsBudget(g.c, t, f, size, g.inodestart);
      SubsetSize(l, TruncSet(g.c, t, f, size, g.inodestart));
    }
  }

  /** The effect of an operation on the files; `n` is what a write returned. */
  ghost predicate Effect(c: Ctx, t: Tree, t': Tree, cmd: Command, n: nat) {
    && OthersSame(t, t', cmd.f) && cmd.f in t.inodes
    && (forall h :: h in t.inodes && h != cmd.f ==> Content(c, t', h) == Content(c, t, h))
    && match cmd
       case Write(f, src, off) =>
         n <= |src| && Content(c, t', f) == if n > 0 then Pwrite(Content(c, t, f), off, src[..n]) else Content(c, t, f)
       case Truncate(f, size) => Content(c, t', f) == Resize(Content(c, t, f), size)
  }

  lemma GoodMeans(g: Geom, s: Snap, f: nat)
    requires Good(g, s) && f in s.inodes
    ensures Own(g.c, Live(s)) && ZeroTail(g.c, Live(s)) && s.inodes[f].size < U32
    ensures BlockOf(g.inodestart, f) < g.c.geo.bmapstart
  {
    assert States(s)[f].Fits();
  }

  lemma WriteOperates(c: Ctx, s: Snap, s': Snap, f: nat, off: nat, src: seq<Byte>, n: nat, m: Meta)
    requires f in s.inodes && n <= |src| && OthersSame(Live(s), Live(s'), f)
    requires KeepsFilled(c, Live(s), Live(s'), f) && Overlaid(c, Live(s), Live(s'), f, off, src[..n])
    requires n == 0 ==> s'.inodes[f].size == s.inodes[f].size
    requires s'.table == if n > 0 then s.table[f := s'.inodes[f]] else s.table
    requires s'.metas == if n > 0 then s.metas[f := m] else s.metas
    ensures Operated(c, s, s', f, n > 0, m)
  {
  }

  lemma TruncateOperates(c: Ctx, s: Snap, s': Snap, f: nat, size: nat, m: Meta)
    requires f in s.inodes && OthersSame(Live(s), Live(s'), f) && CutAt(c, Live(s), Live(s'), f, size)
    requires s'.table == s.table[f := s'.inodes[f]] && s'.metas == s.metas[f := m]
    ensures Operated(c, s, s', f, true, m)
  {
  }

  lemma Settled(g: Geom, s: Snap, s': Snap, f: nat, wrote: bool, m: Meta, l: set<nat>)
    requires Good(g, s) && Own(g.c, Live(s')) && ZeroTail(g.c, Live(s')) && Operated(g.c, s, s', f, wrote, m)
    requires m.Fits() && s'.inodes[f].size < U32 && ChangedIn(s.blocks, s'.blocks, l)
    requires PastLog(g, l, |s.blocks|) && (wrote ==> BlockOf(g.inodestart, f) in l)
    ensures Good(g, s') && Logs(g, s, s', l)
  {
    GoodAfter(g, s, s', f, wrote, m);
    LogsAfter(g, s, s', f, wrote, m, l);
  }

  /** One operation between `begin_op` and `end_op`: at most a chunk of bytes written. */
  method DoWrite(fs: FileSystem, g: Geom, f: nat, src: seq<Byte>, off: nat, ghost m: Meta, ghost metas: map<nat, Meta>)
      returns (n: nat, ghost metas': map<nat, Meta>)
    requires fs.c == g.c && fs.inodestart == g.inodestart && Good(g, Taken(fs, metas)) && f in fs.inodes && m.Fits()
    modifies fs
    ensures Good(g, Taken(fs, metas')) && Logs(g, old(Taken(fs, metas)), Taken(fs, metas'), fs.logged)
    ensures g.c.geo.size < 4096 && |src| <= 1536 ==> |fs.logged| <= 9
    ensures Effect(g.c, old(fs.T()), fs.T(), Write(f, src, off), n)
  {
    ghost var s := Taken(fs, metas);
    GoodMeans(g, s, f);
    fs.Begin();
    n := fs.Writei(f, src, off);
    metas' := if n > 0 then metas[f := m] else metas;
    ghost var s' := Taken(fs, metas');
    assert ChangedIn(s.blocks, s'.blocks, fs.logged) && f / IPB == f / 4;
    WriteOperates(g.c, s, s', f, off, src, n, m);
    WriteRange(g, Live(s'), f, off, |src|, fs.logged);
    Settled(g, s, s', f, n > 0, m, fs.logged);
    WriteCount(g, Live(s'), f, off, |src|, fs.logged);
  }

  /** Shrink or extend a file. */
  method DoTruncate(fs: FileSystem, g: Geom, f: nat, size: nat, ghost m: Meta, ghost metas: map<nat, Meta>)
      returns (ghost metas': map<nat, Meta>)
    requires fs.c == g.c && fs.inodestart == g.inodestart && Good(g, Taken(fs, metas)) && f in fs.inodes && m.Fits()
    requires size <= 512 * MAXFILE
    modifies fs
    ensures Good(g, Taken(fs, metas')) && Logs(g, old(Taken(fs, metas)), Taken(fs, metas'), fs.logged)
    ensures g.c.geo.size < 4096 ==> |fs.logged| <= 5
    ensures Effect(g.c, old(fs.T()), fs.T(), Truncate(f, size), 0)
  {
    ghost var s := Taken(fs, metas);
    GoodMeans(g, s, f);
    fs.Begin();
    fs.ItruncTo(f, size);
    metas' := metas[f := m];
    ghost var s' := Taken(fs, metas');
    assert ChangedIn(s.blocks, s'.blocks, fs.logged) && f / IPB == f / 4;
    TruncateOperates(g.c, s, s', f, size, m);
    TruncRange(g, Live(s), f, size, fs.logged);
    Settled(g, s, s', f, true, m, fs.logged);
    TruncCount(g, Live(s), f, size, fs.logged);
  }

  /** `Good`, kept closed. */
  ghost predicate Ready(g: Geom, s: Snap) {
    var all := forall z {:trigger Look(z)} :: Look(z) ==> Good(g, s);
    all
  }

  lemma ReadyMeans(g: Geom, s: Snap)
    ensures Ready(g, s) <==> Good(g, s)
  {
    assert Look(0);
  }

  /** The command took the files from `s` to `s'` and logged the blocks `l`, no more than an operation may. */
  ghost predicate Stepped(g: Geom, s: Snap, s': Snap, l: set<nat>, cmd: Command, n: nat) {
    var all := forall z {:trigger Look(z)} :: Look(z) ==>
      && Good(g, s) && Good(g, s') && Logs(g, s, s', l) && Effect(g.c, Live(s), Live(s'), cmd, n)
      && (g.c.geo.size < 4096 && Chunk(cmd) ==> |l| < MAXOPBLOCKS);
    all
  }

  lemma SteppedMeans(g: Geom, s: Snap, s': Snap, l: set<nat>, cmd: Command, n: nat)
    requires Stepped(g, s, s', l, cmd, n)
    ensures Good(g, s) && Good(g, s') && Logs(g, s, s', l) && Effect(g.c, Live(s), Live(s'), cmd, n)
    ensures g.c.geo.size < 4096 && Chunk(cmd) ==> |l| < MAXOPBLOCKS
  {
    assert Look(0);
  }

  ghost predicate Steps(g: Geom, states: seq<Snap>, logs: seq<set<nat>>, cmds: seq<Command>, ns: seq<nat>) {
    && |states| == |logs| + 1 && |cmds| == |ns| == |logs| && Ready(g, states[0]) &&
    var all := forall k: nat {:trigger logs[k]} :: k < |logs| ==>
      Stepped(g, states[k], states[k + 1], logs[k], cmds[k], ns[k]);
    all
  }

  lemma {:induction false} StepsMore(g: Geom, states: seq<Snap>, logs: seq<set<nat>>, cmds: seq<Command>, ns: seq<nat>,
                  s: Snap, l: set<nat>, cmd: Command, n: nat)
    requires Steps(g, states, logs, cmds, ns) && Stepped(g, states[|logs|], s, l, cmd, n)
    ensures Steps(g, states + [s], logs + [l], cmds + [cmd], ns + [n])
  {
    forall k: nat | k < |logs| + 1
      ensures Stepped(g, (states + [s])[k], (states + [s])[k + 1], (logs + [l])[k], (cmds + [cmd])[k], (ns + [n])[k])
    {
      if k < |logs| {
        assert logs[k] == (logs + [l])[k];
      }
    }
  }

  method DoCommand(fs: FileSystem, g: Geom, cmd: Command, ghost m: Meta, ghost metas: map<nat, Meta>)
      returns (n: nat, ghost metas': map<nat, Meta>)
    requires fs.c == g.c && fs.inodestart == g.inodestart && Ready(g, Taken(fs, metas))
    requires InBounds(cmd) && cmd.f in fs.inodes && m.Fits()
    modifies fs
    ensures Stepped(g, old(Taken(fs, metas)), Taken(fs, metas'), fs.logged, cmd, n) && Ready(g, Taken(fs, metas'))
    ensures fs.inodes.Keys == old(fs.inodes.Keys)
  {
    n := 0;
    ReadyMeans(g, Taken(fs, metas));
    match cmd
    case Write(f, src, off) =>
      n, metas' := DoWrite(fs, g, f, src, off, m, metas);
    case Truncate(f, size) =>
      metas' := DoTruncate(fs, g, f, size, m, metas);
  }

  /** Any commands, one after the other: every one has its effect on the files and leaves a good state. */
  method Perform(fs: FileSystem, g: Geom, cmds: seq<Command>, ghost ms: seq<Meta>, ghost metas: map<nat, Meta>)
      returns (ns: seq<nat>, ghost states: seq<Snap>, ghost logs: seq<set<nat>>)
    requires fs.c == g.c && fs.inodestart == g.inodestart && Good(g, Taken(fs, metas)) && |ms| == |cmds|
    requires forall k :: 0 <= k < |cmds| ==> InBounds(cmds[k]) && cmds[k].f in fs.inodes && ms[k].Fits()
    modifies fs
    ensures Steps(g, states, logs, cmds, ns)
    ensures states[0] == old(Taken(fs, metas)) && Live(states[|cmds|]) == fs.T()
  {
    ghost var now := metas;
    ns, states, logs := [], [Taken(fs, metas)], [];
    ReadyMeans(g, states[0]);
    for i := 0 to |cmds|
      invariant Steps(g, states, logs, cmds[..i], ns) && fs.inodes.Keys == old(fs.inodes.Keys)
      invariant states[0] == old(Taken(fs, metas)) && states[i] == Taken(fs, now) && Ready(g, Taken(fs, now))
    {
      var n;
      n, now := DoCommand(fs, g, cmds[i], ms[i], now);
      StepsMore(g, states, logs, cmds[..i], ns, Taken(fs, now), fs.logged, cmds[i], n);
      assert cmds[..i + 1] == cmds[..i] + [cmds[i]];
      ns, states, logs := ns + [n], states + [Taken(fs, now)], logs + [fs.logged];
    }
    assert cmds[..|cmds|] == cmds;
  }

  // ---- From logged blocks to writes ----

  /** One write of each block of `l`, with what the block holds at the end. */
  lemma {:induction false} EventsFor(op: nat, l: set<nat>, x: seq<Sector>, y: seq<Sector>) returns (h: seq<W.Event>)
    requires ChangedIn(x, y, l) && forall b :: b in l ==> b < |y|
    ensures |h| == |l| && forall e :: e in h ==> e.op == op && e.block in l
    ensures W.Replay(x, h) == y
    decreases l
  {
    if l == {} {
      h := [];
      assert x == y;
    } else {
      var b :| b in l;
      var h' := EventsFor(op, l - {b}, x, y[b := x[b]]);
      W.ReplaySnoc(x, h', W.Event(op, b, y[b]));
      h := h' + [W.Event(op, b, y[b])];
      assert y[b := x[b]][b := y[b]] == y;
    }
  }

  /** The writes of group `k` are of operation `k`, one for each logged block. */
  ghost predicate Grouped(groups: seq<seq<W.Event>>, logs: seq<set<nat>>) {
    && |groups| == |logs| &&
    var all := forall k: nat :: k < |groups| ==> |groups[k]| == |logs[k]| && OpIs(groups[k], k, logs[k]);
    all
  }

  predicate OpIs(h: seq<W.Event>, op: nat, l: set<nat>) { forall e :: e in h ==> e.op == op && e.block in l }

  /** What was performed is carried by writes in the log: the theorem above speaks of every such sequence. */
  lemma {:induction false} GroupsFor(g: Geom, states: seq<Snap>, logs: seq<set<nat>>, cmds: seq<Command>, ns: seq<nat>)
      returns (groups: seq<seq<W.Event>>)
    requires Steps(g, states, logs, cmds, ns)
    ensures Carried(g, states, groups) && Grouped(groups, logs)
  {
    if logs == [] {
      groups := [];
      ReadyMeans(g, states[0]);
    } else {
      var n := |logs| - 1;
      StepsBefore(g, states, logs, cmds, ns);
      var before := GroupsFor(g, states[..n + 1], logs[..n], cmds[..n], ns[..n]);
      var h := GroupFor(g, states, logs[n], cmds[n], ns[n], before);
      groups := before + [h];
      GroupedMore(before, logs[..n], h, logs[n]);
      assert logs[..n] + [logs[n]] == logs;
    }
  }

  lemma {:induction false} StepsBefore(g: Geom, states: seq<Snap>, logs: seq<set<nat>>, cmds: seq<Command>,
                                       ns: seq<nat>)
    requires Steps(g, states, logs, cmds, ns) && logs != []
    ensures var n := |logs| - 1; Steps(g, states[..n + 1], logs[..n], cmds[..n], ns[..n])
    ensures var n := |logs| - 1; Stepped(g, states[n], states[n + 1], logs[n], cmds[n], ns[n])
  {
    var n := |logs| - 1;
    var states', logs', cmds', ns' := states[..n + 1], logs[..n], cmds[..n], ns[..n];
    forall k: nat | k < n ensures Stepped(g, states'[k], states'[k + 1], logs'[k], cmds'[k], ns'[k]) {
      assert logs'[k] == logs[k];
    }
  }

  lemma {:induction false} GroupedMore(groups: seq<seq<W.Event>>, logs: seq<set<nat>>, h: seq<W.Event>, l: set<nat>)
    requires Grouped(groups, logs) && |h| == |l| && OpIs(h, |groups|, l)
    ensures Grouped(groups + [h], logs + [l])
  {
  }

  lemma {:induction false} GroupFor(g: Geom, states: seq<Snap>, l: set<nat>, cmd: Command, n: nat,
                                    groups: seq<seq<W.Event>>)
      returns (h: seq<W.Event>)
    requires |states| == |groups| + 2 && Carried(g, states[..|groups| + 1], groups)
    requires Stepped(g, states[|groups|], states[|groups| + 1], l, cmd, n)
    ensures Carried(g, states, groups + [h]) && |h| == |l| && OpIs(h, |groups|, l)
  {
    var s, s' := states[|groups|], states[|groups| + 1];
    SteppedMeans(g, s, s', l, cmd, n);
    h := EventsFor(|groups|, l, DiskOf(g, s), DiskOf(g, s'));
    CarriedMore(g, states, groups, h);
  }

  lemma {:induction false} CarriedMore(g: Geom, states: seq<Snap>, groups: seq<seq<W.Event>>, h: seq<W.Event>)
    requires |states| == |groups| + 2 && Carried(g, states[..|groups| + 1], groups)
    requires Good(g, states[|groups|]) && Good(g, states[|groups| + 1])
    requires forall a, b :: 0 <= a < |h| && 0 <= b < |h| ==> h[a].op == h[b].op
    requires W.Replay(DiskOf(g, states[|groups|]), h) == DiskOf(g, states[|groups| + 1])
    ensures Carried(g, states, groups + [h])
  {
    var all, before := groups + [h], states[..|groups| + 1];
    forall k: nat | k < |all| ensures Carries(g, states, all, k) {
      if k < |groups| {
        assert all[k] == groups[k];
        assert Carries(g, before, groups, k);
        assert before[k] == states[k] && before[k + 1] == states[k + 1];
      }
    }
  }
}
