/** The inode table in its blocks: 128-byte records, four to a block. */
module InodeTable {
  import opened Layout
  import opened FileTree

  /** The fields of an inode besides its size and block numbers. */
  datatype Meta = Meta(
    typ: nat, major: nat, minor: nat, nlink: nat, mode: nat, uid: nat, gid: nat, atime: nat, mtime: nat, ctime: nat)
  {
    predicate Fits() {
      && typ < 0x1_0000 && major < 0x1_0000 && minor < 0x1_0000 && nlink < 0x1_0000
      && mode < 0x1_0000 && uid < 0x1_0000 && gid < 0x1_0000
      && atime < U32 && mtime < U32 && ctime < U32
    }
  }

  datatype State = State(meta: Meta, inode: Inode) {
    predicate Fits() {
      && meta.Fits() && inode.size < U32 && |inode.addrs| == 14
      && forall i :: 0 <= i < 14 ==> inode.addrs[i] < U32
    }
  }

  // ---- One record ----

  /** A record as 32 little-endian words: four pairs of 16-bit fields, size, times, addresses, padding. */
  function Words(s: State): (w: seq<nat>)
    requires s.Fits()
    ensures |w| == 32 && forall i :: 0 <= i < 32 ==> w[i] < U32
  {
    var m := s.meta;
    [m.typ + 0x1_0000 * m.major, m.minor + 0x1_0000 * m.nlink, m.mode + 0x1_0000 * m.uid, m.gid,
     s.inode.size, m.atime, m.mtime, m.ctime] + s.inode.addrs + [0, 0, 0, 0, 0, 0, 0, 0, 0, 0]
  }

  function FromWords(w: seq<nat>): (s: State)
    requires |w| == 32
  {
    State(Meta(w[0] % 0x1_0000, w[0] / 0x1_0000, w[1] % 0x1_0000, w[1] / 0x1_0000, w[2] % 0x1_0000, w[2] / 0x1_0000,
               w[3] % 0x1_0000, w[5], w[6], w[7]),
          Inode(w[4], w[8..22]))
  }

  lemma WordsRoundTrip(s: State)
    requires s.Fits()
    ensures FromWords(Words(s)) == s
  {
    var w := Words(s);
    assert w[8..22] == s.inode.addrs;
  }

  function Le(w: seq<nat>): (b: seq<Byte>)
    requires forall i :: 0 <= i < |w| ==> w[i] < U32
    ensures |b| == 4 * |w|
  {
    if w == [] then [] else Le(w[..|w| - 1]) + ToLe32(w[|w| - 1])
  }

  lemma {:induction false} LeAt(w: seq<nat>, i: nat)
    requires (forall j :: 0 <= j < |w| ==> w[j] < U32) && i < |w|
    ensures Le(w)[4 * i..4 * i + 4] == ToLe32(w[i])
  {
    if i < |w| - 1 {
      LeAt(w[..|w| - 1], i);
      assert Le(w)[4 * i..4 * i + 4] == Le(w[..|w| - 1])[4 * i..4 * i + 4];
    }
  }

  /** The words of record `k` of an inode block. */
  function Record(b: Block, k: nat): (w: seq<nat>)
    requires k < 4
    ensures |w| == 32
  {
    seq<nat>(32, i requires 0 <= i < 32 => Word(b, 32 * k + i))
  }

  /** `load_from_disk`: the record at slot `k` of an inode block. */
  function Load(b: Block, k: nat): (s: State)
    requires k < 4
  {
    FromWords(Record(b, k))
  }

  /** `iupdate`: that record overwritten, the rest of the block as it was. */
  function Save(b: Block, k: nat, s: State): (r: Block)
    requires k < 4 && s.Fits()
    ensures forall j :: 0 <= j < 512 && !(128 * k <= j < 128 * k + 128) ==> r[j] == b[j]
  {
    b[..128 * k] + Le(Words(s)) + b[128 * k + 128..]
  }

  /** What is saved is loaded, and the other three inodes of the block stay as they are. */
  lemma LoadOfSave(b: Block, k: nat, s: State, j: nat)
    requires k < 4 && j < 4 && s.Fits()
    ensures Load(Save(b, k, s), j) == if j == k then s else Load(b, j)
  {
    if j == k {
      RecordSaved(b, k, s);
      WordsRoundTrip(s);
    } else {
      RecordKept(b, k, s, j);
    }
  }

  lemma RecordSaved(b: Block, k: nat, s: State)
    requires k < 4 && s.Fits()
    ensures Record(Save(b, k, s), k) == Words(s)
  {
    var r, w := Save(b, k, s), Words(s);
    forall i: nat | i < 32 ensures Record(r, k)[i] == w[i] {
      LeAt(w, i);
      var at := 128 * k + 4 * i;
      assert r[at..at + 4] == Le(w)[4 * i..4 * i + 4];
      Le32RoundTrip(w[i]);
      assert Record(r, k)[i] == Word(r, 32 * k + i) && 4 * (32 * k + i) == at;
    }
  }

  lemma RecordKept(b: Block, k: nat, s: State, j: nat)
    requires k < 4 && j < 4 && j != k && s.Fits()
    ensures Record(Save(b, k, s), j) == Record(b, j)
  {
    var r := Save(b, k, s);
    forall i: nat | i < 32 ensures Record(r, j)[i] == Record(b, j)[i] {
      var at := 128 * j + 4 * i;
      assert forall x :: at <= x < at + 4 ==> r[x] == b[x];
      assert r[at..at + 4] == b[at..at + 4];
      assert Record(r, j)[i] == Word(r, 32 * j + i) && Record(b, j)[i] == Word(b, 32 * j + i) && 4 * (32 * j + i) == at;
    }
  }

  // ---- The table ----

  ghost predicate AllFit(table: map<nat, State>) { forall f :: f in table ==> table[f].Fits() }

  /** Inode block `x`, whose first inode is `base`, with the inodes of `table` among its first `n` saved. */
  ghost function SaveAll(x: Sector, base: nat, table: map<nat, State>, n: nat): (r: Sector)
    requires n <= 4 && AllFit(table)
  {
    if n == 0 then x
    else
      var y := SaveAll(x, base, table, n - 1);
      if base + n - 1 in table then Sector(Save(y.bytes, n - 1, table[base + n - 1])) else y
  }

  lemma {:induction false} LoadOfAll(x: Sector, base: nat, table: map<nat, State>, n: nat, k: nat)
    requires n <= 4 && k < 4 && AllFit(table)
    ensures Load(SaveAll(x, base, table, n).bytes, k) ==
            if k < n && base + k in table then table[base + k] else Load(x.bytes, k)
  {
    if n > 0 {
      LoadOfAll(x, base, table, n - 1, k);
      if base + n - 1 in table {
        LoadOfSave(SaveAll(x, base, table, n - 1).bytes, n - 1, table[base + n - 1], k);
      }
    }
  }

  lemma {:induction false} AllSame(x: Sector, base: nat, table: map<nat, State>, table': map<nat, State>, n: nat)
    requires n <= 4 && AllFit(table) && AllFit(table')
    requires forall f: nat :: base <= f < base + n ==> SameAt(table, table', f)
    ensures SaveAll(x, base, table, n) == SaveAll(x, base, table', n)
  {
    if n > 0 {
      AllSame(x, base, table, table', n - 1);
      assert SameAt(table, table', base + n - 1);
    }
  }

  predicate SameAt(table: map<nat, State>, table': map<nat, State>, f: nat) {
    (f in table <==> f in table') && (f in table ==> table[f] == table'[f])
  }

  /** The disk with the table written into the inode blocks, which lie from `start` up to `end`. */
  ghost function Image(start: nat, end: nat, blocks: seq<Sector>, table: map<nat, State>): (d: seq<Sector>)
    requires AllFit(table)
    ensures |d| == |blocks|
  {
    seq(|blocks|, b requires 0 <= b < |blocks| =>
      if start <= b < end then SaveAll(blocks[b], 4 * (b - start), table, 4) else blocks[b])
  }

  /** Where inode `f` is. */
  function BlockOf(start: nat, f: nat): (b: nat) { start + f / 4 }

  function LoadAt(start: nat, disk: seq<Sector>, f: nat): (s: State)
    requires BlockOf(start, f) < |disk|
  {
    Load(disk[BlockOf(start, f)].bytes, f % 4)
  }

  /** A mounted disk has the inodes that were written. */
  lemma ImageLoads(start: nat, end: nat, blocks: seq<Sector>, table: map<nat, State>, f: nat)
    requires AllFit(table) && f in table && BlockOf(start, f) < end <= |blocks|
    ensures LoadAt(start, Image(start, end, blocks, table), f) == table[f]
  {
    var b := BlockOf(start, f);
    var base := 4 * (b - start);
    assert base + f % 4 == f;
    LoadOfAll(blocks[b], base, table, 4, f % 4);
  }

  /** Writing one inode changes the block it is in and no other. */
  lemma ImageEdit(start: nat, end: nat, blocks: seq<Sector>, table: map<nat, State>, f: nat, s: State, b: nat)
    requires AllFit(table) && s.Fits() && b < |blocks| && b != BlockOf(start, f)
    ensures Image(start, end, blocks, table[f := s])[b] == Image(start, end, blocks, table)[b]
  {
    if start <= b < end {
      var base, table' := 4 * (b - start), table[f := s];
      forall g: nat | base <= g < base + 4 ensures SameAt(table, table', g) {
        assert g / 4 == b - start;
      }
      AllSame(blocks[b], base, table, table', 4);
    }
  }

  lemma {:induction false} AllBytes(x: Sector, base: nat, table: map<nat, State>, n: nat, j: nat)
    requires n <= 4 && j < 512 && AllFit(table)
    ensures
      var k := j / 128;
      SaveAll(x, base, table, n).bytes[j] ==
        if k < n && base + k in table then Le(Words(table[base + k]))[j % 128] else x.bytes[j]
  {
    if n > 0 {
      AllBytes(x, base, table, n - 1, j);
    }
  }

  /** `iupdate` edits one record of the disk: it is the disk of the new table. */
  lemma ImageSave(start: nat, end: nat, blocks: seq<Sector>, table: map<nat, State>, f: nat, s: State)
    requires AllFit(table) && s.Fits() && BlockOf(start, f) < end <= |blocks|
    ensures
      var b, d := BlockOf(start, f), Image(start, end, blocks, table);
      Image(start, end, blocks, table[f := s]) == d[b := Sector(Save(d[b].bytes, f % 4, s))]
  {
    var b, d, table' := BlockOf(start, f), Image(start, end, blocks, table), table[f := s];
    var d' := Image(start, end, blocks, table');
    var x, base := blocks[b], 4 * (b - start);
    assert base + f % 4 == f;
    var y := Save(d[b].bytes, f % 4, s);
    forall j: nat | j < 512 ensures d'[b].bytes[j] == y[j] {
      AllBytes(x, base, table, 4, j);
      AllBytes(x, base, table', 4, j);
    }
    assert d'[b].bytes == y;
    forall e: nat | e < |blocks| && e != b ensures d'[e] == d[e] {
      ImageEdit(start, end, blocks, table, f, s, e);
    }
  }
}
