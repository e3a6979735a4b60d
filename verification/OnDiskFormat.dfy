/** Where every field lies on disk, in bytes: the log header, an inode, a directory entry, an index
    entry and a bitmap bit. Round trips do not say so; another reader of the disk needs it. */
module OnDiskFormat {
  import opened Layout
  import opened BlockFormat
  import LogHeader
  import FileTree
  import InodeTable
  import Directory

  /** Bytes as a number, the least significant first. */
  function Num(s: seq<Byte>): (n: nat) { if s == [] then 0 else (s[0] as int) + 256 * Num(s[1..]) }

  lemma NumTwo(s: seq<Byte>)
    requires |s| == 2
    ensures Num(s) == s[0] as int + 256 * (s[1] as int)
  {
    assert s[1..] == [s[1]] && Num([s[1]]) == s[1] as int;
  }

  lemma NumFour(s: seq<Byte>)
    requires |s| == 4
    ensures Num(s) == FromLe32(s)
  {
    NumTwo(s[2..]);
    assert s[1..][1..] == s[2..] && s[1..][0] == s[1];
    assert Num(s[1..]) == s[1] as int + 256 * Num(s[2..]);
  }

  lemma WordBytes(b: Block, k: nat)
    requires k < NINDIRECT
    ensures Num(b[4 * k..4 * k + 4]) == Word(b, k)
  {
    NumFour(b[4 * k..4 * k + 4]);
  }

  /** The header: the count in bytes 0 to 3, block number `k` in the four bytes from 4 + 4k on. */
  lemma HeaderBytes(lh: seq<nat>, k: nat)
    requires LogHeader.Fits(lh) && k < |lh|
    ensures Num(LogHeader.Encode(lh)[0..4]) == |lh| && Num(LogHeader.Encode(lh)[4 + 4 * k..8 + 4 * k]) == lh[k]
  {
    var b, c := LogHeader.Encode(lh), PutWord(ZeroBlock(), 0, |lh|);
    LogHeader.WordOfPutWords(c, 1, lh, 0);
    LogHeader.WordOfPutWords(c, 1, lh, 1 + k);
    WordOfPut(ZeroBlock(), 0, |lh|, 0);
    WordBytes(b, 0);
    WordBytes(b, 1 + k);
  }

  /** Reading any block as a header: as many numbers as the count says, at most 30. */
  lemma HeaderReads(b: Block, k: nat)
    ensures
      var lh, n := LogHeader.Decode(b), Num(b[0..4]);
      && |lh| == (if n <= 30 then n else 30)
      && (k < |lh| ==> lh[k] == Num(b[4 + 4 * k..8 + 4 * k]))
  {
    WordBytes(b, 0);
    if k < |LogHeader.Decode(b)| {
      WordBytes(b, 1 + k);
    }
  }

  /** An index block: entry `k` in the four bytes from 4k on. */
  lemma IndexBytes(x: Sector, k: nat, v: nat)
    requires k < NINDIRECT && v < U32
    ensures Num(BYTES.put(x, k, v).bytes[4 * k..4 * k + 4]) == v && BYTES.word(x, k) == Num(x.bytes[4 * k..4 * k + 4])
  {
    WordOfPut(x.bytes, k, v, k);
    WordBytes(BYTES.put(x, k, v).bytes, k);
    WordBytes(x.bytes, k);
  }

  /** A bitmap block: bit `k` is bit k mod 8, counted from the least significant, of byte k div 8. */
  lemma BitmapBits(x: Sector, k: nat)
    requires k < BPB
    ensures BYTES.bit(x, k) <==> x.bytes[k / 8] as int / Pow2(k % 8) % 2 == 1
  {
    BitWeight(x.bytes[k / 8], k % 8);
  }

  lemma {:induction false} BitWeight(y: nat, i: nat)
    ensures BitOf(y, i) <==> y / Pow2(i) % 2 == 1
    decreases i
  {
    if i > 0 {
      BitWeight(y / 2, i - 1);
      Halves(y, Pow2(i - 1));
    }
  }

  lemma Halves(y: nat, p: nat)
    requires p > 0
    ensures y / 2 / p == y / (2 * p)
  {
    var q := y / (2 * p);
    var r := y - 2 * p * q;
    assert 0 <= r < 2 * p;
    assert y == 2 * (p * q) + r;
    assert y / 2 == p * q + r / 2;
    assert 0 <= r / 2 < p;
    DivUnique(y / 2, p, q, r / 2);
  }

  lemma DivUnique(n: int, p: int, q: int, r: int)
    requires p > 0 && n == p * q + r && 0 <= r < p
    ensures n / p == q
  {
    var d := q - n / p;
    assert p * d == n % p - r;
    assert d >= 1 ==> p * d >= p;
    assert d <= -1 ==> p * d <= -p;
  }

  /** A directory entry: the inode number in bytes 0 and 1, the name in bytes 2 to 15. */
  lemma DirentBytes(e: Directory.Dirent)
    requires e.inum < 0x1_0000 && Directory.Field(e.name)
    ensures Num(Directory.EntryBytes(e)[0..2]) == e.inum && Directory.EntryBytes(e)[2..16] == e.name
  {
    NumTwo(Directory.EntryBytes(e)[0..2]);
  }

  /** What is stored of a name: its first 14 bytes, and zeros. */
  lemma NameBytes(name: Directory.Name, j: nat)
    requires j < 14
    ensures |Directory.Padded(name)| == 14 && Directory.Padded(name)[j] == if j < |name| then name[j] else 0
    ensures Directory.Cut(name) == if |name| <= 14 then name else name[..14]
  {
  }

  // ---- Inodes ----

  /** The two halves of a word. */
  lemma Halfwords(s: seq<Byte>, lo: nat, hi: nat)
    requires |s| == 4 && lo < 0x1_0000 && hi < 0x1_0000 && FromLe32(s) == lo + 0x1_0000 * hi
    ensures Num(s[0..2]) == lo && Num(s[2..4]) == hi
  {
    NumTwo(s[0..2]);
    NumTwo(s[2..4]);
  }

  /** Two fields of 16 bits in word `i` of record `k`. */
  lemma RecordHalves(b: Block, k: nat, s: InodeTable.State, i: nat, lo: nat, hi: nat)
    requires k < 4 && s.Fits() && i < 4 && lo < 0x1_0000 && hi < 0x1_0000
    requires InodeTable.Words(s)[i] == lo + 0x1_0000 * hi
    ensures
      var r, at := InodeTable.Save(b, k, s), 128 * k + 4 * i;
      Num(r[at..at + 2]) == lo && Num(r[at + 2..at + 4]) == hi
  {
    RecordWord(b, k, s, i);
    var r, at := InodeTable.Save(b, k, s), 128 * k + 4 * i;
    var w := r[at..at + 4];
    assert 4 * (32 * k + i) == at;
    Halfwords(w, lo, hi);
    assert w[0..2] == r[at..at + 2] && w[2..4] == r[at + 2..at + 4];
  }

  /** Word `i` of record `k` of an inode block. */
  lemma RecordWord(b: Block, k: nat, s: InodeTable.State, i: nat)
    requires k < 4 && s.Fits() && i < 32
    ensures Word(InodeTable.Save(b, k, s), 32 * k + i) == InodeTable.Words(s)[i]
  {
    InodeTable.RecordSaved(b, k, s);
    var r := InodeTable.Save(b, k, s);
    assert InodeTable.Record(r, k)[i] == Word(r, 32 * k + i);
  }

  /** The 16-bit fields of inode `k` of its block, two bytes each from byte 128k on: type, device
      numbers, links, mode, owner, group. */
  lemma InodeHalves(b: Block, k: nat, s: InodeTable.State)
    requires k < 4 && s.Fits()
    ensures
      var r, at, m := InodeTable.Save(b, k, s), 128 * k, s.meta;
      && Num(r[at..at + 2]) == m.typ && Num(r[at + 2..at + 4]) == m.major
      && Num(r[at + 4..at + 6]) == m.minor && Num(r[at + 6..at + 8]) == m.nlink
      && Num(r[at + 8..at + 10]) == m.mode && Num(r[at + 10..at + 12]) == m.uid
      && Num(r[at + 12..at + 14]) == m.gid
  {
    var m := s.meta;
    RecordHalves(b, k, s, 0, m.typ, m.major);
    RecordHalves(b, k, s, 1, m.minor, m.nlink);
    RecordHalves(b, k, s, 2, m.mode, m.uid);
    RecordHalves(b, k, s, 3, m.gid, 0);
  }

  /** Its 32-bit fields: the size from byte 16 on, the three times, and block number `i` from byte
      32 + 4i on. */
  lemma InodeWords(b: Block, k: nat, s: InodeTable.State, i: nat)
    requires k < 4 && s.Fits() && i < 14
    ensures
      var r, at := InodeTable.Save(b, k, s), 128 * k;
      && Num(r[at + 16..at + 20]) == s.inode.size && Num(r[at + 20..at + 24]) == s.meta.atime
      && Num(r[at + 24..at + 28]) == s.meta.mtime && Num(r[at + 28..at + 32]) == s.meta.ctime
      && Num(r[at + 32 + 4 * i..at + 36 + 4 * i]) == s.inode.addrs[i]
  {
    var r := InodeTable.Save(b, k, s);
    forall j: nat | j < 32 ensures Num(r[4 * (32 * k + j)..4 * (32 * k + j) + 4]) == InodeTable.Words(s)[j] {
      RecordWord(b, k, s, j);
      WordBytes(r, 32 * k + j);
    }
    var w := InodeTable.Words(s);
    assert w[4] == s.inode.size && w[5] == s.meta.atime && w[6] == s.meta.mtime && w[7] == s.meta.ctime;
    assert w[8 + i] == s.inode.addrs[i];
    assert 4 * (32 * k + 4) == 128 * k + 16 && 4 * (32 * k + 5) == 128 * k + 20;
    assert 4 * (32 * k + 6) == 128 * k + 24 && 4 * (32 * k + 7) == 128 * k + 28;
    assert 4 * (32 * k + (8 + i)) == 128 * k + 32 + 4 * i;
  }

  // ---- Where things are ----

  /** Byte `k` of a file: with n = k div 512, in the block of address n of the inode below 12; below 140
      in that of entry n - 12 of the block of address 12; else in that of entry (n - 140) mod 128 of the
      block of entry (n - 140) div 128 of the block of address 13. */
  lemma FileBytes(g: FileTree.Geo, t: FileTree.Tree, f: nat, k: nat)
    requires f in t.inodes && |t.inodes[f].addrs| == 14 && k / 512 < MAXFILE
    ensures
      var n, a := k / 512, t.inodes[f].addrs;
      var b :=
        if n < 12 then a[n]
        else if n < 140 then IndexOf(t.blocks, a[12], n - 12)
        else IndexOf(t.blocks, IndexOf(t.blocks, a[13], (n - 140) / 128), (n - 140) % 128);
      FileTree.ByteAt(FileTree.Ctx(BYTES, g), t, f, k) ==
        if b == 0 || |t.blocks| <= b then 0 else t.blocks[b].bytes[k % 512]
  {
    var n, a := k / 512, t.inodes[f].addrs;
    if 12 <= n < 140 {
      IndexEntry(g, t.blocks, a[12], n - 12);
    } else if 140 <= n {
      IndexEntry(g, t.blocks, a[13], (n - 140) / 128);
      IndexEntry(g, t.blocks, IndexOf(t.blocks, a[13], (n - 140) / 128), (n - 140) % 128);
    }
  }

  /** The number in the four bytes of entry `i` of block `b`, 0 if there is no such block. */
  function IndexOf(blocks: seq<Sector>, b: nat, i: nat): (v: nat)
    requires i < 128
  {
    if b == 0 || |blocks| <= b then 0 else Num(blocks[b].bytes[4 * i..4 * i + 4])
  }

  lemma IndexEntry(g: FileTree.Geo, blocks: seq<Sector>, b: nat, i: nat)
    requires i < 128
    ensures FileTree.Entry(FileTree.Ctx(BYTES, g), blocks, b, i) == IndexOf(blocks, b, i)
  {
    if b != 0 && b < |blocks| {
      WordBytes(blocks[b].bytes, i);
    }
  }

  /** Whether block `b` is in use: bit i mod 8 of byte i div 8, i being b mod 4096, of block bmapstart +
      b div 4096. */
  lemma UsedBits(g: FileTree.Geo, blocks: seq<Sector>, b: nat)
    requires g.bmapstart + b / 4096 < |blocks|
    ensures
      var x, i := blocks[g.bmapstart + b / 4096].bytes, b % 4096;
      FileTree.Used(FileTree.Ctx(BYTES, g), blocks, b) <==> x[i / 8] as int / Pow2(i % 8) % 2 == 1
  {
    BitmapBits(blocks[g.bmapstart + b / 4096], b % 4096);
  }

  /** Inode `f` is read from the 128 bytes from 128 (f mod 4) on of block inodestart + f div 4. */
  lemma InodePlace(start: nat, disk: seq<Sector>, f: nat, i: nat)
    requires start + f / 4 < |disk| && i < 14
    ensures
      var x, at := disk[start + f / 4].bytes, 128 * (f % 4);
      && InodeTable.LoadAt(start, disk, f).inode.size == Num(x[at + 16..at + 20])
      && |InodeTable.LoadAt(start, disk, f).inode.addrs| == 14
      && InodeTable.LoadAt(start, disk, f).inode.addrs[i] == Num(x[at + 32 + 4 * i..at + 36 + 4 * i])
  {
    var x, k := disk[start + f / 4].bytes, f % 4;
    WordBytes(x, 32 * k + 4);
    WordBytes(x, 32 * k + (8 + i));
    var w := InodeTable.Record(x, k);
    assert w[4] == Word(x, 32 * k + 4) && w[8 + i] == Word(x, 32 * k + (8 + i)) && w[8..22][i] == w[8 + i];
    assert 4 * (32 * k + 4) == 128 * k + 16 && 4 * (32 * k + (8 + i)) == 128 * k + 32 + 4 * i;
  }
}
