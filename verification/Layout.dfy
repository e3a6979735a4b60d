/** The on-disk layout shared by the kernel and mkfs: sizes, bytes, blocks and
    little-endian 32-bit words. Inside a product, quotient or remainder that a proof has to
    calculate with, the number is written out: 512, 12, 128, 140, 4096. */
module Layout {
  const BSIZE: nat := 512
  const NINDIRECT: nat := 128
  const MAXFILE: nat := 16524
  const LOGSIZE: nat := 30
  const MAXOPBLOCKS: nat := 10
  const DIRSIZ: nat := 14
  const IPB: nat := 4
  const BPB: nat := 4096
  const U32: nat := 0x1_0000_0000

  type Byte = x: int | 0 <= x < 256
  type Block = b: seq<Byte> | |b| == BSIZE witness seq(BSIZE, _ => 0)

  /** A block as the log and the cache see it: one unit of transfer. */
  datatype Sector = Sector(bytes: Block)

  function ZeroBlock(): (b: Block)
    ensures forall k :: 0 <= k < BSIZE ==> b[k] == 0
  {
    seq(BSIZE, _ => 0)
  }

  function ToLe32(v: nat): (s: seq<Byte>)
    requires v < U32
    ensures |s| == 4
  {
    [v % 256, (v / 0x100) % 256, (v / 0x1_0000) % 256, v / 0x100_0000]
  }

  function FromLe32(s: seq<Byte>): (v: nat)
    requires |s| == 4
    ensures v < U32
  {
    (s[0] as int) + 0x100 * (s[1] as int) + 0x1_0000 * (s[2] as int) + 0x100_0000 * (s[3] as int)
  }

  lemma Le32RoundTrip(v: nat)
    requires v < U32
    ensures FromLe32(ToLe32(v)) == v
  {
    var v1 := v / 0x100;
    var v2 := v / 0x1_0000;
    var v3 := v / 0x100_0000;
    assert v1 / 0x100 == v2 && v2 / 0x100 == v3;
  }

  /** The 32-bit word at word index `k` of a block. */
  function Word(b: Block, k: nat): (v: nat)
    requires k < NINDIRECT
    ensures v < U32
  {
    FromLe32(b[4 * k..4 * k + 4])
  }

  /** `b` with the word at index `k` replaced by `v`. */
  function PutWord(b: Block, k: nat, v: nat): (r: Block)
    requires k < NINDIRECT && v < U32
  {
    b[..4 * k] + ToLe32(v) + b[4 * k + 4..]
  }

  lemma WordOfPut(b: Block, k: nat, v: nat, j: nat)
    requires k < NINDIRECT && j < NINDIRECT && v < U32
    ensures Word(PutWord(b, k, v), j) == if j == k then v else Word(b, j)
  {
    var r := PutWord(b, k, v);
    if j == k {
      assert r[4 * k..4 * k + 4] == ToLe32(v);
      Le32RoundTrip(v);
    } else {
      assert r[4 * j..4 * j + 4] == b[4 * j..4 * j + 4];
    }
  }

  lemma WordOfZero(k: nat)
    requires k < NINDIRECT
    ensures Word(ZeroBlock(), k) == 0
  {
    assert ZeroBlock()[4 * k..4 * k + 4] == [0, 0, 0, 0];
  }
}
