/** What the file system stores in a block besides file bytes: 128 block numbers (index
    blocks) or 4096 allocation bits (bitmap blocks). The file-system proofs use the laws
    below; `BYTES` is the on-disk byte format and satisfies them. */
module BlockFormat {
  import opened Layout

  datatype Format = Format(
    word: (Sector, nat) -> nat,
    put: (Sector, nat, nat) -> Sector,
    bit: (Sector, nat) -> bool,
    mark: (Sector, nat, bool) -> Sector)

  const ZERO: Sector := Sector(ZeroBlock())

  ghost predicate WordLaws(m: Format) {
    && (forall x: Sector, k: nat, v: nat, j: nat :: k < NINDIRECT && j < NINDIRECT && v < U32 ==>
          m.word(m.put(x, k, v), j) == if j == k then v else m.word(x, j))
    && (forall k: nat :: k < NINDIRECT ==> m.word(ZERO, k) == 0)
    && (forall x: Sector, k: nat :: m.word(x, k) < U32)
  }

  ghost predicate BitLaws(m: Format) {
    forall x: Sector, k: nat, v: bool, j: nat :: k < BPB && j < BPB ==>
      m.bit(m.mark(x, k, v), j) == if j == k then v else m.bit(x, j)
  }

  ghost predicate Laws(m: Format) { WordLaws(m) && BitLaws(m) }

  // ---------- bits of a byte ----------

  predicate BitOf(y: nat, i: nat)
    decreases i
  {
    if i == 0 then y % 2 == 1 else BitOf(y / 2, i - 1)
  }

  /** `y | (1 << i)` if `v`, else `y & !(1 << i)`. */
  function SetBit(y: nat, i: nat, v: bool): (r: nat)
    decreases i
  {
    if i == 0 then 2 * (y / 2) + (if v then 1 else 0) else 2 * SetBit(y / 2, i - 1, v) + y % 2
  }

  lemma {:induction false} BitOfSet(y: nat, i: nat, v: bool, j: nat)
    ensures BitOf(SetBit(y, i, v), j) == if j == i then v else BitOf(y, j)
    decreases i
  {
    if i > 0 && j > 0 {
      BitOfSet(y / 2, i - 1, v, j - 1);
    }
  }

  function Pow2(n: nat): (r: nat)
    ensures r > 0
  {
    if n == 0 then 1 else 2 * Pow2(n - 1)
  }

  lemma {:induction false} SetBitFits(y: nat, i: nat, v: bool, n: nat)
    requires i < n && y < Pow2(n)
    ensures SetBit(y, i, v) < Pow2(n)
  {
    if i > 0 {
      SetBitFits(y / 2, i - 1, v, n - 1);
    }
  }

  lemma SetBitByte(y: Byte, i: nat, v: bool)
    requires i < 8
    ensures SetBit(y, i, v) < 256
  {
    assert Pow2(4) == 16 && Pow2(8) == 16 * Pow2(4);
    SetBitFits(y, i, v, 8);
  }

  // ---------- the byte format ----------

  function BlockBit(x: Sector, k: nat): (r: bool) {
    k < BPB && BitOf(x.bytes[k / 8], k % 8)
  }

  function BlockMark(x: Sector, k: nat, v: bool): (r: Sector) {
    if k < BPB then
      SetBitByte(x.bytes[k / 8], k % 8, v);
      Sector(x.bytes[k / 8 := SetBit(x.bytes[k / 8], k % 8, v)])
    else x
  }

  lemma BitOfMark(x: Sector, k: nat, v: bool, j: nat)
    requires k < BPB && j < BPB
    ensures BlockBit(BlockMark(x, k, v), j) == if j == k then v else BlockBit(x, j)
  {
    BitOfSet(x.bytes[k / 8], k % 8, v, j % 8);
    assert j == k <==> j / 8 == k / 8 && j % 8 == k % 8;
  }

  function BlockWord(x: Sector, k: nat): (v: nat) {
    if k < NINDIRECT then Word(x.bytes, k) else 0
  }

  function BlockPut(x: Sector, k: nat, v: nat): (r: Sector) {
    if k < NINDIRECT && v < U32 then Sector(PutWord(x.bytes, k, v)) else x
  }

  const BYTES := Format(BlockWord, BlockPut, BlockBit, BlockMark)

  lemma BytesWordLaws()
    ensures WordLaws(BYTES)
  {
    forall x: Sector, k: nat, v: nat, j: nat | k < NINDIRECT && j < NINDIRECT && v < U32
      ensures BYTES.word(BYTES.put(x, k, v), j) == if j == k then v else BYTES.word(x, j)
    {
      WordOfPut(x.bytes, k, v, j);
    }
    forall k: nat | k < NINDIRECT
      ensures BYTES.word(ZERO, k) == 0
    {
      WordOfZero(k);
    }
  }

  lemma BytesLaws()
    ensures Laws(BYTES)
  {
    BytesWordLaws();
    forall x: Sector, k: nat, v: bool, j: nat | k < BPB && j < BPB
      ensures BYTES.bit(BYTES.mark(x, k, v), j) == if j == k then v else BYTES.bit(x, j)
    {
      BitOfMark(x, k, v, j);
    }
  }

  /** No bit of a zeroed block is set. */
  ghost predicate Blank(fmt: Format) { forall k: nat :: k < 4096 ==> !fmt.bit(ZERO, k) }

  lemma {:induction false} NoBits(i: nat)
    ensures !BitOf(0, i)
  {
    if i > 0 { NoBits(i - 1); }
  }

  lemma BytesBlank()
    ensures Blank(BYTES)
  {
    forall k: nat | k < 4096 ensures !BYTES.bit(ZERO, k) {
      NoBits(k % 8);
    }
  }
}
