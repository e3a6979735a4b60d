/** The log header block: a count and that many home block numbers
    (`read_log_header`, `write_log_header`). */
module LogHeader {
  import opened Layout

  function PutWords(b: Block, at: nat, ws: seq<nat>): (r: Block)
    requires at + |ws| <= NINDIRECT
    requires forall k :: 0 <= k < |ws| ==> ws[k] < U32
    decreases |ws|
  {
    if ws == [] then b else PutWord(PutWords(b, at, ws[..|ws| - 1]), at + |ws| - 1, ws[|ws| - 1])
  }

  predicate Fits(lh: seq<nat>) {
    |lh| <= LOGSIZE && forall k :: 0 <= k < |lh| ==> lh[k] < U32
  }

  function Encode(lh: seq<nat>): (b: Block)
    requires Fits(lh)
  {
    PutWords(PutWord(ZeroBlock(), 0, |lh|), 1, lh)
  }

  /** A count above LOGSIZE is cut to LOGSIZE. */
  function Decode(b: Block): (lh: seq<nat>)
    ensures Fits(lh)
  {
    var raw := Word(b, 0);
    var n := if raw < LOGSIZE then raw else LOGSIZE;
    seq(n, k requires 0 <= k < n => Word(b, 1 + k))
  }

  lemma {:induction false} WordOfPutWords(b: Block, at: nat, ws: seq<nat>, j: nat)
    requires at + |ws| <= NINDIRECT && j < NINDIRECT
    requires forall k :: 0 <= k < |ws| ==> ws[k] < U32
    ensures Word(PutWords(b, at, ws), j) == if at <= j < at + |ws| then ws[j - at] else Word(b, j)
    decreases |ws|
  {
    if ws != [] {
      var init := ws[..|ws| - 1];
      WordOfPutWords(b, at, init, j);
      WordOfPut(PutWords(b, at, init), at + |ws| - 1, ws[|ws| - 1], j);
    }
  }

  lemma HeaderRoundTrip(lh: seq<nat>)
    requires Fits(lh)
    ensures Decode(Encode(lh)) == lh
  {
    var b := PutWord(ZeroBlock(), 0, |lh|);
    WordOfPutWords(b, 1, lh, 0);
    WordOfPut(ZeroBlock(), 0, |lh|, 0);
    forall k | 0 <= k < |lh|
      ensures Word(Encode(lh), 1 + k) == lh[k]
    {
      WordOfPutWords(b, 1, lh, 1 + k);
    }
  }

  /** `write_log_header`'s loop over the header buffer. */
  method WriteHeader(dst: array<Byte>, lh: seq<nat>)
    requires dst.Length == BSIZE && Fits(lh)
    modifies dst
    ensures dst[..] == Encode(lh)
  {
    for k := 0 to BSIZE
      invariant forall j :: 0 <= j < k ==> dst[j] == 0
    {
      dst[k] := 0;
    }
    assert dst[..] == ZeroBlock();
    StoreWord(dst, 0, |lh|);
    for i := 0 to |lh|
      invariant dst[..] == PutWords(PutWord(ZeroBlock(), 0, |lh|), 1, lh[..i])
    {
      StoreWord(dst, 1 + i, lh[i]);
      assert lh[..i + 1][..i] == lh[..i];
    }
    assert lh[..|lh|] == lh;
  }

  method StoreWord(dst: array<Byte>, k: nat, v: nat)
    requires dst.Length == BSIZE && k < NINDIRECT && v < U32
    modifies dst
    ensures dst[..] == PutWord(old(dst[..]), k, v)
  {
    var w := ToLe32(v);
    dst[4 * k], dst[4 * k + 1], dst[4 * k + 2], dst[4 * k + 3] := w[0], w[1], w[2], w[3];
  }

  /** `read_log_header`'s loop. */
  method ReadHeader(src: Block) returns (lh: seq<nat>)
    ensures lh == Decode(src)
  {
    var raw := Word(src, 0);
    var n := if raw < LOGSIZE then raw else LOGSIZE;
    lh := [];
    for i := 0 to n
      invariant |lh| == i && forall k :: 0 <= k < i ==> lh[k] == Word(src, 1 + k)
    {
      lh := lh + [Word(src, 1 + i)];
    }
  }
}
