/** Two runs from power-on. In the first a correct caller runs into an assertion of the log: on a full
    log `log_write` fails even for a block it has recorded, because the overflow check precedes
    the search for duplicates. In the second a crash drops the writes of an operation after its
    `end_op` has returned, because other operations keep the group open. */
module LogFull {
  import opened Layout
  import opened BufferCache
  import opened WriteAheadLog
  import opened CrashSafety
  import H = LogHeader

  const SIZE: nat := 100
  const START: nat := 2
  const FIRST: nat := 40
  const NBUF: nat := 64
  const BLANK: Sector := Sector(ZeroBlock())
  const MARK: Sector := Sector(seq(BSIZE, _ => 1))

  function Disk(c: Codec): (d: seq<Sector>) { seq(SIZE, b => if b == START then c.enc([]) else BLANK) }

  function HeadBuf(c: Codec, holders: multiset<Owner>): (u: Buf) {
    Buf(START, c.enc([]), true, false, true, holders, 0)
  }

  /** The buffer of the `m`th logged block, held by its operation and the log. */
  function LogBuf(m: nat): (u: Buf) {
    Buf(FIRST + m, BLANK, true, false, true, multiset{Task(m / 10), Pin}, 0)
  }

  function Bufs(c: Codec, n: nat): (s: seq<Buf>) {
    seq(NBUF, j requires 0 <= j < NBUF =>
      if j == 0 then HeadBuf(c, multiset{}) else if j <= n then LogBuf(j - 1) else EmptyBuf())
  }

  function Blocks(n: nat): (s: seq<nat>) { seq(n, m => FIRST + m) }

  function Slots(n: nat): (s: seq<nat>) { seq(n, m => m + 1) }

  function Writes(n: nat): (s: seq<Event>) { seq(n, m requires 0 <= m => Event(m / 10, FIRST + m, BLANK)) }

  /** What operation `k` has appended when `n` blocks are logged. */
  function Used(k: nat, n: nat): (u: nat) { if n <= 10 * k then 0 else if n < 10 * k + 10 then n - 10 * k else 10 }

  function Ops(n: nat): (s: seq<Op>) { [Op(0, Used(0, n)), Op(1, Used(1, n)), Op(2, Used(2, n))] }

  /** Three operations open, `n` blocks logged. */
  function Logging(c: Codec, n: nat): (w: World) {
    World(c, Bio(Disk(c), Bufs(c, n)), START, 3, false, Blocks(n), Slots(n), Serving, Ops(n), 3, Disk(c), Disk(c),
          Writes(n), 0)
  }

  function Started(c: Codec, k: nat): (w: World) {
    World(c, Bio(Disk(c), Bufs(c, 0)), START, k, false, [], [], Serving, seq(k, i requires 0 <= i => Op(i, 0)), k,
          Disk(c), Disk(c), [], 0)
  }

  function Booted(c: Codec): (w: World) {
    World(c, Boot(Disk(c), NBUF), START, 0, false, [], [], ReadHead, [], 0, Disk(c), Disk(c), [], 0)
  }

  // ---- Extending runs ----

  lemma Extend(ws: seq<World>, xs: seq<Step>, x: Step, w: World)
    requires Run(ws, xs) && Pre(ws[|ws| - 1], x) && w == Next(ws[|ws| - 1], x)
    ensures Run(ws + [w], xs + [x])
  {
    var ws', xs' := ws + [w], xs + [x];
    forall i | 0 <= i < |xs'| ensures Pre(ws'[i], xs'[i]) && ws'[i + 1] == Next(ws'[i], xs'[i]) {
      if i < |xs| {
        assert ws'[i] == ws[i] && ws'[i + 1] == ws[i + 1] && xs'[i] == xs[i];
      } else {
        assert ws'[i] == ws[|ws| - 1] && ws'[i + 1] == w && xs'[i] == x;
      }
    }
  }

  /** A task brings block `b` into the cold slot `i`: three cache steps. */
  lemma Load(ws: seq<World>, xs: seq<Step>, b: nat, i: nat, o: Owner) returns (ws': seq<World>, xs': seq<Step>)
    requires Run(ws, xs) && o != Pin
    requires
      var w := ws[|ws| - 1];
      && b < |w.bio.disk| && i < |w.bio.bufs| && w.bio.bufs[i] == EmptyBuf()
      && (forall j :: 0 <= j < i ==> w.bio.bufs[j].valid)
      && (forall j :: 0 <= j < |w.bio.bufs| ==> w.bio.bufs[j].block != b && !w.bio.bufs[j].loading)
    ensures Run(ws', xs') && ws' != [] && ws <= ws' && xs <= xs'
    ensures
      var w := ws[|ws| - 1];
      ws'[|ws'| - 1] ==
        w.(bio := w.bio.(bufs := w.bio.bufs[i := Buf(b, w.bio.disk[b], true, false, true, multiset{o}, 0)]))
  {
    var w := ws[|ws| - 1];
    var a0, a1, a2 := Claim(b, i, o, 0), Arrive(i), Loaded(i);
    assert Cold(w.bio.bufs[i]);
    assert EvictChoice(w.bio.bufs, i);
    var w1 := w.(bio := After(w.bio, a0));
    assert w1.bio.bufs[i] == EmptyBuf().(block := b, loading := true, holders := multiset{o});
    Extend(ws, xs, Env(a0), w1);
    var w2 := w1.(bio := After(w1.bio, a1));
    Extend(ws + [w1], xs + [Env(a0)], Env(a1), w2);
    var w3 := w2.(bio := After(w2.bio, a2));
    Extend(ws + [w1] + [w2], xs + [Env(a0)] + [Env(a1)], Env(a2), w3);
    ws', xs' := ws + [w1] + [w2] + [w3], xs + [Env(a0)] + [Env(a1)] + [Env(a2)];
    assert w3.bio.bufs == w.bio.bufs[i := Buf(b, w.bio.disk[b], true, false, true, multiset{o}, 0)];
  }

  /** Power-on, an empty header, and the log serves. */
  lemma Boots(c: Codec) returns (ws: seq<World>, xs: seq<Step>)
    requires CodecOk(c)
    ensures Run(ws, xs) && ws != [] && ws[|ws| - 1] == Started(c, 0)
  {
    var w := Booted(c);
    assert H.Fits([]) && c.dec(c.enc([])) == [];
    assert Init(w);
    ws, xs := Serves(c, [w], [], 0);
  }

  /** Recovery with an empty header, after `n` operations were started. */
  lemma Serves(c: Codec, ws: seq<World>, xs: seq<Step>, n: nat) returns (ws': seq<World>, xs': seq<Step>)
    requires CodecOk(c) && Run(ws, xs) && ws[|ws| - 1] == Booted(c).(nextOp := n)
    ensures Run(ws', xs') && ws' != [] && ws'[|ws'| - 1] == Started(c, 0).(nextOp := n)
    ensures ws <= ws' && xs <= xs'
  {
    assert H.Fits([]) && c.dec(c.enc([])) == [];
    ws', xs' := Load(ws, xs, START, 0, Committer);
    var w3 := ws'[|ws'| - 1];
    assert w3.bio.bufs[0] == HeadBuf(c, multiset{Committer});
    assert Owns(w3.bio.bufs, 0, START);
    var w4 := Next(w3, Log(0, 0));
    assert w4.bio.bufs == Bufs(c, 0);
    assert w4 == Started(c, 0).(nextOp := n);
    Extend(ws', xs', Log(0, 0), w4);
    ws', xs' := ws' + [w4], xs' + [Log(0, 0)];
  }

  lemma {:induction false} Starts(c: Codec, k: nat) returns (ws: seq<World>, xs: seq<Step>)
    requires CodecOk(c) && k <= 3
    ensures Run(ws, xs) && ws != [] && ws[|ws| - 1] == Started(c, k)
  {
    if k == 0 {
      ws, xs := Boots(c);
    } else {
      ws, xs := Starts(c, k - 1);
      var w := Next(Started(c, k - 1), Begin);
      assert w.ops == Started(c, k).ops;
      Extend(ws, xs, Begin, w);
      ws, xs := ws + [w], xs + [Begin];
    }
  }

  /** One more block brought in and logged. */
  lemma LogsOne(c: Codec, ws: seq<World>, xs: seq<Step>, n: nat) returns (ws': seq<World>, xs': seq<Step>)
    requires Run(ws, xs) && n < 30 && ws[|ws| - 1] == Logging(c, n)
    ensures Run(ws', xs') && ws' != [] && ws'[|ws'| - 1] == Logging(c, n + 1)
  {
    var op, i := n / 10, n + 1;
    var bufs := Bufs(c, n);
    forall j | 0 <= j < NBUF ensures bufs[j].block != FIRST + n && !bufs[j].loading {}
    ws', xs' := Load(ws, xs, FIRST + n, i, Task(op));
    var w := ws'[|ws'| - 1];
    assert Disk(c)[FIRST + n] == BLANK;
    assert w.bio.bufs[i] == Buf(FIRST + n, BLANK, true, false, true, multiset{Task(op)}, 0);
    assert Home(START, SIZE, FIRST + n);
    LogsInto(c, w, n);
    var x := LogWrite(op, i, BLANK);
    Extend(ws', xs', x, Logging(c, n + 1));
    ws', xs' := ws' + [Logging(c, n + 1)], xs' + [x];
  }

  lemma LogsInto(c: Codec, w: World, n: nat)
    requires n < 30
    requires
      var u := Buf(FIRST + n, BLANK, true, false, true, multiset{Task(n / 10)}, 0);
      w == Logging(c, n).(bio := Bio(Disk(c), Bufs(c, n)[n + 1 := u]))
    ensures Pre(w, LogWrite(n / 10, n + 1, BLANK)) && Next(w, LogWrite(n / 10, n + 1, BLANK)) == Logging(c, n + 1)
  {
    var op, i := n / 10, n + 1;
    assert Home(START, SIZE, FIRST + n) && FIRST + n !in w.lh;
    assert Ops(n)[op] == Op(op, Used(op, n)) && Used(op, n) == n - 10 * op;
    var w' := Next(w, LogWrite(op, i, BLANK));
    assert w'.view == Disk(c);
    assert w'.hist == Writes(n + 1);
    assert w'.lh == Blocks(n + 1) && w'.pinned == Slots(n + 1);
    assert w'.ops == Ops(n + 1);
    assert multiset{Task(op)} + multiset{Pin} == multiset{Task(op), Pin};
    assert w'.bio.bufs == Bufs(c, n + 1);
  }

  lemma {:induction false} Logs(c: Codec, n: nat) returns (ws: seq<World>, xs: seq<Step>)
    requires CodecOk(c) && n <= 30
    ensures Run(ws, xs) && ws != [] && ws[|ws| - 1] == Logging(c, n)
  {
    if n == 0 {
      ws, xs := Starts(c, 3);
      assert Started(c, 3).ops == Ops(0);
      assert Started(c, 3) == Logging(c, 0);
    } else {
      ws, xs := Logs(c, n - 1);
      ws, xs := LogsOne(c, ws, xs, n - 1);
    }
  }

  /** From power-on, three operations that log ten blocks each, all within their reservation, fill the
      log; one more write by the first of them, to its own first block, is then refused, though
      it needs no room. */
  lemma RecordedWriteRefused(c: Codec) returns (ws: seq<World>, xs: seq<Step>, x: Step)
    requires CodecOk(c)
    ensures Run(ws, xs) && ws != []
    ensures
      var w := ws[|ws| - 1];
      && x.LogWrite? && Can(w, x) && w.bio.bufs[x.i].block in w.lh && |w.lh| == LOGSIZE
      && Overflows(w, x) && !Safe(w, x)
  {
    ws, xs := Logs(c, 30);
    var w := ws[|ws| - 1];
    x := LogWrite(0, 1, BLANK);
    assert w.bio.bufs[1] == LogBuf(0);
    assert w.lh[0] == FIRST;
  }

  /** The first operation logs `MARK` over its own block, with two others open. */
  lemma LogsMark(c: Codec) returns (ws: seq<World>, xs: seq<Step>)
    requires CodecOk(c)
    ensures Run(ws, xs) && ws != []
    ensures
      var w := ws[|ws| - 1];
      && w.outstanding == 3 && w.ops == Ops(1) && w.hist == Writes(1) + [Event(0, FIRST, MARK)] && w.durable == 0
      && w.codec == c && w.start == START && w.bio.disk == w.base == Disk(c) && |w.bio.bufs| == NBUF && w.nextOp == 3
      && w.pc.Serving? && !w.committing
  {
    ws, xs := Logs(c, 1);
    var w := ws[|ws| - 1];
    assert w.bio.bufs[1] == LogBuf(0) && w.lh[0] == FIRST;
    var x := LogWrite(0, 1, MARK);
    assert Home(START, SIZE, FIRST);
    Extend(ws, xs, x, Next(w, x));
    ws, xs := ws + [Next(w, x)], xs + [x];
  }

  /** From power-on: an operation logs a block and its `end_op` returns while two others are open; the
      power fails; the log serves again, and the write is gone from the history and from disk. */
  lemma EndedWriteLost(c: Codec) returns (ws: seq<World>, xs: seq<Step>, i: nat)
    requires CodecOk(c)
    ensures Run(ws, xs) && i + 2 < |ws| && EndReturns(ws, xs, i, i + 1) && xs[i] == End(0) &&
              ws[i].ops[..1] == [Op(0, 1)]
    ensures Event(0, FIRST, MARK) in ws[i + 1].hist && !Committed(ws[i + 1], 0)
    ensures xs[i + 1] == Crash
    ensures
      var w := ws[|ws| - 1];
      w.pc.Serving? && Event(0, FIRST, MARK) !in w.hist && |w.bio.disk| == SIZE && w.bio.disk[FIRST] != MARK
  {
    ws, xs := LogsMark(c);
    i := |xs|;
    var w := ws[i];
    var w1 := Next(w, End(0));
    Extend(ws, xs, End(0), w1);
    ws, xs := ws + [w1], xs + [End(0)];
    var w2 := Next(w1, Crash);
    Extend(ws, xs, Crash, w2);
    ws, xs := ws + [w2], xs + [Crash];
    assert w2 == Booted(c).(nextOp := 3);
    ghost var ws0, xs0 := ws, xs;
    ws, xs := Serves(c, ws, xs, 3);
    assert ws[i] == ws0[i] == w && ws[i + 1] == ws0[i + 1] == w1 && xs[i] == xs0[i] && xs[i + 1] == xs0[i + 1];
    var e := Event(0, FIRST, MARK);
    assert w1.hist[1] == e;
    assert BLANK.bytes[0] != MARK.bytes[0];
  }
}
