/** The write-ahead log (`log.rs`) over the buffer cache: group commit, crashes at any
    point, recovery that may itself crash. One state machine; a step is one lock
    section, one buffer edit or one single-block disk write. */
module WriteAheadLog {
  import opened Collections
  import opened Layout
  import opened BufferCache
  import H = LogHeader

  /** One `log_write`: operation `op` gave `block` the content `data`. */
  datatype Event = Event(op: nat, block: nat, data: Sector)

  /** An operation between `begin_op` and `end_op`; `used` counts the block numbers it
      appended to the log. */
  datatype Op = Op(id: nat, used: nat)

  /** Where the committing or recovering task stands. */
  datatype Pc =
    | Serving
    | CopySlot(i: nat) | FlushSlot(i: nat, j: nat)
    | CopyHead | FlushHead(j: nat)
    | FlushHome(i: nat)
    | CopyClear | FlushClear(j: nat)
    | Unpin | Finish
    | ReadHead | CopyHome(i: nat, h: seq<nat>) | InstallHome(i: nat, h: seq<nat>, j: nat)
    | CopyRecClear | FlushRecClear(j: nat)
  {
    predicate Recovering() {
      ReadHead? || CopyHome? || InstallHome? || CopyRecClear? || FlushRecClear?
    }
    predicate Committing() { !Serving? && !Recovering() }
    /** The open group, if any, has not reached its commit point. */
    predicate BeforeCommit() { Serving? || CopySlot? || FlushSlot? || CopyHead? || FlushHead? }
    /** How many of the `n` log slots (or, recovering, home blocks) are written. */
    function Done(n: nat): (k: nat) {
      match this
      case CopySlot(i) => i
      case FlushSlot(i, _) => i
      case CopyHome(i, _) => i
      case InstallHome(i, _, _) => i
      case Serving => 0
      case ReadHead => 0
      case _ => n
    }
    predicate Counts(n: nat) {
      match this
      case CopySlot(i) => i < n
      case FlushSlot(i, _) => i < n
      case CopyHome(i, _) => i < n
      case InstallHome(i, _, _) => i < n
      case FlushHome(i) => i < n
      case CopyHead => 0 < n
      case FlushHead(_) => 0 < n
      case _ => true
    }
    /** The header on disk past the commit point, for the group `lh`. */
    function OnDisk(lh: seq<nat>): (h: seq<nat>) { if Unpin? || Finish? then [] else lh }
    /** How many of the header's `n` home blocks are on disk past the commit point. */
    function Home(n: nat): (k: nat) { if FlushHome? then i else n }
  }

  /** `view` is the latest content of every block, `hist` every logged write that has not
      been lost in a crash, `durable` how many of them lie behind a commit point. */
  datatype World = World(
    codec: Codec, bio: Bio, start: nat,
    outstanding: nat, committing: bool, lh: seq<nat>, pinned: seq<nat>,
    pc: Pc, ops: seq<Op>, nextOp: nat,
    view: seq<Sector>, base: seq<Sector>, hist: seq<Event>, durable: nat)

  /** Blocks outside the log region. */
  predicate Home(start: nat, size: nat, b: nat) {
    b < size && !(start <= b <= start + LOGSIZE)
  }

  ghost predicate SameHome(start: nat, xs: seq<Sector>, ys: seq<Sector>) {
    |xs| == |ys| && forall b: nat {:trigger Home(start, |xs|, b)} :: Home(start, |xs|, b) ==> xs[b] == ys[b]
  }

  /** The effect of a list of writes. */
  function Replay(base: seq<Sector>, hist: seq<Event>): (r: seq<Sector>)
    ensures |r| == |base|
  {
    if hist == [] then base
    else
      var r := Replay(base, hist[..|hist| - 1]);
      var e := hist[|hist| - 1];
      if e.block < |base| then r[e.block := e.data] else r
  }

  lemma ReplaySnoc(base: seq<Sector>, hist: seq<Event>, e: Event)
    requires e.block < |base|
    ensures Replay(base, hist + [e]) == Replay(base, hist)[e.block := e.data]
  {
    assert (hist + [e])[..|hist|] == hist;
  }

  /** How headers are stored in a block. The log relies on the round trip only; the byte
      format is `LogHeader`. */
  datatype Codec = Codec(enc: seq<nat> -> Sector, dec: Sector -> seq<nat>)

  ghost predicate CodecOk(c: Codec) {
    forall h :: H.Fits(h) ==> c.dec(c.enc(h)) == h
  }

  const HEADER := Codec(
    (h: seq<nat>) => Sector(if H.Fits(h) then H.Encode(h) else ZeroBlock()),
    (x: Sector) => H.Decode(x.bytes))

  lemma HeaderCodec()
    ensures CodecOk(HEADER)
  {
    forall h | H.Fits(h)
      ensures HEADER.dec(HEADER.enc(h)) == h
    {
      H.HeaderRoundTrip(h);
    }
  }

  // ---------- recovery as a function of the disk ----------

  predicate HeaderOk(start: nat, size: nat, h: seq<nat>) {
    |h| <= LOGSIZE && Distinct(h) &&
    forall k :: 0 <= k < |h| ==> Home(start, size, h[k])
  }

  predicate DiskOk(c: Codec, start: nat, disk: seq<Sector>) {
    start + LOGSIZE < |disk| < U32 && HeaderOk(start, |disk|, c.dec(disk[start]))
  }

  /** `install_log_to_home` after its first `n` rounds. */
  function Install(start: nat, disk: seq<Sector>, h: seq<nat>, n: nat): (r: seq<Sector>)
    requires start + LOGSIZE < |disk| && HeaderOk(start, |disk|, h) && n <= |h|
    ensures |r| == |disk|
  {
    if n == 0 then disk
    else
      var r := Install(start, disk, h, n - 1);
      r[h[n - 1] := r[start + n]]
  }

  /** `recover`: replay the log that the header names, then clear the header. */
  function Recovered(c: Codec, start: nat, disk: seq<Sector>): (r: seq<Sector>)
    requires DiskOk(c, start, disk)
    ensures |r| == |disk|
  {
    var h := c.dec(disk[start]);
    if h == [] then disk else Install(start, disk, h, |h|)[start := c.enc([])]
  }

  lemma {:induction false} InstallAt(start: nat, disk: seq<Sector>, h: seq<nat>, n: nat, b: nat)
    requires start + LOGSIZE < |disk| && HeaderOk(start, |disk|, h) && n <= |h| && b < |disk|
    ensures forall k :: 0 <= k < n && h[k] == b ==> Install(start, disk, h, n)[b] == disk[start + 1 + k]
    ensures (forall k :: 0 <= k < n ==> h[k] != b) ==> Install(start, disk, h, n)[b] == disk[b]
  {
    if n > 0 {
      InstallAt(start, disk, h, n - 1, b);
      InstallAt(start, disk, h, n - 1, start + n);
    }
  }

  /** The home blocks after recovery: logged content where the header names the block. */
  lemma RecoveredAt(c: Codec, start: nat, disk: seq<Sector>, b: nat)
    requires DiskOk(c, start, disk) && Home(start, |disk|, b)
    ensures var h := c.dec(disk[start]);
      && (forall k :: 0 <= k < |h| && h[k] == b ==> Recovered(c, start, disk)[b] == disk[start + 1 + k])
      && (b !in h ==> Recovered(c, start, disk)[b] == disk[b])
  {
    var h := c.dec(disk[start]);
    InstallAt(start, disk, h, |h|, b);
  }

  // ---------- steps ----------

  datatype Step =
    | Env(a: Act)
    | Begin
    | LogWrite(k: nat, i: nat, d: Sector)
    | End(k: nat)
    | Log(j: nat, l: nat)
    | Crash

  /** Log space set aside for `k` operations: MAXOPBLOCKS each. */
  function Reserved(k: nat): (n: nat) { MAXOPBLOCKS * k }

  predicate Admissible(w: World) {
    !w.committing && |w.lh| + Reserved(w.outstanding + 1) <= LOGSIZE
  }

  /** The committing task holds buffer `j` for block `b`. */
  predicate Owns(bufs: seq<Buf>, j: nat, b: nat) {
    HitsAt(bufs, b, j) && Committer in bufs[j].holders
  }

  /** The block whose buffer the committing task must hold to leave `pc`. */
  function Wanted(w: World): (b: nat) {
    match w.pc
    case CopySlot(i) => w.start + 1 + i
    case CopyHome(i, h) => if i < |h| then h[i] else w.start
    case _ => w.start
  }

  /** When a step may be taken: what its caller respects and, for the committing task, the
      buffers it waits for. A caller of `log_write` holds the buffer, names a home block and
      adds at most MAXOPBLOCKS block numbers per operation. */
  ghost predicate Can(w: World, x: Step) {
    match x
    case Env(a) => Enabled(w.bio, a)
    case Begin => Admissible(w) && !w.pc.Recovering()
    case LogWrite(k, i, d) =>
      && k < |w.ops| && i < |w.bio.bufs| && w.bio.bufs[i].valid
      && Task(w.ops[k].id) in w.bio.bufs[i].holders
      && Home(w.start, |w.base|, w.bio.bufs[i].block)
      && (w.bio.bufs[i].block in w.lh || w.ops[k].used < MAXOPBLOCKS)
    case End(k) => k < |w.ops|
    case Log(j, l) =>
      (match w.pc
       case Serving => false
       case CopySlot(_) => Owns(w.bio.bufs, j, Wanted(w))
       case CopyHead => Owns(w.bio.bufs, j, Wanted(w))
       case CopyClear => Owns(w.bio.bufs, j, Wanted(w))
       case CopyRecClear => Owns(w.bio.bufs, j, Wanted(w))
       case ReadHead => Owns(w.bio.bufs, j, Wanted(w))
       case CopyHome(i, h) => Owns(w.bio.bufs, j, Wanted(w)) && Owns(w.bio.bufs, l, w.start + 1 + i)
       case _ => true)
    case Crash => true
  }

  predicate InRange(w: World, j: nat) {
    j < |w.bio.bufs| && w.bio.bufs[j].block < |w.view| == |w.bio.disk|
  }

  predicate PinInRange(w: World, i: nat) { i < |w.pinned| && InRange(w, w.pinned[i]) }

  /** The assertions and bounds checks a step runs into: "log_write outside
      begin_op/end_op", "log overflow", "end_op while committing" and the indexing of the
      committing task. */
  predicate Safe(w: World, x: Step) {
    match x
    case Env(_) => true
    case Begin => true
    case LogWrite(k, i, _) => w.outstanding > 0 && |w.lh| < LOGSIZE && k < |w.ops| && InRange(w, i)
    case End(k) => k < |w.ops| && w.outstanding > 0 && !w.committing
    case Log(j, l) =>
      (match w.pc
       case Serving => false
       case CopySlot(i) => InRange(w, j) && PinInRange(w, i)
       case FlushSlot(_, m) => InRange(w, m)
       case CopyHead => InRange(w, j)
       case FlushHead(m) => InRange(w, m)
       case FlushHome(i) => PinInRange(w, i)
       case CopyClear => InRange(w, j)
       case FlushClear(m) => InRange(w, m)
       case Unpin => true
       case Finish => true
       case ReadHead => InRange(w, j)
       case CopyHome(_, _) => InRange(w, j) && InRange(w, l)
       case InstallHome(_, _, m) => InRange(w, m)
       case CopyRecClear => InRange(w, j)
       case FlushRecClear(m) => InRange(w, m))
    case Crash => w.durable <= |w.hist|
  }

  /** The committing task edits its buffer `j` in place. */
  function Edited(w: World, j: nat, d: Sector): (w': World)
    requires j < |w.bio.bufs| && w.bio.bufs[j].block < |w.view|
  {
    w.(bio := EditBuf(w.bio, j, d, w.bio.bufs[j].holders), view := w.view[w.bio.bufs[j].block := d])
  }

  /** The committing task's `bwrite` of buffer `j` completes and it drops the buffer. */
  function Flushed(w: World, j: nat): (w': World)
    requires j < |w.bio.bufs| && w.bio.bufs[j].block < |w.bio.disk|
  {
    w.(bio := Drop(WriteBuf(w.bio, j), j, Committer))
  }

  function UnpinAll(bufs: seq<Buf>, pinned: seq<nat>): (r: seq<Buf>)
    ensures |r| == |bufs|
  {
    seq(|bufs|, i requires 0 <= i < |bufs| =>
      if i in pinned then bufs[i].(holders := bufs[i].holders - multiset{Pin}) else bufs[i])
  }

  function NextSlot(i: nat, n: nat): (pc: Pc) { if i + 1 < n then CopySlot(i + 1) else CopyHead }
  function NextHome(i: nat, n: nat): (pc: Pc) { if i + 1 < n then FlushHome(i + 1) else CopyClear }
  function NextInstall(i: nat, h: seq<nat>): (pc: Pc) { if i < |h| then CopyHome(i, h) else CopyRecClear }

  function LogStep(w: World, j: nat, l: nat): (w': World)
    requires Safe(w, Log(j, l))
  {
    match w.pc
    case CopySlot(i) => Edited(w, j, w.bio.bufs[w.pinned[i]].data).(pc := FlushSlot(i, j))
    case FlushSlot(i, m) => Flushed(w, m).(pc := NextSlot(i, |w.lh|))
    case CopyHead => Edited(w, j, w.codec.enc(w.lh)).(pc := FlushHead(j))
    case FlushHead(m) => Flushed(w, m).(pc := FlushHome(0), durable := |w.hist|)
    case FlushHome(i) => w.(bio := WriteBuf(w.bio, w.pinned[i]), pc := NextHome(i, |w.lh|))
    case CopyClear => Edited(w, j, w.codec.enc([])).(pc := FlushClear(j))
    case FlushClear(m) => Flushed(w, m).(pc := Unpin)
    case Unpin => w.(bio := w.bio.(bufs := UnpinAll(w.bio.bufs, w.pinned)), lh := [], pinned := [], pc := Finish)
    case Finish => w.(committing := false, pc := Serving)
    case ReadHead =>
      var h := w.codec.dec(w.bio.bufs[j].data);
      w.(bio := Drop(w.bio, j, Committer), pc := if h == [] then Serving else CopyHome(0, h))
    case CopyHome(i, h) => 
      var w1 := Edited(w, j, w.bio.bufs[l].data);
      w1.(bio := Drop(w1.bio, l, Committer), pc := InstallHome(i, h, j))
    case InstallHome(i, h, m) => Flushed(w, m).(pc := NextInstall(i + 1, h))
    case CopyRecClear => Edited(w, j, w.codec.enc([])).(pc := FlushRecClear(j))
    case FlushRecClear(m) => Flushed(w, m).(pc := Serving)
  }

  /** `log_write` of buffer `i`, just edited to `d`: absorbed if the block is recorded. */
  function Logged(w: World, k: nat, i: nat, d: Sector): (w': World)
    requires k < |w.ops| && i < |w.bio.bufs| && w.bio.bufs[i].block < |w.view|
  {
    var b := w.bio.bufs[i].block;
    var e := Event(w.ops[k].id, b, d);
    var held := w.bio.bufs[i].holders;
    var w1 := w.(view := w.view[b := d], hist := w.hist + [e]);
    if b in w.lh then w1.(bio := EditBuf(w.bio, i, d, held))
    else w1.(bio := EditBuf(w.bio, i, d, held + multiset{Pin}),
             lh := w.lh + [b], pinned := w.pinned + [i],
             ops := w.ops[k := w.ops[k].(used := w.ops[k].used + 1)])
  }

  function Crashed(w: World): (w': World)
    requires w.durable <= |w.hist|
  {
    w.(bio := Boot(w.bio.disk, |w.bio.bufs|), outstanding := 0, committing := false, lh := [], pinned := [],
       pc := ReadHead, ops := [], view := w.bio.disk, hist := w.hist[..w.durable])
  }

  ghost predicate Pre(w: World, x: Step) { Can(w, x) && Safe(w, x) }

  ghost function Next(w: World, x: Step): (w': World)
    requires Pre(w, x)
  {
    match x
    case Env(a) => w.(bio := After(w.bio, a))
    case Begin => w.(outstanding := w.outstanding + 1, ops := w.ops + [Op(w.nextOp, 0)], nextOp := w.nextOp + 1)
    case LogWrite(k, i, d) => Logged(w, k, i, d)
    case End(k) =>
      var w1 := w.(outstanding := w.outstanding - 1, ops := w.ops[..k] + w.ops[k + 1..]);
      if w1.outstanding == 0 then w1.(committing := true, pc := if w.lh == [] then Finish else CopySlot(0))
      else w1
    case Log(j, l) => LogStep(w, j, l)
    case Crash => Crashed(w)
  }

  // ---------- the invariant ----------

  function Unused(ops: seq<Op>): (n: int) {
    if ops == [] then 0 else Unused(ops[..|ops| - 1]) + (MAXOPBLOCKS - ops[|ops| - 1].used)
  }

  predicate Shape(start: nat, disk: seq<Sector>, view: seq<Sector>, base: seq<Sector>) {
    |disk| == |view| == |base| && start + LOGSIZE < |base| < U32
  }

  /** The header in memory, and its buffers: pinned exactly once, each for its block. */
  predicate LogOk(start: nat, size: nat, bufs: seq<Buf>, lh: seq<nat>, pinned: seq<nat>) {
    && |lh| == |pinned|
    && HeaderOk(start, size, lh)
    && (forall k {:trigger HitsAt(bufs, lh[k], pinned[k])} :: 0 <= k < |lh| ==> HitsAt(bufs, lh[k], pinned[k]))
    && (forall i {:trigger PinnedOnce(bufs[i], i, pinned)} :: 0 <= i < |bufs| ==> PinnedOnce(bufs[i], i, pinned))
  }

  predicate PinnedOnce(u: Buf, i: nat, pinned: seq<nat>) { u.holders[Pin] == if i in pinned then 1 else 0 }

  /** Admission: no operation is open during a commit, and the log has room for all that
      the open operations may still append. */
  predicate AdmissionOk(outstanding: nat, committing: bool, pc: Pc, ops: seq<Op>, nextOp: nat, n: nat) {
    && outstanding == |ops|
    && committing == pc.Committing()
    && (!pc.Serving? ==> ops == [])
    && (pc.Recovering() || pc.Finish? ==> n == 0)
    && OpsOk(ops, nextOp)
    && n + Unused(ops) <= LOGSIZE
  }

  predicate OpsOk(ops: seq<Op>, nextOp: nat) {
    && (forall k :: 0 <= k < |ops| ==> ops[k].used <= MAXOPBLOCKS && ops[k].id < nextOp)
    && (forall k, l :: 0 <= k < l < |ops| ==> ops[k].id != ops[l].id)
  }

  /** No operation has writes on both sides of the commit point `durable`; the writes past
      it are in the log. */
  predicate HistOk(start: nat, size: nat, hist: seq<Event>, durable: nat, ops: seq<Op>, nextOp: nat,
                   lh: seq<nat>) {
    && durable <= |hist|
    && (forall a :: 0 <= a < |hist| ==> hist[a].op < nextOp && Home(start, size, hist[a].block))
    && (forall a, b :: 0 <= a < durable <= b < |hist| ==> hist[a].op != hist[b].op)
    && (forall a, k :: 0 <= a < durable && 0 <= k < |ops| ==> hist[a].op != ops[k].id)
    && (forall a {:trigger Recorded(hist[a], lh)} :: durable <= a < |hist| ==> Recorded(hist[a], lh))
  }

  predicate Recorded(e: Event, lh: seq<nat>) { e.block in lh }

  /** The first `n` log slots on disk hold the content that `xs` gives to the blocks `h`. */
  predicate SlotsHold(start: nat, disk: seq<Sector>, xs: seq<Sector>, h: seq<nat>, n: nat)
    requires |xs| == |disk| && start + LOGSIZE < |disk|
  {
    && n <= |h| <= LOGSIZE
    && forall k {:trigger SlotAt(start, disk, xs, h, k)} :: 0 <= k < n ==> SlotAt(start, disk, xs, h, k)
  }

  predicate SlotAt(start: nat, disk: seq<Sector>, xs: seq<Sector>, h: seq<nat>, k: nat) {
    k < |h| && h[k] < |xs| && start + 1 + k < |disk| && disk[start + 1 + k] == xs[h[k]]
  }

  /** What a crash now, followed by a recovery, would leave in the home blocks: the effect
      of exactly the writes `hist`. */
  ghost predicate Promise(c: Codec, start: nat, disk: seq<Sector>, base: seq<Sector>, hist: seq<Event>) {
    && DiskOk(c, start, disk)
    && SameHome(start, Recovered(c, start, disk), Replay(base, hist))
  }

  /** Before the commit point: nothing of the open group has reached a home block. */
  ghost predicate BeforePoint(c: Codec, start: nat, disk: seq<Sector>, view: seq<Sector>, base: seq<Sector>,
                              hist: seq<Event>, durable: nat, h: seq<nat>, n: nat)
    requires Shape(start, disk, view, base) && durable <= |hist|
  {
    && c.dec(disk[start]) == []
    && SameHome(start, view, Replay(base, hist))
    && SameHome(start, disk, Replay(base, hist[..durable]))
    && SlotsHold(start, disk, view, h, n)
  }

  /** After the commit point: header and slots are on disk, and so are the home blocks
      outside the group and the first `n` inside it. */
  ghost predicate AfterPoint(c: Codec, start: nat, disk: seq<Sector>, view: seq<Sector>, base: seq<Sector>,
                             hist: seq<Event>, durable: nat, h: seq<nat>, n: nat)
    requires Shape(start, disk, view, base)
  {
    && c.dec(disk[start]) == h && durable == |hist|
    && SameHome(start, view, Replay(base, hist))
    && SlotsHold(start, disk, view, h, |h|)
    && CleanOutside(start, disk, view, h)
    && n <= |h| && forall k {:trigger HomeAt(disk, view, h, k)} :: 0 <= k < n ==> HomeAt(disk, view, h, k)
  }

  predicate HomeAt(disk: seq<Sector>, view: seq<Sector>, h: seq<nat>, k: nat) {
    k < |h| && h[k] < |disk| == |view| && disk[h[k]] == view[h[k]]
  }

  predicate Named(b: nat, h: seq<nat>) { b in h }

  ghost predicate CleanOutside(start: nat, disk: seq<Sector>, view: seq<Sector>, h: seq<nat>)
    requires |disk| == |view|
  {
    forall b: nat {:trigger Named(b, h)} :: Home(start, |disk|, b) && !Named(b, h) ==> disk[b] == view[b]
  }

  /** While recovering with `n` blocks installed. */
  ghost predicate Restoring(c: Codec, start: nat, disk: seq<Sector>, base: seq<Sector>, hist: seq<Event>, durable: nat,
                            h: seq<nat>, n: nat)
    requires start + LOGSIZE < |disk|
  {
    && Promise(c, start, disk, base, hist) && durable == |hist|
    && SlotsHold(start, disk, disk, h, n)
  }

  /** What the blocks read as while recovering: the disk, but for the buffer being written. */
  function RestoringView(c: Codec, start: nat, disk: seq<Sector>, pc: Pc): (view: seq<Sector>) {
    match pc
    case InstallHome(i, h, _) =>
      if i < |h| && h[i] < |disk| && start + 1 + i < |disk| then disk[h[i] := disk[start + 1 + i]] else disk
    case FlushRecClear(_) => if start < |disk| then disk[start := c.enc([])] else disk
    case _ => disk
  }

  ghost predicate PhaseOk(c: Codec, start: nat, disk: seq<Sector>, view: seq<Sector>, base: seq<Sector>,
                          hist: seq<Event>, durable: nat, lh: seq<nat>, pc: Pc)
    requires Shape(start, disk, view, base) && durable <= |hist|
  {
    if pc.BeforeCommit() then
      var before := BeforePoint(c, start, disk, view, base, hist, durable, lh, pc.Done(|lh|));
      pc.Counts(|lh|) && before
    else if pc.Recovering() then
      var h := c.dec(disk[start]);
      var restoring := Restoring(c, start, disk, base, hist, durable, h, pc.Done(|h|));
      && pc.Counts(|h|) && restoring
      && (pc.CopyHome? || pc.InstallHome? ==> pc.h == h)
      && view == RestoringView(c, start, disk, pc)
    else
      var after := AfterPoint(c, start, disk, view, base, hist, durable, pc.OnDisk(lh), pc.Home(|pc.OnDisk(lh)|));
      pc.Counts(|lh|) && after
  }

  /** The buffer a pending write of the committing task will send to disk. */
  predicate PendingOk(c: Codec, start: nat, bufs: seq<Buf>, view: seq<Sector>, lh: seq<nat>, pc: Pc) {
    match pc
    case FlushSlot(i, j) => i < |lh| && lh[i] < |view| && Edit(bufs, j, start + 1 + i, view[lh[i]])
    case FlushHead(j) => Edit(bufs, j, start, c.enc(lh))
    case FlushClear(j) => Edit(bufs, j, start, c.enc([]))
    case InstallHome(i, h, j) => i < |h| && h[i] < |view| && Edit(bufs, j, h[i], view[h[i]])
    case FlushRecClear(j) => Edit(bufs, j, start, c.enc([]))
    case _ => true
  }

  predicate Edit(bufs: seq<Buf>, j: nat, b: nat, d: Sector) {
    Owns(bufs, j, b) && bufs[j].data == d
  }

  ghost predicate Inv(w: World) {
    Shape(w.start, w.bio.disk, w.view, w.base) && w.durable <= |w.hist| && CodecOk(w.codec) &&
    var cache := BufferCache.Inv(w.bio, w.view);
    var log := LogOk(w.start, |w.base|, w.bio.bufs, w.lh, w.pinned);
    var admission := AdmissionOk(w.outstanding, w.committing, w.pc, w.ops, w.nextOp, |w.lh|);
    var hist := HistOk(w.start, |w.base|, w.hist, w.durable, w.ops, w.nextOp, w.lh);
    var phase := PhaseOk(w.codec, w.start, w.bio.disk, w.view, w.base, w.hist, w.durable, w.lh, w.pc);
    var pending := PendingOk(w.codec, w.start, w.bio.bufs, w.view, w.lh, w.pc);
    cache && log && admission && hist && phase && pending
  }

  // ---------- every step keeps the invariant ----------

  lemma SealedAt(c: Codec, start: nat, disk: seq<Sector>, view: seq<Sector>, lh: seq<nat>, b: nat)
    requires DiskOk(c, start, disk) && |view| == |disk| && Home(start, |disk|, b)
    requires c.dec(disk[start]) == lh && SlotsHold(start, disk, view, lh, |lh|)
    requires !Named(b, lh) ==> disk[b] == view[b]
    ensures Recovered(c, start, disk)[b] == view[b]
  {
    RecoveredAt(c, start, disk, b);
    if Named(b, lh) {
      var k :| 0 <= k < |lh| && lh[k] == b;
      assert SlotAt(start, disk, view, lh, k);
    }
  }

  lemma PromiseAfterPoint(c: Codec, start: nat, disk: seq<Sector>, view: seq<Sector>, base: seq<Sector>,
                          hist: seq<Event>, durable: nat, h: seq<nat>, n: nat)
    requires Shape(start, disk, view, base) && HeaderOk(start, |disk|, h)
    requires AfterPoint(c, start, disk, view, base, hist, durable, h, n)
    ensures Promise(c, start, disk, base, hist)
  {
    forall b: nat | Home(start, |disk|, b)
      ensures Recovered(c, start, disk)[b] == view[b]
    {
      assert Named(b, h) || !Named(b, h);
      SealedAt(c, start, disk, view, h, b);
    }
  }

  /** In every phase, a crash followed by a recovery restores exactly the committed writes. */
  lemma PromiseHolds(w: World)
    requires Inv(w)
    ensures Promise(w.codec, w.start, w.bio.disk, w.base, w.hist[..w.durable])
  {
    assert w.durable == |w.hist| ==> w.hist[..w.durable] == w.hist;
    if !w.pc.BeforeCommit() && !w.pc.Recovering() {
      PromiseAfterPoint(w.codec, w.start, w.bio.disk, w.view, w.base, w.hist, w.durable,
                        w.pc.OnDisk(w.lh), w.pc.Home(|w.pc.OnDisk(w.lh)|));
    }
  }

  lemma {:induction false} UnusedSnoc(ops: seq<Op>, o: Op)
    ensures Unused(ops + [o]) == Unused(ops) + (MAXOPBLOCKS - o.used)
  {
    assert (ops + [o])[..|ops|] == ops;
  }

  lemma {:induction false} UnusedAt(ops: seq<Op>, k: nat)
    requires k < |ops|
    ensures Unused(ops) == Unused(ops[..k]) + (MAXOPBLOCKS - ops[k].used) + Unused(ops[k + 1..])
    decreases |ops|
  {
    var init, last := ops[..|ops| - 1], ops[|ops| - 1];
    if k < |init| {
      UnusedAt(init, k);
      assert init[..k] == ops[..k];
      assert ops[k + 1..] == init[k + 1..] + [last];
      UnusedSnoc(init[k + 1..], last);
    } else {
      assert ops[k + 1..] == [];
    }
  }

  lemma {:induction false} UnusedConcat(xs: seq<Op>, ys: seq<Op>)
    ensures Unused(xs + ys) == Unused(xs) + Unused(ys)
    decreases |ys|
  {
    if ys == [] {
      assert xs + ys == xs;
    } else {
      var init, last := ys[..|ys| - 1], ys[|ys| - 1];
      UnusedConcat(xs, init);
      assert ys == init + [last] && xs + ys == (xs + init) + [last];
      UnusedSnoc(xs + init, last);
    }
  }

  lemma {:induction false} UnusedBounds(ops: seq<Op>)
    requires forall k :: 0 <= k < |ops| ==> ops[k].used <= MAXOPBLOCKS
    ensures 0 <= Unused(ops) <= Reserved(|ops|)
  {
    if ops != [] {
      UnusedBounds(ops[..|ops| - 1]);
    }
  }

  lemma EnvKeepsLog(start: nat, size: nat, s: Bio, s': Bio, lh: seq<nat>, pinned: seq<nat>)
    requires LogOk(start, size, s.bufs, lh, pinned) && SameKept(s, s')
    ensures LogOk(start, size, s'.bufs, lh, pinned)
  {
    forall k | 0 <= k < |lh|
      ensures HitsAt(s'.bufs, lh[k], pinned[k])
    {
      assert HitsAt(s.bufs, lh[k], pinned[k]);
      assert PinnedOnce(s.bufs[pinned[k]], pinned[k], pinned);
    }
    forall i | 0 <= i < |s'.bufs|
      ensures PinnedOnce(s'.bufs[i], i, pinned)
    {
      assert PinnedOnce(s.bufs[i], i, pinned);
    }
  }

  lemma EnvKeepsPending(c: Codec, start: nat, s: Bio, s': Bio, view: seq<Sector>, lh: seq<nat>, pc: Pc)
    requires PendingOk(c, start, s.bufs, view, lh, pc) && SameKept(s, s')
    ensures PendingOk(c, start, s'.bufs, view, lh, pc)
  {
  }

  lemma EnvStep(w: World, a: Act)
    requires Inv(w) && Pre(w, Env(a))
    ensures Inv(Next(w, Env(a)))
  {
    var s' := After(w.bio, a);
    ActKeepsView(w.bio, w.view, a);
    EnvKeepsLog(w.start, |w.base|, w.bio, s', w.lh, w.pinned);
    EnvKeepsPending(w.codec, w.start, w.bio, s', w.view, w.lh, w.pc);
  }

  lemma BeginKeepsHist(start: nat, size: nat, hist: seq<Event>, durable: nat, ops: seq<Op>, nextOp: nat, lh: seq<nat>)
    requires HistOk(start, size, hist, durable, ops, nextOp, lh)
    ensures HistOk(start, size, hist, durable, ops + [Op(nextOp, 0)], nextOp + 1, lh)
  {
  }

  lemma BeginKeepsAdmission(outstanding: nat, pc: Pc, ops: seq<Op>, nextOp: nat, n: nat)
    requires AdmissionOk(outstanding, false, pc, ops, nextOp, n) && pc.Serving?
    requires n + Reserved(outstanding + 1) <= LOGSIZE
    ensures AdmissionOk(outstanding + 1, false, pc, ops + [Op(nextOp, 0)], nextOp + 1, n)
  {
    UnusedSnoc(ops, Op(nextOp, 0));
    UnusedBounds(ops);
  }

  lemma BeginStep(w: World)
    requires Inv(w) && Admissible(w) && !w.pc.Recovering()
    ensures Inv(w.(outstanding := w.outstanding + 1, ops := w.ops + [Op(w.nextOp, 0)], nextOp := w.nextOp + 1))
  {
    BeginKeepsHist(w.start, |w.base|, w.hist, w.durable, w.ops, w.nextOp, w.lh);
    BeginKeepsAdmission(w.outstanding, w.pc, w.ops, w.nextOp, |w.lh|);
  }

  lemma RemoveOp(ops: seq<Op>, k: nat, nextOp: nat)
    requires k < |ops| && OpsOk(ops, nextOp)
    ensures var ops' := ops[..k] + ops[k + 1..]; Unused(ops') <= Unused(ops) && OpsOk(ops', nextOp)
  {
    UnusedAt(ops, k);
    UnusedConcat(ops[..k], ops[k + 1..]);
    var ops' := ops[..k] + ops[k + 1..];
    assert forall l :: 0 <= l < |ops'| ==> ops'[l] == ops[if l < k then l else l + 1];
  }

  lemma RemoveFromHist(start: nat, size: nat, hist: seq<Event>, durable: nat, ops: seq<Op>, nextOp: nat,
                       lh: seq<nat>, k: nat)
    requires k < |ops| && HistOk(start, size, hist, durable, ops, nextOp, lh)
    ensures HistOk(start, size, hist, durable, ops[..k] + ops[k + 1..], nextOp, lh)
  {
    var ops' := ops[..k] + ops[k + 1..];
    forall a, l | 0 <= a < durable && 0 <= l < |ops'|
      ensures hist[a].op != ops'[l].id
    {
      assert ops'[l] == ops[if l < k then l else l + 1];
    }
  }

  lemma EndKeepsAdmission(outstanding: nat, pc: Pc, ops: seq<Op>, nextOp: nat, n: nat, k: nat)
    requires AdmissionOk(outstanding, false, pc, ops, nextOp, n) && k < |ops|
    ensures outstanding > 0 && pc.Serving?
    ensures var ops' := ops[..k] + ops[k + 1..];
      && AdmissionOk(outstanding - 1, false, pc, ops', nextOp, n)
      && (outstanding == 1 ==> AdmissionOk(0, true, if n == 0 then Finish else CopySlot(0), ops', nextOp, n))
  {
    RemoveOp(ops, k, nextOp);
  }

  /** An `end_op` that leaves other operations open. */
  lemma EndOpenStep(w: World, k: nat)
    requires Inv(w) && k < |w.ops|
    ensures w.outstanding > 0 && !w.committing
    ensures Inv(w.(outstanding := w.outstanding - 1, ops := w.ops[..k] + w.ops[k + 1..]))
  {
    EndKeepsAdmission(w.outstanding, w.pc, w.ops, w.nextOp, |w.lh|, k);
    RemoveFromHist(w.start, |w.base|, w.hist, w.durable, w.ops, w.nextOp, w.lh, k);
  }

  lemma EmptyGroup(c: Codec, start: nat, disk: seq<Sector>, view: seq<Sector>, base: seq<Sector>, hist: seq<Event>,
                   durable: nat)
    requires Shape(start, disk, view, base) && durable <= |hist|
    requires BeforePoint(c, start, disk, view, base, hist, durable, [], 0)
    requires forall a {:trigger Recorded(hist[a], [])} :: durable <= a < |hist| ==> Recorded(hist[a], [])
    ensures AfterPoint(c, start, disk, view, base, hist, durable, [], 0)
  {
    assert durable < |hist| ==> Recorded(hist[durable], []);
    assert hist[..durable] == hist;
  }

  /** The `end_op` of the last open operation, which starts the commit. */
  lemma EndLastStep(w: World, k: nat)
    requires Inv(w) && k < |w.ops| && w.outstanding == 1
    ensures Inv(w.(outstanding := 0, ops := w.ops[..k] + w.ops[k + 1..], committing := true,
                   pc := if w.lh == [] then Finish else CopySlot(0)))
  {
    EndKeepsAdmission(w.outstanding, w.pc, w.ops, w.nextOp, |w.lh|, k);
    RemoveFromHist(w.start, |w.base|, w.hist, w.durable, w.ops, w.nextOp, w.lh, k);
    if w.lh == [] {
      EmptyGroup(w.codec, w.start, w.bio.disk, w.view, w.base, w.hist, w.durable);
    }
  }

  lemma CrashKeepsHist(start: nat, size: nat, hist: seq<Event>, durable: nat, ops: seq<Op>, nextOp: nat, lh: seq<nat>)
    requires HistOk(start, size, hist, durable, ops, nextOp, lh)
    ensures HistOk(start, size, hist[..durable], durable, [], nextOp, [])
  {
  }

  lemma CrashStep(w: World)
    requires Inv(w)
    ensures Inv(Crashed(w))
  {
    PromiseHolds(w);
    BootInv(w.bio.disk, |w.bio.bufs|);
    CrashKeepsHist(w.start, |w.base|, w.hist, w.durable, w.ops, w.nextOp, w.lh);
  }

  // log_write

  lemma PinnedSlot(w: World, i: nat)
    requires Inv(w) && i < |w.bio.bufs| && w.bio.bufs[i].valid
    ensures w.bio.bufs[i].block in w.lh <==> i in w.pinned
  {
    var b := w.bio.bufs[i].block;
    if b in w.lh {
      var k :| 0 <= k < |w.lh| && w.lh[k] == b;
      assert HitsAt(w.bio.bufs, b, w.pinned[k]);
    }
    if i in w.pinned {
      var k :| 0 <= k < |w.pinned| && w.pinned[k] == i;
      assert HitsAt(w.bio.bufs, w.lh[k], i);
    }
  }

  lemma AppendKeepsLog(start: nat, size: nat, s: Bio, lh: seq<nat>, pinned: seq<nat>, i: nat, d: Sector)
    requires LogOk(start, size, s.bufs, lh, pinned) && i < |s.bufs| && s.bufs[i].valid && i !in pinned
    requires |lh| < LOGSIZE && Home(start, size, s.bufs[i].block) && s.bufs[i].block !in lh
    ensures LogOk(start, size, EditBuf(s, i, d, s.bufs[i].holders + multiset{Pin}).bufs,
                  lh + [s.bufs[i].block], pinned + [i])
  {
    var bufs' := EditBuf(s, i, d, s.bufs[i].holders + multiset{Pin}).bufs;
    forall k | 0 <= k < |lh|
      ensures HitsAt(bufs', lh[k], pinned[k])
    {
      assert HitsAt(s.bufs, lh[k], pinned[k]);
    }
    forall j | 0 <= j < |bufs'|
      ensures PinnedOnce(bufs'[j], j, pinned + [i])
    {
      assert PinnedOnce(s.bufs[j], j, pinned);
    }
  }

  /** Editing a buffer in place does not disturb the header in memory. */
  lemma EditKeepsLog(start: nat, size: nat, s: Bio, lh: seq<nat>, pinned: seq<nat>, i: nat, d: Sector)
    requires LogOk(start, size, s.bufs, lh, pinned) && i < |s.bufs|
    ensures LogOk(start, size, EditBuf(s, i, d, s.bufs[i].holders).bufs, lh, pinned)
  {
    var bufs' := EditBuf(s, i, d, s.bufs[i].holders).bufs;
    forall k | 0 <= k < |lh|
      ensures HitsAt(bufs', lh[k], pinned[k])
    {
      assert HitsAt(s.bufs, lh[k], pinned[k]);
    }
    forall j | 0 <= j < |bufs'|
      ensures PinnedOnce(bufs'[j], j, pinned)
    {
      assert PinnedOnce(s.bufs[j], j, pinned);
    }
  }

  lemma WriteKeepsPhase(c: Codec, start: nat, disk: seq<Sector>, view: seq<Sector>, base: seq<Sector>,
                        hist: seq<Event>, durable: nat, h: seq<nat>, h': seq<nat>, e: Event)
    requires Shape(start, disk, view, base) && durable <= |hist| && |h'| <= LOGSIZE
    requires BeforePoint(c, start, disk, view, base, hist, durable, h, 0) && e.block < |base|
    ensures BeforePoint(c, start, disk, view[e.block := e.data], base, hist + [e], durable, h', 0)
  {
    ReplaySnoc(base, hist, e);
    assert (hist + [e])[..durable] == hist[..durable];
  }

  lemma ChargeOp(ops: seq<Op>, k: nat, nextOp: nat)
    requires k < |ops| && OpsOk(ops, nextOp) && ops[k].used < MAXOPBLOCKS
    ensures var ops' := ops[k := ops[k].(used := ops[k].used + 1)];
      Unused(ops') == Unused(ops) - 1 && OpsOk(ops', nextOp)
  {
    var ops' := ops[k := ops[k].(used := ops[k].used + 1)];
    UnusedAt(ops, k);
    UnusedAt(ops', k);
    assert ops'[..k] == ops[..k] && ops'[k + 1..] == ops[k + 1..];
  }

  lemma WriteKeepsHist(start: nat, size: nat, hist: seq<Event>, durable: nat, ops: seq<Op>, ops': seq<Op>,
                       nextOp: nat, lh: seq<nat>, lh': seq<nat>, k: nat, e: Event)
    requires HistOk(start, size, hist, durable, ops, nextOp, lh) && OpsOk(ops, nextOp)
    requires k < |ops| && e.op == ops[k].id && Home(start, size, e.block)
    requires |ops'| == |ops| && forall l :: 0 <= l < |ops| ==> ops'[l].id == ops[l].id
    requires lh <= lh' && e.block in lh'
    ensures HistOk(start, size, hist + [e], durable, ops', nextOp, lh')
  {
    var hist' := hist + [e];
    forall a | durable <= a < |hist'|
      ensures Recorded(hist'[a], lh')
    {
      assert a < |hist| ==> Recorded(hist[a], lh);
    }
  }

  lemma AbsorbStep(w: World, k: nat, i: nat, d: Sector)
    requires Inv(w) && Pre(w, LogWrite(k, i, d)) && w.bio.bufs[i].block in w.lh
    ensures Inv(Next(w, LogWrite(k, i, d)))
  {
    var b := w.bio.bufs[i].block;
    var e := Event(w.ops[k].id, b, d);
    PinnedSlot(w, i);
    assert PinnedOnce(w.bio.bufs[i], i, w.pinned);
    EditKeepsInv(w.bio, w.view, i, d, w.bio.bufs[i].holders);
    EditKeepsLog(w.start, |w.base|, w.bio, w.lh, w.pinned, i, d);
    WriteKeepsPhase(w.codec, w.start, w.bio.disk, w.view, w.base, w.hist, w.durable, w.lh, w.lh, e);
    WriteKeepsHist(w.start, |w.base|, w.hist, w.durable, w.ops, w.ops, w.nextOp, w.lh, w.lh, k, e);
  }

  lemma AppendStep(w: World, k: nat, i: nat, d: Sector)
    requires Inv(w) && Pre(w, LogWrite(k, i, d)) && w.bio.bufs[i].block !in w.lh
    ensures Inv(Next(w, LogWrite(k, i, d)))
  {
    var b := w.bio.bufs[i].block;
    var e := Event(w.ops[k].id, b, d);
    PinnedSlot(w, i);
    EditKeepsInv(w.bio, w.view, i, d, w.bio.bufs[i].holders + multiset{Pin});
    AppendKeepsLog(w.start, |w.base|, w.bio, w.lh, w.pinned, i, d);
    WriteKeepsPhase(w.codec, w.start, w.bio.disk, w.view, w.base, w.hist, w.durable, w.lh, w.lh + [b], e);
    var ops' := w.ops[k := w.ops[k].(used := w.ops[k].used + 1)];
    ChargeAdmission(w.outstanding, w.committing, w.pc, w.ops, k, w.nextOp, |w.lh|);
    WriteKeepsHist(w.start, |w.base|, w.hist, w.durable, w.ops, ops', w.nextOp, w.lh, w.lh + [b], k, e);
    AppendNext(w, k, i, d);
  }

  lemma ChargeAdmission(outstanding: nat, committing: bool, pc: Pc, ops: seq<Op>, k: nat, nextOp: nat, n: nat)
    requires AdmissionOk(outstanding, committing, pc, ops, nextOp, n) && k < |ops| && ops[k].used < MAXOPBLOCKS
    ensures
      var ops' := ops[k := ops[k].(used := ops[k].used + 1)];
      OpsOk(ops', nextOp) && AdmissionOk(outstanding, committing, pc, ops', nextOp, n + 1)
  {
    ChargeOp(ops, k, nextOp);
  }

  /** `log_write` of a block that is not recorded yet. */
  lemma AppendNext(w: World, k: nat, i: nat, d: Sector)
    requires Pre(w, LogWrite(k, i, d)) && w.bio.bufs[i].block !in w.lh && w.bio.bufs[i].block < |w.view|
    ensures
      var b := w.bio.bufs[i].block;
      Next(w, LogWrite(k, i, d)) ==
        World(w.codec, EditBuf(w.bio, i, d, w.bio.bufs[i].holders + multiset{Pin}), w.start, w.outstanding,
              w.committing, w.lh + [b], w.pinned + [i], w.pc,
              w.ops[k := w.ops[k].(used := w.ops[k].used + 1)], w.nextOp,
              w.view[b := d], w.base, w.hist + [Event(w.ops[k].id, b, d)], w.durable)
  {
  }

  // the committing task

  lemma FlushKeeps(start: nat, size: nat, s: Bio, view: seq<Sector>, lh: seq<nat>, pinned: seq<nat>, j: nat, b: nat)
    requires BufferCache.Inv(s, view) && LogOk(start, size, s.bufs, lh, pinned) && Owns(s.bufs, j, b)
    ensures b < |view| && s.bufs[j].data == view[b]
    ensures var s' := Drop(WriteBuf(s, j), j, Committer);
      && s'.disk == s.disk[b := view[b]]
      && BufferCache.Inv(s', view) && LogOk(start, size, s'.bufs, lh, pinned)
  {
    WriteKeepsInv(s, view, j);
    DropKeepsInv(WriteBuf(s, j), view, j, Committer);
    DropKeepsLog(start, size, s, lh, pinned, j);
  }

  lemma DropKeepsLog(start: nat, size: nat, s: Bio, lh: seq<nat>, pinned: seq<nat>, j: nat)
    requires LogOk(start, size, s.bufs, lh, pinned) && j < |s.bufs|
    ensures LogOk(start, size, Drop(s, j, Committer).bufs, lh, pinned)
  {
    var bufs' := Drop(s, j, Committer).bufs;
    forall k | 0 <= k < |lh|
      ensures HitsAt(bufs', lh[k], pinned[k])
    {
      assert HitsAt(s.bufs, lh[k], pinned[k]);
    }
    forall i | 0 <= i < |bufs'|
      ensures PinnedOnce(bufs'[i], i, pinned)
    {
      assert PinnedOnce(s.bufs[i], i, pinned);
    }
  }

  lemma EditLogRegion(c: Codec, start: nat, disk: seq<Sector>, view: seq<Sector>, base: seq<Sector>,
                      hist: seq<Event>, durable: nat, h: seq<nat>, n: nat, b: nat, d: Sector)
    requires Shape(start, disk, view, base) && durable <= |hist| && HeaderOk(start, |base|, h)
    requires start <= b <= start + LOGSIZE
    ensures BeforePoint(c, start, disk, view, base, hist, durable, h, n) ==>
              BeforePoint(c, start, disk, view[b := d], base, hist, durable, h, n)
    ensures AfterPoint(c, start, disk, view, base, hist, durable, h, n) ==>
              AfterPoint(c, start, disk, view[b := d], base, hist, durable, h, n)
  {
    SlotsFollow(start, disk, disk, view, view[b := d], h);
  }

  /** Log slots and home blocks keep their contents under updates elsewhere. */
  lemma SlotsFollow(start: nat, disk: seq<Sector>, disk': seq<Sector>, xs: seq<Sector>, xs': seq<Sector>, h: seq<nat>)
    requires |disk| == |disk'| == |xs| == |xs'| && start + LOGSIZE < |disk| && HeaderOk(start, |disk|, h)
    ensures forall k {:trigger SlotAt(start, disk', xs', h, k)} ::
              0 <= k < |h| && disk'[start + 1 + k] == disk[start + 1 + k] && xs'[h[k]] == xs[h[k]] ==>
              SlotAt(start, disk', xs', h, k) == SlotAt(start, disk, xs, h, k)
    ensures forall k {:trigger HomeAt(disk', xs', h, k)} ::
              0 <= k < |h| && disk'[h[k]] == disk[h[k]] && xs'[h[k]] == xs[h[k]] ==>
              HomeAt(disk', xs', h, k) == HomeAt(disk, xs, h, k)
  {
  }

  lemma EditOwned(w: World, j: nat, b: nat, d: Sector)
    requires Inv(w) && Owns(w.bio.bufs, j, b)
    ensures b < |w.view|
    ensures var w' := Edited(w, j, d);
      && BufferCache.Inv(w'.bio, w'.view) && w'.bio.disk == w.bio.disk && w'.view == w.view[b := d]
      && LogOk(w.start, |w.base|, w'.bio.bufs, w.lh, w.pinned)
      && Edit(w'.bio.bufs, j, b, d)
  {
    EditKeepsInv(w.bio, w.view, j, d, w.bio.bufs[j].holders);
    EditKeepsLog(w.start, |w.base|, w.bio, w.lh, w.pinned, j, d);
  }

  lemma PinnedData(w: World, i: nat)
    requires Inv(w) && i < |w.lh|
    ensures HitsAt(w.bio.bufs, w.lh[i], w.pinned[i])
    ensures Home(w.start, |w.view|, w.lh[i]) && w.bio.bufs[w.pinned[i]].data == w.view[w.lh[i]]
  {
    assert HitsAt(w.bio.bufs, w.lh[i], w.pinned[i]);
  }

  lemma CopySlotStep(w: World, i: nat, j: nat)
    requires Inv(w) && w.pc == CopySlot(i) && Owns(w.bio.bufs, j, w.start + 1 + i)
    ensures PinInRange(w, i) && InRange(w, j)
    ensures Inv(Edited(w, j, w.bio.bufs[w.pinned[i]].data).(pc := FlushSlot(i, j)))
  {
    PinnedData(w, i);
    var d := w.bio.bufs[w.pinned[i]].data;
    EditOwned(w, j, w.start + 1 + i, d);
    EditLogRegion(w.codec, w.start, w.bio.disk, w.view, w.base, w.hist, w.durable, w.lh, i, w.start + 1 + i, d);
  }

  lemma CopyHeadStep(w: World, j: nat)
    requires Inv(w) && w.pc == CopyHead && Owns(w.bio.bufs, j, w.start)
    ensures InRange(w, j) && H.Fits(w.lh)
    ensures Inv(Edited(w, j, w.codec.enc(w.lh)).(pc := FlushHead(j)))
  {
    EditOwned(w, j, w.start, w.codec.enc(w.lh));
    EditLogRegion(w.codec, w.start, w.bio.disk, w.view, w.base, w.hist, w.durable, w.lh, |w.lh|, w.start,
                  w.codec.enc(w.lh));
  }

  lemma CopyClearStep(w: World, j: nat)
    requires Inv(w) && w.pc == CopyClear && Owns(w.bio.bufs, j, w.start)
    ensures InRange(w, j)
    ensures Inv(Edited(w, j, w.codec.enc([])).(pc := FlushClear(j)))
  {
    EditOwned(w, j, w.start, w.codec.enc([]));
    EditLogRegion(w.codec, w.start, w.bio.disk, w.view, w.base, w.hist, w.durable, w.lh, |w.lh|, w.start,
                  w.codec.enc([]));
    assert FlushClear(j).OnDisk(w.lh) == CopyClear.OnDisk(w.lh) == w.lh;
  }

  lemma FlushSlotStep(w: World, i: nat, m: nat)
    requires Inv(w) && w.pc == FlushSlot(i, m)
    ensures InRange(w, m)
    ensures Inv(Flushed(w, m).(pc := NextSlot(i, |w.lh|)))
  {
    FlushKeeps(w.start, |w.base|, w.bio, w.view, w.lh, w.pinned, m, w.start + 1 + i);
    SlotReached(w.codec, w.start, w.bio.disk, w.view, w.base, w.hist, w.durable, w.lh, i);
  }

  lemma SlotReached(c: Codec, start: nat, disk: seq<Sector>, view: seq<Sector>, base: seq<Sector>,
                    hist: seq<Event>, durable: nat, h: seq<nat>, i: nat)
    requires Shape(start, disk, view, base) && durable <= |hist| && HeaderOk(start, |base|, h) && i < |h|
    requires BeforePoint(c, start, disk, view, base, hist, durable, h, i)
    ensures BeforePoint(c, start, disk[start + 1 + i := view[h[i]]], view, base, hist, durable, h, i + 1)
  {
    SlotsFollow(start, disk, disk[start + 1 + i := view[h[i]]], view, view, h);
  }

  /** A block that no write past `n` names keeps the content it had at `n`. */
  lemma {:induction false} ReplayUntouched(base: seq<Sector>, hist: seq<Event>, n: nat, b: nat)
    requires n <= |hist| && b < |base|
    requires forall a :: n <= a < |hist| ==> hist[a].block != b
    ensures Replay(base, hist)[b] == Replay(base, hist[..n])[b]
  {
    if n < |hist| {
      var init := hist[..|hist| - 1];
      ReplayUntouched(base, init, n, b);
      assert init[..n] == hist[..n];
    } else {
      assert hist[..n] == hist;
    }
  }

  /** The commit point: writing the header turns the open group into the committed state. */
  lemma CommitPoint(c: Codec, start: nat, disk: seq<Sector>, view: seq<Sector>, base: seq<Sector>,
                    hist: seq<Event>, durable: nat, h: seq<nat>)
    requires CodecOk(c)
    requires Shape(start, disk, view, base) && durable <= |hist| && HeaderOk(start, |base|, h)
    requires BeforePoint(c, start, disk, view, base, hist, durable, h, |h|)
    requires forall a {:trigger Recorded(hist[a], h)} :: durable <= a < |hist| ==> Recorded(hist[a], h)
    ensures H.Fits(h)
    ensures AfterPoint(c, start, disk[start := c.enc(h)], view, base, hist, |hist|, h, 0)
  {
    assert H.Fits(h);
    SlotsFollow(start, disk, disk[start := c.enc(h)], view, view, h);
    forall b: nat | Home(start, |disk|, b) && !Named(b, h)
      ensures disk[b] == view[b]
    {
      UnloggedIsClean(start, disk, view, base, hist, durable, h, b);
    }
  }

  lemma UnloggedIsClean(start: nat, disk: seq<Sector>, view: seq<Sector>, base: seq<Sector>,
                        hist: seq<Event>, durable: nat, h: seq<nat>, b: nat)
    requires durable <= |hist| && |base| == |disk| == |view| && Home(start, |disk|, b) && b !in h
    requires SameHome(start, view, Replay(base, hist)) && SameHome(start, disk, Replay(base, hist[..durable]))
    requires forall a {:trigger Recorded(hist[a], h)} :: durable <= a < |hist| ==> Recorded(hist[a], h)
    ensures disk[b] == view[b]
  {
    forall a | durable <= a < |hist|
      ensures hist[a].block != b
    {
      assert Recorded(hist[a], h);
    }
    ReplayUntouched(base, hist, durable, b);
  }

  lemma SealKeepsHist(start: nat, size: nat, hist: seq<Event>, durable: nat, ops: seq<Op>, nextOp: nat, lh: seq<nat>)
    requires HistOk(start, size, hist, durable, ops, nextOp, lh) && ops == []
    ensures HistOk(start, size, hist, |hist|, ops, nextOp, lh)
  {
  }

  lemma FlushHeadStep(w: World, m: nat)
    requires Inv(w) && w.pc == FlushHead(m) && w.lh != []
    ensures InRange(w, m)
    ensures Inv(Flushed(w, m).(pc := FlushHome(0), durable := |w.hist|))
  {
    FlushKeeps(w.start, |w.base|, w.bio, w.view, w.lh, w.pinned, m, w.start);
    CommitPoint(w.codec, w.start, w.bio.disk, w.view, w.base, w.hist, w.durable, w.lh);
    SealKeepsHist(w.start, |w.base|, w.hist, w.durable, w.ops, w.nextOp, w.lh);
  }

  lemma HomeReached(c: Codec, start: nat, disk: seq<Sector>, view: seq<Sector>, base: seq<Sector>,
                    hist: seq<Event>, durable: nat, h: seq<nat>, i: nat)
    requires Shape(start, disk, view, base) && HeaderOk(start, |base|, h) && i < |h|
    requires AfterPoint(c, start, disk, view, base, hist, durable, h, i)
    ensures AfterPoint(c, start, disk[h[i] := view[h[i]]], view, base, hist, durable, h, i + 1)
  {
    SlotsFollow(start, disk, disk[h[i] := view[h[i]]], view, view, h);
    assert Named(h[i], h);
  }

  lemma HomePhase(c: Codec, start: nat, disk: seq<Sector>, view: seq<Sector>, base: seq<Sector>,
                  hist: seq<Event>, durable: nat, h: seq<nat>, i: nat)
    requires Shape(start, disk, view, base) && HeaderOk(start, |base|, h) && durable <= |hist| && i < |h|
    requires PhaseOk(c, start, disk, view, base, hist, durable, h, FlushHome(i))
    ensures PhaseOk(c, start, disk[h[i] := view[h[i]]], view, base, hist, durable, h, NextHome(i, |h|))
  {
    HomeReached(c, start, disk, view, base, hist, durable, h, i);
    assert NextHome(i, |h|).OnDisk(h) == h && NextHome(i, |h|).Home(|h|) == i + 1;
  }

  lemma FlushHomeStep(w: World, i: nat)
    requires Inv(w) && w.pc == FlushHome(i)
    ensures PinInRange(w, i)
    ensures Inv(w.(bio := WriteBuf(w.bio, w.pinned[i]), pc := NextHome(i, |w.lh|)))
  {
    PinnedData(w, i);
    WriteKeepsInv(w.bio, w.view, w.pinned[i]);
    HomePhase(w.codec, w.start, w.bio.disk, w.view, w.base, w.hist, w.durable, w.lh, i);
    assert WriteBuf(w.bio, w.pinned[i]).disk == w.bio.disk[w.lh[i] := w.view[w.lh[i]]];
  }

  lemma HeadCleared(c: Codec, start: nat, disk: seq<Sector>, view: seq<Sector>, base: seq<Sector>,
                    hist: seq<Event>, durable: nat, h: seq<nat>, m: nat)
    requires CodecOk(c)
    requires Shape(start, disk, view, base) && durable <= |hist|
    requires PhaseOk(c, start, disk, view, base, hist, durable, h, FlushClear(m))
    ensures PhaseOk(c, start, disk[start := c.enc([])], view, base, hist, durable, h, Unpin)
  {
    assert H.Fits([]);
    assert Unpin.OnDisk(h) == [] && Unpin.Home(0) == 0;
    forall b: nat | Home(start, |disk|, b)
      ensures disk[b] == view[b]
    {
      if Named(b, h) {
        var k :| 0 <= k < |h| && h[k] == b;
        assert HomeAt(disk, view, h, k);
      }
    }
  }

  lemma FlushClearStep(w: World, m: nat)
    requires Inv(w) && w.pc == FlushClear(m)
    ensures InRange(w, m)
    ensures Inv(Flushed(w, m).(pc := Unpin))
  {
    FlushKeeps(w.start, |w.base|, w.bio, w.view, w.lh, w.pinned, m, w.start);
    assert Flushed(w, m).bio.disk == w.bio.disk[w.start := w.codec.enc([])];
    HeadCleared(w.codec, w.start, w.bio.disk, w.view, w.base, w.hist, w.durable, w.lh, m);
  }

  // unpinning

  lemma UnpinKeepsInv(s: Bio, view: seq<Sector>, start: nat, lh: seq<nat>, pinned: seq<nat>)
    requires BufferCache.Inv(s, view) && LogOk(start, |view|, s.bufs, lh, pinned)
    requires SameHome(start, s.disk, view)
    ensures BufferCache.Inv(s.(bufs := UnpinAll(s.bufs, pinned)), view)
    ensures LogOk(start, |view|, UnpinAll(s.bufs, pinned), [], [])
  {
    var s' := s.(bufs := UnpinAll(s.bufs, pinned));
    forall i | 0 <= i < |s'.bufs|
      ensures BufOk(s'.bufs[i], view) && PinnedOnce(s'.bufs[i], i, [])
    {
      assert BufOk(s.bufs[i], view);
      assert PinnedOnce(s.bufs[i], i, pinned);
      if i in pinned {
        var k :| 0 <= k < |pinned| && pinned[k] == i;
        assert HitsAt(s.bufs, lh[k], pinned[k]);
      }
    }
    forall b | Dirty(s', view, b)
      ensures exists j :: Kept(s', j, b)
    {
      assert Dirty(s, view, b) && !Home(start, |view|, b);
      var j: nat :| Kept(s, j, b);
      assert PinnedOnce(s.bufs[j], j, pinned);
      if j in pinned {
        var k :| 0 <= k < |pinned| && pinned[k] == j;
        assert HitsAt(s.bufs, lh[k], pinned[k]);
      }
      assert Kept(s', j, b);
    }
  }

  lemma AllClean(start: nat, disk: seq<Sector>, view: seq<Sector>)
    requires |disk| == |view| && CleanOutside(start, disk, view, [])
    ensures SameHome(start, disk, view)
  {
    forall b: nat | Home(start, |disk|, b)
      ensures disk[b] == view[b]
    {
      assert !Named(b, []);
    }
  }

  lemma UnpinPhase(c: Codec, start: nat, disk: seq<Sector>, view: seq<Sector>, base: seq<Sector>,
                   hist: seq<Event>, durable: nat, lh: seq<nat>)
    requires Shape(start, disk, view, base) && durable <= |hist|
    requires PhaseOk(c, start, disk, view, base, hist, durable, lh, Unpin)
    ensures durable == |hist| && SameHome(start, disk, view)
    ensures PhaseOk(c, start, disk, view, base, hist, durable, [], Finish)
  {
    assert Unpin.OnDisk(lh) == Finish.OnDisk([]) == [];
    AllClean(start, disk, view);
  }

  lemma UnpinStep(w: World)
    requires Inv(w) && w.pc == Unpin
    ensures Inv(w.(bio := w.bio.(bufs := UnpinAll(w.bio.bufs, w.pinned)), lh := [], pinned := [], pc := Finish))
  {
    UnpinPhase(w.codec, w.start, w.bio.disk, w.view, w.base, w.hist, w.durable, w.lh);
    UnpinKeepsInv(w.bio, w.view, w.start, w.lh, w.pinned);
    CrashKeepsHist(w.start, |w.base|, w.hist, w.durable, w.ops, w.nextOp, w.lh);
    assert w.hist[..w.durable] == w.hist;
  }

  lemma FinishStep(w: World)
    requires Inv(w) && w.pc == Finish
    ensures Inv(w.(committing := false, pc := Serving))
  {
    assert w.hist[..w.durable] == w.hist;
    AllClean(w.start, w.bio.disk, w.view);
    assert Finish.OnDisk(w.lh) == [];
  }

  // recovery

  lemma ReadHeadStep(w: World, j: nat)
    requires Inv(w) && w.pc == ReadHead && Owns(w.bio.bufs, j, w.start)
    ensures w.bio.bufs[j].data == w.bio.disk[w.start]
    ensures var h := w.codec.dec(w.bio.disk[w.start]);
      Inv(w.(bio := Drop(w.bio, j, Committer), pc := if h == [] then Serving else CopyHome(0, h)))
  {
    DropKeepsInv(w.bio, w.view, j, Committer);
    DropKeepsLog(w.start, |w.base|, w.bio, w.lh, w.pinned, j);
    assert w.hist[..w.durable] == w.hist;
  }

  lemma InstallKeepsPromise(c: Codec, start: nat, disk: seq<Sector>, base: seq<Sector>, hist: seq<Event>,
                            h: seq<nat>, i: nat)
    requires Promise(c, start, disk, base, hist) && h == c.dec(disk[start]) && i < |h| && |base| == |disk|
    ensures h[i] < |disk|
    ensures Promise(c, start, disk[h[i] := disk[start + 1 + i]], base, hist)
  {
    var disk' := disk[h[i] := disk[start + 1 + i]];
    forall b: nat | Home(start, |disk|, b)
      ensures Recovered(c, start, disk')[b] == Recovered(c, start, disk)[b]
    {
      RecoveredAt(c, start, disk, b);
      RecoveredAt(c, start, disk', b);
      if b in h {
        var k :| 0 <= k < |h| && h[k] == b;
        assert disk'[start + 1 + k] == disk[start + 1 + k];
      }
    }
  }

  lemma ClearKeepsPromise(c: Codec, start: nat, disk: seq<Sector>, base: seq<Sector>, hist: seq<Event>)
    requires CodecOk(c)
    requires Promise(c, start, disk, base, hist) && |base| == |disk|
    requires var h := c.dec(disk[start]); SlotsHold(start, disk, disk, h, |h|)
    ensures SameHome(start, disk, Replay(base, hist))
    ensures c.dec(disk[start := c.enc([])][start]) == []
  {
    assert H.Fits([]);
    var h := c.dec(disk[start]);
    forall b: nat | Home(start, |disk|, b)
      ensures disk[b] == Recovered(c, start, disk)[b]
    {
      RecoveredAt(c, start, disk, b);
      if b in h {
        var k :| 0 <= k < |h| && h[k] == b;
        assert SlotAt(start, disk, disk, h, k);
      }
    }
  }

  lemma CopyBuffers(s: Bio, view: seq<Sector>, start: nat, lh: seq<nat>, pinned: seq<nat>, j: nat, l: nat, b: nat,
                    c: nat)
    requires BufferCache.Inv(s, view) && LogOk(start, |view|, s.bufs, lh, pinned)
    requires Owns(s.bufs, j, b) && Owns(s.bufs, l, c) && b != c && c < |view| && s.disk[c] == view[c]
    ensures b < |view| && s.bufs[l].data == view[c]
    ensures var s' := Drop(EditBuf(s, j, view[c], s.bufs[j].holders), l, Committer);
      && BufferCache.Inv(s', view[b := view[c]]) && LogOk(start, |view|, s'.bufs, lh, pinned)
      && s'.disk == s.disk && Edit(s'.bufs, j, b, view[c])
  {
    var s1 := EditBuf(s, j, view[c], s.bufs[j].holders);
    EditKeepsInv(s, view, j, view[c], s.bufs[j].holders);
    EditKeepsLog(start, |view|, s, lh, pinned, j, view[c]);
    assert j != l && s1.bufs[l] == s.bufs[l];
    DropKeepsInv(s1, view[b := view[c]], l, Committer);
    DropKeepsLog(start, |view|, s1, lh, pinned, l);
  }

  lemma CopyPhase(c: Codec, start: nat, disk: seq<Sector>, base: seq<Sector>,
                  hist: seq<Event>, durable: nat, lh: seq<nat>, i: nat, h: seq<nat>, j: nat)
    requires Shape(start, disk, disk, base) && durable <= |hist|
    requires PhaseOk(c, start, disk, disk, base, hist, durable, lh, CopyHome(i, h))
    ensures i < |h| && Home(start, |disk|, h[i])
    ensures PhaseOk(c, start, disk, disk[h[i] := disk[start + 1 + i]], base, hist, durable, lh, InstallHome(i, h, j))
  {
  }

  lemma CopyHomeStep(w: World, i: nat, h: seq<nat>, j: nat, l: nat)
    requires Inv(w) && w.pc == CopyHome(i, h) && i < |h|
    requires Owns(w.bio.bufs, j, h[i]) && Owns(w.bio.bufs, l, w.start + 1 + i)
    ensures InRange(w, j) && InRange(w, l)
    ensures var w1 := Edited(w, j, w.bio.bufs[l].data);
      Inv(w1.(bio := Drop(w1.bio, l, Committer), pc := InstallHome(i, h, j)))
  {
    CopyPhase(w.codec, w.start, w.view, w.base, w.hist, w.durable, w.lh, i, h, j);
    CopyBuffers(w.bio, w.view, w.start, w.lh, w.pinned, j, l, h[i], w.start + 1 + i);
  }

  lemma Installed(c: Codec, start: nat, disk: seq<Sector>, base: seq<Sector>, hist: seq<Event>, durable: nat,
                  h: seq<nat>, i: nat)
    requires start + LOGSIZE < |disk| && |base| == |disk| && h == c.dec(disk[start]) && i < |h|
    requires Restoring(c, start, disk, base, hist, durable, h, i)
    ensures Home(start, |disk|, h[i])
    ensures var disk' := disk[h[i] := disk[start + 1 + i]];
      Restoring(c, start, disk', base, hist, durable, h, i + 1) && disk'[start] == disk[start]
  {
    InstallKeepsPromise(c, start, disk, base, hist, h, i);
    var disk' := disk[h[i] := disk[start + 1 + i]];
    SlotsFollow(start, disk, disk', disk, disk', h);
    assert forall k :: 0 <= k < i ==> SlotAt(start, disk, disk, h, k);
    assert SlotAt(start, disk', disk', h, i);
  }

  lemma InstalledPhase(c: Codec, start: nat, disk: seq<Sector>, view: seq<Sector>, base: seq<Sector>,
                       hist: seq<Event>, durable: nat, lh: seq<nat>, i: nat, h: seq<nat>, m: nat)
    requires Shape(start, disk, view, base) && durable <= |hist|
    requires PhaseOk(c, start, disk, view, base, hist, durable, lh, InstallHome(i, h, m))
    ensures i < |h| && Home(start, |disk|, h[i]) && view == disk[h[i] := view[h[i]]]
    ensures PhaseOk(c, start, view, view, base, hist, durable, lh, NextInstall(i + 1, h))
  {
    Installed(c, start, disk, base, hist, durable, h, i);
    var pc' := NextInstall(i + 1, h);
    assert pc'.Done(|h|) == i + 1 && pc'.Counts(|h|) && RestoringView(c, start, view, pc') == view;
  }

  lemma InstallHomeStep(w: World, i: nat, h: seq<nat>, m: nat)
    requires Inv(w) && w.pc == InstallHome(i, h, m)
    ensures InRange(w, m)
    ensures Inv(Flushed(w, m).(pc := NextInstall(i + 1, h)))
  {
    InstalledPhase(w.codec, w.start, w.bio.disk, w.view, w.base, w.hist, w.durable, w.lh, i, h, m);
    FlushKeeps(w.start, |w.base|, w.bio, w.view, w.lh, w.pinned, m, h[i]);
    assert Flushed(w, m).bio.disk == w.view;
  }

  lemma CopyRecClearStep(w: World, j: nat)
    requires Inv(w) && w.pc == CopyRecClear && Owns(w.bio.bufs, j, w.start)
    ensures InRange(w, j)
    ensures Inv(Edited(w, j, w.codec.enc([])).(pc := FlushRecClear(j)))
  {
    EditOwned(w, j, w.start, w.codec.enc([]));
  }

  lemma FlushRecClearStep(w: World, m: nat)
    requires Inv(w) && w.pc == FlushRecClear(m)
    ensures InRange(w, m)
    ensures Inv(Flushed(w, m).(pc := Serving))
  {
    FlushKeeps(w.start, |w.base|, w.bio, w.view, w.lh, w.pinned, m, w.start);
    ClearKeepsPromise(w.codec, w.start, w.bio.disk, w.base, w.hist);
    assert w.hist[..w.durable] == w.hist;
    assert Flushed(w, m).bio.disk == w.bio.disk[w.start := w.codec.enc([])] == w.view;
  }

  // ---------- whole runs ----------

  lemma CommitFirstHalf(w: World, j: nat, l: nat)
    requires Inv(w) && Can(w, Log(j, l)) && w.pc.BeforeCommit()
    ensures Safe(w, Log(j, l)) && Inv(LogStep(w, j, l))
  {
    match w.pc {
      case CopySlot(i) => CopySlotStep(w, i, j);
      case FlushSlot(i, m) => FlushSlotStep(w, i, m);
      case CopyHead => CopyHeadStep(w, j);
      case FlushHead(m) => FlushHeadStep(w, m);
    }
  }

  lemma CommitSecondHalf(w: World, j: nat, l: nat)
    requires Inv(w) && Can(w, Log(j, l)) && !w.pc.BeforeCommit() && !w.pc.Recovering()
    ensures Safe(w, Log(j, l)) && Inv(LogStep(w, j, l))
  {
    match w.pc {
      case FlushHome(i) => FlushHomeStep(w, i);
      case CopyClear => CopyClearStep(w, j);
      case FlushClear(m) => FlushClearStep(w, m);
      case Unpin => UnpinStep(w);
      case Finish => FinishStep(w);
    }
  }

  lemma RecoveryInstalls(w: World, j: nat, l: nat)
    requires Inv(w) && Can(w, Log(j, l)) && (w.pc.CopyHome? || w.pc.InstallHome?)
    ensures Safe(w, Log(j, l)) && Inv(LogStep(w, j, l))
  {
    if w.pc.CopyHome? {
      CopyHomeStep(w, w.pc.i, w.pc.h, j, l);
    } else {
      InstallHomeStep(w, w.pc.i, w.pc.h, w.pc.j);
    }
  }

  lemma RecoveryEnds(w: World, j: nat, l: nat)
    requires Inv(w) && Can(w, Log(j, l)) && (w.pc.ReadHead? || w.pc.CopyRecClear? || w.pc.FlushRecClear?)
    ensures Safe(w, Log(j, l)) && Inv(LogStep(w, j, l))
  {
    match w.pc {
      case ReadHead => ReadHeadStep(w, j);
      case CopyRecClear => CopyRecClearStep(w, j);
      case FlushRecClear(m) => FlushRecClearStep(w, m);
    }
  }

  /** The task that commits or recovers never fails a bounds check, and keeps the
      invariant, whatever the other tasks do in between. */
  lemma LogStepOk(w: World, j: nat, l: nat)
    requires Inv(w) && Can(w, Log(j, l))
    ensures Safe(w, Log(j, l)) && Inv(LogStep(w, j, l))
  {
    if w.pc.BeforeCommit() {
      CommitFirstHalf(w, j, l);
    } else if w.pc.CopyHome? || w.pc.InstallHome? {
      RecoveryInstalls(w, j, l);
    } else if w.pc.Recovering() {
      RecoveryEnds(w, j, l);
    } else {
      CommitSecondHalf(w, j, l);
    }
  }

  /** `log_write` on a full log: the overflow assertion comes before the search for a
      recorded block, so it fails even for a write that needs no room. */
  predicate Overflows(w: World, x: Step) {
    x.LogWrite? && |w.lh| == LOGSIZE
  }

  /** Every assertion of the log passes in every reachable state, except on a full log. */
  lemma AssertionsHold(w: World, x: Step)
    requires Inv(w) && Can(w, x)
    ensures Safe(w, x) <==> !Overflows(w, x)
  {
    match x {
      case Log(j, l) => LogStepOk(w, j, l);
      case LogWrite(k, i, d) => assert BufOk(w.bio.bufs[i], w.view);
      case End(k) =>
      case _ =>
    }
  }

  /** A write that appends always finds room; and the log is full only if every open
      operation has used its whole reservation. */
  lemma RoomToAppend(w: World, k: nat)
    requires Inv(w) && k < |w.ops|
    ensures w.ops[k].used < MAXOPBLOCKS ==> |w.lh| < LOGSIZE
  {
    UnusedAt(w.ops, k);
    UnusedBounds(w.ops[..k]);
    UnusedBounds(w.ops[k + 1..]);
  }

  lemma StepKeepsInv(w: World, x: Step)
    requires Inv(w) && Pre(w, x)
    ensures Inv(Next(w, x))
  {
    match x {
      case Env(a) => EnvStep(w, a);
      case Begin => BeginStep(w);
      case LogWrite(k, i, d) =>
        if w.bio.bufs[i].block in w.lh { AbsorbStep(w, k, i, d); } else { AppendStep(w, k, i, d); }
      case End(k) =>
        if w.outstanding == 1 { EndLastStep(w, k); } else { EndOpenStep(w, k); }
      case Log(j, l) => LogStepOk(w, j, l);
      case Crash => CrashStep(w);
    }
  }

  /** Power-on with any disk whose header, if any, is well formed. */
  ghost predicate Init(w: World) {
    && CodecOk(w.codec) && DiskOk(w.codec, w.start, w.bio.disk)
    && w.bio == Boot(w.bio.disk, |w.bio.bufs|)
    && w.outstanding == 0 && !w.committing && w.lh == [] && w.pinned == [] && w.pc == ReadHead && w.ops == []
    && w.view == w.bio.disk && w.base == Recovered(w.codec, w.start, w.bio.disk) && w.hist == [] && w.durable == 0
  }

  lemma InitInv(w: World)
    requires Init(w)
    ensures Inv(w)
  {
    BootInv(w.bio.disk, |w.bio.bufs|);
  }

  ghost predicate Run(ws: seq<World>, xs: seq<Step>) {
    && |ws| == |xs| + 1 && Init(ws[0])
    && forall i {:trigger xs[i]} :: 0 <= i < |xs| ==> Pre(ws[i], xs[i]) && ws[i + 1] == Next(ws[i], xs[i])
  }

  lemma {:induction false} RunInv(ws: seq<World>, xs: seq<Step>, i: nat)
    requires Run(ws, xs) && i < |ws|
    ensures Inv(ws[i])
  {
    if i == 0 {
      InitInv(ws[0]);
    } else {
      RunInv(ws, xs, i - 1);
      StepKeepsInv(ws[i - 1], xs[i - 1]);
    }
  }
}
