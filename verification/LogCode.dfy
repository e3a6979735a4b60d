/** The log's own code in its own form: the counters under the lock and the loops of `commit` and
    `recover`. The disk after each single write is a function of the disk before; what a crash
    there would leave is proved about that function, and the machine of `WriteAheadLog` walks
    through the same disks. */
module LogCode {
  import opened Collections
  import opened Layout
  import opened BufferCache
  import opened WriteAheadLog
  import H = LogHeader

  // ---- The disk after each write of a commit ----

  /** A group that may be committed to `disk`. */
  ghost predicate Group(c: Codec, start: nat, disk: seq<Sector>, lh: seq<nat>, data: seq<Sector>) {
    CodecOk(c) && start + LOGSIZE < |disk| < U32 && HeaderOk(start, |disk|, lh) && |data| == |lh|
  }

  /** After `j` writes: the log slots, the header, the home blocks, the empty header. */
  ghost function CommitDisk(c: Codec, start: nat, disk: seq<Sector>, lh: seq<nat>, data: seq<Sector>,
                            j: nat): (r: seq<Sector>)
    requires Group(c, start, disk, lh, data) && j <= 2 * |lh| + 2
    ensures |r| == |disk|
  {
    if j == 0 then disk
    else
      var n, prev := |lh|, CommitDisk(c, start, disk, lh, data, j - 1);
      if j <= n then prev[start + j := data[j - 1]]
      else if j == n + 1 then prev[start := c.enc(lh)]
      else if j <= 2 * n + 1 then prev[lh[j - n - 2] := data[j - n - 2]]
      else prev[start := c.enc([])]
  }

  /** The header block on disk after `j` writes. */
  function HeadAfter(c: Codec, head: Sector, lh: seq<nat>, j: nat): (x: Sector) {
    if j <= |lh| then head else if j <= 2 * |lh| + 1 then c.enc(lh) else c.enc([])
  }

  lemma {:induction false} CommitHead(c: Codec, start: nat, disk: seq<Sector>, lh: seq<nat>, data: seq<Sector>, j: nat)
    requires Group(c, start, disk, lh, data) && j <= 2 * |lh| + 2
    ensures CommitDisk(c, start, disk, lh, data, j)[start] == HeadAfter(c, disk[start], lh, j)
  {
    if j > 0 {
      CommitHead(c, start, disk, lh, data, j - 1);
      if |lh| + 1 < j <= 2 * |lh| + 1 { assert Home(start, |disk|, lh[j - |lh| - 2]); }
    }
  }

  lemma {:induction false} CommitSlot(c: Codec, start: nat, disk: seq<Sector>, lh: seq<nat>, data: seq<Sector>,
                                      j: nat, k: nat)
    requires Group(c, start, disk, lh, data) && j <= 2 * |lh| + 2 && k < |lh| && k < j
    ensures CommitDisk(c, start, disk, lh, data, j)[start + 1 + k] == data[k]
  {
    if k + 1 < j {
      CommitSlot(c, start, disk, lh, data, j - 1, k);
      if |lh| + 1 < j <= 2 * |lh| + 1 { assert Home(start, |disk|, lh[j - |lh| - 2]); }
    }
  }

  /** A home block keeps its contents until its own write, if it has one. */
  lemma {:induction false} CommitHome(c: Codec, start: nat, disk: seq<Sector>, lh: seq<nat>, data: seq<Sector>,
                                      j: nat, b: nat)
    requires Group(c, start, disk, lh, data) && j <= 2 * |lh| + 2 && Home(start, |disk|, b)
    ensures b !in lh || j <= |lh| ==> CommitDisk(c, start, disk, lh, data, j)[b] == disk[b]
    ensures forall k :: 0 <= k < |lh| && lh[k] == b && k + |lh| + 2 <= j ==>
              CommitDisk(c, start, disk, lh, data, j)[b] == data[k]
  {
    if j > 0 { CommitHome(c, start, disk, lh, data, j - 1, b); }
  }

  // ---- What a crash leaves ----

  /** The disk with the group's contents at home. */
  function Applied(disk: seq<Sector>, lh: seq<nat>, data: seq<Sector>, n: nat): (r: seq<Sector>)
    requires n <= |lh| == |data| && forall k :: 0 <= k < |lh| ==> lh[k] < |disk|
    ensures |r| == |disk|
  {
    if n == 0 then disk else Applied(disk, lh, data, n - 1)[lh[n - 1] := data[n - 1]]
  }

  lemma {:induction false} AppliedAt(disk: seq<Sector>, lh: seq<nat>, data: seq<Sector>, n: nat, b: nat)
    requires n <= |lh| == |data| && Distinct(lh) && b < |disk| && forall k :: 0 <= k < |lh| ==> lh[k] < |disk|
    ensures forall k :: 0 <= k < n && lh[k] == b ==> Applied(disk, lh, data, n)[b] == data[k]
    ensures b !in lh[..n] ==> Applied(disk, lh, data, n)[b] == disk[b]
  {
    if n > 0 {
      AppliedAt(disk, lh, data, n - 1, b);
      assert lh[..n] == lh[..n - 1] + [lh[n - 1]];
    }
  }

  /** Crash atomicity of one commit: after any number of its writes a recovery leaves all old contents,
      or, from the header write on, all new ones. */
  lemma CommitIsAtomic(c: Codec, start: nat, disk: seq<Sector>, lh: seq<nat>, data: seq<Sector>, j: nat)
    requires Group(c, start, disk, lh, data) && j <= 2 * |lh| + 2 && lh != [] && c.dec(disk[start]) == []
    ensures
      var s := CommitDisk(c, start, disk, lh, data, j);
      && DiskOk(c, start, s)
      && SameHome(start, Recovered(c, start, s), if j <= |lh| then disk else Applied(disk, lh, data, |lh|))
  {
    var s := CommitDisk(c, start, disk, lh, data, j);
    assert H.Fits(lh) && H.Fits([]);
    CommitHead(c, start, disk, lh, data, j);
    forall b: nat | Home(start, |s|, b)
      ensures Recovered(c, start, s)[b] == (if j <= |lh| then disk else Applied(disk, lh, data, |lh|))[b]
    {
      RecoveredAt(c, start, s, b);
      CommitHome(c, start, disk, lh, data, j, b);
      AppliedAt(disk, lh, data, |lh|, b);
      assert lh[..|lh|] == lh;
      if b in lh && j > |lh| {
        var k: nat :| k < |lh| && lh[k] == b;
        CommitSlot(c, start, disk, lh, data, j, k);
      }
    }
  }

  /** After the last write the group is at home. */
  lemma CommitEnds(c: Codec, start: nat, disk: seq<Sector>, lh: seq<nat>, data: seq<Sector>)
    requires Group(c, start, disk, lh, data)
    ensures SameHome(start, CommitDisk(c, start, disk, lh, data, 2 * |lh| + 2), Applied(disk, lh, data, |lh|))
  {
    var s := CommitDisk(c, start, disk, lh, data, 2 * |lh| + 2);
    forall b: nat | Home(start, |s|, b) ensures s[b] == Applied(disk, lh, data, |lh|)[b] {
      CommitHome(c, start, disk, lh, data, 2 * |lh| + 2, b);
      AppliedAt(disk, lh, data, |lh|, b);
      assert lh[..|lh|] == lh;
    }
  }

  /** Replay is idempotent: after any number of rounds the log is intact, and recovering again gives
      the same home blocks. */
  lemma ReplayIsIdempotent(c: Codec, start: nat, disk: seq<Sector>, h: seq<nat>, n: nat)
    requires DiskOk(c, start, disk) && h == c.dec(disk[start]) && n <= |h|
    ensures var s := Install(start, disk, h, n);
      && DiskOk(c, start, s) && SameHome(start, Recovered(c, start, s), Recovered(c, start, disk))
      && (n < |h| ==> Install(start, disk, h, n + 1) == s[h[n] := s[start + 1 + n]])
  {
    var s := Install(start, disk, h, n);
    InstallAt(start, disk, h, n, start);
    forall b: nat | Home(start, |s|, b) ensures Recovered(c, start, s)[b] == Recovered(c, start, disk)[b] {
      RecoveredAt(c, start, s, b);
      RecoveredAt(c, start, disk, b);
      InstallAt(start, disk, h, n, b);
      if b in h {
        var k: nat :| k < |h| && h[k] == b;
        InstallAt(start, disk, h, n, start + 1 + k);
      } else {
        assert forall k :: 0 <= k < n ==> h[k] != b;
      }
    }
  }

  // ---- The code ----

  class LogState {
    const codec: Codec
    const start: nat
    var outstanding: nat
    var committing: bool
    var lh: seq<nat>
    /** Contents of the pinned buffers. */
    var pinned: seq<Sector>
    var disk: seq<Sector>
    /** The disk after each write of the running commit or recovery. */
    ghost var trace: seq<seq<Sector>>

    /** The state of the log in the machine `w`. */
    ghost predicate Shows(w: World)
      reads this
    {
      && w.codec == codec && w.start == start && w.outstanding == outstanding && w.committing == committing
      && w.lh == lh && w.bio.disk == disk && |w.pinned| == |lh| == |pinned|
      && forall k :: 0 <= k < |lh| ==> w.pinned[k] < |w.bio.bufs| && w.bio.bufs[w.pinned[k]].data == pinned[k]
    }

    /** The admission test of `begin_op` and, when it passes, the step of the machine. It passes exactly when
        no commit is under way and there is room for the open operations and one more. */
    method TryBegin(ghost w: World) returns (ok: bool)
      requires WriteAheadLog.Inv(w) && !w.pc.Recovering() && Shows(w)
      modifies this`outstanding
      ensures ok <==> w.pc.Serving? && |w.lh| + MAXOPBLOCKS * (|w.ops| + 1) <= LOGSIZE
      ensures ok ==> Pre(w, Begin) && Shows(Next(w, Begin))
      ensures !ok ==> Shows(w)
    {
      ok := !committing && |lh| + (outstanding + 1) * MAXOPBLOCKS <= LOGSIZE;
      if ok {
        outstanding := outstanding + 1;
      }
    }

    /** `log_write` by operation `k` of buffer `i`, which has number `b` and contents `x`: the duplicate
        search, then the append. It is the step of the machine whenever its assertions hold. */
    method LogWrite(b: nat, x: Sector, ghost w: World, ghost k: nat, ghost i: nat)
      requires WriteAheadLog.Inv(w) && Shows(w) && Pre(w, Step.LogWrite(k, i, x)) && w.bio.bufs[i].block == b
      modifies this`lh, this`pinned
      ensures Shows(Next(w, Step.LogWrite(k, i, x)))
    {
      var m := 0;
      while m < |lh|
        invariant m <= |lh| && b !in lh[..m] && lh == old(lh) && pinned == old(pinned)
      {
        if lh[m] == b {
          SameBuffer(w, m, i);
          pinned := pinned[m := x];
          return;
        }
        m := m + 1;
      }
      assert lh[..m] == lh;
      OtherBuffers(w, i);
      lh := lh + [b];
      pinned := pinned + [x];
    }

    /** `end_op`: the last open operation starts the commit, as in the machine. */
    method EndOp(ghost w: World, ghost k: nat) returns (commit: bool)
      requires WriteAheadLog.Inv(w) && Shows(w) && Pre(w, End(k))
      modifies this`outstanding, this`committing
      ensures Shows(Next(w, End(k))) && commit == committing
    {
      outstanding := outstanding - 1;
      commit := outstanding == 0;
      if commit {
        committing := true;
      }
    }

    /** One single-block disk write. */
    method Bwrite(b: nat, x: Sector)
      requires b < |disk|
      modifies this`disk, this`trace
      ensures disk == old(disk)[b := x] && trace == old(trace) + [disk]
    {
      disk := disk[b := x];
      trace := trace + [disk];
    }

    /** The disk is where `j` writes of the commit leave it, and so was it after each of them. */
    ghost predicate Wrote(disk0: seq<Sector>, j: nat)
      reads this
    {
      && Group(codec, start, disk0, lh, pinned) && j <= 2 * |lh| + 2 && |trace| == j
      && disk == CommitDisk(codec, start, disk0, lh, pinned, j)
      && forall i {:trigger trace[i]} :: 0 <= i < j ==> trace[i] == CommitDisk(codec, start, disk0, lh, pinned, i + 1)
    }

    /** Step 1 of `commit`: every pinned buffer into its log slot. */
    method WriteSlots(ghost disk0: seq<Sector>)
      requires Wrote(disk0, 0)
      modifies this`disk, this`trace
      ensures Wrote(disk0, |lh|)
    {
      var i := 0;
      while i < |lh|
        invariant i <= |lh| && Wrote(disk0, i)
      {
        Bwrite(start + 1 + i, pinned[i]);
        i := i + 1;
      }
    }

    /** Step 3: the pinned buffers to their home blocks. */
    method FlushHome(ghost disk0: seq<Sector>)
      requires Wrote(disk0, |lh| + 1)
      modifies this`disk, this`trace
      ensures Wrote(disk0, 2 * |lh| + 1)
    {
      var i := 0;
      while i < |lh|
        invariant i <= |lh| && Wrote(disk0, |lh| + 1 + i)
      {
        assert Home(start, |disk|, lh[i]);
        Bwrite(lh[i], pinned[i]);
        i := i + 1;
      }
    }

    /** The whole of `commit`: the disks it goes through are those of `CommitDisk`. */
    method Commit()
      requires Group(codec, start, disk, lh, pinned)
      modifies this
      ensures lh == [] && pinned == [] && outstanding == old(outstanding) && committing == old(committing)
      ensures old(lh) == [] ==> disk == old(disk) && trace == []
      ensures old(lh) != [] ==>
                && |trace| == 2 * |old(lh)| + 2 && disk == trace[|trace| - 1]
                && forall i :: 0 <= i < |trace| ==>
                     trace[i] == CommitDisk(codec, start, old(disk), old(lh), old(pinned), i + 1)
    {
      ghost var disk0 := disk;
      trace := [];
      if |lh| == 0 {
        pinned := [];
        return;
      }
      WriteSlots(disk0);
      Bwrite(start, codec.enc(lh));
      FlushHome(disk0);
      Bwrite(start, codec.enc([]));
      lh, pinned := [], [];
    }

    /** `recover`: install the blocks the header names, then clear the header. The disks it goes through
        are those of `Install`, and it ends with the recovery function. */
    method Recover()
      requires DiskOk(codec, start, disk)
      modifies this`disk, this`trace
      ensures disk == Recovered(codec, start, old(disk))
      ensures
        var h := codec.dec(old(disk)[start]);
        h != [] ==>
          && |trace| == |h| + 1
          && forall i :: 0 <= i < |h| ==> trace[i] == Install(start, old(disk), h, i + 1)
    {
      trace := [];
      var h := codec.dec(disk[start]);
      if |h| == 0 {
        return;
      }
      ghost var disk0 := disk;
      var i := 0;
      while i < |h|
        invariant i <= |h| && disk == Install(start, disk0, h, i) && |trace| == i
        invariant forall k :: 0 <= k < i ==> trace[k] == Install(start, disk0, h, k + 1)
      {
        ReplayIsIdempotent(codec, start, disk0, h, i);
        assert Home(start, |disk|, h[i]);
        Bwrite(h[i], disk[start + 1 + i]);
        i := i + 1;
      }
      Bwrite(start, codec.enc([]));
    }
  }

  /** Of the buffers of a block only one is valid. */
  lemma SameBuffer(w: World, m: nat, i: nat)
    requires WriteAheadLog.Inv(w) && m < |w.lh| && i < |w.bio.bufs| && w.bio.bufs[i].valid &&
               w.bio.bufs[i].block == w.lh[m]
    ensures w.pinned[m] == i && forall k :: 0 <= k < |w.lh| && k != m ==> w.pinned[k] != i
  {
    assert HitsAt(w.bio.bufs, w.lh[m], w.pinned[m]);
    assert Live(w.bio.bufs[i]) && Live(w.bio.bufs[w.pinned[m]]);
    forall k | 0 <= k < |w.lh| && k != m ensures w.pinned[k] != i {
      assert HitsAt(w.bio.bufs, w.lh[k], w.pinned[k]);
    }
  }

  lemma OtherBuffers(w: World, i: nat)
    requires WriteAheadLog.Inv(w) && i < |w.bio.bufs| && w.bio.bufs[i].block !in w.lh
    ensures forall k :: 0 <= k < |w.lh| ==> w.pinned[k] != i
  {
    forall k | 0 <= k < |w.lh| ensures w.pinned[k] != i {
      assert HitsAt(w.bio.bufs, w.lh[k], w.pinned[k]);
    }
  }

  // ---- The machine goes through the same disks ----

  /** How many disk writes of a commit of `n` blocks are done at `pc`. */
  function WritesDone(pc: Pc, n: nat): (j: nat) {
    match pc
    case CopySlot(i) => i
    case FlushSlot(i, _) => i
    case CopyHead => n
    case FlushHead(_) => n
    case FlushHome(i) => n + 1 + i
    case CopyClear => 2 * n + 1
    case FlushClear(_) => 2 * n + 1
    case _ => 2 * n + 2
  }

  /** The machine is committing the group (lh, data) onto `disk`. */
  ghost predicate Commits(w: World, disk: seq<Sector>, lh: seq<nat>, data: seq<Sector>) {
    && Group(w.codec, w.start, disk, lh, data) && lh != [] && |w.view| == |disk|
    && (w.pc.Committing() || w.pc.Serving?) && WritesDone(w.pc, |lh|) <= 2 * |lh| + 2
    && w.lh == (if w.pc.Finish? || w.pc.Serving? then [] else lh)
    && w.bio.disk == CommitDisk(w.codec, w.start, disk, lh, data, WritesDone(w.pc, |lh|))
    && forall k :: 0 <= k < |lh| ==> w.view[lh[k]] == data[k]
  }

  /** What of the machine the claim speaks about. */
  ghost predicate Onwards(w: World, w': World, lh: seq<nat>) {
    && w'.codec == w.codec && w'.start == w.start && |w'.view| == |w.view|
    && (w'.pc.Committing() || w'.pc.Serving?) && w'.lh == (if w'.pc.Finish? || w'.pc.Serving? then [] else w.lh)
    && forall k :: 0 <= k < |lh| && lh[k] < |w.view| ==> w'.view[lh[k]] == w.view[lh[k]]
  }

  lemma CommitsStay(w: World, w': World, disk: seq<Sector>, lh: seq<nat>, data: seq<Sector>)
    requires Commits(w, disk, lh, data) && Onwards(w, w', lh) && !w.pc.Serving?
    requires w'.bio.disk == w.bio.disk && WritesDone(w'.pc, |lh|) == WritesDone(w.pc, |lh|)
    requires w.pc.Finish? ==> w'.pc.Finish? || w'.pc.Serving?
    ensures Commits(w', disk, lh, data)
  {
  }

  lemma CommitsWrite(w: World, w': World, disk: seq<Sector>, lh: seq<nat>, data: seq<Sector>)
    requires Commits(w, disk, lh, data) && Onwards(w, w', lh) && !w.pc.Serving? && !w.pc.Finish?
    requires WritesDone(w'.pc, |lh|) == WritesDone(w.pc, |lh|) + 1 <= 2 * |lh| + 2
    requires w'.bio.disk == CommitDisk(w.codec, w.start, disk, lh, data, WritesDone(w.pc, |lh|) + 1)
    ensures Commits(w', disk, lh, data)
  {
  }

  predicate Copies(pc: Pc) { pc.CopySlot? || pc.CopyHead? || pc.CopyClear? }

  lemma EnvFollows(w: World, a: Act, disk: seq<Sector>, lh: seq<nat>, data: seq<Sector>)
    requires Pre(w, Env(a)) && w.pc.Committing() && Commits(w, disk, lh, data)
    ensures Advances(w, Next(w, Env(a)), disk, lh, data)
  {
    CommitsStay(w, Next(w, Env(a)), disk, lh, data);
  }

  lemma CopyFollows(w: World, j: nat, l: nat, disk: seq<Sector>, lh: seq<nat>, data: seq<Sector>)
    requires Pre(w, Log(j, l)) && Copies(w.pc) && Commits(w, disk, lh, data) && Onwards(w, LogStep(w, j, l), lh)
    ensures Advances(w, LogStep(w, j, l), disk, lh, data)
  {
    CommitsStay(w, LogStep(w, j, l), disk, lh, data);
  }

  /** A copy edits the buffer of a log block, which is not a home block. */
  lemma CopyOnwards(w: World, j: nat, l: nat, lh: seq<nat>)
    requires Pre(w, Log(j, l)) && Copies(w.pc) && w.pc.Counts(|w.lh|)
    requires HeaderOk(w.start, |w.view|, lh) && w.lh == lh
    ensures Onwards(w, LogStep(w, j, l), lh)
  {
    forall k | 0 <= k < |lh| ensures Home(w.start, |w.view|, lh[k]) {}
  }

  lemma EndFollows(w: World, j: nat, l: nat, disk: seq<Sector>, lh: seq<nat>, data: seq<Sector>)
    requires Pre(w, Log(j, l)) && (w.pc.Unpin? || w.pc.Finish?) && Commits(w, disk, lh, data)
    ensures Advances(w, LogStep(w, j, l), disk, lh, data)
  {
    CommitsStay(w, LogStep(w, j, l), disk, lh, data);
  }

  /** What the machine's invariant says about a running commit. */
  ghost predicate Ready(w: World) {
    && w.pc.Counts(|w.lh|) && |w.pinned| == |w.lh|
    && (w.pc.FlushHome? ==>
          && w.pc.i < |w.lh| && w.lh[w.pc.i] < |w.view| && HitsAt(w.bio.bufs, w.lh[w.pc.i], w.pinned[w.pc.i])
          && w.bio.bufs[w.pinned[w.pc.i]].data == w.view[w.lh[w.pc.i]])
    && PendingOk(w.codec, w.start, w.bio.bufs, w.view, w.lh, w.pc)
  }

  lemma InvReady(w: World)
    requires WriteAheadLog.Inv(w) && w.pc.Committing()
    ensures Ready(w)
  {
    if w.pc.FlushHome? {
      var m := w.pinned[w.pc.i];
      assert HitsAt(w.bio.bufs, w.lh[w.pc.i], m);
      assert BufOk(w.bio.bufs[m], w.view);
    }
  }

  /** The buffer a flush writes. */
  function Flushing(w: World): (m: nat)
    requires w.pc.FlushSlot? || w.pc.FlushHead? || w.pc.FlushHome? || w.pc.FlushClear?
    requires w.pc.FlushHome? ==> w.pc.i < |w.pinned|
  {
    if w.pc.FlushHome? then w.pinned[w.pc.i] else w.pc.j
  }

  /** The next write of the commit is that buffer to its block. */
  ghost predicate WritesNext(w: World, disk: seq<Sector>, lh: seq<nat>, data: seq<Sector>, m: nat) {
    && Commits(w, disk, lh, data) && WritesDone(w.pc, |lh|) + 1 <= 2 * |lh| + 2
    && m < |w.bio.bufs| && w.bio.bufs[m].block < |w.bio.disk|
    && CommitDisk(w.codec, w.start, disk, lh, data, WritesDone(w.pc, |lh|) + 1)
         == w.bio.disk[w.bio.bufs[m].block := w.bio.bufs[m].data]
  }

  lemma SlotIsNext(w: World, disk: seq<Sector>, lh: seq<nat>, data: seq<Sector>)
    requires Ready(w) && Commits(w, disk, lh, data) && w.pc.FlushSlot?
    ensures WritesNext(w, disk, lh, data, w.pc.j)
  {
    assert Home(w.start, |disk|, lh[w.pc.i]);
  }

  lemma HeadIsNext(w: World, disk: seq<Sector>, lh: seq<nat>, data: seq<Sector>)
    requires Ready(w) && Commits(w, disk, lh, data) && w.pc.FlushHead?
    ensures WritesNext(w, disk, lh, data, w.pc.j)
  {
  }

  lemma HomeIsNext(w: World, disk: seq<Sector>, lh: seq<nat>, data: seq<Sector>)
    requires Ready(w) && Commits(w, disk, lh, data) && w.pc.FlushHome?
    ensures WritesNext(w, disk, lh, data, w.pinned[w.pc.i])
  {
    assert Home(w.start, |disk|, lh[w.pc.i]);
  }

  lemma ClearIsNext(w: World, disk: seq<Sector>, lh: seq<nat>, data: seq<Sector>)
    requires Ready(w) && Commits(w, disk, lh, data) && w.pc.FlushClear?
    ensures WritesNext(w, disk, lh, data, w.pc.j)
  {
  }

  lemma WriteIsNext(w: World, disk: seq<Sector>, lh: seq<nat>, data: seq<Sector>)
    requires Ready(w) && Commits(w, disk, lh, data)
    requires w.pc.FlushSlot? || w.pc.FlushHead? || w.pc.FlushHome? || w.pc.FlushClear?
    ensures WritesNext(w, disk, lh, data, Flushing(w))
  {
    match w.pc {
      case FlushSlot(_, _) => SlotIsNext(w, disk, lh, data);
      case FlushHead(_) => HeadIsNext(w, disk, lh, data);
      case FlushHome(_) => HomeIsNext(w, disk, lh, data);
      case FlushClear(_) => ClearIsNext(w, disk, lh, data);
    }
  }

  /** A flush writes the block that comes next. */
  lemma FlushFollows(w: World, j: nat, l: nat, disk: seq<Sector>, lh: seq<nat>, data: seq<Sector>)
    requires Pre(w, Log(j, l)) && Ready(w)
    requires w.pc.FlushSlot? || w.pc.FlushHead? || w.pc.FlushHome? || w.pc.FlushClear?
    requires WritesNext(w, disk, lh, data, Flushing(w))
    ensures Advances(w, LogStep(w, j, l), disk, lh, data)
  {
    CommitsWrite(w, LogStep(w, j, l), disk, lh, data);
  }

  /** At most one write of the commit lies between the two states. */
  ghost predicate Advances(w: World, w': World, disk: seq<Sector>, lh: seq<nat>, data: seq<Sector>) {
    var now := Commits(w', disk, lh, data);
    now && WritesDone(w.pc, |lh|) <= WritesDone(w'.pc, |lh|) <= WritesDone(w.pc, |lh|) + 1
  }

  /** Every step of the committing machine but a crash keeps to the disks of `CommitDisk`, in order and
      skipping none. */
  lemma StepFollows(w: World, x: Step, disk: seq<Sector>, lh: seq<nat>, data: seq<Sector>)
    requires Ready(w) && Pre(w, x) && w.pc.Committing() && (x.Env? || x.Log?) && Commits(w, disk, lh, data)
    ensures Advances(w, Next(w, x), disk, lh, data)
  {
    if x.Env? {
      EnvFollows(w, x.a, disk, lh, data);
    } else if Copies(w.pc) {
      CopyOnwards(w, x.j, x.l, lh);
      CopyFollows(w, x.j, x.l, disk, lh, data);
    } else if w.pc.Unpin? || w.pc.Finish? {
      EndFollows(w, x.j, x.l, disk, lh, data);
    } else {
      WriteIsNext(w, disk, lh, data);
      FlushFollows(w, x.j, x.l, disk, lh, data);
    }
  }

  /** From `a` to `b` the machine commits, and neither crashes nor starts or ends an operation. */
  ghost predicate CommitsAlong(ws: seq<World>, xs: seq<Step>, a: nat, b: nat) {
    && a <= b <= |xs| && |ws| == |xs| + 1
    && forall i {:trigger xs[i]} :: a <= i < b ==> ws[i].pc.Committing() && (xs[i].Env? || xs[i].Log?)
  }

  lemma LastFollows(ws: seq<World>, xs: seq<Step>, a: nat, b: nat, disk: seq<Sector>, lh: seq<nat>, data: seq<Sector>)
    requires Run(ws, xs) && a < b && CommitsAlong(ws, xs, a, b) && Commits(ws[b - 1], disk, lh, data)
    ensures Advances(ws[b - 1], ws[b], disk, lh, data)
  {
    var w, x := ws[b - 1], xs[b - 1];
    RunReady(ws, xs, b - 1);
    StepFollows(w, x, disk, lh, data);
  }

  lemma RunReady(ws: seq<World>, xs: seq<Step>, i: nat)
    requires Run(ws, xs) && i < |ws| && ws[i].pc.Committing()
    ensures Ready(ws[i])
  {
    RunInv(ws, xs, i);
    InvReady(ws[i]);
  }

  /** Over whole runs: from the end of the last operation to the end of its commit, with any cache
      traffic in between and no crash, the disk goes through `CommitDisk` write by write. */
  lemma {:induction false} CommitFollows(ws: seq<World>, xs: seq<Step>, a: nat, b: nat, disk: seq<Sector>,
                                         lh: seq<nat>, data: seq<Sector>)
    requires Run(ws, xs) && CommitsAlong(ws, xs, a, b) && Commits(ws[a], disk, lh, data)
    ensures Commits(ws[b], disk, lh, data)
    ensures WritesDone(ws[a].pc, |lh|) <= WritesDone(ws[b].pc, |lh|) <= WritesDone(ws[a].pc, |lh|) + (b - a)
  {
    if a < b {
      AlongLess(ws, xs, a, b);
      CommitFollows(ws, xs, a, b - 1, disk, lh, data);
      LastFollows(ws, xs, a, b, disk, lh, data);
    }
  }

  lemma AlongLess(ws: seq<World>, xs: seq<Step>, a: nat, b: nat)
    requires CommitsAlong(ws, xs, a, b) && a < b
    ensures CommitsAlong(ws, xs, a, b - 1)
  {
    forall i | a <= i < b - 1 ensures ws[i].pc.Committing() && (xs[i].Env? || xs[i].Log?) {
      var x := xs[i];
    }
  }

  /** The commit starts with the pinned contents of the group and the disk as it is. */
  lemma CommitStarts(w: World, k: nat)
    requires WriteAheadLog.Inv(w) && Pre(w, End(k)) && w.outstanding == 1 && w.lh != []
    ensures
      var data := seq(|w.lh|, i requires 0 <= i < |w.lh| => if w.lh[i] < |w.view| then w.view[w.lh[i]] else w.view[0]);
      Commits(Next(w, End(k)), w.bio.disk, w.lh, data)
  {
    forall i | 0 <= i < |w.lh| ensures w.lh[i] < |w.view| {
      assert Home(w.start, |w.view|, w.lh[i]);
    }
  }
}
