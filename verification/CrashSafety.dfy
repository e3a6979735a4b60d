/** What the log promises, over every run of the machine in `WriteAheadLog`: any
    interleaving of operations, cache traffic and disk writes, with crashes anywhere. */
module CrashSafety {
  import opened Collections
  import opened Layout
  import opened BufferCache
  import opened WriteAheadLog

  /** Crash consistency: at any moment, recovery would leave in the home blocks the effect
      of exactly the committed writes; and no operation is split by that boundary. */
  lemma CrashConsistency(ws: seq<World>, xs: seq<Step>, i: nat)
    requires Run(ws, xs) && i < |ws|
    ensures var w := ws[i];
      && w.durable <= |w.hist|
      && Promise(w.codec, w.start, w.bio.disk, w.base, w.hist[..w.durable])
      && forall a, b :: 0 <= a < w.durable <= b < |w.hist| ==> w.hist[a].op != w.hist[b].op
  {
    RunInv(ws, xs, i);
    PromiseHolds(ws[i]);
  }

  /** Cache transparency: outside recovery, every buffer of a home block shows the latest
      logged content of that block. */
  lemma ReadsLatest(ws: seq<World>, xs: seq<Step>, i: nat, s: nat)
    requires Run(ws, xs) && i < |ws| && !ws[i].pc.Recovering()
    requires s < |ws[i].bio.bufs| && ws[i].bio.bufs[s].valid
    requires Home(ws[i].start, |ws[i].base|, ws[i].bio.bufs[s].block)
    ensures var u := ws[i].bio.bufs[s]; u.data == Replay(ws[i].base, ws[i].hist)[u.block]
  {
    RunInv(ws, xs, i);
    assert BufOk(ws[i].bio.bufs[s], ws[i].view);
  }

  /** While the log serves, everything that was logged is committed exactly when no group is open. */
  lemma IdleIsDurable(ws: seq<World>, xs: seq<Step>, i: nat)
    requires Run(ws, xs) && i < |ws| && ws[i].pc.Serving?
    ensures ws[i].durable == |ws[i].hist| <==> ws[i].lh == []
  {
    RunInv(ws, xs, i);
    RunOpen(ws, xs, i);
    assert ws[i].durable < |ws[i].hist| ==> Recorded(ws[i].hist[ws[i].durable], ws[i].lh);
  }

  /** A block in the log before the commit point means a write past it. */
  predicate OpenOk(w: World) { w.pc.BeforeCommit() && w.lh != [] ==> w.durable < |w.hist| }

  lemma StepOpen(w: World, x: Step)
    requires WriteAheadLog.Inv(w) && Pre(w, x) && OpenOk(w)
    ensures OpenOk(Next(w, x))
  {
  }

  lemma {:induction false} RunOpen(ws: seq<World>, xs: seq<Step>, i: nat)
    requires Run(ws, xs) && i < |ws|
    ensures OpenOk(ws[i])
  {
    if i > 0 {
      RunOpen(ws, xs, i - 1);
      RunInv(ws, xs, i - 1);
      var w, x := ws[i - 1], xs[i - 1];
      StepOpen(w, x);
    }
  }

  // ---- What is committed when `end_op` returns ----

  ghost predicate HasLogged(hist: seq<Event>, id: nat) { exists a :: 0 <= a < |hist| && hist[a].op == id }

  /** All that operation `id` logged is behind the commit point. */
  ghost predicate Committed(w: World, id: nat) { forall a :: 0 <= a < |w.hist| && w.hist[a].op == id ==> a < w.durable }

  /** The `end_op` that starts with step `i` returns in state `j`: at once, or, for the last open
      operation, when the commit is over. */
  ghost predicate EndReturns(ws: seq<World>, xs: seq<Step>, i: nat, j: nat) {
    && i < j < |ws| == |xs| + 1 && xs[i].End? && xs[i].k < |ws[i].ops|
    && if ws[i].outstanding > 1 then j == i + 1
       else ws[j].pc.Serving? && forall m {:trigger xs[m]} :: i < m < j ==> ws[m].pc.Committing() && xs[m] != Crash
  }

  /** When `end_op` returns, the operation's writes are committed exactly when it was the last one open
      or had logged nothing. */
  lemma EndCommits(ws: seq<World>, xs: seq<Step>, i: nat, j: nat)
    requires Run(ws, xs) && EndReturns(ws, xs, i, j)
    ensures
      var id := ws[i].ops[xs[i].k].id;
      Committed(ws[j], id) <==> ws[i].outstanding == 1 || !HasLogged(ws[i].hist, id)
  {
    var w, k := ws[i], xs[i].k;
    RunInv(ws, xs, i);
    assert Pre(w, xs[i]) && ws[i + 1] == Next(w, xs[i]);
    if w.outstanding > 1 {
      assert ws[j].hist == w.hist && ws[j].durable == w.durable;
    } else {
      CommitOver(ws, xs, i, j);
    }
  }

  lemma CommitOver(ws: seq<World>, xs: seq<Step>, i: nat, j: nat)
    requires Run(ws, xs) && EndReturns(ws, xs, i, j) && ws[i].outstanding <= 1
    ensures ws[j].durable == |ws[j].hist|
  {
    RunInv(ws, xs, j - 1);
    var w, x := ws[j - 1], xs[j - 1];
    assert Pre(w, x) && ws[j] == Next(w, x);
    if j - 1 > i {
      Served(w, x);
    }
    IdleIsDurable(ws, xs, j);
  }

  /** A commit ends with an empty group. */
  lemma Served(w: World, x: Step)
    requires WriteAheadLog.Inv(w) && Pre(w, x) && w.pc.Committing() && x != Crash && Next(w, x).pc.Serving?
    ensures Next(w, x).lh == []
  {
  }

  lemma StepHist(w: World, x: Step)
    requires Pre(w, x) && w.durable <= |w.hist|
    ensures var w' := Next(w, x);
      && w'.base == w.base && w'.start == w.start
      && (w'.hist == w.hist || w'.hist == w.hist[..w.durable] || (x.LogWrite? && w.hist <= w'.hist))
      && (w'.durable == w.durable || (w'.hist == w.hist && w'.durable == |w.hist|))
  {
    if x.Log? {
      LogHist(w, x.j, x.l);
    }
  }

  lemma LogHist(w: World, j: nat, l: nat)
    requires Safe(w, Log(j, l))
    ensures var w' := LogStep(w, j, l);
      && w'.base == w.base && w'.start == w.start && w'.hist == w.hist
      && (w'.durable == w.durable || w'.durable == |w.hist|)
  {
  }

  lemma StepExtends(w: World, x: Step)
    requires WriteAheadLog.Inv(w) && Pre(w, x)
    ensures var w' := Next(w, x);
      && w'.base == w.base && w'.start == w.start && w'.durable <= |w'.hist|
      && w.hist[..w.durable] <= w'.hist[..w'.durable]
      && (w.pc.Recovering() ==> w'.hist == w.hist)
  {
    StepHist(w, x);
  }

  /** What is committed stays committed, across all later crashes. */
  lemma {:induction false} CommittedForever(ws: seq<World>, xs: seq<Step>, i: nat, j: nat)
    requires Run(ws, xs) && i <= j < |ws|
    ensures ws[i].durable <= |ws[i].hist| && ws[j].durable <= |ws[j].hist|
    ensures ws[i].hist[..ws[i].durable] <= ws[j].hist[..ws[j].durable]
    ensures ws[j].base == ws[i].base && ws[j].start == ws[i].start
    decreases j - i
  {
    RunInv(ws, xs, i);
    if i < j {
      StepExtends(ws[i], xs[i]);
      CommittedForever(ws, xs, i + 1, j);
    }
  }

  lemma {:induction false} RecoveringKeepsHist(ws: seq<World>, xs: seq<Step>, i: nat, j: nat)
    requires Run(ws, xs) && i <= j < |ws|
    requires forall m :: i <= m < j ==> ws[m].pc.Recovering()
    ensures ws[j].hist == ws[i].hist && ws[j].base == ws[i].base && ws[j].start == ws[i].start
    decreases j - i
  {
    if i < j {
      RunInv(ws, xs, i);
      StepExtends(ws[i], xs[i]);
      RecoveringKeepsHist(ws, xs, i + 1, j);
    }
  }

  /** Crash, recover (crashing again inside recovery any number of times), serve: the home
      blocks on disk are the effect of the writes committed before the crash, no more and
      no less. */
  lemma CrashThenRecover(ws: seq<World>, xs: seq<Step>, i: nat, j: nat)
    requires Run(ws, xs) && i < j < |ws| && xs[i] == Crash
    requires forall m :: i < m < j ==> ws[m].pc.Recovering()
    requires ws[j].pc.Serving?
    ensures ws[i].durable <= |ws[i].hist|
    ensures SameHome(ws[i].start, ws[j].bio.disk, Replay(ws[i].base, ws[i].hist[..ws[i].durable]))
    ensures ws[j].hist == ws[i].hist[..ws[i].durable]
  {
    CrashCuts(ws, xs, i);
    RecoveringKeepsHist(ws, xs, i + 1, j);
    CommittedForever(ws, xs, i + 1, j);
    AllServed(ws, xs, j);
  }

  /** A crash drops exactly what was not committed. */
  lemma CrashCuts(ws: seq<World>, xs: seq<Step>, i: nat)
    requires Run(ws, xs) && i < |xs| && xs[i] == Crash
    ensures ws[i].durable <= |ws[i].hist| && ws[i + 1].hist == ws[i].hist[..ws[i].durable]
    ensures ws[i + 1].durable == |ws[i + 1].hist| && ws[i + 1].base == ws[i].base && ws[i + 1].start == ws[i].start
  {
    RunInv(ws, xs, i);
    assert Pre(ws[i], xs[i]) && ws[i + 1] == Next(ws[i], xs[i]);
  }

  /** When the log serves and all is committed, the home blocks are the effect of the history. */
  lemma AllServed(ws: seq<World>, xs: seq<Step>, j: nat)
    requires Run(ws, xs) && j < |ws| && ws[j].pc.Serving? && ws[j].durable == |ws[j].hist|
    ensures SameHome(ws[j].start, ws[j].bio.disk, Replay(ws[j].base, ws[j].hist))
  {
    RunInv(ws, xs, j);
    assert ws[j].hist[..ws[j].durable] == ws[j].hist;
  }

  /** In every state of every run the assertions of the log hold for every step a correct caller can
      take, with one exception: `log_write` on a full log. */
  lemma AssertionsOverRuns(ws: seq<World>, xs: seq<Step>, i: nat, x: Step)
    requires Run(ws, xs) && i < |ws| && Can(ws[i], x)
    ensures Safe(ws[i], x) <==> !Overflows(ws[i], x)
  {
    RunInv(ws, xs, i);
    AssertionsHold(ws[i], x);
  }

  /** In every state of every run the log has room for all the open operations may still append, its
      entries are distinct home blocks, each pinned in a buffer of its own, and an operation with
      budget left can append. */
  lemma ReservationOverRuns(ws: seq<World>, xs: seq<Step>, i: nat)
    requires Run(ws, xs) && i < |ws|
    ensures
      var w := ws[i];
      && |w.lh| + Unused(w.ops) <= LOGSIZE
      && Distinct(w.lh) && |w.pinned| == |w.lh|
      && (forall k :: 0 <= k < |w.lh| ==> HitsAt(w.bio.bufs, w.lh[k], w.pinned[k]))
      && (forall k :: 0 <= k < |w.ops| && w.ops[k].used < MAXOPBLOCKS ==> |w.lh| < LOGSIZE)
      && (w.committing ==> w.ops == [])
  {
    RunInv(ws, xs, i);
    var w := ws[i];
    forall k | 0 <= k < |w.ops| && w.ops[k].used < MAXOPBLOCKS ensures |w.lh| < LOGSIZE {
      RoomToAppend(w, k);
    }
  }
}
