/** How the log lets operations in, how the tasks that wait for it see it, and how long a commit takes. */
module LogAdmission {
  import opened Collections
  import opened Layout
  import BufferCache
  import opened WriteAheadLog
  import CrashSafety
  import Wakeups

  // ---- Who is let in ----

  /** In every state of every run `begin_op` lets an operation in if and only if no commit or recovery
      is under way and the log has room for its entries, for MAXOPBLOCKS more from each open
      operation, and for as many from this one. */
  lemma AdmittedExactly(ws: seq<World>, xs: seq<Step>, i: nat)
    requires Run(ws, xs) && i < |ws|
    ensures
      var w := ws[i];
      Pre(w, Begin) <==> w.pc.Serving? && |w.lh| + MAXOPBLOCKS * (|w.ops| + 1) <= LOGSIZE
  {
    RunInv(ws, xs, i);
  }

  /** Without open operations the log is empty. */
  predicate QuietOk(w: World) { w.pc.Serving? && w.ops == [] ==> w.lh == [] }

  lemma StepQuiet(w: World, x: Step)
    requires Inv(w) && Pre(w, x) && QuietOk(w)
    ensures QuietOk(Next(w, x))
  {
    InvSteady(w);
    SteadyQuiet(w, x);
  }

  lemma SteadyQuiet(w: World, x: Step)
    requires Steady(w) && Pre(w, x) && QuietOk(w)
    ensures QuietOk(Next(w, x))
  {
    if x.Log? {
      LogQuiet(w, x);
    }
  }

  lemma LogQuiet(w: World, x: Step)
    requires Steady(w) && Pre(w, x) && x.Log?
    ensures QuietOk(LogStep(w, x.j, x.l))
  {
  }

  lemma {:induction false} RunQuiet(ws: seq<World>, xs: seq<Step>, i: nat)
    requires Run(ws, xs) && i < |ws|
    ensures QuietOk(ws[i])
  {
    if i > 0 {
      RunQuiet(ws, xs, i - 1);
      RunInv(ws, xs, i - 1);
      var w, x := ws[i - 1], xs[i - 1];
      StepQuiet(w, x);
    }
  }

  /** Nobody waits for a quiet log: with nothing open and no commit or recovery under way, an
      operation is let in. */
  lemma QuietAdmits(ws: seq<World>, xs: seq<Step>, i: nat)
    requires Run(ws, xs) && i < |ws| && ws[i].pc.Serving? && ws[i].ops == []
    ensures Pre(ws[i], Begin)
  {
    RunQuiet(ws, xs, i);
    AdmittedExactly(ws, xs, i);
  }

  // ---- The log as the waiting tasks see it ----

  /** What the waiters of the log read, in the state of the log. */
  function Seen(w: World, sh: Wakeups.Shared): (r: Wakeups.Shared) {
    sh.(committing := w.committing, n := |w.lh|, outstanding := w.outstanding)
  }

  /** `begin_op` and the task that waits in `WaitCommit` agree: a waiter that is told to go on is let
      in, and one that would be let in is not told to wait. */
  lemma WaitAgrees(ws: seq<World>, xs: seq<Step>, i: nat, sh: Wakeups.Shared)
    requires Run(ws, xs) && i < |ws| && !ws[i].pc.Recovering()
    ensures Wakeups.Cond(Seen(ws[i], sh), Wakeups.LogSpace) <==> Pre(ws[i], Begin)
  {
    RunInv(ws, xs, i);
  }

  /** What a step of the log is to the waiters. */
  function AsOp(w: World, x: Step): (op: Option<Wakeups.Op>) {
    match x
    case Begin => Some(Wakeups.Begin)
    case LogWrite(_, i, _) =>
      if i < |w.bio.bufs| && w.bio.bufs[i].block !in w.lh then Some(Wakeups.Append) else None
    case End(_) => Some(Wakeups.End)
    case Log(_, _) => if w.pc.Unpin? then Some(Wakeups.Clear) else if w.pc.Finish? then Some(Wakeups.Finish) else None
    case _ => None
  }

  /** Every step of the log is one that the wakeup protocol speaks of, or changes nothing it reads: what
      is proved of waiting for the log there is proved of this log. */
  lemma LogIsWaitedFor(w: World, x: Step, sh: Wakeups.Shared, key: nat)
    requires Inv(w) && Pre(w, x) && x != Crash
    ensures
      match AsOp(w, x)
      case None => Seen(Next(w, x), sh) == Seen(w, sh)
      case Some(op) =>
        Wakeups.OpEnabled(Seen(w, sh), op, key) && Seen(Next(w, x), sh) == Wakeups.OpAfter(Seen(w, sh), op, key)
  {
    InvSteady(w);
    SteadySeen(w, x, sh, key);
  }

  /** What the count of open operations and the flag say. */
  predicate Steady(w: World) {
    && w.outstanding == |w.ops| && w.committing == w.pc.Committing()
    && (w.pc.Recovering() || w.pc.Finish? ==> w.lh == [])
  }

  lemma InvSteady(w: World)
    requires Inv(w)
    ensures Steady(w)
  {
  }

  lemma SteadySeen(w: World, x: Step, sh: Wakeups.Shared, key: nat)
    requires Steady(w) && Pre(w, x) && x != Crash
    ensures
      match AsOp(w, x)
      case None => Seen(Next(w, x), sh) == Seen(w, sh)
      case Some(op) =>
        Wakeups.OpEnabled(Seen(w, sh), op, key) && Seen(Next(w, x), sh) == Wakeups.OpAfter(Seen(w, sh), op, key)
  {
    match x {
      case LogWrite(k, i, d) => LogWriteSeen(w, k, i, d);
      case Log(_, _) => LogSeen(w, x);
      case _ =>
    }
  }

  lemma LogWriteSeen(w: World, k: nat, i: nat, d: Sector)
    requires Pre(w, LogWrite(k, i, d))
    ensures
      var w', b := Next(w, LogWrite(k, i, d)), w.bio.bufs[i].block;
      && w'.outstanding == w.outstanding > 0 && w'.committing == w.committing
      && |w'.lh| == if b in w.lh then |w.lh| else |w.lh| + 1
  {
  }

  lemma LogSeen(w: World, x: Step)
    requires Pre(w, x) && x.Log?
    ensures
      var w' := LogStep(w, x.j, x.l);
      && w'.outstanding == w.outstanding && w'.committing == (w.committing && !w.pc.Finish?)
      && w'.lh == if w.pc.Unpin? then [] else w.lh
  {
  }

  // ---- A commit, and a recovery, come to an end ----

  /** How many steps the committing or recovering task has to take until the log serves. */
  function Left(w: World): (n: nat) {
    var n := |w.lh|;
    match w.pc
    case Serving => 0
    case CopySlot(i) => if i < n then 2 * (n - i) + n + 6 else 0
    case FlushSlot(i, _) => if i < n then 2 * (n - i) + n + 5 else 0
    case CopyHead => n + 6
    case FlushHead(_) => n + 5
    case FlushHome(i) => if i < n then n - i + 4 else 0
    case CopyClear => 4
    case FlushClear(_) => 3
    case Unpin => 2
    case Finish => 1
    case ReadHead =>
      var h := if w.start < |w.view| then w.codec.dec(w.view[w.start]) else [];
      if h == [] then 1 else 2 * |h| + 3
    case CopyHome(i, h) => if i < |h| then 2 * (|h| - i) + 2 else 0
    case InstallHome(i, h, _) => if i < |h| then 2 * (|h| - i) + 1 else 0
    case CopyRecClear => 2
    case FlushRecClear(_) => 1
  }

  function OneIf(b: bool): (n: nat) { if b then 1 else 0 }

  /** What the count rests on. */
  ghost predicate Timed(w: World, x: Step) {
    && w.pc.Counts(match w.pc case CopyHome(_, h) => |h| case InstallHome(_, h, _) => |h| case _ => |w.lh|)
    && (w.pc.CopySlot? ==> w.lh != [])
    && (x.Log? && w.pc.ReadHead? ==> w.start < |w.view| && InRange(w, x.j) && w.bio.bufs[x.j].data == w.view[w.start])
  }

  lemma InvTimed(w: World, x: Step)
    requires Inv(w) && Pre(w, x) && !w.pc.Serving?
    ensures Timed(w, x) && w.ops == [] && w.committing == w.pc.Committing()
  {
    if x.Log? && w.pc.ReadHead? {
      assert BufferCache.BufOk(w.bio.bufs[x.j], w.view);
    }
  }

  lemma CommitCounts(w: World, x: Step)
    requires Pre(w, x) && Timed(w, x) && x.Log? && w.pc.Committing()
    ensures Left(w) > 0 && Left(LogStep(w, x.j, x.l)) == Left(w) - 1
  {
  }

  lemma RecoveryCounts(w: World, x: Step)
    requires Pre(w, x) && Timed(w, x) && x.Log? && w.pc.Recovering()
    ensures Left(w) > 0 && Left(LogStep(w, x.j, x.l)) == Left(w) - 1
  {
  }

  /** Each of its steps is one fewer; no other step, short of a crash, adds to them or takes from them. */
  lemma StepCounts(w: World, x: Step)
    requires Inv(w) && Pre(w, x) && x != Crash && !w.pc.Serving?
    ensures Left(Next(w, x)) + OneIf(x.Log?) == Left(w)
  {
    InvTimed(w, x);
    if x.Log? {
      if w.pc.Recovering() {
        RecoveryCounts(w, x);
      } else {
        CommitCounts(w, x);
      }
    }
  }

  function LogSteps(xs: seq<Step>): (n: nat) {
    if xs == [] then 0 else LogSteps(xs[..|xs| - 1]) + OneIf(xs[|xs| - 1].Log?)
  }

  lemma RunStepCounts(ws: seq<World>, xs: seq<Step>, m: nat)
    requires Run(ws, xs) && m < |xs| && !ws[m].pc.Serving? && xs[m] != Crash
    ensures Left(ws[m + 1]) + OneIf(xs[m].Log?) == Left(ws[m])
  {
    RunInv(ws, xs, m);
    var w, x := ws[m], xs[m];
    StepCounts(w, x);
  }

  /** From state `i` to state `j` the log does not serve, and the power does not fail. */
  ghost predicate Working(ws: seq<World>, xs: seq<Step>, i: nat, j: nat)
    requires i <= j < |ws| <= |xs| + 1
  {
    var working := forall m: nat {:trigger xs[m]} :: i <= m < j ==> !ws[m].pc.Serving? && xs[m] != Crash;
    working
  }

  /** A number that goes down by one with each step of the log goes down by as many as there are. */
  lemma {:induction false} CountsDown(left: seq<nat>, xs: seq<Step>, i: nat, j: nat)
    requires i <= j < |left| == |xs| + 1
    requires forall m: nat {:trigger xs[m]} :: i <= m < j ==> left[m + 1] + OneIf(xs[m].Log?) == left[m]
    ensures left[j] + LogSteps(xs[i..j]) == left[i]
  {
    if i < j {
      CountsDown(left, xs, i, j - 1);
      assert xs[i..j][..j - i - 1] == xs[i..j - 1];
    }
  }

  lemma RunCounts(ws: seq<World>, xs: seq<Step>, i: nat, j: nat)
    requires Run(ws, xs) && i <= j < |ws| && Working(ws, xs, i, j)
    ensures Left(ws[j]) + LogSteps(xs[i..j]) == Left(ws[i])
  {
    var left: seq<nat> := seq(|ws|, m requires 0 <= m < |ws| => Left(ws[m]));
    forall m: nat {:trigger xs[m]} | i <= m < j ensures left[m + 1] + OneIf(xs[m].Log?) == left[m] {
      var x := xs[m];
      RunStepCounts(ws, xs, m);
    }
    CountsDown(left, xs, i, j);
  }

  /** A commit of `n` blocks ends after exactly 3n + 6 steps of the committing task, whatever goes on in
      the cache meanwhile: `n` slots, the header, `n` home blocks, the cleared header. */
  lemma CommitTakes(ws: seq<World>, xs: seq<Step>, i: nat, j: nat)
    requires Run(ws, xs) && CrashSafety.EndReturns(ws, xs, i, j) && ws[i].outstanding == 1
    ensures var n := |ws[i].lh|; LogSteps(xs[i + 1..j]) == if n == 0 then 1 else 3 * n + 6
  {
    var from := i + 1;
    CommitBegins(ws, xs, i);
    CommitWorks(ws, xs, i, j);
    RunCounts(ws, xs, from, j);
  }

  lemma CommitWorks(ws: seq<World>, xs: seq<Step>, i: nat, j: nat)
    requires CrashSafety.EndReturns(ws, xs, i, j) && ws[i].outstanding == 1
    ensures Working(ws, xs, i + 1, j) && Left(ws[j]) == 0
  {
    forall m: nat | i + 1 <= m < j ensures !ws[m].pc.Serving? && xs[m] != Crash {
      var x := xs[m];
      assert ws[m].pc.Committing();
    }
  }

  lemma CommitBegins(ws: seq<World>, xs: seq<Step>, i: nat)
    requires Run(ws, xs) && i < |xs| && xs[i].End? && ws[i].outstanding == 1
    ensures var n := |ws[i].lh|; Left(ws[i + 1]) == if n == 0 then 1 else 3 * n + 6
  {
    var w, x := ws[i], xs[i];
    assert Pre(w, x) && ws[i + 1] == Next(w, x);
  }

  /** The committing or recovering task can take its next step as soon as it holds the buffers it wants. */
  lemma NeverStuck(w: World, j: nat, l: nat)
    requires Inv(w) && !w.pc.Serving? && Owns(w.bio.bufs, j, Wanted(w))
    requires w.pc.CopyHome? ==> Owns(w.bio.bufs, l, w.start + 1 + w.pc.i)
    ensures Pre(w, Log(j, l))
  {
    AssertionsHold(w, Log(j, l));
  }

  // ---- What an open operation may do ----

  /** In every state of every run an open operation may end, and it may log a buffer it holds of a home
      block if and only if the log is not full and, should the block be new to the log, it has logged
      fewer than MAXOPBLOCKS new ones. */
  lemma OpenMay(ws: seq<World>, xs: seq<Step>, n: nat, k: nat, i: nat, d: Sector)
    requires Run(ws, xs) && n < |ws| && k < |ws[n].ops|
    requires i < |ws[n].bio.bufs| && ws[n].bio.bufs[i].valid && Home(ws[n].start, |ws[n].base|, ws[n].bio.bufs[i].block)
    requires BufferCache.Task(ws[n].ops[k].id) in ws[n].bio.bufs[i].holders
    ensures Pre(ws[n], End(k))
    ensures Pre(ws[n], LogWrite(k, i, d)) <==>
            |ws[n].lh| < LOGSIZE && (ws[n].bio.bufs[i].block in ws[n].lh || ws[n].ops[k].used < MAXOPBLOCKS)
  {
    RunInv(ws, xs, n);
    var w := ws[n];
    AssertionsHold(w, End(k));
    assert BufferCache.BufOk(w.bio.bufs[i], w.view);
  }
}
