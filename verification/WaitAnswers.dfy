/** What wait, exit and kill mean for their callers, over every run of the machine in `ExitWait`. */
module WaitAnswers {
  import opened Collections
  import opened ExitWait

  // ---- What a wait comes back with ----

  predicate InWait(pc: Pc) { pc.Polling? || pc.Checked? || pc.Registered? || pc.Scan? }

  ghost predicate SomeMatch(u: Proc, f: Option<nat>, n: nat) {
    exists k: nat :: k < n && k < |u.children| && Matches(f, u.children[k])
  }

  /** The scan knows whether a child it has passed matches. */
  ghost predicate ScanOk(u: Proc) {
    u.pc.Scan? ==> u.children != [] && (u.pc.any <==> SomeMatch(u, u.pc.f, u.pc.i))
  }

  ghost predicate ScansOk(s: State) { forall p :: p in s.procs ==> ScanOk(s.procs[p]) }

  lemma ScanOnOk(u: Proc, w: Proc, any: bool)
    requires u.pc.Scan? && ScanOk(u) && u.pc.i < |u.children|
    requires w == u.(pc := Scan(u.pc.f, u.pc.nb, u.pc.i + 1, any))
    requires any <==> u.pc.any || Matches(u.pc.f, u.children[u.pc.i])
    ensures ScanOk(w)
  {
    if SomeMatch(u, u.pc.f, u.pc.i) {
      var k: nat :| k < u.pc.i && k < |u.children| && Matches(u.pc.f, u.children[k]);
      assert k < w.pc.i && k < |w.children| && Matches(w.pc.f, w.children[k]);
    }
    if Matches(u.pc.f, u.children[u.pc.i]) {
      assert u.pc.i < w.pc.i && Matches(w.pc.f, w.children[u.pc.i]);
    }
  }

  /** What others may do to a process: add to its list, unless it scans it, set its parent, its waker
      cell and its killed flag. */
  ghost predicate Untouched(u: Proc, w: Proc) {
    && w == u.(children := w.children, parent := w.parent, waker := w.waker, killed := w.killed)
    && u.children <= w.children && (u.pc.Scan? ==> w.children == u.children)
  }

  lemma OthersInExit(s: State, x: Step, q: nat)
    requires Enabled(s, x) && ExitPath(x) && q in s.procs && q != x.p
    ensures q in Next(s, x).procs && Untouched(s.procs[q], Next(s, x).procs[q])
  {
  }

  lemma OthersInWait(s: State, x: Step, q: nat)
    requires Enabled(s, x) && !ExitPath(x) && q in s.procs && q != x.p
    ensures q in Next(s, x).procs && Untouched(s.procs[q], Next(s, x).procs[q])
  {
  }

  lemma Others(s: State, x: Step, q: nat)
    requires Enabled(s, x) && q in s.procs && q != x.p
    ensures q in Next(s, x).procs && Untouched(s.procs[q], Next(s, x).procs[q])
  {
    if ExitPath(x) {
      OthersInExit(s, x, q);
    } else {
      OthersInWait(s, x, q);
    }
  }

  lemma StepScans(s: State, x: Step)
    requires Enabled(s, x) && ScansOk(s)
    ensures ScansOk(Next(s, x))
  {
    var t := Next(s, x);
    assert ScanOk(s.procs[x.p]);
    OwnScan(s, x);
    forall q | q in t.procs && q != x.p ensures ScanOk(t.procs[q]) {
      if q in s.procs {
        assert ScanOk(s.procs[q]);
        Others(s, x, q);
      } else {
        NewRuns(s, x, q);
      }
    }
  }

  lemma NewRuns(s: State, x: Step, q: nat)
    requires Enabled(s, x) && q !in s.procs && q in Next(s, x).procs
    ensures Next(s, x).procs[q].pc.Running?
  {
  }

  lemma OwnScan(s: State, x: Step)
    requires Enabled(s, x) && ScanOk(s.procs[x.p])
    ensures x.p in Next(s, x).procs && ScanOk(Next(s, x).procs[x.p])
  {
    var u, w := s.procs[x.p], Next(s, x).procs[x.p];
    if x.ScanOne? && w.pc.Scan? {
      ScanOnOk(u, w, w.pc.any);
    }
  }

  lemma {:induction false} RunScans(run: seq<State>, steps: seq<Step>, i: nat)
    requires Run(run, steps) && i < |run|
    ensures ScansOk(run[i])
  {
    if i > 0 {
      RunScans(run, steps, i - 1);
      StepScans(run[i - 1], steps[i - 1]);
    }
  }

  /** What each answer says of the process that waits, and of its children, when it is given. */
  ghost predicate Justified(s: State, t: State, p: nat)
    requires p in s.procs && p in t.procs
  {
    var u, w := s.procs[p], t.procs[p];
    && InWait(u.pc) && w.answer.Some?
    && (match w.answer.value
        case Killed => u.killed
        case NoChildren => forall c :: c in u.children ==> !Matches(u.pc.f, c)
        case WouldBlock => u.pc.nb && exists c :: c in u.children && Matches(u.pc.f, c)
        case Child(c, code) =>
          && c in u.children && Matches(u.pc.f, c) && IsZombie(s.procs, c) && c in s.exits && code == s.exits[c]
          && t.reaped == s.reaped[c := code] && multiset(w.children) == multiset(u.children) - multiset{c})
    && (!w.answer.value.Child? ==> t.reaped == s.reaped && w.children == u.children)
  }

  /** Over every run: a wait comes back only killed, or with a dead child that it was asked for, its
      code, and that child off the list; or because no child is what it was asked for; or, if it may
      not block, because some are. */
  lemma WaitReturns(run: seq<State>, steps: seq<Step>, i: nat)
    requires Run(run, steps) && i < |steps| && steps[i].p in run[i].procs && InWait(run[i].procs[steps[i].p].pc)
    ensures steps[i].p in run[i + 1].procs
    ensures run[i + 1].procs[steps[i].p].pc.Running? ==> Justified(run[i], run[i + 1], steps[i].p)
    ensures steps[i].CheckKilled? ==> (run[i + 1].procs[steps[i].p].pc.Running? <==> run[i].procs[steps[i].p].killed)
  {
    RunInv(run, steps, i);
    RunScans(run, steps, i);
    var s, x := run[i], steps[i];
    assert Enabled(s, x) && run[i + 1] == Next(s, x);
    assert ScanOk(s.procs[x.p]) && ProcOk(s, x.p);
    if x.ScanOne? {
      assert ProcOk(s, s.procs[x.p].children[s.procs[x.p].pc.i]);
      ReapJustified(s, x.p);
    } else if x.ScanEnd? {
      ScanEndJustified(s, x.p);
    }
  }

  lemma ReapJustified(s: State, p: nat)
    requires Enabled(s, ScanOne(p)) && ProcOk(s, s.procs[p].children[s.procs[p].pc.i])
    ensures Next(s, ScanOne(p)).procs[p].pc.Running? ==> Justified(s, Next(s, ScanOne(p)), p)
  {
    var u := s.procs[p];
    LessOne(u.children, u.pc.i);
  }

  lemma LessOne(l: seq<nat>, i: nat)
    requires i < |l|
    ensures multiset(Without(l, i)) == multiset(l) - multiset{l[i]}
  {
    assert l == l[..i] + [l[i]] + l[i + 1..];
  }

  lemma ScanEndJustified(s: State, p: nat)
    requires Enabled(s, ScanEnd(p)) && ScanOk(s.procs[p])
    ensures Next(s, ScanEnd(p)).procs[p].pc.Running? ==> Justified(s, Next(s, ScanEnd(p)), p)
    ensures Next(s, ScanEnd(p)).procs[p].pc.Parked? ==>
              !s.procs[p].pc.nb && exists c :: c in s.procs[p].children && Matches(s.procs[p].pc.f, c)
  {
    var u := s.procs[p];
    if u.pc.any {
      var k: nat :| k < |u.children| && Matches(u.pc.f, u.children[k]);
      assert u.children[k] in u.children;
    } else {
      forall c | c in u.children ensures !Matches(u.pc.f, c) {
        var k: nat :| k < |u.children| && u.children[k] == c;
      }
      assert u.pc.f.None? ==> Matches(u.pc.f, u.children[0]);
    }
  }

  /** It parks only if it may block and has a child to wait for. */
  lemma WaitParks(run: seq<State>, steps: seq<Step>, i: nat)
    requires Run(run, steps) && i < |steps| && steps[i].p in run[i].procs && InWait(run[i].procs[steps[i].p].pc)
    ensures steps[i].p in run[i + 1].procs
    ensures
      var u := run[i].procs[steps[i].p];
      run[i + 1].procs[steps[i].p].pc.Parked? ==>
        !u.pc.nb && exists c :: c in u.children && Matches(u.pc.f, c)
  {
    RunScans(run, steps, i);
    var s, x := run[i], steps[i];
    assert Enabled(s, x) && run[i + 1] == Next(s, x);
    assert ScanOk(s.procs[x.p]);
    if x.ScanEnd? {
      ScanEndJustified(s, x.p);
    }
  }

  // ---- No dead child is overlooked ----

  /** The scan of `p` has still to come to its dead child `c`. */
  ghost predicate Ahead(s: State, p: nat, c: nat) {
    && p in s.procs && s.procs[p].pc.Scan? && Matches(s.procs[p].pc.f, c) && IsZombie(s.procs, c)
    && exists k: nat :: s.procs[p].pc.i <= k < |s.procs[p].children| && s.procs[p].children[k] == c
  }

  predicate GotChild(u: Proc) { u.pc.Running? && u.answer.Some? && u.answer.value.Child? }

  lemma StaysDead(s: State, x: Step, c: nat)
    requires Enabled(s, x) && IsZombie(s.procs, c)
    ensures IsZombie(Next(s, x).procs, c)
  {
    if c != x.p {
      Others(s, x, c);
    }
  }

  lemma ScanAhead(s: State, p: nat, c: nat, k: nat)
    requires Enabled(s, ScanOne(p)) && Matches(s.procs[p].pc.f, c) && IsZombie(s.procs, c)
    requires s.procs[p].pc.i <= k < |s.procs[p].children| && s.procs[p].children[k] == c
    ensures
      var w := Next(s, ScanOne(p)).procs[p];
      GotChild(w) || (w.pc.Scan? && w.pc.f == s.procs[p].pc.f && w.pc.i <= k && w.children == s.procs[p].children)
  {
  }

  lemma StepAhead(s: State, x: Step, p: nat, c: nat)
    requires Enabled(s, x) && Ahead(s, p, c)
    ensures p in Next(s, x).procs && (Ahead(Next(s, x), p, c) || (x.p == p && GotChild(Next(s, x).procs[p])))
  {
    StaysDead(s, x, c);
    var u := s.procs[p];
    var k: nat :| u.pc.i <= k < |u.children| && u.children[k] == c;
    if x.p != p {
      Others(s, x, p);
    } else {
      assert x == ScanOne(p);
      ScanAhead(s, p, c, k);
    }
    var w := Next(s, x).procs[p];
    assert w.pc.Scan? ==> w.children[k] == c;
  }

  /** From state `i` to state `j` process `p` scans. */
  ghost predicate Scans(run: seq<State>, i: nat, j: nat, p: nat)
    requires j < |run|
  {
    var scans := forall m: nat {:trigger run[m]} :: i <= m <= j ==> p in run[m].procs && run[m].procs[p].pc.Scan?;
    scans
  }

  lemma {:induction false} RunAhead(run: seq<State>, steps: seq<Step>, i: nat, j: nat, p: nat, c: nat)
    requires Run(run, steps) && i <= j < |run| && Ahead(run[i], p, c) && Scans(run, i, j, p)
    ensures Ahead(run[j], p, c)
  {
    if i < j {
      assert Scans(run, i, j - 1, p);
      RunAhead(run, steps, i, j - 1, p, c);
      StepAhead(run[j - 1], steps[j - 1], p, c);
      assert run[j].procs[p].pc.Scan?;
    }
  }

  /** Over every run: if, when the poll of a wait locks the list, a child it was asked for is dead, that
      poll comes back with a child, whatever others do in the meantime. */
  lemma DeadChildFound(run: seq<State>, steps: seq<Step>, i: nat, j: nat, p: nat, c: nat)
    requires Run(run, steps) && i < j < |steps| && steps[i] == Lock(p) && steps[j].p == p
    requires p in run[i].procs && run[i].procs[p].pc.Registered? && Scans(run, i + 1, j, p)
    requires c in run[i].procs[p].children && Matches(run[i].procs[p].pc.f, c) && IsZombie(run[i].procs, c)
    ensures p in run[j + 1].procs && (run[j + 1].procs[p].pc.Scan? || GotChild(run[j + 1].procs[p]))
  {
    var s, t := run[i], run[i + 1];
    assert Enabled(s, steps[i]) && t == Next(s, steps[i]);
    StaysDead(s, steps[i], c);
    var k: nat :| k < |s.procs[p].children| && s.procs[p].children[k] == c;
    assert t.procs[p].children[k] == c && t.procs[p].pc.i == 0;
    RunAhead(run, steps, i + 1, j, p, c);
    StepAhead(run[j], steps[j], p, c);
  }

  // ---- Orphans ----

  /** `c` has been reaped, or is in the hands of `p`, or on the list of init. */
  ghost predicate CaredFor(s: State, p: nat, c: nat) {
    c in s.reaped || Holds(s.procs, p, c) || (s.init in s.procs && c in s.procs[s.init].children)
  }

  lemma OwnList(s: State, x: Step, c: nat)
    requires Enabled(s, x) && c in s.procs[x.p].children && !x.Exit?
    ensures x.p in Next(s, x).procs && (c in Next(s, x).procs[x.p].children || c in Next(s, x).reaped)
  {
    var u := s.procs[x.p];
    if x.ScanOne? {
      var k: nat :| k < |u.children| && u.children[k] == c;
      if k != u.pc.i {
        assert c in Without(u.children, u.pc.i) by { StillIn(u.children, u.pc.i, k); }
      }
    }
  }

  lemma StillIn(l: seq<nat>, i: nat, k: nat)
    requires i < |l| && k < |l| && k != i
    ensures l[k] in Without(l, i)
  {
    var r := Without(l, i);
    assert r[if k < i then k else k - 1] == l[k];
  }

  /** An exiting process keeps what it has in hand until it hands it to init. */
  lemma OwnHands(s: State, x: Step, c: nat)
    requires Enabled(s, x) && s.procs[x.p].pc.Exiting() && s.procs[x.p].children == [] && x.p != s.init
    requires c in s.procs[x.p].pc.Kids() &&
               (s.procs[x.p].pc.Reparent? ==> s.procs[x.p].pc.done <= |s.procs[x.p].pc.kids|)
    ensures var t := Next(s, x);
      x.p in t.procs && s.init in t.procs && (c in t.procs[x.p].pc.Kids() || c in t.procs[s.init].children)
  {
  }

  lemma StaysExiting(s: State, x: Step, p: nat)
    requires Enabled(s, x) && p in s.procs && s.procs[p].pc.Exiting()
    ensures p in Next(s, x).procs && Next(s, x).procs[p].pc.Exiting() && Next(s, x).init == s.init
  {
    if p != x.p {
      Others(s, x, p);
    }
  }

  lemma StepCares(s: State, x: Step, p: nat, c: nat)
    requires Inv(s) && Enabled(s, x) && p in s.procs && s.procs[p].pc.Exiting() && CaredFor(s, p, c)
    ensures var t := Next(s, x); p in t.procs && t.procs[p].pc.Exiting() && CaredFor(t, p, c)
  {
    assert ProcOk(s, p) && ProcOk(s, s.init);
    StaysExiting(s, x, p);
    if c in s.reaped {
      ReapedStays(s, x, c);
    } else if c in s.procs[s.init].children {
      if x.p == s.init {
        OwnList(s, x, c);
      } else {
        Others(s, x, s.init);
      }
    } else if x.p == p {
      OwnHands(s, x, c);
    } else {
      Others(s, x, p);
    }
  }

  lemma {:induction false} RunCares(run: seq<State>, steps: seq<Step>, i: nat, j: nat, p: nat, c: nat)
    requires Run(run, steps) && i <= j < |run|
    requires p in run[i].procs && run[i].procs[p].pc.Exiting() && CaredFor(run[i], p, c)
    ensures p in run[j].procs && run[j].procs[p].pc.Exiting() && CaredFor(run[j], p, c)
  {
    if i < j {
      RunCares(run, steps, i, j - 1, p, c);
      RunInv(run, steps, j - 1);
      StepCares(run[j - 1], steps[j - 1], p, c);
    }
  }

  /** Over every run: from the moment a process is a zombie, each child it had when it called exit has
      been reaped or is on the list of init. */
  lemma OrphansGoToInit(run: seq<State>, steps: seq<Step>, i: nat, j: nat, p: nat, code: int, c: nat)
    requires Run(run, steps) && i < j < |run| && steps[i] == Exit(p, code)
    requires p in run[i].procs && c in run[i].procs[p].children
    ensures p in run[j].procs
    ensures run[j].procs[p].zombie ==>
              c in run[j].reaped || (run[j].init in run[j].procs && c in run[j].procs[run[j].init].children)
  {
    assert Enabled(run[i], steps[i]) && run[i + 1] == Next(run[i], steps[i]);
    RunCares(run, steps, i + 1, j, p, c);
    RunInv(run, steps, j);
    assert ProcOk(run[j], p);
  }

  // ---- Where codes and kills come from ----

  ghost predicate ExitedWith(steps: seq<Step>, n: nat, p: nat, code: int) {
    exists k: nat :: k < n && k < |steps| && steps[k] == Exit(p, code)
  }

  ghost predicate KilledIn(steps: seq<Step>, n: nat, q: nat) {
    exists k: nat :: k < n && k < |steps| && steps[k].Kill? && steps[k].q == q
  }

  lemma StepExits(s: State, x: Step)
    requires Enabled(s, x)
    ensures Next(s, x).exits == if x.Exit? then s.exits[x.p := x.code] else s.exits
  {
  }

  lemma StepKills(s: State, x: Step, q: nat)
    requires Enabled(s, x)
    ensures q in Next(s, x).procs && Next(s, x).procs[q].killed <==>
              q in s.procs && (s.procs[q].killed || (x.Kill? && x.q == q))
  {
  }

  /** Over every run: the code on record of a process is one it passed to exit itself. */
  lemma {:induction false} CodesArePassed(run: seq<State>, steps: seq<Step>, i: nat, q: nat)
    requires Run(run, steps) && i < |run|
    ensures q in run[i].exits ==> ExitedWith(steps, i, q, run[i].exits[q])
  {
    if i > 0 {
      CodesArePassed(run, steps, i - 1, q);
      var s, x := run[i - 1], steps[i - 1];
      StepExits(s, x);
      if x.Exit? && x.p == q {
        assert steps[i - 1] == Exit(q, x.code);
      } else if q in s.exits {
        var k: nat :| k < i - 1 && steps[k] == Exit(q, s.exits[q]);
        assert k < i;
      }
    }
  }

  /** Over every run: a process is marked killed exactly when some kill named it. */
  lemma {:induction false} KillsAreMeant(run: seq<State>, steps: seq<Step>, i: nat, q: nat)
    requires Run(run, steps) && i < |run|
    ensures q in run[i].procs && run[i].procs[q].killed <==> KilledIn(steps, i, q)
  {
    if i > 0 {
      KillsAreMeant(run, steps, i - 1, q);
      var s, x := run[i - 1], steps[i - 1];
      StepKills(s, x, q);
      if KilledIn(steps, i - 1, q) {
        var k: nat :| k < i - 1 && steps[k].Kill? && steps[k].q == q;
        assert KilledIn(steps, i, q);
      }
    }
  }

  // ---- Nobody is stuck ----

  /** The step a process takes next, if it is neither running, parked nor dead. */
  function NextStep(s: State, p: nat): (x: Step)
    requires p in s.procs
  {
    var u := s.procs[p];
    match u.pc
    case Polling(_, _) => CheckKilled(p)
    case Checked(_, _) => Register(p)
    case Registered(_, _) => Lock(p)
    case Scan(_, _, i, _) => if i < |u.children| then ScanOne(p) else ScanEnd(p)
    case Reparent(_, kids, done) => if done < |kids| then SetParent(p) else Splice(p)
    case WakeInit(_) => TakeInit(p)
    case PushInit(_) => DoPushInit(p)
    case StoreCode(_) => DoStoreCode(p)
    case StoreZombie(_) => DoStoreZombie(p)
    case ReadParent => DoReadParent(p)
    case WakeParent(_) => TakeParent(p)
    case PushParent(_) => DoPushParent(p)
    case KillTake(_) => DoKillTake(p)
    case KillPush(_, _) => DoKillPush(p)
    case _ => Pop(p)
  }

  /** A process in the middle of a call can go on at once, unless it waits for init to let go of its
      list. */
  lemma MidCall(s: State, p: nat)
    requires p in s.procs && s.init in s.procs && ProcOk(s, p)
    requires forall c :: Holds(s.procs, p, c) ==> c in s.procs
    ensures
      var u, x := s.procs[p], NextStep(s, p);
      if u.pc.Running? || u.pc.Parked? || u.pc.Dead? then x == Pop(p)
      else Enabled(s, x) <==> x != Splice(p) || !s.procs[s.init].pc.Scan?
  {
    var u := s.procs[p];
    assert u.pc.Scan? && u.pc.i < |u.children| ==> Holds(s.procs, p, u.children[u.pc.i]);
    assert u.pc.Reparent? && u.pc.done < |u.pc.kids| ==> Holds(s.procs, p, u.pc.kids[u.pc.done]);
  }

  /** Over every run: a process in the middle of a call can go on at once, unless it waits for init to
      let go of its list; a parked one exactly when it is in the ready queue. */
  lemma NobodyIsStuck(run: seq<State>, steps: seq<Step>, i: nat, p: nat)
    requires Run(run, steps) && i < |run| && p in run[i].procs
    ensures
      var s := run[i];
      var u, x := s.procs[p], NextStep(s, p);
      if u.pc.Running? || u.pc.Parked? || u.pc.Dead? then Enabled(s, Pop(p)) <==> p in s.queued
      else Enabled(s, x) <==> x != Splice(p) || (s.init in s.procs && !s.procs[s.init].pc.Scan?)
  {
    RunInv(run, steps, i);
    assert ProcOk(run[i], p);
    MidCall(run[i], p);
  }

  /** A running process may fork, wait, kill anybody and, unless it is init, exit. */
  lemma RunningMay(run: seq<State>, steps: seq<Step>, i: nat, p: nat, c: nat, f: Option<nat>, nb: bool, code: int)
    requires Run(run, steps) && i < |run| && p in run[i].procs && run[i].procs[p].pc.Running?
    ensures
      var s := run[i];
      && (Enabled(s, Fork(p, c)) <==> c !in s.procs) && (Enabled(s, Kill(p, c)) <==> c in s.procs)
      && Enabled(s, CallWait(p, f, nb)) && (Enabled(s, Exit(p, code)) <==> p != s.init)
  {
    RunInv(run, steps, i);
  }

  // ---- Calls do what they say ----

  /** The last wait that `p` called in the first `n` steps. */
  function LastCall(steps: seq<Step>, n: nat, p: nat): (x: Option<Step>)
    requires n <= |steps|
  {
    if n == 0 then None
    else if steps[n - 1].CallWait? && steps[n - 1].p == p then Some(steps[n - 1])
    else LastCall(steps, n - 1, p)
  }

  predicate Asks(pc: Pc, x: Option<Step>) {
    InWait(pc) || pc.Parked? ==> x.Some? && x.value.CallWait? && pc.f == x.value.f && pc.nb == x.value.nb
  }

  lemma ExitAsks(s: State, x: Step)
    requires Enabled(s, x) && ExitPath(x)
    ensures x.p in Next(s, x).procs && !InWait(Next(s, x).procs[x.p].pc) && !Next(s, x).procs[x.p].pc.Parked?
  {
  }

  predicate PollPath(x: Step) { x.CheckKilled? || x.Register? || x.Lock? || x.ScanOne? || x.ScanEnd? }

  lemma ScanOneAsks(s: State, p: nat, call: Option<Step>)
    requires Enabled(s, ScanOne(p)) && Asks(s.procs[p].pc, call)
    ensures p in Next(s, ScanOne(p)).procs && Asks(Next(s, ScanOne(p)).procs[p].pc, call)
  {
  }

  lemma ScanEndAsks(s: State, p: nat, call: Option<Step>)
    requires Enabled(s, ScanEnd(p)) && Asks(s.procs[p].pc, call)
    ensures p in Next(s, ScanEnd(p)).procs && Asks(Next(s, ScanEnd(p)).procs[p].pc, call)
  {
  }

  lemma LockAsks(s: State, p: nat, call: Option<Step>)
    requires Enabled(s, Lock(p)) && Asks(s.procs[p].pc, call)
    ensures p in Next(s, Lock(p)).procs && Asks(Next(s, Lock(p)).procs[p].pc, call)
  {
  }

  lemma RegisterAsks(s: State, p: nat, call: Option<Step>)
    requires Enabled(s, Register(p)) && Asks(s.procs[p].pc, call)
    ensures p in Next(s, Register(p)).procs && Asks(Next(s, Register(p)).procs[p].pc, call)
  {
  }

  lemma CheckKilledAsks(s: State, p: nat, call: Option<Step>)
    requires Enabled(s, CheckKilled(p)) && Asks(s.procs[p].pc, call)
    ensures p in Next(s, CheckKilled(p)).procs && Asks(Next(s, CheckKilled(p)).procs[p].pc, call)
  {
  }

  lemma PollAsks(s: State, x: Step, call: Option<Step>)
    requires Enabled(s, x) && PollPath(x) && Asks(s.procs[x.p].pc, call)
    ensures x.p in Next(s, x).procs && Asks(Next(s, x).procs[x.p].pc, call)
  {
    match x {
      case CheckKilled(p) => CheckKilledAsks(s, p, call);
      case Register(p) => RegisterAsks(s, p, call);
      case Lock(p) => LockAsks(s, p, call);
      case ScanOne(p) => ScanOneAsks(s, p, call);
      case ScanEnd(p) => ScanEndAsks(s, p, call);
    }
  }

  lemma WaitAsks(s: State, x: Step, call: Option<Step>)
    requires Enabled(s, x) && !ExitPath(x) && !PollPath(x) && Asks(s.procs[x.p].pc, call)
    ensures x.p in Next(s, x).procs && Asks(Next(s, x).procs[x.p].pc, if x.CallWait? then Some(x) else call)
  {
  }

  lemma OwnAsks(s: State, x: Step, call: Option<Step>)
    requires Enabled(s, x) && Asks(s.procs[x.p].pc, call)
    ensures x.p in Next(s, x).procs && Asks(Next(s, x).procs[x.p].pc, if x.CallWait? then Some(x) else call)
  {
    if ExitPath(x) {
      ExitAsks(s, x);
    } else if PollPath(x) {
      PollAsks(s, x, call);
    } else {
      WaitAsks(s, x, call);
    }
  }

  /** Over every run: a process waits for what it last called wait for. */
  lemma {:induction false} WaitsAsCalled(run: seq<State>, steps: seq<Step>, i: nat, p: nat)
    requires Run(run, steps) && i < |run| && p in run[i].procs
    ensures Asks(run[i].procs[p].pc, LastCall(steps, i, p))
  {
    if i > 0 {
      var s, x := run[i - 1], steps[i - 1];
      assert Enabled(s, x) && run[i] == Next(s, x);
      if p !in s.procs {
        NewRuns(s, x, p);
      } else {
        WaitsAsCalled(run, steps, i - 1, p);
        if x.p == p {
          OwnAsks(s, x, LastCall(steps, i - 1, p));
        } else {
          Others(s, x, p);
        }
      }
    }
  }

  /** A fork gives its caller one more child, last on its list, that runs and has it as its parent. */
  lemma ForkMeans(run: seq<State>, steps: seq<Step>, i: nat, p: nat, c: nat)
    requires Run(run, steps) && i < |steps| && steps[i] == Fork(p, c) && p in run[i].procs
    ensures c !in run[i].procs && c in run[i + 1].procs && p in run[i + 1].procs
    ensures
      var u := run[i + 1].procs[c];
      && u.pc.Running? && !u.zombie && !u.killed && u.parent == p && u.children == []
      && run[i + 1].procs[p] == run[i].procs[p].(children := run[i].procs[p].children + [c])
    ensures forall q :: q in run[i].procs && q != p ==> q in run[i + 1].procs && run[i + 1].procs[q] == run[i].procs[q]
  {
    assert Enabled(run[i], steps[i]) && run[i + 1] == Next(run[i], steps[i]);
  }
}
