/** fork, exit, wait and reparenting (`sys_fork`, `sys_exit_inner`, `WaitFor::poll`) as a state
    machine: every lock section, atomic store and wake is one step, and the steps of all
    processes interleave freely. Init never exits. */
module ExitWait {
  import opened Collections

  /** Where a process stands. `Scan` holds the lock on its own children list. */
  datatype Pc =
    | Running
    | Polling(f: Option<nat>, nb: bool)
    | Checked(f: Option<nat>, nb: bool)
    | Registered(f: Option<nat>, nb: bool)
    | Scan(f: Option<nat>, nb: bool, i: nat, any: bool)
    | Parked(f: Option<nat>, nb: bool)
    | Reparent(code: int, kids: seq<nat>, done: nat)
    | WakeInit(code: int)
    | PushInit(code: int)
    | StoreCode(code: int)
    | StoreZombie(code: int)
    | ReadParent
    | WakeParent(q: nat)
    | PushParent(q: nat)
    | Dead
    | KillTake(q: nat)
    | KillPush(q: nat, had: bool)
  {
    predicate Exiting() {
      Reparent? || WakeInit? || PushInit? || StoreCode? || StoreZombie? || Zombie()
    }
    predicate Zombie() { ReadParent? || WakeParent? || PushParent? || Dead? }
    function Kids(): (s: seq<nat>) { if Reparent? then kids else [] }
  }

  /** What a wait comes back with. */
  datatype Outcome = Killed | NoChildren | WouldBlock | Child(pid: nat, code: int)

  /** `waker`: the process's own waker sits in its `wait_waker` cell. `answer`: what its last wait came
      back with, none while it waits. */
  datatype Proc = Proc(
    zombie: bool, code: int, parent: nat, children: seq<nat>, waker: bool, killed: bool, pc: Pc,
    answer: Option<Outcome>)

  /** `queued`: tasks in their home CPU's ready queue. `exits` and `reaped` record the
      code each process passed to exit and the code its reaper got. */
  datatype State = State(
    init: nat, procs: map<nat, Proc>, queued: set<nat>, exits: map<nat, int>, reaped: map<nat, int>)

  datatype Step =
    | Fork(p: nat, c: nat)
    | CallWait(p: nat, f: Option<nat>, nb: bool)
    | CheckKilled(p: nat)
    | Register(p: nat)
    | Lock(p: nat)
    | ScanOne(p: nat)
    | ScanEnd(p: nat)
    | Pop(p: nat)
    | Exit(p: nat, code: int)
    | SetParent(p: nat)
    | Splice(p: nat)
    | TakeInit(p: nat)
    | DoPushInit(p: nat)
    | DoStoreCode(p: nat)
    | DoStoreZombie(p: nat)
    | DoReadParent(p: nat)
    | TakeParent(p: nat)
    | DoPushParent(p: nat)
    | Kill(p: nat, q: nat)
    | DoKillTake(p: nat)
    | DoKillPush(p: nat)

  predicate Matches(f: Option<nat>, c: nat) { f.None? || f.value == c }

  function Put(s: State, p: nat, x: Proc): (s': State) { s.(procs := s.procs[p := x]) }

  function SetPc(s: State, p: nat, pc: Pc): (s': State)
    requires p in s.procs
  {
    Put(s, p, s.procs[p].(pc := pc))
  }

  /** The wait of `u` is over. */
  function Answered(u: Proc, o: Outcome): (w: Proc) { u.(pc := Running, answer := Some(o)) }

  function Without(s: seq<nat>, i: nat): (r: seq<nat>)
    requires i < |s|
  {
    s[..i] + s[i + 1..]
  }

  /** Empty the waker cell of `q`. */
  function Taken(s: State, q: nat): (s': State)
    requires q in s.procs
  {
    Put(s, q, s.procs[q].(waker := false))
  }

  /** The scan found nothing to reap. */
  function ScanOver(u: Proc): (w: Proc)
    requires u.pc.Scan?
  {
    if u.pc.f.Some? && !u.pc.any then Answered(u, NoChildren)
    else if u.pc.nb then Answered(u, WouldBlock)
    else u.(pc := Parked(u.pc.f, u.pc.nb))
  }

  predicate Enabled(s: State, x: Step) {
    x.p in s.procs && s.init in s.procs &&
    var u := s.procs[x.p];
    match x
    case Fork(p, c) => u.pc.Running? && c !in s.procs
    case CallWait(_, _, _) => u.pc.Running?
    case CheckKilled(_) => u.pc.Polling?
    case Register(_) => u.pc.Checked?
    case Lock(_) => u.pc.Registered?
    case ScanOne(_) => u.pc.Scan? && u.pc.i < |u.children| && u.children[u.pc.i] in s.procs
    case ScanEnd(_) => u.pc.Scan? && u.pc.i == |u.children|
    case Pop(p) => p in s.queued && (u.pc.Parked? || u.pc.Running? || u.pc.Dead?)
    case Exit(p, _) => u.pc.Running? && p != s.init
    case SetParent(_) => u.pc.Reparent? && u.pc.done < |u.pc.kids| && u.pc.kids[u.pc.done] in s.procs
    case Splice(_) => u.pc.Reparent? && u.pc.done == |u.pc.kids| && !s.procs[s.init].pc.Scan?
    case TakeInit(_) => u.pc.WakeInit?
    case DoPushInit(_) => u.pc.PushInit?
    case DoStoreCode(_) => u.pc.StoreCode?
    case DoStoreZombie(_) => u.pc.StoreZombie?
    case DoReadParent(_) => u.pc.ReadParent?
    case TakeParent(_) => u.pc.WakeParent? && u.pc.q in s.procs
    case DoPushParent(_) => u.pc.PushParent?
    case Kill(_, q) => u.pc.Running? && q in s.procs
    case DoKillTake(_) => u.pc.KillTake? && u.pc.q in s.procs
    case DoKillPush(_) => u.pc.KillPush?
  }

  function Next(s: State, x: Step): (s': State)
    requires Enabled(s, x)
  {
    var u := s.procs[x.p];
    match x
    case Fork(p, c) =>
      Put(Put(s, p, u.(children := u.children + [c])), c, Proc(false, 0, p, [], false, false, Running, None))
    case CallWait(p, f, nb) => Put(s, p, u.(pc := Polling(f, nb), answer := None))
    case CheckKilled(p) => Put(s, p, if u.killed then Answered(u, Killed) else u.(pc := Checked(u.pc.f, u.pc.nb)))
    case Register(p) => Put(s, p, u.(waker := true, pc := Registered(u.pc.f, u.pc.nb)))
    case Lock(p) =>
      Put(s, p, if u.children == [] then Answered(u, NoChildren) else u.(pc := Scan(u.pc.f, u.pc.nb, 0, false)))
    case ScanOne(p) =>
      var c := u.children[u.pc.i];
      if !Matches(u.pc.f, c) then SetPc(s, p, Scan(u.pc.f, u.pc.nb, u.pc.i + 1, u.pc.any))
      else if s.procs[c].zombie then
        Put(s, p, Answered(u, Child(c, s.procs[c].code)).(children := Without(u.children, u.pc.i)))
          .(reaped := s.reaped[c := s.procs[c].code])
      else SetPc(s, p, Scan(u.pc.f, u.pc.nb, u.pc.i + 1, true))
    case ScanEnd(p) =>
      Put(s, p, ScanOver(u))
    case Pop(p) =>
      (if u.pc.Parked? then SetPc(s, p, Polling(u.pc.f, u.pc.nb)) else s).(queued := s.queued - {p})
    case Exit(p, code) =>
      Put(s, p, u.(children := [], pc := if u.children == [] then StoreCode(code) else Reparent(code, u.children, 0)))
        .(exits := s.exits[p := code])
    case SetParent(p) =>
      var k := u.pc.kids[u.pc.done];
      SetPc(Put(s, k, s.procs[k].(parent := s.init)), p, Reparent(u.pc.code, u.pc.kids, u.pc.done + 1))
    case Splice(p) =>
      SetPc(Put(s, s.init, s.procs[s.init].(children := s.procs[s.init].children + u.pc.kids)), p, WakeInit(u.pc.code))
    case TakeInit(p) =>
      SetPc(Taken(s, s.init), p, if s.procs[s.init].waker then PushInit(u.pc.code) else StoreCode(u.pc.code))
    case DoPushInit(p) => SetPc(s, p, StoreCode(u.pc.code)).(queued := s.queued + {s.init})
    case DoStoreCode(p) => Put(s, p, u.(code := u.pc.code, pc := StoreZombie(u.pc.code)))
    case DoStoreZombie(p) => Put(s, p, u.(zombie := true, pc := ReadParent))
    case DoReadParent(p) => SetPc(s, p, WakeParent(u.parent))
    case TakeParent(p) => SetPc(Taken(s, u.pc.q), p, if s.procs[u.pc.q].waker then PushParent(u.pc.q) else Dead)
    case DoPushParent(p) => SetPc(s, p, Dead).(queued := s.queued + {u.pc.q})
    case Kill(p, q) => SetPc(Put(s, q, s.procs[q].(killed := true)), p, KillTake(q))
    case DoKillTake(p) => SetPc(Taken(s, u.pc.q), p, KillPush(u.pc.q, s.procs[u.pc.q].waker))
    case DoKillPush(p) => SetPc(s, p, Running).(queued := s.queued + {u.pc.q})
  }

  // ---- Who holds whom ----

  /** `c` is in the children list of `p`, or in the list `p` took when it began to exit. */
  predicate Holds(procs: map<nat, Proc>, p: nat, c: nat) {
    p in procs && (c in procs[p].children || c in procs[p].pc.Kids())
  }

  ghost predicate Held(procs: map<nat, Proc>, c: nat) { exists p :: Holds(procs, p, c) }

  /** No process is held twice. */
  ghost predicate HeldOnce(procs: map<nat, Proc>) {
    && (forall p :: p in procs ==> Distinct(procs[p].children) && Distinct(procs[p].pc.Kids()))
    && (forall p :: p in procs && procs[p].pc.Kids() != [] ==> procs[p].children == [])
    && (forall p, q, c :: Holds(procs, p, c) && Holds(procs, q, c) ==> p == q)
  }

  /** Exactly the processes that are neither init nor reaped are held. */
  ghost predicate HeldOrReaped(s: State) {
    && (forall p, c :: Holds(s.procs, p, c) ==> c in s.procs && c != s.init && c !in s.reaped)
    && (forall c {:trigger Held(s.procs, c)} :: c in s.procs && c != s.init && c !in s.reaped ==> Held(s.procs, c))
    && (forall c :: c in s.reaped ==> c in s.procs && c != s.init)
  }

  predicate InHand(pc: Pc, i: nat) { pc.Reparent? && i < |pc.kids| }

  /** The parent link of a child points at the process whose list it is in. */
  ghost predicate Linked(s: State) {
    && (forall p, c :: p in s.procs && c in s.procs[p].children && c in s.procs ==> s.procs[c].parent == p)
    && (forall p, i: nat :: p in s.procs && InHand(s.procs[p].pc, i) && s.procs[p].pc.kids[i] in s.procs ==>
          s.procs[s.procs[p].pc.kids[i]].parent == if i < s.procs[p].pc.done then s.init else p)
  }

  predicate ProcOk(s: State, p: nat)
    requires p in s.procs
  {
    var u := s.procs[p];
    && u.zombie == u.pc.Zombie()
    && (u.pc.Exiting() ==> p != s.init && u.children == [] && p in s.exits)
    && (u.pc.Reparent? || u.pc.WakeInit? || u.pc.PushInit? || u.pc.StoreCode? || u.pc.StoreZombie? ==>
        u.pc.code == s.exits[p])
    && (u.pc.StoreZombie? || u.pc.Zombie() ==> u.code == s.exits[p])
    && (u.pc.Reparent? ==> u.pc.done <= |u.pc.kids|)
    && (u.pc.Scan? ==> u.pc.i <= |u.children|)
    && (u.pc.WakeParent? || u.pc.PushParent? || u.pc.KillTake? || u.pc.KillPush? ==> u.pc.q in s.procs)
    && u.parent in s.procs
  }

  ghost predicate Reaped(s: State) {
    forall c :: c in s.reaped ==> c in s.procs && s.procs[c].pc.Zombie() && c in s.exits && s.reaped[c] == s.exits[c]
  }

  // ---- Wakes ----

  /** The next step of `h` puts `p` in the ready queue. */
  predicate Pushing(s: State, h: nat, p: nat) {
    h in s.procs && (
      (s.procs[h].pc.PushInit? && p == s.init)
      || (s.procs[h].pc.PushParent? && s.procs[h].pc.q == p)
      || (s.procs[h].pc.KillPush? && s.procs[h].pc.q == p))
  }

  /** `h` has still to empty the waker cell of `p`. */
  predicate Waking(s: State, h: nat, p: nat) {
    h in s.procs && (
      (s.procs[h].pc.WakeInit? && p == s.init)
      || (s.procs[h].pc.ReadParent? && s.procs[h].parent == p)
      || (s.procs[h].pc.WakeParent? && s.procs[h].pc.q == p)
      || (s.procs[h].pc.KillTake? && s.procs[h].pc.q == p))
  }

  ghost predicate Woken(s: State, p: nat) { p in s.queued || exists h :: Pushing(s, h, p) }

  ghost predicate Pending(s: State, p: nat) { Woken(s, p) || exists h :: Waking(s, h, p) }

  /** A kill of `p` has still to reach its waker cell, or the wake is on its way. */
  ghost predicate KillDue(s: State, p: nat) { Woken(s, p) || exists h :: Killing(s, h, p) }

  predicate Killing(s: State, h: nat, p: nat) { h in s.procs && s.procs[h].pc.KillTake? && s.procs[h].pc.q == p }

  predicate Waiting(pc: Pc) { pc.Registered? || pc.Scan? || pc.Parked? }

  /** `p` has looked at child number `i`, found nothing to reap there, and relies on a wake. */
  predicate Passed(u: Proc, i: nat) {
    i < |u.children| && ((u.pc.Scan? && i < u.pc.i) || u.pc.Parked?) && Matches(u.pc.f, u.children[i])
  }

  predicate IsZombie(procs: map<nat, Proc>, c: nat) { c in procs && procs[c].zombie }

  /** Nothing `p` is waiting for can pass it by. */
  ghost predicate NoLostWake(s: State, p: nat)
    requires p in s.procs
  {
    var u := s.procs[p];
    && (Waiting(u.pc) ==> u.waker || Woken(s, p))
    && (forall i: nat :: Passed(u, i) && IsZombie(s.procs, u.children[i]) ==> Pending(s, p))
    && ((u.pc.Checked? || Waiting(u.pc)) && u.killed ==> KillDue(s, p))
  }

  ghost predicate ProcsOk(s: State) { forall p {:trigger ProcOk(s, p)} :: p in s.procs ==> ProcOk(s, p) }

  ghost predicate WakesOk(s: State) { forall p {:trigger NoLostWake(s, p)} :: p in s.procs ==> NoLostWake(s, p) }

  ghost predicate Inv(s: State) {
    var once, held, linked, procs, reaped, wakes :=
      HeldOnce(s.procs), HeldOrReaped(s), Linked(s), ProcsOk(s), Reaped(s), WakesOk(s);
    var inv := s.init in s.procs && once && held && linked && procs && reaped && wakes;
    inv
  }

  // ---- Frames ----

  ghost predicate SameLists(a: map<nat, Proc>, b: map<nat, Proc>) {
    && a.Keys == b.Keys
    && forall p :: p in a ==> a[p].children == b[p].children && a[p].pc.Kids() == b[p].pc.Kids()
  }

  lemma ListsKeep(s: State, t: State)
    requires HeldOnce(s.procs) && HeldOrReaped(s)
    requires SameLists(s.procs, t.procs) && t.init == s.init && t.reaped == s.reaped
    ensures HeldOnce(t.procs) && HeldOrReaped(t)
  {
    assert forall p, c :: Holds(t.procs, p, c) <==> Holds(s.procs, p, c);
    forall c | c in t.procs && c != t.init && c !in t.reaped
      ensures Held(t.procs, c)
    {
      assert Held(s.procs, c);
      var p :| Holds(s.procs, p, c);
      assert Holds(t.procs, p, c);
    }
  }

  /** What `p` owed `q` in `s` it still owes in `t`, or has done. */
  predicate DutiesKept(s: State, t: State, p: nat, q: nat) {
    && (Pushing(s, p, q) ==> Pushing(t, p, q) || q in t.queued)
    && (Waking(s, p, q) ==> Waking(t, p, q) || Pushing(t, p, q))
    && (Killing(s, p, q) ==> Killing(t, p, q) || Pushing(t, p, q))
  }

  lemma WokenKept(s: State, t: State, p: nat, q: nat)
    requires t.init == s.init && p in s.procs && p in t.procs
    requires forall h :: h in s.procs && h != p ==>
               h in t.procs && t.procs[h].pc == s.procs[h].pc && t.procs[h].parent == s.procs[h].parent
    requires q in s.queued ==> q in t.queued
    requires DutiesKept(s, t, p, q)
    ensures Woken(s, q) ==> Woken(t, q)
    ensures Pending(s, q) ==> Pending(t, q)
    ensures KillDue(s, q) ==> KillDue(t, q)
  {
    forall h | Pushing(s, h, q) ensures Woken(t, q) {
      assert h != p ==> Pushing(t, h, q);
    }
    forall h | Waking(s, h, q) ensures Pending(t, q) {
      assert h != p ==> Waking(t, h, q);
    }
    forall h | Killing(s, h, q) ensures KillDue(t, q) {
      assert h != p ==> Killing(t, h, q);
    }
  }

  /** The records are equal up to the waker cell and the killed flag. */
  predicate Alike(u: Proc, w: Proc) { w == u.(waker := w.waker, killed := w.killed) }

  /** Only the record of `p`, waker cells, killed flags and the ready queue change; no list moves. */
  ghost predicate Solo(s: State, t: State, p: nat) {
    && t.init == s.init && t.reaped == s.reaped && t.exits == s.exits
    && p in s.procs && t.procs.Keys == s.procs.Keys
    && (forall q :: q in s.procs && q != p ==> Alike(s.procs[q], t.procs[q]))
    && t.procs[p].children == s.procs[p].children
    && t.procs[p].parent == s.procs[p].parent
    && t.procs[p].pc.Kids() == s.procs[p].pc.Kids() && !t.procs[p].pc.Reparent?
  }

  lemma SoloLinked(s: State, t: State, p: nat)
    requires Solo(s, t, p) && Linked(s)
    ensures Linked(t)
  {
  }

  lemma SoloProcs(s: State, t: State, p: nat)
    requires Solo(s, t, p)
    requires ProcsOk(s) && ProcOk(t, p)
    ensures ProcsOk(t)
  {
    forall q | q in t.procs && q != p ensures ProcOk(t, q) {
      assert ProcOk(s, q);
    }
  }

  lemma SoloReaped(s: State, t: State, p: nat)
    requires Solo(s, t, p) && Reaped(s)
    requires s.procs[p].pc.Zombie() ==> t.procs[p].pc.Zombie()
    ensures Reaped(t)
  {
  }

  /** A process whose own record stays as it was loses no wake. */
  lemma SoloWake(s: State, t: State, p: nat, q: nat)
    requires Solo(s, t, p) && Linked(s)
    requires q in s.procs && q != p && NoLostWake(s, q) && t.procs[q] == s.procs[q]
    requires q in s.queued ==> q in t.queued
    requires DutiesKept(s, t, p, q)
    requires t.procs[p].zombie && !s.procs[p].zombie ==> t.procs[p].pc.ReadParent?
    ensures NoLostWake(t, q)
  {
    WokenKept(s, t, p, q);
    var w := s.procs[q];
    forall i: nat | Passed(w, i) && IsZombie(t.procs, w.children[i]) ensures Pending(t, q) {
      if w.children[i] == p && !s.procs[p].zombie {
        assert Waking(t, p, q);
      }
    }
  }

  /** `r` is the process whose waker cell or killed flag `p` changes, or `p` itself. */
  lemma SoloWakes(s: State, t: State, p: nat, r: nat)
    requires Solo(s, t, p) && Linked(s) && WakesOk(s)
    requires s.queued - {p} <= t.queued
    requires r in s.procs && NoLostWake(t, p) && NoLostWake(t, r)
    requires forall q :: q in s.procs && q != p && q != r ==> t.procs[q] == s.procs[q] && DutiesKept(s, t, p, q)
    requires t.procs[p].zombie && !s.procs[p].zombie ==> t.procs[p].pc.ReadParent?
    ensures WakesOk(t)
  {
    forall q | q in t.procs ensures NoLostWake(t, q) {
      if q != p && q != r { SoloWake(s, t, p, q); }
    }
  }

  lemma SoloStep(s: State, t: State, p: nat, r: nat)
    requires Inv(s) && Solo(s, t, p)
    requires s.queued - {p} <= t.queued
    requires ProcOk(t, p) && r in s.procs && NoLostWake(t, p) && NoLostWake(t, r)
    requires forall q :: q in s.procs && q != p && q != r ==> t.procs[q] == s.procs[q] && DutiesKept(s, t, p, q)
    requires s.procs[p].pc.Zombie() ==> t.procs[p].pc.Zombie()
    requires t.procs[p].zombie && !s.procs[p].zombie ==> t.procs[p].pc.ReadParent?
    ensures Inv(t)
  {
    ListsKeep(s, t);
    SoloLinked(s, t, p);
    SoloProcs(s, t, p);
    SoloReaped(s, t, p);
    SoloWakes(s, t, p, r);
  }

  // ---- Steps that move no list ----

  predicate DutyFree(pc: Pc) {
    pc.Running? || pc.Polling? || pc.Checked? || Waiting(pc) || pc.StoreCode? || pc.StoreZombie?
  }

  lemma PutSolo(s: State, p: nat, u: Proc)
    requires p in s.procs
    requires u.children == s.procs[p].children && u.parent == s.procs[p].parent
    requires u.pc.Kids() == s.procs[p].pc.Kids() && !u.pc.Reparent?
    ensures Solo(s, Put(s, p, u), p)
    ensures DutyFree(s.procs[p].pc) ==> forall q :: DutiesKept(s, Put(s, p, u), p, q)
    ensures s.procs[p].pc.ReadParent? && u.pc == WakeParent(u.parent) ==> forall q :: DutiesKept(s, Put(s, p, u), p, q)
  {
  }

  /** `p` owes nobody a wake and only its own record changes. */
  lemma OwnStep(s: State, p: nat, u: Proc)
    requires Inv(s) && p in s.procs && DutyFree(s.procs[p].pc)
    requires u.children == s.procs[p].children && u.parent == s.procs[p].parent && u.pc.Kids() == [] && !u.pc.Reparent?
    requires u.zombie ==> u.pc.ReadParent?
    requires ProcOk(Put(s, p, u), p) && NoLostWake(Put(s, p, u), p)
    ensures Inv(Put(s, p, u))
  {
    var t := Put(s, p, u);
    assert ProcOk(s, p);
    PutSolo(s, p, u);
    SoloStep(s, t, p, p);
  }

  /** What was pending for `p` still is when only the record of `p`, which owes no wake, changes. */
  lemma OwnWakes(s: State, p: nat, u: Proc)
    requires p in s.procs && DutyFree(s.procs[p].pc)
    ensures Woken(s, p) ==> Woken(Put(s, p, u), p)
    ensures Pending(s, p) ==> Pending(Put(s, p, u), p)
    ensures KillDue(s, p) ==> KillDue(Put(s, p, u), p)
  {
    WokenKept(s, Put(s, p, u), p, p);
  }

  lemma QuietStep(s: State, p: nat, u: Proc)
    requires Inv(s) && p in s.procs && DutyFree(s.procs[p].pc)
    requires u.children == s.procs[p].children && u.parent == s.procs[p].parent && u.pc.Kids() == [] && !u.pc.Reparent?
    requires u.zombie ==> u.pc.ReadParent?
    requires ProcOk(Put(s, p, u), p) && !Waiting(u.pc) && !(u.pc.Checked? && u.killed)
    ensures Inv(Put(s, p, u))
  {
    OwnStep(s, p, u);
  }

  lemma CallWaitStep(s: State, p: nat, f: Option<nat>, nb: bool)
    requires Inv(s) && Enabled(s, CallWait(p, f, nb))
    ensures Inv(Next(s, CallWait(p, f, nb)))
  {
    assert ProcOk(s, p);
    QuietStep(s, p, s.procs[p].(pc := Polling(f, nb), answer := None));
  }

  lemma CheckKilledStep(s: State, p: nat)
    requires Inv(s) && Enabled(s, CheckKilled(p))
    ensures Inv(Next(s, CheckKilled(p)))
  {
    assert ProcOk(s, p);
    var u := s.procs[p];
    QuietStep(s, p, if u.killed then Answered(u, Killed) else u.(pc := Checked(u.pc.f, u.pc.nb)));
  }

  lemma RegisterStep(s: State, p: nat)
    requires Inv(s) && Enabled(s, Register(p))
    ensures Inv(Next(s, Register(p)))
  {
    assert ProcOk(s, p) && NoLostWake(s, p);
    var u := s.procs[p];
    var w := u.(waker := true, pc := Registered(u.pc.f, u.pc.nb));
    OwnWakes(s, p, w);
    OwnStep(s, p, w);
  }

  lemma LockStep(s: State, p: nat)
    requires Inv(s) && Enabled(s, Lock(p))
    ensures Inv(Next(s, Lock(p)))
  {
    assert ProcOk(s, p) && NoLostWake(s, p);
    var u := s.procs[p];
    var w := if u.children == [] then Answered(u, NoChildren) else u.(pc := Scan(u.pc.f, u.pc.nb, 0, false));
    OwnWakes(s, p, w);
    OwnStep(s, p, w);
  }

  lemma ScanEndStep(s: State, p: nat)
    requires Inv(s) && Enabled(s, ScanEnd(p))
    ensures Inv(Next(s, ScanEnd(p)))
  {
    assert ProcOk(s, p);
    var u := s.procs[p];
    if ScanOver(u).pc.Running? {
      QuietStep(s, p, ScanOver(u));
    } else {
      ParkStep(s, p);
    }
  }

  lemma ParkStep(s: State, p: nat)
    requires Inv(s) && Enabled(s, ScanEnd(p))
    ensures Inv(Put(s, p, s.procs[p].(pc := Parked(s.procs[p].pc.f, s.procs[p].pc.nb))))
  {
    assert ProcOk(s, p) && NoLostWake(s, p);
    var u := s.procs[p];
    var w := u.(pc := Parked(u.pc.f, u.pc.nb));
    OwnWakes(s, p, w);
    assert forall i: nat :: Passed(w, i) ==> Passed(u, i);
    OwnStep(s, p, w);
  }

  lemma ScanOnPassed(s: State, p: nat, w: Proc)
    requires p in s.procs && NoLostWake(s, p)
    requires s.procs[p].pc.Scan? && w.pc.Scan? && w.pc.f == s.procs[p].pc.f && w.pc.i == s.procs[p].pc.i + 1
    requires w.children == s.procs[p].children && w.zombie == s.procs[p].zombie
    requires NothingAt(s, p)
    requires Pending(s, p) ==> Pending(Put(s, p, w), p)
    ensures forall i: nat :: Passed(w, i) && IsZombie(Put(s, p, w).procs, w.children[i]) ==> Pending(Put(s, p, w), p)
  {
    var u := s.procs[p];
    forall i: nat | Passed(w, i) && IsZombie(Put(s, p, w).procs, w.children[i]) ensures Pending(Put(s, p, w), p) {
      assert IsZombie(s.procs, u.children[i]);
      assert i != u.pc.i;
      assert Passed(u, i);
    }
  }

  /** The child `p` looks at next is not one it can reap. */
  predicate NothingAt(s: State, p: nat) {
    p in s.procs && s.procs[p].pc.Scan? &&
    var u := s.procs[p];
    u.pc.i < |u.children| && !(Matches(u.pc.f, u.children[u.pc.i]) && IsZombie(s.procs, u.children[u.pc.i]))
  }

  lemma ScanOnStep(s: State, p: nat, any: bool)
    requires Inv(s) && NothingAt(s, p)
    ensures Inv(SetPc(s, p, Scan(s.procs[p].pc.f, s.procs[p].pc.nb, s.procs[p].pc.i + 1, any)))
  {
    assert ProcOk(s, p) && NoLostWake(s, p);
    var u := s.procs[p];
    var w := u.(pc := Scan(u.pc.f, u.pc.nb, u.pc.i + 1, any));
    OwnWakes(s, p, w);
    ScanOnPassed(s, p, w);
    OwnStep(s, p, w);
  }

  lemma StoreCodeStep(s: State, p: nat)
    requires Inv(s) && Enabled(s, DoStoreCode(p))
    ensures Inv(Next(s, DoStoreCode(p)))
  {
    assert ProcOk(s, p);
    var u := s.procs[p];
    QuietStep(s, p, u.(code := u.pc.code, pc := StoreZombie(u.pc.code)));
  }

  lemma StoreZombieStep(s: State, p: nat)
    requires Inv(s) && Enabled(s, DoStoreZombie(p))
    ensures Inv(Next(s, DoStoreZombie(p)))
  {
    assert ProcOk(s, p);
    QuietStep(s, p, s.procs[p].(zombie := true, pc := ReadParent));
  }

  lemma ReadParentStep(s: State, p: nat)
    requires Inv(s) && Enabled(s, DoReadParent(p))
    ensures Inv(Next(s, DoReadParent(p)))
  {
    assert ProcOk(s, p);
    PutSolo(s, p, s.procs[p].(pc := WakeParent(s.procs[p].parent)));
    SoloStep(s, Next(s, DoReadParent(p)), p, p);
  }

  /** `p` puts `q`, whose waker it holds, in the ready queue and goes on at `pc`. */
  lemma PushStep(s: State, p: nat, q: nat, pc: Pc)
    requires Inv(s) && p in s.procs && Pushing(s, p, q)
    requires pc == Dead || pc == Running || pc.StoreCode?
    requires ProcOk(SetPc(s, p, pc), p) && (s.procs[p].pc.PushParent? ==> pc.Dead?)
    ensures Inv(SetPc(s, p, pc).(queued := s.queued + {q}))
  {
    assert ProcOk(s, p);
    var t := SetPc(s, p, pc).(queued := s.queued + {q});
    PushSolo(s, t, p, q, pc);
    SoloStep(s, t, p, p);
  }

  lemma PushSolo(s: State, t: State, p: nat, q: nat, pc: Pc)
    requires p in s.procs && Pushing(s, p, q) && !pc.Reparent?
    requires t == SetPc(s, p, pc).(queued := s.queued + {q})
    ensures Solo(s, t, p) && forall r :: DutiesKept(s, t, p, r)
  {
  }

  lemma PopStep(s: State, p: nat)
    requires Inv(s) && Enabled(s, Pop(p))
    ensures Inv(Next(s, Pop(p)))
  {
    var t := Next(s, Pop(p));
    assert ProcOk(s, p);
    PopSolo(s, t, p);
    SoloStep(s, t, p, p);
  }

  lemma PopSolo(s: State, t: State, p: nat)
    requires Enabled(s, Pop(p)) && t == Next(s, Pop(p)) && ProcOk(s, p)
    ensures Solo(s, t, p) && forall r :: DutiesKept(s, t, p, r)
    ensures ProcOk(t, p) && NoLostWake(t, p) && t.procs[p].zombie == s.procs[p].zombie
  {
  }

  /** `p` takes the waker of `q` out of its cell; if there was one, or `p` kills `q`, it will push `q`. */
  ghost predicate Takes(s: State, t: State, p: nat, q: nat, pc: Pc) {
    && p in s.procs && q in s.procs
    && t == SetPc(Taken(s, q), p, pc)
    && (s.procs[p].pc.WakeInit? || s.procs[p].pc.WakeParent? || s.procs[p].pc.KillTake?)
    && Waking(s, p, q) && !pc.Reparent?
    && (s.procs[q].waker || Killing(s, p, q) ==> Pushing(t, p, q))
  }

  lemma TakeWake(s: State, t: State, p: nat, q: nat, pc: Pc)
    requires Takes(s, t, p, q, pc) && NoLostWake(s, q) && !Waiting(pc) && !pc.Checked?
    ensures NoLostWake(t, q)
  {
    forall h | Pushing(s, h, q) ensures Pushing(t, h, q) {}
    assert Woken(s, q) ==> Woken(t, q);
    forall h | Killing(s, h, q) ensures KillDue(t, q) {
      assert h != p ==> Killing(t, h, q);
    }
  }

  lemma TakeSolo(s: State, t: State, p: nat, q: nat, pc: Pc)
    requires Takes(s, t, p, q, pc)
    ensures Solo(s, t, p)
    ensures forall r :: r in s.procs && r != p && r != q ==> t.procs[r] == s.procs[r] && DutiesKept(s, t, p, r)
  {
  }

  lemma TakeStep(s: State, t: State, p: nat, q: nat, pc: Pc)
    requires Inv(s) && Takes(s, t, p, q, pc) && !Waiting(pc) && !pc.Checked?
    requires ProcOk(t, p) && (s.procs[p].pc.WakeParent? ==> pc.Zombie())
    ensures Inv(t)
  {
    assert ProcOk(s, p) && NoLostWake(s, q);
    TakeSolo(s, t, p, q, pc);
    TakeWake(s, t, p, q, pc);
    SoloStep(s, t, p, q);
  }

  lemma KillSolo(s: State, t: State, p: nat, q: nat)
    requires Enabled(s, Kill(p, q)) && t == Next(s, Kill(p, q))
    ensures Solo(s, t, p)
    ensures forall r :: DutiesKept(s, t, p, r)
    ensures forall r :: r in s.procs && r != p && r != q ==> t.procs[r] == s.procs[r]
  {
  }

  lemma KillStep(s: State, p: nat, q: nat)
    requires Inv(s) && Enabled(s, Kill(p, q))
    ensures Inv(Next(s, Kill(p, q)))
  {
    var t := Next(s, Kill(p, q));
    assert ProcOk(s, p) && NoLostWake(s, q);
    KillSolo(s, t, p, q);
    KillWake(s, t, p, q);
    SoloStep(s, t, p, q);
  }

  lemma KillWake(s: State, t: State, p: nat, q: nat)
    requires Enabled(s, Kill(p, q)) && t == Next(s, Kill(p, q))
    requires ProcOk(s, p) && NoLostWake(s, q) && forall r :: DutiesKept(s, t, p, r)
    ensures ProcOk(t, p) && NoLostWake(t, q)
  {
    WokenKept(s, t, p, q);
    KillTurns(s, t, p, q);
  }

  /** A kill changes a flag and the killer's place. */
  lemma KillTurns(s: State, t: State, p: nat, q: nat)
    requires Enabled(s, Kill(p, q)) && t == Next(s, Kill(p, q))
    ensures Killing(t, p, q) && forall c :: IsZombie(t.procs, c) == IsZombie(s.procs, c)
  {
  }

  // ---- Steps that move a list ----

  ghost predicate Forks(s: State, t: State, p: nat, c: nat) {
    && p in s.procs && s.init in s.procs && s.procs[p].pc.Running? && c !in s.procs
    && t == Put(Put(s, p, s.procs[p].(children := s.procs[p].children + [c])), c,
                Proc(false, 0, p, [], false, false, Running, None))
  }

  lemma ForkHolds(s: State, t: State, p: nat, c: nat)
    requires Forks(s, t, p, c)
    ensures forall q, k :: Holds(t.procs, q, k) <==> Holds(s.procs, q, k) || (q == p && k == c)
  {
    assert t.procs[p].children == s.procs[p].children + [c];
    assert t.procs[c].children == [];
  }

  lemma ForkOnce(s: State, t: State, p: nat, c: nat)
    requires HeldOnce(s.procs) && HeldOrReaped(s) && Forks(s, t, p, c)
    ensures HeldOnce(t.procs)
  {
    ForkHolds(s, t, p, c);
    var l := s.procs[p].children;
    forall i | 0 <= i < |l| ensures l[i] != c {
      assert Holds(s.procs, p, l[i]);
    }
    assert Distinct(l) && Distinct(l + [c]);
    assert forall q :: q in t.procs && q != p && q != c ==> t.procs[q] == s.procs[q];
  }

  lemma ForkHeld(s: State, t: State, p: nat, c: nat)
    requires HeldOrReaped(s) && Forks(s, t, p, c)
    ensures HeldOrReaped(t)
  {
    ForkHolds(s, t, p, c);
    forall k | k in t.procs && k != t.init && k !in t.reaped ensures Held(t.procs, k) {
      if k == c {
        assert Holds(t.procs, p, c);
      } else {
        assert Held(s.procs, k);
        var q :| Holds(s.procs, q, k);
        assert Holds(t.procs, q, k);
      }
    }
  }

  lemma ForkProcs(s: State, t: State, p: nat, c: nat)
    requires ProcsOk(s) && Forks(s, t, p, c)
    ensures ProcsOk(t)
  {
    forall q | q in t.procs ensures ProcOk(t, q) {
      assert q != c ==> ProcOk(s, q);
    }
  }

  lemma ForkLinked(s: State, t: State, p: nat, c: nat)
    requires HeldOrReaped(s) && Linked(s) && Reaped(s) && Forks(s, t, p, c)
    ensures Linked(t) && Reaped(t)
  {
    forall q, i: nat | q in t.procs && InHand(t.procs[q].pc, i) && t.procs[q].pc.kids[i] in t.procs
      ensures t.procs[t.procs[q].pc.kids[i]].parent == if i < t.procs[q].pc.done then t.init else q
    {
      assert Holds(s.procs, q, t.procs[q].pc.kids[i]);
    }
    forall q, k | q in t.procs && k in t.procs[q].children && k in t.procs ensures t.procs[k].parent == q {
      if q != c && k in s.procs[q].children {
        assert Holds(s.procs, q, k);
      }
    }
  }

  lemma ForkWakes(s: State, t: State, p: nat, c: nat)
    requires HeldOrReaped(s) && WakesOk(s)
    requires Forks(s, t, p, c)
    ensures WakesOk(t)
  {
    forall q | q in t.procs ensures NoLostWake(t, q) {
      if q != p && q != c {
        assert NoLostWake(s, q);
        WokenKept(s, t, p, q);
        assert forall k :: IsZombie(t.procs, k) ==> IsZombie(s.procs, k);
      }
    }
  }

  lemma ForkStep(s: State, p: nat, c: nat)
    requires Inv(s) && Enabled(s, Fork(p, c))
    ensures Inv(Next(s, Fork(p, c)))
  {
    var t := Next(s, Fork(p, c));
    ForkOnce(s, t, p, c);
    ForkHeld(s, t, p, c);
    ForkProcs(s, t, p, c);
    ForkLinked(s, t, p, c);
    ForkWakes(s, t, p, c);
  }

  /** `p` finds child number `i` dead and takes it off its list. */
  ghost predicate Reaps(s: State, t: State, p: nat) {
    p in s.procs && s.procs[p].pc.Scan? && s.procs[p].pc.i < |s.procs[p].children| &&
    var u := s.procs[p];
    var c := u.children[u.pc.i];
    && Matches(u.pc.f, c) && IsZombie(s.procs, c)
    && t == Put(s, p, Answered(u, Child(c, s.procs[c].code)).(children := Without(u.children, u.pc.i)))
              .(reaped := s.reaped[c := s.procs[c].code])
  }

  lemma ReapLists(s: State, t: State, p: nat)
    requires HeldOnce(s.procs) && HeldOrReaped(s) && Reaps(s, t, p)
    ensures HeldOnce(t.procs) && HeldOrReaped(t)
  {
    var u := s.procs[p];
    var i := u.pc.i;
    var c := u.children[i];
    var l := Without(u.children, i);
    assert Distinct(u.children);
    WithoutOnce(u.children, i);
    assert t.procs[p].children == l;
    assert Holds(s.procs, p, c);
    assert t.procs == s.procs[p := t.procs[p]] && t.procs[p].pc.Kids() == u.pc.Kids() == [];
    forall q, k ensures Holds(t.procs, q, k) <==> Holds(s.procs, q, k) && k != c {
      assert Holds(s.procs, q, c) ==> q == p;
    }
    forall k | k in t.procs && k != t.init && k !in t.reaped ensures Held(t.procs, k) {
      assert Held(s.procs, k);
      var q :| Holds(s.procs, q, k);
      assert Holds(t.procs, q, k);
    }
  }

  lemma WithoutOnce(l: seq<nat>, i: nat)
    requires i < |l| && Distinct(l)
    ensures Distinct(Without(l, i)) && forall k :: k in Without(l, i) <==> k in l && k != l[i]
  {
    var r := Without(l, i);
    forall k | k in l && k != l[i] ensures k in r {
      var j :| 0 <= j < |l| && l[j] == k;
      assert r[if j < i then j else j - 1] == k;
    }
    assert forall j :: 0 <= j < |r| ==> r[j] == l[if j < i then j else j + 1];
  }

  lemma ReapProcs(s: State, t: State, p: nat)
    requires ProcsOk(s) && Reaps(s, t, p)
    ensures ProcsOk(t)
  {
    forall q | q in t.procs ensures ProcOk(t, q) {
      assert ProcOk(s, q);
    }
  }

  lemma ReapLinked(s: State, t: State, p: nat)
    requires HeldOnce(s.procs) && Linked(s) && Reaps(s, t, p)
    ensures Linked(t)
  {
    var u := s.procs[p];
    assert Distinct(u.children);
    WithoutOnce(u.children, u.pc.i);
  }

  lemma ReapCode(s: State, t: State, p: nat)
    requires ProcsOk(s) && Reaped(s) && Reaps(s, t, p)
    ensures Reaped(t)
  {
    var c := s.procs[p].children[s.procs[p].pc.i];
    assert ProcOk(s, p) && ProcOk(s, c);
  }

  lemma ReapWakes(s: State, t: State, p: nat)
    requires WakesOk(s) && Reaps(s, t, p)
    ensures WakesOk(t)
  {
    forall q | q in t.procs ensures NoLostWake(t, q) {
      if q != p {
        assert NoLostWake(s, q);
        WokenKept(s, t, p, q);
        assert forall k :: IsZombie(t.procs, k) ==> IsZombie(s.procs, k);
      }
    }
  }

  lemma ReapStep(s: State, t: State, p: nat)
    requires Inv(s) && Reaps(s, t, p)
    ensures Inv(t)
  {
    ReapLists(s, t, p);
    ReapProcs(s, t, p);
    ReapLinked(s, t, p);
    ReapCode(s, t, p);
    ReapWakes(s, t, p);
  }

  ghost predicate Exits(s: State, t: State, p: nat, code: int) {
    p in s.procs && s.procs[p].pc.Running? && p != s.init &&
    var u := s.procs[p];
    var pc := if u.children == [] then StoreCode(code) else Reparent(code, u.children, 0);
    t == Put(s, p, u.(children := [], pc := pc)).(exits := s.exits[p := code])
  }

  lemma ExitLists(s: State, t: State, p: nat, code: int)
    requires HeldOnce(s.procs) && HeldOrReaped(s)
    requires Exits(s, t, p, code)
    ensures HeldOnce(t.procs) && HeldOrReaped(t)
  {
    assert t.procs[p].pc.Kids() == s.procs[p].children && t.procs[p].children == [];
    assert forall q, k :: Holds(t.procs, q, k) <==> Holds(s.procs, q, k);
    forall k | k in t.procs && k != t.init && k !in t.reaped ensures Held(t.procs, k) {
      assert Held(s.procs, k);
      var q :| Holds(s.procs, q, k);
      assert Holds(t.procs, q, k);
    }
  }

  lemma ExitProcs(s: State, t: State, p: nat, code: int)
    requires ProcsOk(s) && Exits(s, t, p, code)
    ensures ProcsOk(t)
  {
    assert ProcOk(s, p);
    forall q | q in t.procs ensures ProcOk(t, q) {
      assert ProcOk(s, q);
    }
  }

  lemma ExitLinked(s: State, t: State, p: nat, code: int)
    requires Linked(s) && ProcsOk(s) && Reaped(s) && Exits(s, t, p, code)
    ensures Linked(t) && Reaped(t)
  {
    assert ProcOk(s, p);
  }

  lemma ExitWakes(s: State, t: State, p: nat, code: int)
    requires WakesOk(s)
    requires Exits(s, t, p, code)
    ensures WakesOk(t)
  {
    forall q | q in t.procs ensures NoLostWake(t, q) {
      if q != p {
        assert NoLostWake(s, q);
        WokenKept(s, t, p, q);
        assert forall k :: IsZombie(t.procs, k) ==> IsZombie(s.procs, k);
      }
    }
  }

  lemma ExitStep(s: State, p: nat, code: int)
    requires Inv(s) && Enabled(s, Exit(p, code))
    ensures Inv(Next(s, Exit(p, code)))
  {
    var t := Next(s, Exit(p, code));
    ExitLists(s, t, p, code);
    ExitProcs(s, t, p, code);
    ExitLinked(s, t, p, code);
    ExitWakes(s, t, p, code);
  }

  ghost predicate SetsParent(s: State, t: State, p: nat, k: nat) {
    && p in s.procs && s.procs[p].pc.Reparent? && s.procs[p].pc.done < |s.procs[p].pc.kids|
    && k == s.procs[p].pc.kids[s.procs[p].pc.done] && k in s.procs
    && var pc := Reparent(s.procs[p].pc.code, s.procs[p].pc.kids, s.procs[p].pc.done + 1);
       t == SetPc(Put(s, k, s.procs[k].(parent := s.init)), p, pc)
  }

  lemma SetParentLinked(s: State, t: State, p: nat, k: nat)
    requires HeldOnce(s.procs) && Linked(s) && SetsParent(s, t, p, k)
    ensures Linked(t)
  {
    assert Holds(s.procs, p, k);
    forall q, c | q in t.procs && c in t.procs[q].children && c in t.procs ensures t.procs[c].parent == q {
      assert Holds(s.procs, q, c);
    }
    forall q, i: nat | q in t.procs && InHand(t.procs[q].pc, i) && t.procs[q].pc.kids[i] in t.procs
      ensures t.procs[t.procs[q].pc.kids[i]].parent == if i < t.procs[q].pc.done then t.init else q
    {
      SetParentInHand(s, t, p, k, q, i);
    }
  }

  lemma SetParentInHand(s: State, t: State, p: nat, k: nat, q: nat, i: nat)
    requires HeldOnce(s.procs) && Linked(s) && SetsParent(s, t, p, k)
    requires q in t.procs && InHand(t.procs[q].pc, i) && t.procs[q].pc.kids[i] in t.procs
    ensures t.procs[t.procs[q].pc.kids[i]].parent == if i < t.procs[q].pc.done then t.init else q
  {
    assert Holds(s.procs, p, k);
    assert Distinct(s.procs[p].pc.Kids());
    assert InHand(s.procs[q].pc, i) && s.procs[q].pc.kids[i] == t.procs[q].pc.kids[i];
    assert Holds(s.procs, q, t.procs[q].pc.kids[i]);
  }

  lemma SetParentProcs(s: State, t: State, p: nat, k: nat)
    requires s.init in s.procs && ProcsOk(s) && SetsParent(s, t, p, k)
    ensures ProcsOk(t)
  {
    assert ProcOk(s, p) && ProcOk(s, k);
    forall q | q in t.procs ensures ProcOk(t, q) {
      if q != p && q != k { assert ProcOk(s, q); }
    }
  }

  lemma SetParentReaped(s: State, t: State, p: nat, k: nat)
    requires Reaped(s) && SetsParent(s, t, p, k)
    ensures Reaped(t)
  {
  }

  /** Only the exiting parent itself can have counted on `k` to wake it. */
  lemma SetParentWake(s: State, t: State, p: nat, k: nat, q: nat)
    requires SetsParent(s, t, p, k) && s.procs[k].parent == p
    requires q in s.procs && q != p && NoLostWake(s, q)
    ensures NoLostWake(t, q)
  {
    assert forall c :: IsZombie(t.procs, c) ==> IsZombie(s.procs, c);
    assert forall h :: Pushing(s, h, q) ==> Pushing(t, h, q);
    assert forall h :: Waking(s, h, q) ==> Waking(t, h, q);
    assert forall h :: Killing(s, h, q) ==> Killing(t, h, q);
  }

  lemma SetParentWakes(s: State, t: State, p: nat, k: nat)
    requires Linked(s) && WakesOk(s) && SetsParent(s, t, p, k)
    ensures WakesOk(t)
  {
    assert InHand(s.procs[p].pc, s.procs[p].pc.done);
    forall q | q in t.procs ensures NoLostWake(t, q) {
      if q != p {
        assert NoLostWake(s, q);
        SetParentWake(s, t, p, k, q);
      }
    }
  }

  lemma SetParentStep(s: State, t: State, p: nat, k: nat)
    requires Inv(s) && SetsParent(s, t, p, k)
    ensures Inv(t)
  {
    ListsKeep(s, t);
    SetParentLinked(s, t, p, k);
    SetParentProcs(s, t, p, k);
    SetParentReaped(s, t, p, k);
    SetParentWakes(s, t, p, k);
  }

  ghost predicate Splices(s: State, t: State, p: nat) {
    && p in s.procs && s.procs[p].pc.Reparent? && s.procs[p].pc.done == |s.procs[p].pc.kids|
    && s.init in s.procs && p != s.init && !s.procs[s.init].pc.Scan?
    && t == SetPc(Put(s, s.init, s.procs[s.init].(children := s.procs[s.init].children + s.procs[p].pc.kids)),
                  p, WakeInit(s.procs[p].pc.code))
  }

  lemma SpliceHolds(s: State, t: State, p: nat)
    requires Splices(s, t, p) && s.procs[p].children == []
    ensures forall q, k :: q != p && q != s.init ==> (Holds(t.procs, q, k) <==> Holds(s.procs, q, k))
    ensures forall k :: !Holds(t.procs, p, k)
    ensures forall k :: Holds(t.procs, s.init, k) <==> Holds(s.procs, s.init, k) || Holds(s.procs, p, k)
  {
    assert t.procs[s.init].children == s.procs[s.init].children + s.procs[p].pc.kids;
  }

  lemma SpliceOnce(s: State, t: State, p: nat)
    requires Splices(s, t, p) && HeldOnce(s.procs) && s.procs[p].children == []
    requires s.procs[s.init].pc.Kids() == []
    ensures HeldOnce(t.procs)
  {
    SpliceHolds(s, t, p);
    var a, b := s.procs[s.init].children, s.procs[p].pc.Kids();
    assert Distinct(a) && Distinct(b);
    forall i, j | 0 <= i < |a| && 0 <= j < |b| ensures a[i] != b[j] {
      assert Holds(s.procs, s.init, a[i]) && Holds(s.procs, p, b[j]);
    }
    assert Distinct(a + b);
  }

  lemma SpliceHeld(s: State, t: State, p: nat)
    requires Splices(s, t, p) && HeldOrReaped(s) && s.procs[p].children == []
    ensures HeldOrReaped(t)
  {
    SpliceHolds(s, t, p);
    forall k | k in t.procs && k != t.init && k !in t.reaped ensures Held(t.procs, k) {
      assert Held(s.procs, k);
      var q :| Holds(s.procs, q, k);
      assert Holds(t.procs, if q == p then s.init else q, k);
    }
  }

  lemma SpliceLinked(s: State, t: State, p: nat)
    requires Splices(s, t, p) && Linked(s)
    ensures Linked(t)
  {
    KidsHanded(s, p);
    forall q, i: nat | q in t.procs && InHand(t.procs[q].pc, i) && t.procs[q].pc.kids[i] in t.procs
      ensures t.procs[t.procs[q].pc.kids[i]].parent == if i < t.procs[q].pc.done then t.init else q
    {
      assert InHand(s.procs[q].pc, i);
    }
  }

  /** Once all its children are reparented, init is the parent of each. */
  lemma KidsHanded(s: State, p: nat)
    requires Linked(s) && p in s.procs && s.procs[p].pc.Reparent? && s.procs[p].pc.done == |s.procs[p].pc.kids|
    ensures forall k :: k in s.procs[p].pc.kids && k in s.procs ==> s.procs[k].parent == s.init
  {
    var b := s.procs[p].pc.kids;
    forall k | k in b && k in s.procs ensures s.procs[k].parent == s.init {
      var i: nat :| i < |b| && b[i] == k;
      assert InHand(s.procs[p].pc, i);
    }
  }

  lemma SpliceProcs(s: State, t: State, p: nat)
    requires Splices(s, t, p) && ProcsOk(s)
    ensures ProcsOk(t)
  {
    assert ProcOk(s, p) && ProcOk(s, s.init);
    forall q | q in t.procs ensures ProcOk(t, q) {
      if q != p && q != s.init { assert ProcOk(s, q); }
    }
  }

  lemma SpliceReaped(s: State, t: State, p: nat)
    requires Splices(s, t, p) && Reaped(s)
    ensures Reaped(t)
  {
  }

  /** A zombie spliced into the list of a parked init is announced by the wake that follows. */
  lemma SpliceWakes(s: State, t: State, p: nat)
    requires Splices(s, t, p) && WakesOk(s)
    ensures WakesOk(t)
  {
    assert Waking(t, p, s.init);
    assert forall c :: IsZombie(t.procs, c) ==> IsZombie(s.procs, c);
    forall q | q in t.procs ensures NoLostWake(t, q) {
      if q != p {
        assert NoLostWake(s, q);
        WokenKept(s, t, p, q);
      }
    }
  }

  lemma SpliceStep(s: State, t: State, p: nat)
    requires Inv(s) && Splices(s, t, p)
    ensures Inv(t)
  {
    assert ProcOk(s, p) && ProcOk(s, s.init);
    SpliceOnce(s, t, p);
    SpliceHeld(s, t, p);
    SpliceLinked(s, t, p);
    SpliceProcs(s, t, p);
    SpliceReaped(s, t, p);
    SpliceWakes(s, t, p);
  }

  // ---- Every step and every run ----

  lemma ScanOneStep(s: State, p: nat)
    requires Inv(s) && Enabled(s, ScanOne(p))
    ensures Inv(Next(s, ScanOne(p)))
  {
    var t := Next(s, ScanOne(p));
    ScanTurns(s, t, p);
    if Reaps(s, t, p) {
      ReapStep(s, t, p);
    } else {
      ScanOnStep(s, p, t.procs[p].pc.any);
    }
  }

  /** The scan reaps the child it looks at or goes on to the next. */
  lemma ScanTurns(s: State, t: State, p: nat)
    requires Enabled(s, ScanOne(p)) && t == Next(s, ScanOne(p))
    ensures Reaps(s, t, p) || (NothingAt(s, p) && p in t.procs && t.procs[p].pc.Scan? &&
              t == SetPc(s, p, Scan(s.procs[p].pc.f, s.procs[p].pc.nb, s.procs[p].pc.i + 1, t.procs[p].pc.any)))
  {
  }

  lemma TakeInitStep(s: State, p: nat)
    requires Inv(s) && Enabled(s, TakeInit(p))
    ensures Inv(Next(s, TakeInit(p)))
  {
    var t := Next(s, TakeInit(p));
    assert ProcOk(s, p);
    TakeStep(s, t, p, s.init, t.procs[p].pc);
  }

  lemma TakeParentStep(s: State, p: nat)
    requires Inv(s) && Enabled(s, TakeParent(p))
    ensures Inv(Next(s, TakeParent(p)))
  {
    var t := Next(s, TakeParent(p));
    assert ProcOk(s, p);
    TakeStep(s, t, p, s.procs[p].pc.q, t.procs[p].pc);
  }

  lemma KillTakeStep(s: State, p: nat)
    requires Inv(s) && Enabled(s, DoKillTake(p))
    ensures Inv(Next(s, DoKillTake(p)))
  {
    var t := Next(s, DoKillTake(p));
    assert ProcOk(s, p);
    TakeStep(s, t, p, s.procs[p].pc.q, t.procs[p].pc);
  }

  lemma SomePushStep(s: State, x: Step)
    requires Inv(s) && Enabled(s, x) && (x.DoPushInit? || x.DoPushParent? || x.DoKillPush?)
    ensures Inv(Next(s, x))
  {
    var u := s.procs[x.p];
    assert ProcOk(s, x.p);
    if x.DoPushInit? {
      PushStep(s, x.p, s.init, StoreCode(u.pc.code));
    } else {
      PushStep(s, x.p, u.pc.q, if x.DoPushParent? then Dead else Running);
    }
  }

  lemma OrphanStep(s: State, x: Step)
    requires Inv(s) && Enabled(s, x) && (x.SetParent? || x.Splice?)
    ensures Inv(Next(s, x))
  {
    var u := s.procs[x.p];
    assert ProcOk(s, x.p);
    if x.SetParent? {
      SetParentStep(s, Next(s, x), x.p, u.pc.kids[u.pc.done]);
    } else {
      SpliceStep(s, Next(s, x), x.p);
    }
  }

  predicate ExitPath(x: Step) {
    x.Exit? || x.SetParent? || x.Splice? || x.TakeInit? || x.DoPushInit? || x.DoStoreCode? || x.DoStoreZombie?
    || x.DoReadParent? || x.TakeParent? || x.DoPushParent?
  }

  /** The lock sections on the way to zombie. */
  lemma ExitingStep(s: State, x: Step)
    requires Inv(s) && Enabled(s, x) && (x.Exit? || x.TakeInit? || x.DoStoreCode?)
    ensures Inv(Next(s, x))
  {
    if x.Exit? {
      ExitStep(s, x.p, x.code);
    } else if x.TakeInit? {
      TakeInitStep(s, x.p);
    } else {
      StoreCodeStep(s, x.p);
    }
  }

  /** The zombie wakes its parent. */
  lemma ZombieStep(s: State, x: Step)
    requires Inv(s) && Enabled(s, x) && (x.DoStoreZombie? || x.DoReadParent? || x.TakeParent?)
    ensures Inv(Next(s, x))
  {
    if x.DoStoreZombie? {
      StoreZombieStep(s, x.p);
    } else if x.DoReadParent? {
      ReadParentStep(s, x.p);
    } else {
      TakeParentStep(s, x.p);
    }
  }

  lemma ExitPathStep(s: State, x: Step)
    requires Inv(s) && Enabled(s, x) && ExitPath(x)
    ensures Inv(Next(s, x))
  {
    if x.Exit? || x.TakeInit? || x.DoStoreCode? {
      ExitingStep(s, x);
    } else if x.DoStoreZombie? || x.DoReadParent? || x.TakeParent? {
      ZombieStep(s, x);
    } else if x.SetParent? || x.Splice? {
      OrphanStep(s, x);
    } else {
      SomePushStep(s, x);
    }
  }

  lemma WaitPathStep(s: State, x: Step)
    requires Inv(s) && Enabled(s, x) && !ExitPath(x)
    ensures Inv(Next(s, x))
  {
    match x {
      case Fork(p, c) => ForkStep(s, p, c);
      case CallWait(p, f, nb) => CallWaitStep(s, p, f, nb);
      case CheckKilled(p) => CheckKilledStep(s, p);
      case Register(p) => RegisterStep(s, p);
      case Lock(p) => LockStep(s, p);
      case ScanOne(p) => ScanOneStep(s, p);
      case ScanEnd(p) => ScanEndStep(s, p);
      case Pop(p) => PopStep(s, p);
      case Kill(p, q) => KillStep(s, p, q);
      case DoKillTake(p) => KillTakeStep(s, p);
      case DoKillPush(_) => SomePushStep(s, x);
    }
  }

  /** Every step of every process keeps the invariant. */
  lemma StepKeepsInv(s: State, x: Step)
    requires Inv(s) && Enabled(s, x)
    ensures Inv(Next(s, x))
  {
    if ExitPath(x) { ExitPathStep(s, x); } else { WaitPathStep(s, x); }
  }

  /** `run` is a sequence of states, each one step after the one before, from the boot state:
      init alone, running. */
  ghost predicate Run(run: seq<State>, steps: seq<Step>) {
    && |run| == |steps| + 1
    && run[0] == State(run[0].init, map[run[0].init := Proc(false, 0, run[0].init, [], false, false, Running, None)],
                       {},
                       map[], map[])
    && forall i {:trigger steps[i]} :: 0 <= i < |steps| ==>
         Enabled(run[i], steps[i]) && run[i + 1] == Next(run[i], steps[i])
  }

  lemma {:induction false} RunInv(run: seq<State>, steps: seq<Step>, i: nat)
    requires Run(run, steps) && i < |run|
    ensures Inv(run[i])
  {
    if i > 0 {
      RunInv(run, steps, i - 1);
      StepKeepsInv(run[i - 1], steps[i - 1]);
    }
  }

  /** In every state of every run each process other than init is held by exactly one process,
      in one place of one list, or has been reaped; never both. */
  lemma HeldExactlyOnce(run: seq<State>, steps: seq<Step>, i: nat, c: nat)
    requires Run(run, steps) && i < |run|
    requires c in run[i].procs && c != run[i].init
    ensures c !in run[i].reaped <==> exists p :: Holds(run[i].procs, p, c)
    ensures forall p, q :: Holds(run[i].procs, p, c) && Holds(run[i].procs, q, c) ==> p == q
    ensures forall p :: p in run[i].procs ==> Distinct(run[i].procs[p].children + run[i].procs[p].pc.Kids())
  {
    RunInv(run, steps, i);
    var s := run[i];
    assert c !in s.reaped ==> Held(s.procs, c);
    forall p | p in s.procs ensures Distinct(s.procs[p].children + s.procs[p].pc.Kids()) {
      assert Distinct(s.procs[p].children) && Distinct(s.procs[p].pc.Kids());
    }
  }

  /** The step reaps `c`: `p` finds it dead on its list and returns its pid and code. */
  ghost predicate ReapsChild(s: State, x: Step, c: nat)
    requires Enabled(s, x)
  {
    x.ScanOne? && Reaps(s, Next(s, x), x.p) && c == s.procs[x.p].children[s.procs[x.p].pc.i]
  }

  /** The reaper gets the code the child passed to exit, and the child was not reaped before. */
  lemma ReapedWithItsCode(run: seq<State>, steps: seq<Step>, i: nat, c: nat)
    requires Run(run, steps) && i < |steps| && Enabled(run[i], steps[i]) && ReapsChild(run[i], steps[i], c)
    ensures c !in run[i].reaped && c in run[i].exits
    ensures run[i + 1].reaped == run[i].reaped[c := run[i].exits[c]]
  {
    RunInv(run, steps, i);
    assert ProcOk(run[i], c);
    assert Holds(run[i].procs, steps[i].p, c);
  }

  lemma ReapedStays(s: State, x: Step, c: nat)
    requires Enabled(s, x) && c in s.reaped
    ensures c in Next(s, x).reaped
  {
  }

  lemma {:induction false} ReapedForever(run: seq<State>, steps: seq<Step>, i: nat, j: nat, c: nat)
    requires Run(run, steps) && i <= j < |run| && c in run[i].reaped
    ensures c in run[j].reaped
  {
    if i < j {
      ReapedForever(run, steps, i, j - 1, c);
      ReapedStays(run[j - 1], steps[j - 1], c);
    }
  }

  /** No process is reaped twice. */
  lemma ReapedOnce(run: seq<State>, steps: seq<Step>, i: nat, j: nat, c: nat)
    requires Run(run, steps) && i < j < |steps|
    requires Enabled(run[i], steps[i]) && ReapsChild(run[i], steps[i], c) && Enabled(run[j], steps[j])
    ensures !ReapsChild(run[j], steps[j], c)
  {
    ReapedWithItsCode(run, steps, i, c);
    ReapedForever(run, steps, i + 1, j, c);
    if ReapsChild(run[j], steps[j], c) {
      ReapedWithItsCode(run, steps, j, c);
    }
  }

  /** A process parked in wait, some matching child of which is a zombie, is in the ready queue,
      or another process is on its way to wake it. */
  lemma NoLostExit(run: seq<State>, steps: seq<Step>, i: nat, p: nat, c: nat)
    requires Run(run, steps) && i < |run| && p in run[i].procs
    requires run[i].procs[p].pc.Parked? && c in run[i].procs[p].children && Matches(run[i].procs[p].pc.f, c)
    requires c in run[i].procs && run[i].procs[c].zombie
    ensures Pending(run[i], p)
  {
    RunInv(run, steps, i);
    assert NoLostWake(run[i], p);
    var u := run[i].procs[p];
    var k: nat :| k < |u.children| && u.children[k] == c;
    assert Passed(u, k);
  }

  /** The same for a kill. */
  lemma NoLostKill(run: seq<State>, steps: seq<Step>, i: nat, p: nat)
    requires Run(run, steps) && i < |run| && p in run[i].procs
    requires run[i].procs[p].pc.Parked? && run[i].procs[p].killed
    ensures KillDue(run[i], p)
  {
    RunInv(run, steps, i);
    assert NoLostWake(run[i], p);
  }
}
