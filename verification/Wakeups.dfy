/** The executor's task ids and ready queues, and the register-then-check protocols that park on
    the log, an inode lock, a loading buffer, free descriptors or a disk request, on any number of
    harts. Registering, checking, changing what a condition reads, taking a waker list and pushing
    one task are each one step. Three steps join lock sections of one hart: `Spawn` (slot, task
    table, ready queue), `Pop` (ready queue, task table) and `Complete` (task dropped, slot freed). */
module Wakeups {
  import opened Collections
  import opened Layout

  // ---- Task ids: the home CPU in the high 8 bits, the slot in the low 24 ----

  function MakeTid(cpu: nat, slot: nat): (tid: nat)
    requires cpu < 256 && slot < 0x100_0000
    ensures tid < 0x1_0000_0000
  {
    cpu * 0x100_0000 + slot
  }

  function Home(tid: nat): (cpu: nat) { tid / 0x100_0000 }

  function SlotOf(tid: nat): (slot: nat) { tid % 0x100_0000 }

  lemma TidRoundTrip(cpu: nat, slot: nat)
    requires cpu < 256 && slot < 0x100_0000
    ensures Home(MakeTid(cpu, slot)) == cpu && SlotOf(MakeTid(cpu, slot)) == slot
  {
  }

  // ---- What tasks park on ----

  datatype Res = LogSpace | InodeLock(i: nat) | BufLoad(b: nat) | Descs | Request(h: nat)

  /** The flags and counters the conditions read. `owner[h]` is the task that submitted request `h`. */
  datatype Shared = Shared(
    committing: bool, n: nat, outstanding: nat,
    locked: set<nat>, loading: set<nat>, free: nat, done: set<nat>, owner: map<nat, nat>)

  /** What the waiter's `poll` checks after it registered. */
  predicate Cond(sh: Shared, r: Res) {
    match r
    case LogSpace => !sh.committing && sh.n + MAXOPBLOCKS * (sh.outstanding + 1) <= LOGSIZE
    case InodeLock(i) => i !in sh.locked
    case BufLoad(b) => b !in sh.loading
    case Descs => sh.free >= 3
    case Request(h) => h in sh.done
  }

  /** What a polled task does to them. */
  datatype Op =
    | Begin | Append | End | Clear | Finish
    | Lock(i: nat) | Unlock(i: nat)
    | Claim(b: nat) | Loaded(b: nat)
    | Submit(h: nat) | Retire(h: nat)

  predicate OpEnabled(sh: Shared, op: Op, key: nat) {
    match op
    case Begin => Cond(sh, LogSpace)
    case Append => sh.outstanding > 0
    case End => sh.outstanding > 0
    case Clear => sh.committing
    case Finish => sh.committing
    case Lock(i) => i !in sh.locked
    case Unlock(i) => i in sh.locked
    case Claim(b) => b !in sh.loading
    case Loaded(b) => b in sh.loading
    case Submit(h) => sh.free >= 3 && h !in sh.owner
    case Retire(h) => h in sh.owner && sh.owner[h] == key && h in sh.done
  }

  function OpAfter(sh: Shared, op: Op, key: nat): (sh': Shared)
    requires OpEnabled(sh, op, key)
  {
    match op
    case Begin => sh.(outstanding := sh.outstanding + 1)
    case Append => sh.(n := sh.n + 1)
    case End => sh.(outstanding := sh.outstanding - 1, committing := sh.committing || sh.outstanding == 1)
    case Clear => sh.(n := 0)
    case Finish => sh.(committing := false)
    case Lock(i) => sh.(locked := sh.locked + {i})
    case Unlock(i) => sh.(locked := sh.locked - {i})
    case Claim(b) => sh.(loading := sh.loading + {b})
    case Loaded(b) => sh.(loading := sh.loading - {b})
    case Submit(h) => sh.(free := sh.free - 3, done := sh.done - {h}, owner := sh.owner[h := key])
    case Retire(h) => sh.(free := sh.free + 3, owner := sh.owner - {h})
  }

  /** The list the code wakes right after the operation, if any. */
  function Wakes(sh: Shared, op: Op): (r: Act) {
    match op
    case End => if sh.outstanding == 1 then Idle else Due(LogSpace)
    case Finish => Due(LogSpace)
    case Unlock(i) => Due(InodeLock(i))
    case Loaded(b) => Due(BufLoad(b))
    case Retire(_) => Due(Descs)
    case _ => Idle
  }

  /** Whatever makes a condition true is followed by a wake of the tasks that wait for it. */
  lemma TrueMeansDue(sh: Shared, op: Op, key: nat, r: Res)
    requires OpEnabled(sh, op, key) && Cond(OpAfter(sh, op, key), r)
    ensures Cond(sh, r) || Wakes(sh, op) == Due(r)
  {
  }

  // ---- The machine ----

  datatype Pc = Running | Registered(r: Res) | Parked(r: Res)

  /** A hart running a task, or its interrupt handler. `Due`: it has still to take the waker list;
      `Hand`: it took the list and has still to push these tasks. */
  datatype Agent = Hart(cpu: nat) | Irq(cpu: nat)

  datatype Act = Idle | Due(r: Res) | Hand(left: seq<nat>)

  /** `live`: the tasks in the tables or being polled, by task id; `polled`: the task each hart is
      polling; `ready`, `freeSlots`, `nextSlot`: per CPU. */
  datatype State = State(
    sh: Shared,
    lists: map<Res, seq<nat>>,
    acts: map<Agent, Act>,
    live: map<nat, nat>,
    pcs: map<nat, Pc>,
    polled: map<nat, nat>,
    ready: map<nat, seq<nat>>,
    freeSlots: map<nat, seq<nat>>,
    nextSlot: map<nat, nat>)

  datatype Step =
    | Spawn(home: nat, key: nat)
    | Pop(cpu: nat)
    | Register(cpu: nat, r: Res)
    | Check(cpu: nat)
    | PutBack(cpu: nat)
    | Complete(cpu: nat)
    | Do(cpu: nat, op: Op)
    | Interrupt(cpu: nat, h: nat)
    | TakeList(a: Agent)
    | PushOne(a: Agent)

  function Queue(ready: map<nat, seq<nat>>, c: nat): (q: seq<nat>) { if c in ready then ready[c] else [] }

  function Waiters(lists: map<Res, seq<nat>>, r: Res): (l: seq<nat>) { if r in lists then lists[r] else [] }

  function ActOf(s: State, a: Agent): (x: Act) { if a in s.acts then s.acts[a] else Idle }

  function Free(s: State, c: nat): (q: seq<nat>) { if c in s.freeSlots then s.freeSlots[c] else [] }

  function NextSlot(s: State, c: nat): (n: nat) { if c in s.nextSlot then s.nextSlot[c] else 0 }

  /** `insert_task` reuses the most recently freed slot, else takes a new one. */
  function SpawnSlot(s: State, c: nat): (slot: nat) {
    if Free(s, c) == [] then NextSlot(s, c) else Free(s, c)[|Free(s, c)| - 1]
  }

  predicate Polling(s: State, c: nat) {
    c in s.polled && s.polled[c] in s.live && s.live[s.polled[c]] in s.pcs && ActOf(s, Hart(c)).Idle?
  }

  function Key(s: State, c: nat): (k: nat)
    requires Polling(s, c)
  {
    s.live[s.polled[c]]
  }

  function PcOf(s: State, c: nat): (pc: Pc)
    requires Polling(s, c)
  {
    s.pcs[Key(s, c)]
  }

  predicate Enabled(s: State, x: Step) {
    match x
    case Spawn(home, key) => home < 256 && key !in s.pcs && SpawnSlot(s, home) < 0x100_0000
    case Pop(c) => c !in s.polled && Queue(s.ready, c) != []
    case Register(c, r) =>
      Polling(s, c) && PcOf(s, c).Running? && (r.Request? ==> r.h in s.sh.owner && s.sh.owner[r.h] == Key(s, c))
    case Check(c) => Polling(s, c) && PcOf(s, c).Registered?
    case PutBack(c) => Polling(s, c) && !PcOf(s, c).Registered?
    case Complete(c) => Polling(s, c) && PcOf(s, c).Running?
    case Do(c, op) => Polling(s, c) && PcOf(s, c).Running? && OpEnabled(s.sh, op, Key(s, c))
    case Interrupt(c, h) => ActOf(s, Irq(c)).Idle?
    case TakeList(a) => ActOf(s, a).Due?
    case PushOne(a) => ActOf(s, a).Hand?
  }

  /** A waker list keeps one entry per task; a request's cell keeps the last registration only. */
  function Added(l: seq<nat>, r: Res, tid: nat): (l': seq<nat>) {
    if r.Request? then [tid] else if tid in l then l else l + [tid]
  }

  function Next(s: State, x: Step): (s': State)
    requires Enabled(s, x)
  {
    match x
    case Spawn(home, key) =>
      var slot := SpawnSlot(s, home);
      var tid := MakeTid(home, slot);
      s.(live := s.live[tid := key],
         pcs := s.pcs[key := Running],
         ready := s.ready[home := Queue(s.ready, home) + [tid]],
         freeSlots := if Free(s, home) == [] then s.freeSlots
           else s.freeSlots[home := Free(s, home)[..|Free(s, home)| - 1]],
         nextSlot := if Free(s, home) == [] then s.nextSlot[home := slot + 1] else s.nextSlot)
    case Pop(c) =>
      var tid := Queue(s.ready, c)[0];
      var rest := s.ready[c := Queue(s.ready, c)[1..]];
      if Home(tid) != c then
        s.(ready := rest[Home(tid) := Queue(s.ready, Home(tid)) + [tid]])
      else if tid in s.live && s.live[tid] in s.pcs then
        s.(ready := rest, polled := s.polled[c := tid], pcs := s.pcs[s.live[tid] := Running])
      else
        s.(ready := rest)
    case Register(c, r) =>
      s.(lists := s.lists[r := Added(Waiters(s.lists, r), r, s.polled[c])], pcs := s.pcs[Key(s, c) := Registered(r)])
    case Check(c) =>
      var r := PcOf(s, c).r;
      s.(pcs := s.pcs[Key(s, c) := if Cond(s.sh, r) then Running else Parked(r)])
    case PutBack(c) => s.(polled := s.polled - {c})
    case Complete(c) =>
      var tid := s.polled[c];
      s.(live := s.live - {tid}, polled := s.polled - {c}, freeSlots := s.freeSlots[c := Free(s, c) + [SlotOf(tid)]])
    case Do(c, op) =>
      s.(sh := OpAfter(s.sh, op, Key(s, c)), acts := s.acts[Hart(c) := Wakes(s.sh, op)])
    case Interrupt(c, h) =>
      s.(sh := s.sh.(done := s.sh.done + {h}), acts := s.acts[Irq(c) := Due(Request(h))])
    case TakeList(a) =>
      var r := s.acts[a].r;
      s.(lists := s.lists[r := []], acts := s.acts[a := Hand(Waiters(s.lists, r))])
    case PushOne(a) =>
      var left := s.acts[a].left;
      if left == [] then s.(acts := s.acts[a := Idle])
      else s.(ready := s.ready[Home(left[0]) := Queue(s.ready, Home(left[0])) + [left[0]]],
              acts := s.acts[a := Hand(left[1..])])
  }

  // ---- Task ids stay unique ----

  /** Slot `i` of the free list of `c` belongs to no live task and was handed out before. */
  predicate SlotFree(s: State, c: nat, i: nat)
    requires i < |Free(s, c)|
  {
    && Free(s, c)[i] < NextSlot(s, c) && Free(s, c)[i] < 0x100_0000
    && (c < 256 ==> MakeTid(c, Free(s, c)[i]) !in s.live)
  }

  predicate SlotUsed(s: State, t: nat) { Home(t) < 256 && SlotOf(t) < NextSlot(s, Home(t)) }

  ghost predicate SlotsOk(s: State) {
    && (forall c {:trigger Free(s, c)} :: Distinct(Free(s, c)) && forall i: nat :: i < |Free(s, c)| ==>
        SlotFree(s, c, i))
    && (forall t {:trigger SlotUsed(s, t)} :: t in s.live ==> SlotUsed(s, t))
  }

  /** Every hart polls a live task of its own, and each live task is one task. */
  ghost predicate TasksOk(live: map<nat, nat>, pcs: map<nat, Pc>, polled: map<nat, nat>) {
    && (forall c :: c in polled ==> polled[c] in live && Home(polled[c]) == c)
    && (forall t :: t in live ==> live[t] in pcs)
    && (forall t, u :: t in live && u in live && live[t] == live[u] ==> t == u)
  }

  /** A ready queue holds ids of its own CPU only. */
  ghost predicate QueuesOk(ready: map<nat, seq<nat>>) { forall c, t :: t in Queue(ready, c) ==> Home(t) == c }

  lemma SpawnTid(s: State, home: nat)
    requires SlotsOk(s) && home < 256 && SpawnSlot(s, home) < 0x100_0000
    ensures MakeTid(home, SpawnSlot(s, home)) !in s.live
  {
    var slot := SpawnSlot(s, home);
    var tid := MakeTid(home, slot);
    TidRoundTrip(home, slot);
    if Free(s, home) == [] {
      assert tid in s.live ==> SlotUsed(s, tid);
    } else {
      assert SlotFree(s, home, |Free(s, home)| - 1);
    }
  }

  lemma SpawnSlots(s: State, home: nat, key: nat)
    requires SlotsOk(s) && Enabled(s, Spawn(home, key))
    ensures SlotsOk(Next(s, Spawn(home, key)))
  {
    var t := Next(s, Spawn(home, key));
    var slot := SpawnSlot(s, home);
    var tid := MakeTid(home, slot);
    TidRoundTrip(home, slot);
    SpawnTid(s, home);
    assert Distinct(Free(s, home));
    forall c ensures Distinct(Free(t, c)) && forall i: nat :: i < |Free(t, c)| ==> SlotFree(t, c, i) {
      assert Distinct(Free(s, c)) && Free(t, c) <= Free(s, c);
      forall i: nat | i < |Free(t, c)| ensures SlotFree(t, c, i) {
        assert SlotFree(s, c, i);
        if c < 256 { TidRoundTrip(c, Free(s, c)[i]); }
      }
    }
    forall u | u in t.live ensures SlotUsed(t, u) {
      assert u != tid ==> SlotUsed(s, u);
      assert Free(s, home) != [] ==> SlotFree(s, home, |Free(s, home)| - 1);
    }
  }

  lemma CompleteSlots(s: State, c: nat)
    requires SlotsOk(s) && TasksOk(s.live, s.pcs, s.polled) && Enabled(s, Complete(c))
    ensures SlotsOk(Next(s, Complete(c)))
  {
    var t := Next(s, Complete(c));
    var tid := s.polled[c];
    assert SlotUsed(s, tid);
    assert MakeTid(c, SlotOf(tid)) == tid;
    forall d ensures Distinct(Free(t, d)) && forall i: nat :: i < |Free(t, d)| ==> SlotFree(t, d, i) {
      assert Distinct(Free(s, d));
      forall i: nat | i < |Free(s, d)| ensures SlotFree(t, d, i) && (d == c ==> Free(s, d)[i] != SlotOf(tid)) {
        assert SlotFree(s, d, i);
      }
    }
    forall u | u in t.live ensures SlotUsed(t, u) {
      assert SlotUsed(s, u);
    }
  }

  lemma SlotsSame(s: State, t: State)
    requires SlotsOk(s) && t.live == s.live && t.freeSlots == s.freeSlots && t.nextSlot == s.nextSlot
    ensures SlotsOk(t)
  {
    forall c ensures Distinct(Free(t, c)) && forall i: nat :: i < |Free(t, c)| ==> SlotFree(t, c, i) {
      assert Free(t, c) == Free(s, c);
      forall i: nat | i < |Free(t, c)| ensures SlotFree(t, c, i) {
        assert SlotFree(s, c, i);
      }
    }
    forall u | u in t.live ensures SlotUsed(t, u) {
      assert SlotUsed(s, u);
    }
  }

  // ---- No lost wakeups ----

  predicate InHand(acts: map<Agent, Act>, a: Agent, t: nat) { a in acts && acts[a].Hand? && t in acts[a].left }

  /** `t` is in its home CPU's ready queue, or an agent is about to put it there. */
  ghost predicate Reached(ready: map<nat, seq<nat>>, acts: map<Agent, Act>, t: nat) {
    t in Queue(ready, Home(t)) || exists a :: InHand(acts, a, t)
  }

  predicate IsDue(acts: map<Agent, Act>, a: Agent, r: Res) { a in acts && acts[a] == Due(r) }

  ghost predicate SomeDue(acts: map<Agent, Act>, r: Res) { exists a :: IsDue(acts, a, r) }

  /** A task that registered is on the waker list or already reached; a parked task whose
      condition holds is reached, or the wake of its list is due. */
  ghost predicate WaitOk(s: State, t: nat)
    requires t in s.live && s.live[t] in s.pcs
  {
    var pc := s.pcs[s.live[t]];
    !pc.Running? ==>
      && (t in Waiters(s.lists, pc.r) || Reached(s.ready, s.acts, t))
      && (pc.Parked? && Cond(s.sh, pc.r) ==> Reached(s.ready, s.acts, t) || SomeDue(s.acts, pc.r))
      && (pc.r.Request? ==> pc.r.h in s.sh.owner && s.sh.owner[pc.r.h] == s.live[t])
  }

  ghost predicate WaitsOk(s: State) {
    forall t {:trigger WaitOk(s, t)} :: t in s.live && s.live[t] in s.pcs ==> WaitOk(s, t)
  }

  ghost predicate Inv(s: State) {
    var slots, tasks, queues, waits := SlotsOk(s), TasksOk(s.live, s.pcs, s.polled), QueuesOk(s.ready), WaitsOk(s);
    slots && tasks && queues && waits
  }

  /** The tasks other than `t` neither move nor lose anything they rely on. */
  lemma WaitKept(s: State, s': State, t: nat)
    requires t in s.live && s.live[t] in s.pcs && WaitOk(s, t)
    requires t in s'.live && s'.live[t] == s.live[t] && s.live[t] in s'.pcs && s'.pcs[s.live[t]] == s.pcs[s.live[t]]
    requires Reached(s.ready, s.acts, t) ==> Reached(s'.ready, s'.acts, t)
    requires
      var pc := s.pcs[s.live[t]];
      !pc.Running? ==>
        && (t in Waiters(s.lists, pc.r) ==> t in Waiters(s'.lists, pc.r) || Reached(s'.ready, s'.acts, t))
        && (SomeDue(s.acts, pc.r) ==> SomeDue(s'.acts, pc.r) || Reached(s'.ready, s'.acts, t))
        && (Cond(s'.sh, pc.r) ==> Cond(s.sh, pc.r) || SomeDue(s'.acts, pc.r))
        && (pc.r.Request? && pc.r.h in s.sh.owner && s.sh.owner[pc.r.h] == s.live[t] ==>
              pc.r.h in s'.sh.owner && s'.sh.owner[pc.r.h] == s.live[t])
    ensures WaitOk(s', t)
  {
  }

  function Pushed(ready: map<nat, seq<nat>>, t: nat): (ready': map<nat, seq<nat>>) {
    ready[Home(t) := Queue(ready, Home(t)) + [t]]
  }

  lemma PushedOk(ready: map<nat, seq<nat>>, t: nat)
    requires QueuesOk(ready)
    ensures QueuesOk(Pushed(ready, t))
    ensures forall c, u :: u in Queue(Pushed(ready, t), c) <==> u in Queue(ready, c) || (u == t && c == Home(t))
  {
    forall c, u ensures u in Queue(Pushed(ready, t), c) <==> u in Queue(ready, c) || (u == t && c == Home(t)) {
      assert c == Home(t) ==> Queue(Pushed(ready, t), c) == Queue(ready, c) + [t];
      assert c != Home(t) ==> Queue(Pushed(ready, t), c) == Queue(ready, c);
    }
  }

  lemma PoppedOk(ready: map<nat, seq<nat>>, c: nat)
    requires QueuesOk(ready) && Queue(ready, c) != []
    ensures Home(Queue(ready, c)[0]) == c
    ensures QueuesOk(ready[c := Queue(ready, c)[1..]])
    ensures forall d, u :: u in Queue(ready, d) && u != Queue(ready, c)[0] ==>
              u in Queue(ready[c := Queue(ready, c)[1..]], d)
  {
    var q := Queue(ready, c);
    assert q[0] in q;
    var ready' := ready[c := q[1..]];
    assert q == [q[0]] + q[1..];
    forall d, u ensures u in Queue(ready', d) ==> u in Queue(ready, d) {
      assert d == c ==> Queue(ready', d) == q[1..];
    }
    forall d, u | u in Queue(ready, d) && u != q[0] ensures u in Queue(ready', d) {
      assert d == c ==> Queue(ready', d) == q[1..];
    }
  }

  lemma SpawnStep(s: State, home: nat, key: nat)
    requires Inv(s) && Enabled(s, Spawn(home, key))
    ensures Inv(Next(s, Spawn(home, key)))
  {
    var s' := Next(s, Spawn(home, key));
    var tid := MakeTid(home, SpawnSlot(s, home));
    SpawnSlots(s, home, key);
    SpawnTid(s, home);
    TidRoundTrip(home, SpawnSlot(s, home));
    assert s'.ready == Pushed(s.ready, tid);
    PushedOk(s.ready, tid);
    forall t | t in s'.live && s'.live[t] in s'.pcs ensures WaitOk(s', t) {
      if t != tid {
        assert WaitOk(s, t);
        WaitKept(s, s', t);
      }
    }
  }

  lemma PopWait(s: State, s': State, c: nat, t: nat)
    requires QueuesOk(s.ready) && Queue(s.ready, c) != [] && t != Queue(s.ready, c)[0]
    requires s' == s.(ready := s.ready[c := Queue(s.ready, c)[1..]], polled := s'.polled, pcs := s'.pcs)
    requires t in s.live && s.live[t] in s.pcs && s.live[t] in s'.pcs && s'.pcs[s.live[t]] == s.pcs[s.live[t]]
    requires WaitOk(s, t)
    ensures WaitOk(s', t)
  {
    PoppedOk(s.ready, c);
    WaitKept(s, s', t);
  }

  lemma PopTask(s: State, c: nat, tid: nat)
    requires Inv(s) && Enabled(s, Pop(c)) && tid == Queue(s.ready, c)[0] && Home(tid) == c && tid in s.live
    ensures Inv(Next(s, Pop(c)))
  {
    var s' := Next(s, Pop(c));
    PoppedOk(s.ready, c);
    SlotsSame(s, s');
    assert s'.polled == s.polled[c := tid] && s'.pcs == s.pcs[s.live[tid] := Running];
    forall t | t in s'.live && s'.live[t] in s'.pcs ensures WaitOk(s', t) {
      if t != tid {
        assert WaitOk(s, t);
        assert s.live[t] != s.live[tid];
        PopWait(s, s', c, t);
      }
    }
  }

  lemma PopStep(s: State, c: nat)
    requires Inv(s) && Enabled(s, Pop(c))
    ensures Inv(Next(s, Pop(c)))
  {
    var s' := Next(s, Pop(c));
    var tid := Queue(s.ready, c)[0];
    PoppedOk(s.ready, c);
    if tid in s.live {
      PopTask(s, c, tid);
    } else {
      SlotsSame(s, s');
      forall t | t in s'.live && s'.live[t] in s'.pcs ensures WaitOk(s', t) {
        assert WaitOk(s, t);
        PopWait(s, s', c, t);
      }
    }
  }

  lemma RegisterStep(s: State, c: nat, r: Res)
    requires Inv(s) && Enabled(s, Register(c, r))
    ensures Inv(Next(s, Register(c, r)))
  {
    var s' := Next(s, Register(c, r));
    var tid := s.polled[c];
    SlotsSame(s, s');
    assert s'.ready == s.ready;
    forall t | t in s'.live && s'.live[t] in s'.pcs ensures WaitOk(s', t) {
      assert WaitOk(s, t);
      if t == tid {
        assert tid in Waiters(s'.lists, r);
      } else {
        assert s.live[t] != s.live[tid];
        WaitKept(s, s', t);
      }
    }
  }

  lemma CheckStep(s: State, c: nat)
    requires Inv(s) && Enabled(s, Check(c))
    ensures Inv(Next(s, Check(c)))
  {
    var s' := Next(s, Check(c));
    SlotsSame(s, s');
    assert s'.ready == s.ready;
    forall t | t in s'.live && s'.live[t] in s'.pcs ensures WaitOk(s', t) {
      assert WaitOk(s, t);
      if t != s.polled[c] {
        assert s.live[t] != Key(s, c);
        WaitKept(s, s', t);
      }
    }
  }

  lemma PutBackStep(s: State, c: nat)
    requires Inv(s) && Enabled(s, PutBack(c))
    ensures Inv(Next(s, PutBack(c)))
  {
    var s' := Next(s, PutBack(c));
    SlotsSame(s, s');
    assert s'.ready == s.ready;
    forall t | t in s'.live && s'.live[t] in s'.pcs ensures WaitOk(s', t) {
      assert WaitOk(s, t);
      WaitKept(s, s', t);
    }
  }

  lemma CompleteStep(s: State, c: nat)
    requires Inv(s) && Enabled(s, Complete(c))
    ensures Inv(Next(s, Complete(c)))
  {
    var s' := Next(s, Complete(c));
    CompleteSlots(s, c);
    assert s'.ready == s.ready;
    forall t | t in s'.live && s'.live[t] in s'.pcs ensures WaitOk(s', t) {
      assert WaitOk(s, t);
      WaitKept(s, s', t);
    }
  }

  /** `a` was idle and now does `x`. */
  lemma ActsGrow(acts: map<Agent, Act>, a: Agent, x: Act)
    requires a in acts ==> acts[a].Idle?
    ensures forall ready, t :: Reached(ready, acts, t) ==> Reached(ready, acts[a := x], t)
    ensures forall r :: SomeDue(acts, r) ==> SomeDue(acts[a := x], r)
    ensures x.Due? ==> SomeDue(acts[a := x], x.r)
  {
    var acts' := acts[a := x];
    forall ready, t | Reached(ready, acts, t) ensures Reached(ready, acts', t) {
      if t !in Queue(ready, Home(t)) {
        var b :| InHand(acts, b, t);
        assert InHand(acts', b, t);
      }
    }
    forall r | SomeDue(acts, r) ensures SomeDue(acts', r) {
      var b :| IsDue(acts, b, r);
      assert IsDue(acts', b, r);
    }
    if x.Due? { assert IsDue(acts', a, x.r); }
  }

  lemma DoStep(s: State, c: nat, op: Op)
    requires Inv(s) && Enabled(s, Do(c, op))
    ensures Inv(Next(s, Do(c, op)))
  {
    var s' := Next(s, Do(c, op));
    var key := Key(s, c);
    SlotsSame(s, s');
    assert s'.ready == s.ready;
    ActsGrow(s.acts, Hart(c), Wakes(s.sh, op));
    forall t | t in s'.live && s'.live[t] in s'.pcs ensures WaitOk(s', t) {
      assert WaitOk(s, t);
      var pc := s.pcs[s.live[t]];
      if !pc.Running? {
        assert s.live[t] != key;
        if Cond(s'.sh, pc.r) { TrueMeansDue(s.sh, op, key, pc.r); }
        OwnerKept(s.sh, op, key, pc.r, s.live[t]);
      }
      WaitKept(s, s', t);
    }
  }

  lemma OwnerKept(sh: Shared, op: Op, key: nat, r: Res, k: nat)
    requires OpEnabled(sh, op, key) && k != key
    requires r.Request? ==> r.h in sh.owner && sh.owner[r.h] == k
    ensures r.Request? ==> r.h in OpAfter(sh, op, key).owner && OpAfter(sh, op, key).owner[r.h] == k
  {
  }

  lemma InterruptStep(s: State, c: nat, h: nat)
    requires Inv(s) && Enabled(s, Interrupt(c, h))
    ensures Inv(Next(s, Interrupt(c, h)))
  {
    var s' := Next(s, Interrupt(c, h));
    SlotsSame(s, s');
    assert s'.ready == s.ready;
    ActsGrow(s.acts, Irq(c), Due(Request(h)));
    forall t | t in s'.live && s'.live[t] in s'.pcs ensures WaitOk(s', t) {
      assert WaitOk(s, t);
      WaitKept(s, s', t);
    }
  }

  lemma TakeListStep(s: State, a: Agent)
    requires Inv(s) && Enabled(s, TakeList(a))
    ensures Inv(Next(s, TakeList(a)))
  {
    var s' := Next(s, TakeList(a));
    var r := s.acts[a].r;
    SlotsSame(s, s');
    assert s'.ready == s.ready;
    forall t | t in s'.live && s'.live[t] in s'.pcs ensures WaitOk(s', t) {
      assert WaitOk(s, t);
      assert t in Waiters(s.lists, r) ==> InHand(s'.acts, a, t);
      forall b | InHand(s.acts, b, t) ensures InHand(s'.acts, b, t) {}
      forall b, q | IsDue(s.acts, b, q) && q != r ensures IsDue(s'.acts, b, q) {}
      WaitKept(s, s', t);
    }
  }

  lemma PushWait(s: State, s': State, a: Agent, t: nat)
    requires QueuesOk(s.ready) && a in s.acts && s.acts[a].Hand? && s.acts[a].left != []
    requires var left := s.acts[a].left;
      s' == s.(ready := Pushed(s.ready, left[0]), acts := s.acts[a := Hand(left[1..])])
    requires t in s.live && s.live[t] in s.pcs && WaitOk(s, t)
    ensures WaitOk(s', t)
  {
    var left := s.acts[a].left;
    PushedOk(s.ready, left[0]);
    assert left == [left[0]] + left[1..];
    forall b | InHand(s.acts, b, t) ensures Reached(s'.ready, s'.acts, t) {
      if b != a || t != left[0] { assert InHand(s'.acts, b, t); }
    }
    forall b, q | IsDue(s.acts, b, q) ensures IsDue(s'.acts, b, q) {}
    WaitKept(s, s', t);
  }

  lemma PushOneStep(s: State, a: Agent)
    requires Inv(s) && Enabled(s, PushOne(a))
    ensures Inv(Next(s, PushOne(a)))
  {
    var s' := Next(s, PushOne(a));
    var left := s.acts[a].left;
    SlotsSame(s, s');
    if left != [] {
      PushedOk(s.ready, left[0]);
      forall t | t in s'.live && s'.live[t] in s'.pcs ensures WaitOk(s', t) {
        assert WaitOk(s, t);
        PushWait(s, s', a, t);
      }
    } else {
      assert s'.ready == s.ready;
      forall t | t in s'.live && s'.live[t] in s'.pcs ensures WaitOk(s', t) {
        assert WaitOk(s, t);
        forall b | InHand(s.acts, b, t) ensures InHand(s'.acts, b, t) {}
        forall b, q | IsDue(s.acts, b, q) ensures IsDue(s'.acts, b, q) {}
        WaitKept(s, s', t);
      }
    }
  }

  /** Every step of every hart and interrupt handler keeps the invariant. */
  lemma StepKeepsInv(s: State, x: Step)
    requires Inv(s) && Enabled(s, x)
    ensures Inv(Next(s, x))
  {
    match x {
      case Spawn(home, key) => SpawnStep(s, home, key);
      case Pop(c) => PopStep(s, c);
      case Register(c, r) => RegisterStep(s, c, r);
      case Check(c) => CheckStep(s, c);
      case PutBack(c) => PutBackStep(s, c);
      case Complete(c) => CompleteStep(s, c);
      case Do(c, op) => DoStep(s, c, op);
      case Interrupt(c, h) => InterruptStep(s, c, h);
      case TakeList(a) => TakeListStep(s, a);
      case PushOne(a) => PushOneStep(s, a);
    }
  }

  /** Consecutive states of a run from a state without tasks. */
  ghost predicate Run(run: seq<State>, steps: seq<Step>) {
    && |run| == |steps| + 1
    && run[0] == State(run[0].sh, map[], map[], map[], map[], map[], map[], map[], map[])
    && forall i {:trigger steps[i]} :: 0 <= i < |steps| ==>
         Enabled(run[i], steps[i]) && run[i + 1] == Next(run[i], steps[i])
  }

  lemma {:induction false} RunInv(run: seq<State>, steps: seq<Step>, i: nat)
    requires Run(run, steps) && i < |run|
    ensures Inv(run[i])
  {
    if i > 0 {
      RunInv(run, steps, i - 1);
      StepKeepsInv(run[i - 1], steps[i - 1]);
    }
  }

  /** In every state of every run a parked task has a false condition, or is in its home CPU's
      ready queue, or an agent has still to take its waker list or to push it. */
  lemma NoLostWakeups(run: seq<State>, steps: seq<Step>, i: nat, t: nat)
    requires Run(run, steps) && i < |run| && t in run[i].live && run[i].live[t] in run[i].pcs
    requires run[i].pcs[run[i].live[t]].Parked?
    ensures
      var s, r := run[i], run[i].pcs[run[i].live[t]].r;
      || !Cond(s.sh, r)
      || t in Queue(s.ready, Home(t))
      || exists a :: InHand(s.acts, a, t) || IsDue(s.acts, a, r)
  {
    RunInv(run, steps, i);
    var s := run[i];
    var r := s.pcs[s.live[t]].r;
    assert WaitOk(s, t);
    if Cond(s.sh, r) && t !in Queue(s.ready, Home(t)) {
      if SomeDue(s.acts, r) {
        var a :| IsDue(s.acts, a, r);
      } else {
        var a :| InHand(s.acts, a, t);
      }
    }
  }

  /** `insert_task` never takes the id of a live task, a hart polls tasks of its own only, and the
      branch of the run loop that forwards a foreign id is never taken. */
  lemma IdsAreUnique(run: seq<State>, steps: seq<Step>, i: nat)
    requires Run(run, steps) && i < |steps|
    ensures steps[i].Spawn? ==> MakeTid(steps[i].home, SpawnSlot(run[i], steps[i].home)) !in run[i].live
    ensures steps[i].Pop? ==> Home(Queue(run[i].ready, steps[i].cpu)[0]) == steps[i].cpu
    ensures forall t, u :: t in run[i].live && u in run[i].live && run[i].live[t] == run[i].live[u] ==> t == u
  {
    RunInv(run, steps, i);
    if steps[i].Spawn? { SpawnTid(run[i], steps[i].home); }
    if steps[i].Pop? { PoppedOk(run[i].ready, steps[i].cpu); }
  }

  // ---- What tasks can count on ----

  ghost predicate Polled(s: State, t: nat) { exists c :: c in s.polled && s.polled[c] == t }

  lemma StepQueued(s: State, x: Step, t: nat)
    requires Inv(s) && Enabled(s, x) && t in s.live && t in Queue(s.ready, Home(t)) && !Polled(s, t)
    ensures t in Next(s, x).live && (t in Queue(Next(s, x).ready, Home(t)) || Polled(Next(s, x), t))
  {
    match x {
      case Spawn(home, key) =>
        PushedOk(s.ready, MakeTid(home, SpawnSlot(s, home)));
        TidRoundTrip(home, SpawnSlot(s, home));
      case Pop(c) =>
        PoppedOk(s.ready, c);
        assert Queue(s.ready, c)[0] == t ==> c in Next(s, x).polled && Next(s, x).polled[c] == t;
      case PushOne(a) =>
        if s.acts[a].left != [] {
          PushedOk(s.ready, s.acts[a].left[0]);
        }
      case Complete(c) =>
        assert c in s.polled;
      case _ =>
    }
  }

  lemma SpawnQueues(s: State, home: nat, key: nat)
    requires Enabled(s, Spawn(home, key))
    ensures
      var t := MakeTid(home, SpawnSlot(s, home));
      t in Next(s, Spawn(home, key)).live && t in Queue(Next(s, Spawn(home, key)).ready, Home(t))
  {
    TidRoundTrip(home, SpawnSlot(s, home));
  }

  lemma {:induction false} RunQueued(run: seq<State>, steps: seq<Step>, i: nat, j: nat, t: nat)
    requires Run(run, steps) && i <= j < |run| && t in run[i].live && t in Queue(run[i].ready, Home(t))
    requires forall m: nat {:trigger Polled(run[m], t)} :: i <= m <= j ==> !Polled(run[m], t)
    ensures t in run[j].live && t in Queue(run[j].ready, Home(t))
  {
    if i < j {
      RunQueued(run, steps, i, j - 1, t);
      RunInv(run, steps, j - 1);
      assert !Polled(run[j - 1], t) && !Polled(run[j], t);
      StepQueued(run[j - 1], steps[j - 1], t);
    }
  }

  /** Over every run: a new task is in the ready queue of its hart until that hart polls it. */
  lemma SpawnedIsReady(run: seq<State>, steps: seq<Step>, i: nat, j: nat, home: nat, key: nat)
    requires Run(run, steps) && i < j < |run| && steps[i] == Spawn(home, key) && Enabled(run[i], steps[i])
    requires
      var t := MakeTid(home, SpawnSlot(run[i], home));
      forall m: nat {:trigger Polled(run[m], t)} :: i < m <= j ==> !Polled(run[m], t)
    ensures
      var t := MakeTid(home, SpawnSlot(run[i], home));
      t in run[j].live && t in Queue(run[j].ready, home)
  {
    var t := MakeTid(home, SpawnSlot(run[i], home));
    TidRoundTrip(home, SpawnSlot(run[i], home));
    SpawnQueues(run[i], home, key);
    assert run[i + 1] == Next(run[i], steps[i]);
    RunQueued(run, steps, i + 1, j, t);
  }

  /** A task between registering and checking is being polled. */
  ghost predicate ChecksDue(s: State) {
    forall t :: t in s.live && s.live[t] in s.pcs && s.pcs[s.live[t]].Registered? ==> Polled(s, t)
  }

  /** The harts poll what they polled, and who is registered was. */
  lemma ChecksKept(s: State, s': State)
    requires ChecksDue(s)
    requires forall t :: t in s'.live ==> t in s.live && s'.live[t] == s.live[t]
    requires forall k :: k in s'.pcs && s'.pcs[k].Registered? ==> k in s.pcs && s.pcs[k] == s'.pcs[k]
    requires forall c :: c in s.polled && s.polled[c] in s'.live ==> c in s'.polled && s'.polled[c] == s.polled[c]
    ensures ChecksDue(s')
  {
    forall t | t in s'.live && s'.live[t] in s'.pcs && s'.pcs[s'.live[t]].Registered? ensures Polled(s', t) {
      assert Polled(s, t);
      var c :| c in s.polled && s.polled[c] == t;
      assert s'.polled[c] == t;
    }
  }

  lemma SpawnChecks(s: State, home: nat, key: nat)
    requires Inv(s) && Enabled(s, Spawn(home, key)) && ChecksDue(s)
    ensures ChecksDue(Next(s, Spawn(home, key)))
  {
    var s', tid := Next(s, Spawn(home, key)), MakeTid(home, SpawnSlot(s, home));
    SpawnTid(s, home);
    forall t | t in s'.live && s'.live[t] in s'.pcs && s'.pcs[s'.live[t]].Registered? ensures Polled(s', t) {
      assert t != tid && Polled(s, t);
    }
  }

  lemma RegisterChecks(s: State, c: nat, r: Res)
    requires Inv(s) && Enabled(s, Register(c, r)) && ChecksDue(s)
    ensures ChecksDue(Next(s, Register(c, r)))
  {
    var s' := Next(s, Register(c, r));
    forall t | t in s'.live && s'.live[t] in s'.pcs && s'.pcs[s'.live[t]].Registered? ensures Polled(s', t) {
      if s.live[t] == Key(s, c) {
        assert s'.polled[c] == t;
      } else {
        assert Polled(s, t);
      }
    }
  }

  lemma PutBackChecks(s: State, c: nat)
    requires Inv(s) && Enabled(s, PutBack(c)) && ChecksDue(s)
    ensures ChecksDue(Next(s, PutBack(c)))
  {
    var s' := Next(s, PutBack(c));
    forall t | t in s'.live && s'.live[t] in s'.pcs && s'.pcs[s'.live[t]].Registered? ensures Polled(s', t) {
      assert Polled(s, t);
      var d :| d in s.polled && s.polled[d] == t;
      assert s'.polled[d] == t;
    }
  }

  lemma PopChecks(s: State, c: nat)
    requires Inv(s) && Enabled(s, Pop(c)) && ChecksDue(s)
    ensures ChecksDue(Next(s, Pop(c)))
  {
    PoppedOk(s.ready, c);
    var s', tid := Next(s, Pop(c)), Queue(s.ready, c)[0];
    assert s'.live == s.live && forall d :: d in s.polled ==> d in s'.polled && s'.polled[d] == s.polled[d];
    assert s'.pcs == if tid in s.live && s.live[tid] in s.pcs then s.pcs[s.live[tid] := Running] else s.pcs;
    ChecksKept(s, s');
  }

  lemma CheckChecks(s: State, c: nat)
    requires Inv(s) && Enabled(s, Check(c)) && ChecksDue(s)
    ensures ChecksDue(Next(s, Check(c)))
  {
    ChecksKept(s, Next(s, Check(c)));
  }

  lemma CompleteChecks(s: State, c: nat)
    requires Inv(s) && Enabled(s, Complete(c)) && ChecksDue(s)
    ensures ChecksDue(Next(s, Complete(c)))
  {
    ChecksKept(s, Next(s, Complete(c)));
  }

  lemma DoChecks(s: State, c: nat, op: Op)
    requires Enabled(s, Do(c, op)) && ChecksDue(s)
    ensures ChecksDue(Next(s, Do(c, op)))
  {
    ChecksKept(s, Next(s, Do(c, op)));
  }

  lemma InterruptChecks(s: State, c: nat, h: nat)
    requires Enabled(s, Interrupt(c, h)) && ChecksDue(s)
    ensures ChecksDue(Next(s, Interrupt(c, h)))
  {
    ChecksKept(s, Next(s, Interrupt(c, h)));
  }

  lemma TakeListChecks(s: State, a: Agent)
    requires Enabled(s, TakeList(a)) && ChecksDue(s)
    ensures ChecksDue(Next(s, TakeList(a)))
  {
    ChecksKept(s, Next(s, TakeList(a)));
  }

  lemma PushOneChecks(s: State, a: Agent)
    requires Enabled(s, PushOne(a)) && ChecksDue(s)
    ensures ChecksDue(Next(s, PushOne(a)))
  {
    var s' := Next(s, PushOne(a));
    assert s' == s.(ready := s'.ready, acts := s'.acts);
    ChecksKept(s, s');
  }

  lemma StepChecks(s: State, x: Step)
    requires Inv(s) && Enabled(s, x) && ChecksDue(s)
    ensures ChecksDue(Next(s, x))
  {
    match x {
      case Spawn(home, key) => SpawnChecks(s, home, key);
      case Pop(c) => PopChecks(s, c);
      case Register(c, r) => RegisterChecks(s, c, r);
      case Check(c) => CheckChecks(s, c);
      case PutBack(c) => PutBackChecks(s, c);
      case Complete(c) => CompleteChecks(s, c);
      case Do(c, op) => DoChecks(s, c, op);
      case Interrupt(c, h) => InterruptChecks(s, c, h);
      case TakeList(a) => TakeListChecks(s, a);
      case PushOne(a) => PushOneChecks(s, a);
    }
  }

  lemma {:induction false} RunChecks(run: seq<State>, steps: seq<Step>, i: nat)
    requires Run(run, steps) && i < |run|
    ensures ChecksDue(run[i])
  {
    if i > 0 {
      RunChecks(run, steps, i - 1);
      RunInv(run, steps, i - 1);
      StepChecks(run[i - 1], steps[i - 1]);
    }
  }

  /** Nobody else touches the state of a task that is being polled. */
  lemma PollsAlone(s: State, x: Step, t: nat, c: nat)
    requires Inv(s) && Enabled(s, x) && c in s.polled && s.polled[c] == t && t in s.live && s.live[t] in s.pcs
    requires !(x.Register? && x.cpu == c) && !(x.Check? && x.cpu == c)
    ensures s.live[t] in Next(s, x).pcs && Next(s, x).pcs[s.live[t]] == s.pcs[s.live[t]]
  {
    match x {
      case Pop(d) =>
        PoppedOk(s.ready, d);
        assert Queue(s.ready, d)[0] != t;
      case Register(d, _) =>
        assert s.polled[d] != t;
      case Check(d) =>
        assert s.polled[d] != t;
      case _ =>
    }
  }

  lemma CheckIsHonest(s: State, x: Step, t: nat)
    requires Inv(s) && Enabled(s, x) && t in s.live && s.live[t] in s.pcs && Polled(s, t)
    requires s.pcs[s.live[t]].Registered?
    ensures s.live[t] in Next(s, x).pcs
    ensures
      var r, pc := s.pcs[s.live[t]].r, Next(s, x).pcs[s.live[t]];
      pc == Registered(r) || pc == if Cond(s.sh, r) then Running else Parked(r)
  {
    var c :| c in s.polled && s.polled[c] == t;
    if x != Check(c) {
      PollsAlone(s, x, t, c);
    }
  }

  /** Over every run: a task that has registered goes on exactly when its condition holds as it checks, and
      parks exactly when it does not. */
  lemma WaitsAreHonest(run: seq<State>, steps: seq<Step>, i: nat, t: nat)
    requires Run(run, steps) && i < |steps| && t in run[i].live && run[i].live[t] in run[i].pcs
    requires run[i].pcs[run[i].live[t]].Registered?
    ensures run[i].live[t] in run[i + 1].pcs
    ensures
      var r, pc := run[i].pcs[run[i].live[t]].r, run[i + 1].pcs[run[i].live[t]];
      pc == Registered(r) || pc == if Cond(run[i].sh, r) then Running else Parked(r)
  {
    RunInv(run, steps, i);
    RunChecks(run, steps, i);
    CheckIsHonest(run[i], steps[i], t);
  }

  // ---- No slot is lost ----

  /** Every slot a hart has handed out is in use or on its free list. */
  ghost predicate Accounted(s: State) {
    var all := forall c: nat, n: nat {:trigger Handed(s, c, n)} :: Handed(s, c, n) ==>
      MakeTid(c, n) in s.live || n in Free(s, c);
    all
  }

  predicate Handed(s: State, c: nat, n: nat) { c < 256 && n < 0x100_0000 && n < NextSlot(s, c) }

  lemma SpawnAccounts(s: State, home: nat, key: nat)
    requires Enabled(s, Spawn(home, key)) && Accounted(s)
    ensures Accounted(Next(s, Spawn(home, key)))
  {
    var s', slot := Next(s, Spawn(home, key)), SpawnSlot(s, home);
    forall c: nat, n: nat | Handed(s', c, n) ensures MakeTid(c, n) in s'.live || n in Free(s', c) {
      if !(c == home && n == slot) {
        assert Handed(s, c, n);
        var q := Free(s, home);
        assert c == home && q != [] ==> q == q[..|q| - 1] + [slot] && Free(s', c) == q[..|q| - 1];
      }
    }
  }

  lemma CompleteAccounts(s: State, c: nat)
    requires Inv(s) && Enabled(s, Complete(c)) && Accounted(s)
    ensures Accounted(Next(s, Complete(c)))
  {
    var s', tid := Next(s, Complete(c)), s.polled[c];
    assert Home(tid) == c;
    forall d: nat, n: nat | Handed(s', d, n) ensures MakeTid(d, n) in s'.live || n in Free(s', d) {
      assert Handed(s, d, n);
      TidRoundTrip(d, n);
    }
  }

  lemma SameAccounts(s: State, s': State)
    requires Accounted(s) && s'.live == s.live && s'.freeSlots == s.freeSlots && s'.nextSlot == s.nextSlot
    ensures Accounted(s')
  {
    forall c: nat, n: nat | Handed(s', c, n) ensures MakeTid(c, n) in s'.live || n in Free(s', c) {
      assert Handed(s, c, n) && Free(s', c) == Free(s, c);
    }
  }

  lemma PopAccounts(s: State, c: nat)
    requires Enabled(s, Pop(c)) && Accounted(s)
    ensures Accounted(Next(s, Pop(c)))
  {
    var s' := Next(s, Pop(c));
    assert s' == s.(pcs := s'.pcs, polled := s'.polled, ready := s'.ready);
    SameAccounts(s, s');
  }

  lemma PushOneAccounts(s: State, a: Agent)
    requires Enabled(s, PushOne(a)) && Accounted(s)
    ensures Accounted(Next(s, PushOne(a)))
  {
    var s' := Next(s, PushOne(a));
    assert s' == s.(acts := s'.acts, ready := s'.ready);
    SameAccounts(s, s');
  }

  lemma OtherAccounts(s: State, x: Step)
    requires Enabled(s, x) && Accounted(s) && !x.Spawn? && !x.Complete? && !x.Pop? && !x.PushOne?
    ensures Accounted(Next(s, x))
  {
    var s' := Next(s, x);
    assert s' == s.(sh := s'.sh, lists := s'.lists, acts := s'.acts, pcs := s'.pcs, polled := s'.polled);
    SameAccounts(s, s');
  }

  /** Over every run: a hart's task slots are those in use and those on its free list, and no others. */
  lemma {:induction false} NoSlotIsLost(run: seq<State>, steps: seq<Step>, i: nat)
    requires Run(run, steps) && i < |run|
    ensures Accounted(run[i])
  {
    if i > 0 {
      NoSlotIsLost(run, steps, i - 1);
      RunInv(run, steps, i - 1);
      var s, x := run[i - 1], steps[i - 1];
      match x {
        case Spawn(home, key) => SpawnAccounts(s, home, key);
        case Complete(c) => CompleteAccounts(s, c);
        case Pop(c) => PopAccounts(s, c);
        case PushOne(a) => PushOneAccounts(s, a);
        case _ => OtherAccounts(s, x);
      }
    }
  }
}
