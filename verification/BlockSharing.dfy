/** Many tasks that grow, shrink and read files at the same time, from await to await. An inode lock
    gives a task a file to itself; the bitmap is shared and only one flip of it is atomic. So a block
    may be claimed and not yet linked, a list of blocks may be cut out of a file and not yet freed,
    and an inode may still name blocks that have been freed and claimed by another task. */
module BlockSharing {
  import FileTree

  type Pos = FileTree.Pos

  /** A slot of a file. */
  datatype Place = Place(file: nat, pos: Pos)

  /** The inodes a task has locked, and the blocks only it knows of. */
  datatype Task = Task(locks: set<nat>, hand: set<nat>)

  /** `meta`: used blocks outside every file. `raw`: what inodes and index blocks name. `live`: the
      part of it that has not been given up. `data`: what the blocks hold. */
  datatype State = State(
    meta: set<nat>, used: set<nat>, raw: map<Place, nat>, live: map<Place, nat>, data: map<nat, int>,
    tasks: map<nat, Task>)

  datatype Step =
    | Acquire(o: nat, f: nat)
    | Release(o: nat, f: nat)
    | Claim(o: nat, b: nat)                    // the scan and flip of `balloc`
    | Fill(o: nat, b: nat, v: int)             // zero a claimed block
    | Link(o: nat, r: Place, b: nat)           // store its number in the inode or an index block
    | Store(o: nat, r: Place, v: int)          // write a block of the file
    | GiveUp(o: nat, rs: set<Place>)           // `itrunc_to` decides to free these, with all below them
    | Forget(o: nat, rs: set<Place>)           // it clears their numbers, before or after
    | Free(o: nat, b: nat)                     // the flip of `bfree`

  function TaskOf(s: State, o: nat): (t: Task) { if o in s.tasks then s.tasks[o] else Task({}, {}) }

  predicate Holds(s: State, o: nat, f: nat) { o in s.tasks && f in s.tasks[o].locks }

  ghost predicate Locked(s: State, f: nat) { exists o :: Holds(s, o, f) }

  function Above(r: Place): (q: Place)
    requires !FileTree.InInode(r.pos)
  {
    Place(r.file, FileTree.Parent(r.pos))
  }

  ghost predicate Enabled(s: State, x: Step) {
    var locks, hand := TaskOf(s, x.o).locks, TaskOf(s, x.o).hand;
    match x
    case Acquire(_, f) => !Locked(s, f)
    case Release(_, f) => f in locks && hand == {} && forall r :: r in s.raw && r.file == f ==> r in s.live
    case Claim(_, b) => b !in s.used
    case Fill(_, b, _) => b in hand
    case Link(_, r, b) =>
      && r.file in locks && b in hand && r !in s.raw && r.pos.Valid()
      && (!FileTree.InInode(r.pos) ==> Above(r) in s.live)
    case Store(_, r, _) => r.file in locks && r in s.live
    case GiveUp(_, rs) =>
      && (forall r :: r in rs ==> r.file in locks && r in s.live)
      && forall r :: r in s.live && !FileTree.InInode(r.pos) && Above(r) in rs ==> r in rs
    case Forget(_, rs) => forall r :: r in rs ==> r.file in locks && r !in s.live
    case Free(_, b) => b in hand
  }

  function Values(m: map<Place, nat>, rs: set<Place>): (bs: set<nat>) { set r | r in rs && r in m :: m[r] }

  ghost function Next(s: State, x: Step): (s': State)
    requires Enabled(s, x)
  {
    var t := TaskOf(s, x.o);
    match x
    case Acquire(o, f) => s.(tasks := s.tasks[o := t.(locks := t.locks + {f})])
    case Release(o, f) => s.(tasks := s.tasks[o := t.(locks := t.locks - {f})])
    case Claim(o, b) => s.(used := s.used + {b}, tasks := s.tasks[o := t.(hand := t.hand + {b})])
    case Fill(_, b, v) => s.(data := s.data[b := v])
    case Link(o, r, b) =>
      s.(raw := s.raw[r := b], live := s.live[r := b], tasks := s.tasks[o := t.(hand := t.hand - {b})])
    case Store(_, r, v) => s.(data := s.data[s.live[r] := v])
    case GiveUp(o, rs) =>
      s.(live := s.live - rs, tasks := s.tasks[o := t.(hand := t.hand + Values(s.live, rs))])
    case Forget(_, rs) => s.(raw := s.raw - rs)
    case Free(o, b) => s.(used := s.used - {b}, tasks := s.tasks[o := t.(hand := t.hand - {b})])
  }

  // ---- What every step keeps ----

  predicate InFile(s: State, r: Place, b: nat) { r in s.live && s.live[r] == b }

  predicate InHand(s: State, o: nat, b: nat) { o in s.tasks && b in s.tasks[o].hand }

  /** Each block of a file is in one place; each block in a hand is in one hand and in no file. */
  ghost predicate OneOwner(s: State) {
    && (forall r, q, b :: InFile(s, r, b) && InFile(s, q, b) ==> r == q)
    && (forall o, r, b :: InHand(s, o, b) ==> !InFile(s, r, b))
    && (forall o, e, b :: InHand(s, o, b) && InHand(s, e, b) ==> o == e)
  }

  ghost predicate Held(s: State, b: nat) {
    b in s.meta || (exists r :: InFile(s, r, b)) || (exists o :: InHand(s, o, b))
  }

  /** The bitmap marks what is owned, and nothing else. */
  ghost predicate BitmapOk(s: State) {
    && s.meta <= s.used
    && (forall r, b :: InFile(s, r, b) ==> b in s.used && b !in s.meta)
    && (forall o, b :: InHand(s, o, b) ==> b in s.used && b !in s.meta)
    && (forall b {:trigger Held(s, b)} :: b in s.used ==> Held(s, b))
  }

  /** Only a locked file names blocks it has given up; a live slot hangs on a live one. */
  ghost predicate FilesOk(s: State) {
    && (forall r :: r in s.live ==> r in s.raw && s.raw[r] == s.live[r] && r.pos.Valid())
    && (forall r :: r in s.raw && r !in s.live ==> Locked(s, r.file))
    && (forall r :: r in s.live && !FileTree.InInode(r.pos) ==> Above(r) in s.live)
  }

  ghost predicate LocksOk(s: State) { forall o, e, f :: Holds(s, o, f) && Holds(s, e, f) ==> o == e }

  ghost predicate Inv(s: State) { OneOwner(s) && BitmapOk(s) && FilesOk(s) && LocksOk(s) }

  /** What a step does to the owners of block `b`. */
  lemma StepOwners(s: State, x: Step)
    requires Enabled(s, x) && BitmapOk(s)
    ensures
      var s' := Next(s, x);
      && (forall r, b {:trigger InFile(s', r, b)} :: InFile(s', r, b) ==>
            (InFile(s, r, b) && !(x.GiveUp? && r in x.rs)) || (x.Link? && r == x.r && b == x.b))
      && (forall o, b {:trigger InHand(s', o, b)} :: InHand(s', o, b) ==>
            || (InHand(s, o, b) && !((x.Link? || x.Free?) && o == x.o && b == x.b))
            || (o == x.o && x.Claim? && b == x.b)
            || (o == x.o && x.GiveUp? && b in Values(s.live, x.rs)))
  {
  }

  lemma GivenUp(s: State, rs: set<Place>, b: nat)
    requires b in Values(s.live, rs)
    ensures exists r :: r in rs && InFile(s, r, b)
  {
    var r :| r in rs && r in s.live && s.live[r] == b;
    assert InFile(s, r, b);
  }

  lemma OwnerStep(s: State, x: Step)
    requires Enabled(s, x) && OneOwner(s) && BitmapOk(s)
    ensures OneOwner(Next(s, x))
  {
    var s' := Next(s, x);
    StepOwners(s, x);
    if x.GiveUp? {
      forall b | b in Values(s.live, x.rs) ensures exists r :: r in x.rs && InFile(s, r, b) {
        GivenUp(s, x.rs, b);
      }
    } else if x.Link? || x.Free? {
      assert InHand(s, x.o, x.b);
    }
  }

  lemma BitmapStep(s: State, x: Step)
    requires Enabled(s, x) && OneOwner(s) && BitmapOk(s) && FilesOk(s)
    ensures BitmapOk(Next(s, x))
  {
    var s' := Next(s, x);
    StepOwners(s, x);
    if x.Link? || x.Free? {
      assert InHand(s, x.o, x.b);
    } else if x.GiveUp? {
      forall b | b in Values(s.live, x.rs) ensures b in s.used && b !in s.meta {
        GivenUp(s, x.rs, b);
      }
    }
    forall b | b in s'.used ensures Held(s', b) {
      HeldStep(s, x, b);
    }
  }

  /** A marked block keeps an owner, though maybe another one. */
  lemma HeldStep(s: State, x: Step, b: nat)
    requires Enabled(s, x) && OneOwner(s) && BitmapOk(s) && FilesOk(s) && b in Next(s, x).used
    ensures Held(Next(s, x), b)
  {
    var s' := Next(s, x);
    if x.Claim? && b == x.b {
      assert InHand(s', x.o, b);
    } else if b !in s.meta {
      assert Held(s, b);
      if r :| InFile(s, r, b) {
        if x.GiveUp? && r in x.rs {
          assert InHand(s', x.o, b);
        } else {
          assert InFile(s', r, b);
        }
      } else {
        var o :| InHand(s, o, b);
        if x.Link? && x.b == b {
          assert InFile(s', x.r, b);
        } else {
          assert InHand(s', o, b);
        }
      }
    }
  }

  lemma LockStep(s: State, x: Step)
    requires Enabled(s, x) && LocksOk(s)
    ensures LocksOk(Next(s, x))
    ensures forall f {:trigger Locked(Next(s, x), f)} ::
              Locked(s, f) && !(x.Release? && x.f == f) ==> Locked(Next(s, x), f)
  {
    var s' := Next(s, x);
    assert forall o, f {:trigger Holds(s', o, f)} :: Holds(s', o, f) ==>
        || (Holds(s, o, f) && !(x.Release? && o == x.o && f == x.f))
        || (x.Acquire? && o == x.o && f == x.f);
    forall f | Locked(s, f) && !(x.Release? && x.f == f) ensures Locked(s', f) {
      var o :| Holds(s, o, f);
      assert Holds(s', o, f);
    }
  }

  lemma FileStep(s: State, x: Step)
    requires Enabled(s, x) && LocksOk(s) && FilesOk(s)
    ensures FilesOk(Next(s, x))
  {
    var s' := Next(s, x);
    LockStep(s, x);
    forall r | r in s'.raw && r !in s'.live ensures Locked(s', r.file) {
      if x.GiveUp? && r in x.rs {
        assert Holds(s', x.o, r.file);
      } else {
        assert r in s.raw && r !in s.live;
        assert Locked(s, r.file);
      }
    }
    forall r | r in s'.live && !FileTree.InInode(r.pos) ensures Above(r) in s'.live {
      if !(x.Link? && r == x.r) {
        assert r in s.live;
        assert Above(r) in s.live;
      }
    }
  }

  lemma StepKeepsInv(s: State, x: Step)
    requires Enabled(s, x) && Inv(s)
    ensures Inv(Next(s, x))
  {
    OwnerStep(s, x);
    BitmapStep(s, x);
    LockStep(s, x);
    FileStep(s, x);
  }

  // ---- Runs ----

  ghost predicate Run(run: seq<State>, steps: seq<Step>) {
    && |run| == |steps| + 1 && Inv(run[0])
    && forall i: nat {:trigger steps[i]} :: i < |steps| ==>
         Enabled(run[i], steps[i]) && run[i + 1] == Next(run[i], steps[i])
  }

  /** However the tasks interleave, no block is in two files or twice in one, and the bitmap marks
      exactly what is owned. */
  lemma {:induction false} RunInv(run: seq<State>, steps: seq<Step>, i: nat)
    requires Run(run, steps) && i <= |steps|
    ensures Inv(run[i]) && run[i].meta == run[0].meta
  {
    if i > 0 {
      RunInv(run, steps, i - 1);
      var s, x := run[i - 1], steps[i - 1];
      StepKeepsInv(s, x);
    }
  }

  /** `bfree` never finds its block free; `balloc` never hands out a block that a file or a task has. */
  lemma BitmapAsserts(run: seq<State>, steps: seq<Step>, i: nat)
    requires Run(run, steps) && i < |steps|
    ensures steps[i].Free? ==> steps[i].b in run[i].used
    ensures steps[i].Claim? ==> !Held(run[i], steps[i].b)
  {
    RunInv(run, steps, i);
    if steps[i].Free? {
      assert InHand(run[i], steps[i].o, steps[i].b);
    }
  }

  // ---- Isolation ----

  function Value(s: State, b: nat): (v: int) { if b in s.data then s.data[b] else 0 }

  /** What file `g` names and holds. */
  function View(s: State, g: nat): (v: map<Place, (nat, int)>) {
    map r | r in s.live && r.file == g :: (s.live[r], Value(s, s.live[r]))
  }

  lemma SameNames(s: State, x: Step, g: nat)
    requires Enabled(s, x) && FilesOk(s) && !Holds(s, x.o, g)
    ensures forall r: Place :: r.file == g ==> (r in Next(s, x).live <==> r in s.live)
    ensures forall r :: r in s.live && r.file == g ==> Next(s, x).live[r] == s.live[r]
  {
  }

  lemma SameData(s: State, x: Step, r: Place)
    requires Enabled(s, x) && OneOwner(s) && r in s.live && !Holds(s, x.o, r.file)
    ensures Value(Next(s, x), s.live[r]) == Value(s, s.live[r])
  {
    assert InFile(s, r, s.live[r]);
    if x.Fill? {
      assert InHand(s, x.o, x.b);
    } else if x.Store? {
      assert InFile(s, x.r, s.live[x.r]);
    }
  }

  /** A step changes only files that its task has locked. */
  lemma StepIsolated(s: State, x: Step, g: nat)
    requires Enabled(s, x) && Inv(s) && !Holds(s, x.o, g)
    ensures View(Next(s, x), g) == View(s, g)
  {
    SameNames(s, x, g);
    forall r | r in s.live && r.file == g ensures Value(Next(s, x), s.live[r]) == Value(s, s.live[r]) {
      SameData(s, x, r);
    }
  }

  /** From `i` to `j` file `g` stays as it is unless a task steps that has it locked: a task with the
      lock is alone with the file, and a file nobody has locked does not change. */
  lemma {:induction false} Isolated(run: seq<State>, steps: seq<Step>, i: nat, j: nat, g: nat)
    requires Run(run, steps) && i <= j <= |steps|
    requires forall k: nat {:trigger steps[k]} :: i <= k < j ==> !Holds(run[k], steps[k].o, g)
    ensures View(run[j], g) == View(run[i], g)
    decreases j
  {
    if i < j {
      Isolated(run, steps, i, j - 1, g);
      RunInv(run, steps, j - 1);
      var x := steps[j - 1];
      StepIsolated(run[j - 1], x, g);
    }
  }

  // ---- Quiet states and the tree on disk ----

  ghost predicate Quiet(s: State) { forall o :: o in s.tasks ==> s.tasks[o] == Task({}, {}) }

  /** Tree `t` has the numbers in its slots, and the bitmap, that `s` has. */
  ghost predicate Shows(c: FileTree.Ctx, t: FileTree.Tree, s: State) {
    && (forall f: nat, p: Pos {:trigger FileTree.At(c, t, f, p)} ::
          FileTree.At(c, t, f, p) == if Place(f, p) in s.raw then s.raw[Place(f, p)] else 0)
    && (forall r :: r in s.raw ==> s.raw[r] != 0)
    && (forall b: nat {:trigger FileTree.Used(c, t.blocks, b)} :: FileTree.Used(c, t.blocks, b) <==> b in s.used)
  }

  /** A well-formed tree is a start: the used blocks that no file names are `meta`. */
  lemma OwnStarts(c: FileTree.Ctx, t: FileTree.Tree, s: State)
    requires FileTree.Own(c, t) && Shows(c, t, s) && s.tasks == map[] && s.live == s.raw
    requires s.meta == s.used - Values(s.raw, s.raw.Keys)
    ensures Inv(s)
  {
    assert forall r: Place {:trigger FileTree.At(c, t, r.file, r.pos)} :: r == Place(r.file, r.pos);
    forall r | r in s.live
      ensures s.live[r] == FileTree.At(c, t, r.file, r.pos) != 0 && s.live[r] in s.used && r.pos.Valid()
      ensures !FileTree.InInode(r.pos) ==> Above(r) in s.live
    {
      NamedAbove(c, t, r.file, r.pos);
    }
    forall b | b in s.used ensures Held(s, b) {
      if b !in s.meta {
        var r :| r in s.raw && s.raw[r] == b;
        assert InFile(s, r, b);
      }
    }
  }

  /** A slot that names a block is there, and so is the one above it. */
  lemma NamedAbove(c: FileTree.Ctx, t: FileTree.Tree, f: nat, p: Pos)
    requires FileTree.At(c, t, f, p) != 0
    ensures p.Valid() && (!FileTree.InInode(p) ==> FileTree.At(c, t, f, FileTree.Parent(p)) != 0)
  {
  }

  /** Whenever all tasks have let go, no block is named twice, and the marked blocks are those that
      files name and those outside all files at the start: none is lost. */
  lemma QuietOwns(run: seq<State>, steps: seq<Step>, i: nat, c: FileTree.Ctx, t: FileTree.Tree)
    requires Run(run, steps) && i <= |steps| && Quiet(run[i]) && Shows(c, t, run[i])
    ensures FileTree.RefsDistinct(c, t)
    ensures forall b: nat {:trigger FileTree.Used(c, t.blocks, b)} ::
              FileTree.Used(c, t.blocks, b) <==> b in run[0].meta || Named(c, t, b)
  {
    RunInv(run, steps, i);
    QuietTree(run[i], c, t);
  }

  ghost predicate Named(c: FileTree.Ctx, t: FileTree.Tree, b: nat) {
    exists f: nat, p: Pos :: FileTree.At(c, t, f, p) == b != 0
  }

  lemma QuietTree(s: State, c: FileTree.Ctx, t: FileTree.Tree)
    requires Inv(s) && Quiet(s) && Shows(c, t, s)
    ensures FileTree.RefsDistinct(c, t)
    ensures forall b: nat {:trigger FileTree.Used(c, t.blocks, b)} ::
              FileTree.Used(c, t.blocks, b) <==> b in s.meta || Named(c, t, b)
  {
    forall f: nat, p: Pos | FileTree.At(c, t, f, p) != 0
      ensures InFile(s, Place(f, p), FileTree.At(c, t, f, p))
    {
      assert Place(f, p) in s.raw;
      assert forall o :: !Holds(s, o, f);
    }
    forall b: nat | b in s.used && b !in s.meta ensures Named(c, t, b) {
      assert Held(s, b) && forall o :: !InHand(s, o, b);
      var r :| InFile(s, r, b);
      assert FileTree.At(c, t, r.file, r.pos) == b && r == Place(r.file, r.pos);
    }
  }
}
