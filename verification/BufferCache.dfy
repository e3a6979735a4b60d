/** The buffer cache (`bio.rs`) as a state machine over its lock sections, and the
    plain block map `view` it must look like: `view[b]` is the latest content of
    block `b`, whether it sits in a buffer or on disk. */
module BufferCache {
  import opened Collections
  import opened Layout

  const BLOCK_INVALID: nat := U32 - 1

  /** Who holds an `Arc` to a buffer besides the cache: a task, the log's
      `pinned` list, or the committing (or recovering) task of the log. */
  datatype Owner = Task(id: nat) | Pin | Committer

  /** `arrived` says that the device has already copied the block into `data`. */
  datatype Buf = Buf(block: nat, data: Sector, valid: bool, loading: bool, arrived: bool,
                     holders: multiset<Owner>, lastUsed: nat)

  datatype Bio = Bio(disk: seq<Sector>, bufs: seq<Buf>)

  function EmptyBuf(): (b: Buf) {
    Buf(BLOCK_INVALID, Sector(ZeroBlock()), false, false, false, multiset{}, 0)
  }

  function Boot(disk: seq<Sector>, nbuf: nat): (s: Bio) {
    Bio(disk, seq(nbuf, _ => EmptyBuf()))
  }

  predicate Live(u: Buf) { u.valid || u.loading }

  predicate HitsAt(bufs: seq<Buf>, b: nat, i: nat) {
    i < |bufs| && bufs[i].block == b && bufs[i].valid
  }

  predicate LoadsAt(bufs: seq<Buf>, b: nat, i: nat) {
    i < |bufs| && bufs[i].block == b && bufs[i].loading
  }

  predicate Cold(u: Buf) { !u.valid && !u.loading }

  predicate Idle(u: Buf) { !u.loading && u.holders == multiset{} }

  /** What `pick_evict_slot` may return: the first cold slot, else the least
      recently used idle one. */
  predicate EvictChoice(bufs: seq<Buf>, i: nat) {
    && i < |bufs|
    && if exists j :: 0 <= j < |bufs| && Cold(bufs[j]) then
         Cold(bufs[i]) && forall j :: 0 <= j < i ==> !Cold(bufs[j])
       else
         && Idle(bufs[i])
         && (forall j :: 0 <= j < |bufs| && Idle(bufs[j]) ==> bufs[i].lastUsed <= bufs[j].lastUsed)
         && (forall j :: 0 <= j < i && Idle(bufs[j]) ==> bufs[i].lastUsed < bufs[j].lastUsed)
  }

  method PickEvictSlot(bufs: seq<Buf>) returns (r: Option<nat>)
    ensures r.Some? ==> EvictChoice(bufs, r.value)
    ensures r.None? ==> forall j :: 0 <= j < |bufs| ==> !Cold(bufs[j]) && !Idle(bufs[j])
  {
    for i := 0 to |bufs|
      invariant forall j :: 0 <= j < i ==> !Cold(bufs[j])
    {
      if !bufs[i].valid && !bufs[i].loading {
        return Some(i);
      }
    }
    var best: Option<nat> := None;
    for i := 0 to |bufs|
      invariant best.None? ==> forall j :: 0 <= j < i ==> !Idle(bufs[j])
      invariant best.Some? ==>
                  && best.value < i && Idle(bufs[best.value])
                  && (forall j :: 0 <= j < i && Idle(bufs[j]) ==> bufs[best.value].lastUsed <= bufs[j].lastUsed)
                  && (forall j :: 0 <= j < best.value && Idle(bufs[j]) ==> bufs[best.value].lastUsed < bufs[j].lastUsed)
    {
      if bufs[i].loading {
        continue;
      }
      if bufs[i].holders != multiset{} {
        continue;
      }
      if best.None? || bufs[i].lastUsed < bufs[best.value].lastUsed {
        best := Some(i);
      }
    }
    return best;
  }

  /** The steps other tasks take on the cache: the three outcomes of `bread`'s
      lock section, the device's transfer, the loader's completion, a drop. */
  datatype Act =
    | Hit(b: nat, i: nat, o: Owner, now: nat)
    | Wait(b: nat, i: nat, o: Owner)
    | Claim(b: nat, i: nat, o: Owner, now: nat)
    | Arrive(i: nat)
    | Loaded(i: nat)
    | Release(i: nat, t: nat)

  ghost predicate Enabled(s: Bio, a: Act) {
    match a
    case Hit(b, i, o, _) => o != Pin && HitsAt(s.bufs, b, i)
    case Wait(b, i, o) => o != Pin && LoadsAt(s.bufs, b, i) && forall j :: !HitsAt(s.bufs, b, j)
    case Claim(b, i, o, _) =>
      && o != Pin && b < |s.disk|
      && (forall j :: !HitsAt(s.bufs, b, j)) && (forall j :: !LoadsAt(s.bufs, b, j))
      && EvictChoice(s.bufs, i)
    case Arrive(i) => i < |s.bufs| && s.bufs[i].loading && s.bufs[i].block < |s.disk|
    case Loaded(i) => i < |s.bufs| && s.bufs[i].loading && s.bufs[i].arrived
    case Release(i, t) => i < |s.bufs| && s.bufs[i].valid && Task(t) in s.bufs[i].holders
  }

  ghost function After(s: Bio, a: Act): (s': Bio)
    requires Enabled(s, a)
  {
    var i := a.i;
    var u := s.bufs[i];
    var u' := match a
      case Hit(_, _, o, now) => u.(holders := u.holders + multiset{o}, lastUsed := now)
      case Wait(_, _, o) => u.(holders := u.holders + multiset{o})
      case Claim(b, _, o, now) =>
        u.(valid := false, block := b, loading := true, arrived := false,
           holders := u.holders + multiset{o}, lastUsed := now)
      case Arrive(_) => u.(data := s.disk[u.block], arrived := true)
      case Loaded(_) => u.(valid := true, loading := false)
      case Release(_, t) => u.(holders := u.holders - multiset{Task(t)});
    s.(bufs := s.bufs[i := u'])
  }

  /** A slot the log relies on: valid for `b` and held by the log. */
  predicate Kept(s: Bio, i: nat, b: nat) {
    && HitsAt(s.bufs, b, i)
    && (Pin in s.bufs[i].holders || Committer in s.bufs[i].holders)
  }

  predicate Dirty(s: Bio, view: seq<Sector>, b: nat) {
    b < |s.disk| == |view| && s.disk[b] != view[b]
  }

  /** One buffer, seen alone: its data is the latest content of its block. */
  predicate BufOk(u: Buf, view: seq<Sector>) {
    && (Live(u) ==> u.block < |view|)
    && (u.valid ==> !u.loading && u.data == view[u.block])
    && (u.loading && u.arrived ==> u.data == view[u.block])
    && (Cold(u) ==> u.holders == multiset{})
    && (u.loading ==> u.holders != multiset{})
  }

  predicate Unique(bufs: seq<Buf>) {
    forall i, j :: 0 <= i < j < |bufs| && Live(bufs[i]) && Live(bufs[j]) ==> bufs[i].block != bufs[j].block
  }

  /** The cache looks like the plain map `view`; only blocks the log keeps may
      differ from the disk. */
  ghost predicate Inv(s: Bio, view: seq<Sector>) {
    && |view| == |s.disk|
    && (forall i :: 0 <= i < |s.bufs| ==> BufOk(s.bufs[i], view))
    && Unique(s.bufs)
    && (forall b :: Dirty(s, view, b) ==> exists i :: Kept(s, i, b))
  }

  lemma BootInv(disk: seq<Sector>, nbuf: nat)
    ensures Inv(Boot(disk, nbuf), disk)
  {
  }

  /** What an action of another task cannot touch. */
  predicate SameKept(s: Bio, s': Bio) {
    && s'.disk == s.disk && |s'.bufs| == |s.bufs|
    && (forall i :: 0 <= i < |s.bufs| ==> s'.bufs[i].holders[Pin] == s.bufs[i].holders[Pin])
    && (forall i :: 0 <= i < |s.bufs| && s.bufs[i].valid && s.bufs[i].holders != multiset{} ==>
          && s'.bufs[i].valid && s'.bufs[i].block == s.bufs[i].block && s'.bufs[i].data == s.bufs[i].data
          && s'.bufs[i].holders[Committer] >= s.bufs[i].holders[Committer])
  }

  /** A block that is being loaded, or stands in an unheld buffer, is clean. */
  lemma UnkeptIsClean(s: Bio, view: seq<Sector>, i: nat)
    requires Inv(s, view) && i < |s.bufs| && Live(s.bufs[i])
    requires s.bufs[i].loading || s.bufs[i].holders == multiset{}
    ensures s.disk[s.bufs[i].block] == view[s.bufs[i].block]
  {
    assert forall j :: !Kept(s, j, s.bufs[i].block);
    assert !Dirty(s, view, s.bufs[i].block);
  }

  lemma ActKeepsUnique(s: Bio, view: seq<Sector>, a: Act)
    requires |s.disk| == |view| && Unique(s.bufs) && Enabled(s, a)
    ensures Unique(After(s, a).bufs)
  {
    if a.Claim? {
      assert forall j :: 0 <= j < |s.bufs| && Live(s.bufs[j]) && s.bufs[j].block == a.b ==>
          HitsAt(s.bufs, a.b, j) || LoadsAt(s.bufs, a.b, j);
    }
  }

  lemma ActKeepsHeld(s: Bio, view: seq<Sector>, a: Act)
    requires Inv(s, view) && Enabled(s, a)
    ensures SameKept(s, After(s, a))
  {
  }

  /** Cache transparency and framing, for every action of any task in any state. */
  lemma ActKeepsView(s: Bio, view: seq<Sector>, a: Act)
    requires Inv(s, view) && Enabled(s, a)
    ensures Inv(After(s, a), view)
    ensures SameKept(s, After(s, a))
  {
    var s' := After(s, a);
    ActKeepsUnique(s, view, a);
    ActKeepsHeld(s, view, a);
    if a.Arrive? {
      UnkeptIsClean(s, view, a.i);
    }
    assert BufOk(s'.bufs[a.i], view);
    forall b | Dirty(s', view, b)
      ensures exists j :: Kept(s', j, b)
    {
      assert Dirty(s, view, b);
      var j :| Kept(s, j, b);
      assert Kept(s', j, b);
    }
  }

  /** `bread` hands out the latest content: on a hit at once, after a load when the
      loader finishes. */
  lemma BreadReturnsLatest(s: Bio, view: seq<Sector>, a: Act)
    requires Inv(s, view) && Enabled(s, a) && (a.Hit? || a.Loaded?)
    ensures var u := After(s, a).bufs[a.i]; u.valid && u.block < |view| && u.data == view[u.block]
    ensures a.Hit? ==> After(s, a).bufs[a.i].block == a.b
  {
    ActKeepsView(s, view, a);
  }

  /** Eviction loses nothing: the claimed slot is unheld, and the block it stood
      for is on disk with its latest content. */
  lemma EvictedIsClean(s: Bio, view: seq<Sector>, a: Act)
    requires Inv(s, view) && Enabled(s, a) && a.Claim?
    ensures s.bufs[a.i].holders == multiset{}
    ensures s.bufs[a.i].valid ==> s.disk[s.bufs[a.i].block] == view[s.bufs[a.i].block] == s.bufs[a.i].data
  {
    if s.bufs[a.i].valid {
      UnkeptIsClean(s, view, a.i);
    }
  }

  function EditBuf(s: Bio, i: nat, d: Sector, held: multiset<Owner>): (s': Bio)
    requires i < |s.bufs|
  {
    s.(bufs := s.bufs[i := s.bufs[i].(data := d, holders := held)])
  }

  /** `data_mut` on a buffer that the log keeps afterwards. */
  lemma EditKeepsInv(s: Bio, view: seq<Sector>, i: nat, d: Sector, held: multiset<Owner>)
    requires Inv(s, view) && i < |s.bufs| && s.bufs[i].valid
    requires Pin in held || Committer in held
    ensures Inv(EditBuf(s, i, d, held), view[s.bufs[i].block := d])
  {
    var b := s.bufs[i].block;
    var s', view' := EditBuf(s, i, d, held), view[b := d];
    forall j | 0 <= j < |s'.bufs|
      ensures BufOk(s'.bufs[j], view')
    {
      assert j != i && Live(s.bufs[j]) ==> s.bufs[j].block != b;
    }
    forall c | Dirty(s', view', c)
      ensures exists j :: Kept(s', j, c)
    {
      if c == b {
        assert Kept(s', i, c);
      } else {
        assert Dirty(s, view, c);
        var j :| Kept(s, j, c);
        assert Kept(s', j, c);
      }
    }
  }

  /** `bwrite`: the device writes the buffer to its block. */
  function WriteBuf(s: Bio, i: nat): (s': Bio)
    requires i < |s.bufs| && s.bufs[i].block < |s.disk|
  {
    s.(disk := s.disk[s.bufs[i].block := s.bufs[i].data])
  }

  lemma WriteKeepsInv(s: Bio, view: seq<Sector>, i: nat)
    requires Inv(s, view) && i < |s.bufs| && s.bufs[i].valid
    ensures Inv(WriteBuf(s, i), view)
  {
    var s' := WriteBuf(s, i);
    forall c | Dirty(s', view, c)
      ensures exists j :: Kept(s', j, c)
    {
      assert Dirty(s, view, c);
      var j :| Kept(s, j, c);
      assert Kept(s', j, c);
    }
  }

  function Drop(s: Bio, i: nat, o: Owner): (s': Bio)
    requires i < |s.bufs|
  {
    s.(bufs := s.bufs[i := s.bufs[i].(holders := s.bufs[i].holders - multiset{o})])
  }

  lemma DropKeepsInv(s: Bio, view: seq<Sector>, i: nat, o: Owner)
    requires Inv(s, view) && i < |s.bufs| && s.bufs[i].valid
    requires s.disk[s.bufs[i].block] == s.bufs[i].data
    ensures Inv(Drop(s, i, o), view)
  {
    var s' := Drop(s, i, o);
    forall c | Dirty(s', view, c)
      ensures exists j :: Kept(s', j, c)
    {
      assert Dirty(s, view, c);
      var j :| Kept(s, j, c);
      assert j != i;
      assert Kept(s', j, c);
    }
  }
}
