/** Which buffer goes: the cache gives up the least recently used, over every run with the log. */
module CacheOrder {
  import opened Collections
  import opened Layout
  import opened BufferCache
  import opened WriteAheadLog

  /** When slot `i` was last used in the first `n` steps: the clock at the last hit or load, 0 at boot. */
  function LastUse(xs: seq<Step>, n: nat, i: nat): (t: nat)
    requires n <= |xs|
  {
    if n == 0 then 0
    else
      match xs[n - 1]
      case Crash => 0
      case Env(Hit(_, j, _, now)) => if j == i then now else LastUse(xs, n - 1, i)
      case Env(Claim(_, j, _, now)) => if j == i then now else LastUse(xs, n - 1, i)
      case _ => LastUse(xs, n - 1, i)
  }

  /** No slot was used in between. */
  predicate AsUsed(a: seq<Buf>, b: seq<Buf>) {
    var same := |a| == |b| && forall i :: 0 <= i < |a| ==> a[i].lastUsed == b[i].lastUsed;
    same
  }

  lemma EditUse(w: World, j: nat, d: Sector)
    requires j < |w.bio.bufs| && w.bio.bufs[j].block < |w.view|
    ensures AsUsed(w.bio.bufs, Edited(w, j, d).bio.bufs)
  {
  }

  lemma FlushUse(w: World, j: nat)
    requires j < |w.bio.bufs| && w.bio.bufs[j].block < |w.bio.disk|
    ensures AsUsed(w.bio.bufs, Flushed(w, j).bio.bufs)
  {
  }

  lemma DropUse(s: Bio, j: nat, o: Owner)
    requires j < |s.bufs|
    ensures AsUsed(s.bufs, BufferCache.Drop(s, j, o).bufs)
  {
  }

  lemma UnpinUse(bufs: seq<Buf>, pinned: seq<nat>)
    ensures AsUsed(bufs, UnpinAll(bufs, pinned))
  {
  }

  lemma CopyHomeUse(w: World, j: nat, l: nat)
    requires InRange(w, j) && InRange(w, l)
    ensures AsUsed(w.bio.bufs, BufferCache.Drop(Edited(w, j, w.bio.bufs[l].data).bio, l, Committer).bufs)
  {
    EditUse(w, j, w.bio.bufs[l].data);
    DropUse(Edited(w, j, w.bio.bufs[l].data).bio, l, Committer);
  }

  lemma LogStepUse(w: World, x: Step)
    requires Pre(w, x) && x.Log?
    ensures AsUsed(w.bio.bufs, LogStep(w, x.j, x.l).bio.bufs)
  {
    match w.pc {
      case CopySlot(i) => EditUse(w, x.j, w.bio.bufs[w.pinned[i]].data);
      case FlushSlot(_, m) => FlushUse(w, m);
      case CopyHead => EditUse(w, x.j, w.codec.enc(w.lh));
      case FlushHead(m) => FlushUse(w, m);
      case CopyClear => EditUse(w, x.j, w.codec.enc([]));
      case FlushClear(m) => FlushUse(w, m);
      case Unpin => UnpinUse(w.bio.bufs, w.pinned);
      case ReadHead => DropUse(w.bio, x.j, Committer);
      case CopyHome(_, _) => CopyHomeUse(w, x.j, x.l);
      case InstallHome(_, _, m) => FlushUse(w, m);
      case CopyRecClear => EditUse(w, x.j, w.codec.enc([]));
      case FlushRecClear(m) => FlushUse(w, m);
      case _ =>
    }
  }

  lemma StepUse(w: World, x: Step)
    requires Pre(w, x) && !x.Env? && x != Crash
    ensures AsUsed(w.bio.bufs, Next(w, x).bio.bufs)
  {
    if x.Log? {
      LogStepUse(w, x);
    }
  }

  lemma ActUse(s: Bio, a: Act, i: nat)
    requires BufferCache.Enabled(s, a) && i < |s.bufs|
    ensures |After(s, a).bufs| == |s.bufs|
    ensures After(s, a).bufs[i].lastUsed == if (a.Hit? || a.Claim?) && a.i == i then a.now else s.bufs[i].lastUsed
  {
  }

  /** The cache knows when each of its slots was last used. */
  lemma {:induction false} UseRecorded(ws: seq<World>, xs: seq<Step>, n: nat, i: nat)
    requires Run(ws, xs) && n < |ws| && i < |ws[n].bio.bufs|
    ensures ws[n].bio.bufs[i].lastUsed == LastUse(xs, n, i)
  {
    if n > 0 {
      var w, x := ws[n - 1], xs[n - 1];
      assert Pre(w, x) && ws[n] == Next(w, x);
      if x.Env? {
        assert i < |w.bio.bufs|;
        UseRecorded(ws, xs, n - 1, i);
        ActUse(w.bio, x.a, i);
      } else if x != Crash {
        StepUse(w, x);
        UseRecorded(ws, xs, n - 1, i);
      }
    }
  }

  /** Over every run: a load into a slot that is not empty takes the least recently used of those nobody
      holds. */
  lemma EvictsLeastRecent(ws: seq<World>, xs: seq<Step>, n: nat, j: nat)
    requires Run(ws, xs) && n < |xs| && xs[n].Env? && xs[n].a.Claim? && xs[n].a.i < |ws[n].bio.bufs|
    requires !Cold(ws[n].bio.bufs[xs[n].a.i]) && j < |ws[n].bio.bufs| && Idle(ws[n].bio.bufs[j])
    ensures Idle(ws[n].bio.bufs[xs[n].a.i]) && LastUse(xs, n, xs[n].a.i) <= LastUse(xs, n, j)
  {
    var w, x := ws[n], xs[n];
    assert Pre(w, x) && EvictChoice(w.bio.bufs, x.a.i);
    UseRecorded(ws, xs, n, x.a.i);
    UseRecorded(ws, xs, n, j);
  }

  /** `bread` of any block finds it, waits for it, loads it or, only if every slot is taken, tries again:
      in every state exactly one of these, and which one. */
  lemma BreadDecides(s: Bio, b: nat, o: Owner, now: nat)
    requires o != Pin && b < |s.disk|
    ensures (exists i :: BufferCache.Enabled(s, Hit(b, i, o, now))) <==> exists i :: HitsAt(s.bufs, b, i)
    ensures (exists i :: BufferCache.Enabled(s, Wait(b, i, o))) <==>
            (exists i :: LoadsAt(s.bufs, b, i)) && !exists i :: HitsAt(s.bufs, b, i)
    ensures (exists i :: BufferCache.Enabled(s, Claim(b, i, o, now))) <==>
            && (!exists i :: HitsAt(s.bufs, b, i)) && (!exists i :: LoadsAt(s.bufs, b, i))
            && exists i :: 0 <= i < |s.bufs| && (Cold(s.bufs[i]) || Idle(s.bufs[i]))
  {
    if i :| HitsAt(s.bufs, b, i) {
      assert BufferCache.Enabled(s, Hit(b, i, o, now));
    } else if i :| LoadsAt(s.bufs, b, i) {
      assert BufferCache.Enabled(s, Wait(b, i, o));
    } else if i: int :| 0 <= i < |s.bufs| && (Cold(s.bufs[i]) || Idle(s.bufs[i])) {
      var k := SomeChoice(s.bufs, i);
      assert BufferCache.Enabled(s, Claim(b, k, o, now));
    }
  }

  lemma SomeChoice(bufs: seq<Buf>, i: nat) returns (k: nat)
    requires i < |bufs| && (Cold(bufs[i]) || Idle(bufs[i]))
    ensures EvictChoice(bufs, k)
  {
    if exists j :: 0 <= j < |bufs| && Cold(bufs[j]) {
      k := 0;
      while !Cold(bufs[k])
        invariant k < |bufs| && (forall j :: 0 <= j < k ==> !Cold(bufs[j])) && exists j ::
                    k <= j < |bufs| && Cold(bufs[j])
        decreases |bufs| - k
      {
        k := k + 1;
      }
    } else {
      k := i;
      var n := 0;
      while n < |bufs|
        invariant n <= |bufs| && k < |bufs| && Idle(bufs[k])
        invariant forall j :: 0 <= j < n && Idle(bufs[j]) ==> bufs[k].lastUsed <= bufs[j].lastUsed
        invariant forall j :: 0 <= j < n && j < k && Idle(bufs[j]) ==> bufs[k].lastUsed < bufs[j].lastUsed
        invariant k >= n ==> forall j :: 0 <= j < n && Idle(bufs[j]) ==> bufs[k].lastUsed < bufs[j].lastUsed
      {
        if Idle(bufs[n]) && (bufs[n].lastUsed < bufs[k].lastUsed || (bufs[n].lastUsed == bufs[k].lastUsed && n < k)) {
          k := n;
        }
        n := n + 1;
      }
    }
  }
}
