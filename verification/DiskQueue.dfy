/** The virtio-blk request queue (split virtqueue, section 2.6 of VIRTIO 1.1): eight descriptors,
    three per request, an available ring, a used ring with 16-bit indices that wrap, and the
    completion flags the interrupt handler sets. */
module DiskQueue {
  import opened Collections

  const NUM: nat := 8

  /** What a descriptor points at: a request header or a status byte of the driver, or memory. */
  datatype Addr = HeaderAt(i: nat) | StatusAt(i: nat) | Memory(a: nat)

  /** `hasNext`, `write`: the flag bits NEXT and WRITE (the device writes there). */
  datatype Desc = Desc(addr: Addr, len: nat, hasNext: bool, write: bool, next: nat)

  const ZERO := Desc(Memory(0), 0, false, false, 0)

  /** A request header; type 0 reads a sector, type 1 writes one. */
  datatype Header = Header(typ: nat, sector: nat)

  /** What a caller asks for. */
  datatype Request = Request(sector: nat, buf: nat, write: bool)

  // ---- Counting free descriptors ----

  function Count(s: seq<bool>): (n: nat)
    ensures n <= |s|
  {
    if s == [] then 0 else Count(s[..|s| - 1]) + if s[|s| - 1] then 1 else 0
  }

  lemma {:induction false} CountUpdate(s: seq<bool>, i: nat, b: bool)
    requires i < |s|
    ensures Count(s[i := b]) == Count(s) + (if b then 1 else 0) - (if s[i] then 1 else 0)
  {
    var t := s[i := b];
    if i == |s| - 1 {
      assert t[..|s| - 1] == s[..|s| - 1];
    } else {
      CountUpdate(s[..|s| - 1], i, b);
      assert t[..|s| - 1] == s[..|s| - 1][i := b];
    }
  }

  lemma {:induction false} CountNone(s: seq<bool>)
    requires forall i :: 0 <= i < |s| ==> !s[i]
    ensures Count(s) == 0
  {
    if s != [] { CountNone(s[..|s| - 1]); }
  }

  lemma {:induction false} CountAll(s: seq<bool>)
    requires forall i :: 0 <= i < |s| ==> s[i]
    ensures Count(s) == |s|
  {
    if s != [] { CountAll(s[..|s| - 1]); }
  }

  /** `s` with the flags at `idx` cleared. */
  function Without(s: seq<bool>, idx: seq<nat>): (t: seq<bool>) {
    seq(|s|, j requires 0 <= j < |s| => s[j] && j !in idx)
  }

  // ---- The descriptor allocator ----

  /** The inner loop: the first free descriptor, now taken; `NUM` if there is none. */
  method TakeFirst(free: array<bool>) returns (j: nat)
    requires free.Length == NUM
    modifies free
    ensures j <= NUM
    ensures j < NUM ==>
              old(free[j]) && free[..] == old(free[..])[j := false] && Count(free[..]) == Count(old(free[..])) - 1
    ensures j == NUM ==> free[..] == old(free[..]) && Count(free[..]) == 0
  {
    j := 0;
    while j < NUM
      invariant j <= NUM && free[..] == old(free[..])
      invariant forall k :: 0 <= k < j ==> !free[k]
    {
      if free[j] {
        CountUpdate(free[..], j, false);
        free[j] := false;
        return;
      }
      j := j + 1;
    }
    CountNone(free[..]);
  }

  /** Undo a partial allocation. */
  method GiveBack(free: array<bool>, idx: seq<nat>, ghost was: seq<bool>)
    requires free.Length == NUM && |was| == NUM && free[..] == Without(was, idx)
    requires Picked(was, idx)
    modifies free
    ensures free[..] == was
  {
    var k := 0;
    while k < |idx|
      invariant k <= |idx| && free[..] == Without(was, idx[k..])
    {
      assert idx[k..] == [idx[k]] + idx[k + 1..] && idx[k] !in idx[k + 1..];
      free[idx[k]] := true;
      k := k + 1;
    }
    assert idx[k..] == [];
  }

  predicate Picked(was: seq<bool>, idx: seq<nat>) {
    && (forall k :: 0 <= k < |idx| ==> idx[k] < |was| && was[idx[k]])
    && (forall k, m :: 0 <= k < m < |idx| ==> idx[k] != idx[m])
  }

  lemma PickOne(was: seq<bool>, idx: seq<nat>, j: nat)
    requires Picked(was, idx) && j < |was| && Without(was, idx)[j]
    ensures Picked(was, idx + [j])
    ensures Without(was, idx)[j := false] == Without(was, idx + [j])
  {
    var t := idx + [j];
    assert forall k :: k in t <==> k in idx || k == j;
  }

  /** Three free descriptors or none taken at all: fails exactly when fewer than three are free. */
  method AllocThree(free: array<bool>) returns (r: Option<seq<nat>>)
    requires free.Length == NUM
    modifies free
    ensures r.None? <==> Count(old(free[..])) < 3
    ensures r.None? ==> free[..] == old(free[..])
    ensures r.Some? ==>
      && |r.value| == 3 && Picked(old(free[..]), r.value)
      && free[..] == Without(old(free[..]), r.value)
      && Count(free[..]) == Count(old(free[..])) - 3
  {
    ghost var was := free[..];
    var idx: seq<nat> := [];
    var i := 0;
    assert Without(was, idx) == was;
    while i < 3
      invariant i == |idx| <= 3 && Picked(was, idx) && free[..] == Without(was, idx)
      invariant Count(free[..]) == Count(was) - i
    {
      var j := TakeFirst(free);
      if j == NUM {
        GiveBack(free, idx, was);
        return None;
      }
      PickOne(was, idx, j);
      idx := idx + [j];
      i := i + 1;
    }
    r := Some(idx);
  }

  // ---- Requests in flight ----

  /** The descriptors of a request after its head, which request it is, and what it asks for. */
  datatype Chain = Chain(data: nat, status: nat, id: nat, req: Request)

  /** How a device reads the chain at `h` (section 5.2.6 of VIRTIO 1.1): a readable header of 16 bytes,
      a buffer of one sector that is writable exactly for a read, a writable status byte; the request
      and the number of its status byte. */
  function Parse(descs: seq<Desc>, headers: seq<Header>, h: nat): (r: Option<(Request, nat)>) {
    if h >= |descs| || !descs[h].hasNext || descs[h].next >= |descs| then None
    else
      var head, data := descs[h], descs[descs[h].next];
      if !data.hasNext || data.next >= |descs| then None
      else
        var status := descs[data.next];
        if !head.addr.HeaderAt? || head.addr.i >= |headers| || head.len != 16 || head.write then None
        else if !data.addr.Memory? || data.len != 512 || !status.addr.StatusAt? || status.len != 1 then None
        else if !status.write || status.hasNext then None
        else
          var q := headers[head.addr.i];
          if (q.typ == 0 && data.write) || (q.typ == 1 && !data.write) then
            Some((Request(q.sector, data.addr.a, q.typ == 1), status.addr.i))
          else None
  }

  predicate Uses(chains: map<nat, Chain>, h: nat, d: nat) {
    h in chains && (d == h || d == chains[h].data || d == chains[h].status)
  }

  /** The chain of `h` is three linked descriptors of its own, none of them free, and they say what it
      asks for. */
  predicate ChainOk(chains: map<nat, Chain>, free: seq<bool>, descs: seq<Desc>, headers: seq<Header>, h: nat)
    requires |free| == NUM && |descs| == NUM && |headers| == NUM
  {
    h in chains ==>
      var c := chains[h];
      && h < NUM && c.data < NUM && c.status < NUM && h != c.data && h != c.status && c.data != c.status
      && !free[h] && !free[c.data] && !free[c.status]
      && descs[h].hasNext && descs[h].next == c.data
      && descs[c.data].hasNext && descs[c.data].next == c.status
      && !descs[c.status].hasNext
      && descs[h].addr == HeaderAt(h) && Parse(descs, headers, h) == Some((c.req, h))
  }

  ghost predicate InUse(chains: map<nat, Chain>, d: nat) { exists h :: Uses(chains, h, d) }

  ghost predicate OneUser(chains: map<nat, Chain>, d: nat) {
    forall g, h :: Uses(chains, g, d) && Uses(chains, h, d) ==> g == h
  }

  /** No descriptor belongs to two requests, and the ones in use are exactly those not free. */
  ghost predicate Disjoint(chains: map<nat, Chain>, free: seq<bool>)
    requires |free| == NUM
  {
    && (forall d: nat {:trigger OneUser(chains, d)} :: OneUser(chains, d))
    && (forall d: nat {:trigger InUse(chains, d)} :: d < NUM ==> (free[d] <==> !InUse(chains, d)))
    && Count(free) + 3 * |chains| == NUM
  }

  ghost predicate ChainsOk(chains: map<nat, Chain>, free: seq<bool>, descs: seq<Desc>, headers: seq<Header>)
    requires |free| == NUM && |descs| == NUM && |headers| == NUM
  {
    && (forall h {:trigger ChainOk(chains, free, descs, headers, h)} :: ChainOk(chains, free, descs, headers, h))
    && Disjoint(chains, free)
  }

  /** The free count is 8, 5 or 2. */
  lemma FreeCounts(chains: map<nat, Chain>, free: seq<bool>)
    requires |free| == NUM && Disjoint(chains, free)
    ensures Count(free) == 8 || Count(free) == 5 || Count(free) == 2
  {
  }

  lemma NotInUse(chains: map<nat, Chain>, free: seq<bool>, d: nat)
    requires |free| == NUM && Disjoint(chains, free) && d < NUM && free[d]
    ensures forall h :: !Uses(chains, h, d)
  {
    assert !InUse(chains, d);
  }

  /** A chain of three free descriptors joins the others. */
  lemma Joined(chains: map<nat, Chain>, free: seq<bool>, descs: seq<Desc>, headers: seq<Header>, idx: seq<nat>,
               id: nat, req: Request, free': seq<bool>, descs': seq<Desc>, headers': seq<Header>)
    requires |free| == NUM && |descs| == NUM && |headers| == NUM && ChainsOk(chains, free, descs, headers)
    requires |idx| == 3 && Picked(free, idx) && free' == Without(free, idx) && Count(free') == Count(free) - 3
    requires |descs'| == NUM && forall d :: 0 <= d < NUM && d !in idx ==> descs'[d] == descs[d]
    requires descs'[idx[0]].hasNext && descs'[idx[0]].next == idx[1]
    requires descs'[idx[1]].hasNext && descs'[idx[1]].next == idx[2] && !descs'[idx[2]].hasNext
    requires |headers'| == NUM && forall d :: 0 <= d < NUM && d != idx[0] ==> headers'[d] == headers[d]
    requires descs'[idx[0]].addr == HeaderAt(idx[0]) && Parse(descs', headers', idx[0]) == Some((req, idx[0]))
    ensures idx[0] !in chains
    ensures ChainsOk(chains[idx[0] := Chain(idx[1], idx[2], id, req)], free', descs', headers')
  {
    var a, b, c := idx[0], idx[1], idx[2];
    var more := chains[a := Chain(b, c, id, req)];
    assert idx == [a, b, c];
    NotInUse(chains, free, a);
    NotInUse(chains, free, b);
    NotInUse(chains, free, c);
    assert a in chains ==> Uses(chains, a, a);
    assert forall h, d :: Uses(more, h, d) <==> Uses(chains, h, d) || (h == a && (d == a || d == b || d == c));
    forall d: nat ensures OneUser(more, d) {
      assert OneUser(chains, d);
    }
    forall h ensures ChainOk(more, free', descs', headers', h) {
      assert ChainOk(chains, free, descs, headers, h);
      if h in chains {
        assert Uses(chains, h, h) && Uses(chains, h, chains[h].data) && Uses(chains, h, chains[h].status);
      }
    }
    forall d: nat | d < NUM ensures free'[d] <==> !InUse(more, d) {
      if d == a || d == b || d == c {
        assert Uses(more, a, d);
      } else if InUse(chains, d) {
        var h :| Uses(chains, h, d);
        assert Uses(more, h, d);
      }
    }
  }

  /** The three descriptors of a chain, and no others, are freed. */
  lemma Left(chains: map<nat, Chain>, free: seq<bool>, descs: seq<Desc>, headers: seq<Header>, h: nat,
             free': seq<bool>, descs': seq<Desc>)
    requires |free| == NUM && |descs| == NUM && |headers| == NUM && ChainsOk(chains, free, descs, headers) &&
               h in chains
    requires |free'| == NUM && |descs'| == NUM && Count(free') == Count(free) + 3
    requires forall d: nat :: d < NUM ==> free'[d] == (free[d] || Uses(chains, h, d))
    requires forall d: nat :: d < NUM && !Uses(chains, h, d) ==> descs'[d] == descs[d]
    ensures ChainsOk(chains - {h}, free', descs', headers)
  {
    var less := chains - {h};
    assert forall g, d :: Uses(less, g, d) <==> Uses(chains, g, d) && g != h;
    forall d: nat ensures OneUser(less, d) {
      assert OneUser(chains, d);
    }
    forall g ensures ChainOk(less, free', descs', headers, g) {
      assert ChainOk(chains, free, descs, headers, g);
      if g in less {
        assert OneUser(chains, g) && OneUser(chains, chains[g].data) && OneUser(chains, chains[g].status);
        assert Uses(chains, g, g) && Uses(chains, g, chains[g].data) && Uses(chains, g, chains[g].status);
      }
    }
    forall d: nat | d < NUM ensures free'[d] <==> !InUse(less, d) {
      assert OneUser(chains, d);
      if InUse(chains, d) {
        var g :| Uses(chains, g, d);
        if g != h { assert Uses(less, g, d); }
      }
    }
    assert |less| == |chains| - 1;
  }

  /** The loop of `free_chain`: follows the NEXT flags from the head, frees exactly the three
      descriptors of the chain, and stops. */
  method FreeChain(free: array<bool>, descs: array<Desc>, head: nat, ghost chains: map<nat, Chain>,
                   ghost headers: seq<Header>)
    requires free.Length == NUM && descs.Length == NUM && |headers| == NUM
    requires head in chains && ChainsOk(chains, free[..], descs[..], headers)
    modifies free, descs
    ensures ChainsOk(chains - {head}, free[..], descs[..], headers)
    ensures Count(free[..]) == Count(old(free[..])) + 3
    ensures forall d: nat :: d < NUM ==> free[d] == (old(free[d]) || Uses(chains, head, d))
  {
    assert ChainOk(chains, free[..], descs[..], headers, head);
    ghost var nodes := [head, chains[head].data, chains[head].status];
    ghost var n := 0;
    var i, more := head, true;
    while more
      invariant more ==> n < 3 && i == nodes[n]
      invariant !more ==> n == 3
      invariant n <= 3 && i < NUM && Count(free[..]) == Count(old(free[..])) + n
      invariant forall d: nat :: d < NUM ==> free[d] == (old(free[d]) || d in nodes[..n])
      invariant forall d: nat :: d < NUM && d !in nodes[..n] ==> descs[d] == old(descs[d])
      decreases 3 - n
    {
      var d := descs[i];
      descs[i] := ZERO;
      CountUpdate(free[..], i, true);
      ghost var was := free[..];
      free[i] := true;
      assert free[..] == was[i := true];
      assert nodes[..n + 1] == nodes[..n] + [i];
      n := n + 1;
      if d.hasNext {
        i := d.next;
      } else {
        more := false;
      }
    }
    assert nodes[..3] == nodes;
    Left(chains, old(free[..]), old(descs[..]), headers, head, free[..], descs[..]);
  }

  // ---- Rings ----

  /** The last entries written to the ring, up to entry number `total`, are `waiting`. */
  ghost predicate RingHolds(ring: seq<nat>, total: nat, waiting: seq<nat>) {
    && |ring| == NUM && |waiting| <= total
    && forall k: nat {:trigger RingAt(ring, total, waiting, k)} :: RingAt(ring, total, waiting, k)
  }

  predicate RingAt(ring: seq<nat>, total: nat, waiting: seq<nat>, k: nat)
    requires |ring| == NUM && |waiting| <= total
  {
    k < |waiting| ==> ring[(total - |waiting| + k) % 8] == waiting[k]
  }

  lemma RingAppend(ring: seq<nat>, total: nat, waiting: seq<nat>, h: nat)
    requires RingHolds(ring, total, waiting) && |waiting| < NUM
    ensures RingHolds(ring[total % 8 := h], total + 1, waiting + [h])
  {
    var w, ring', total' := waiting + [h], ring[total % 8 := h], total + 1;
    forall k: nat ensures RingAt(ring', total', w, k) {
      if k < |waiting| {
        assert RingAt(ring, total, waiting, k);
        assert total + 1 - |w| + k == total - |waiting| + k;
        assert (total - |waiting| + k) % 8 != total % 8;
      } else if k == |waiting| {
        assert total + 1 - |w| + k == total;
      }
    }
  }

  lemma RingTake(ring: seq<nat>, total: nat, waiting: seq<nat>)
    requires RingHolds(ring, total, waiting) && waiting != []
    ensures ring[(total - |waiting|) % 8] == waiting[0] && RingHolds(ring, total, waiting[1..])
  {
    assert RingAt(ring, total, waiting, 0) && total - |waiting| + 0 == total - |waiting|;
    forall k: nat ensures RingAt(ring, total, waiting[1..], k) {
      assert RingAt(ring, total, waiting, k + 1);
      assert total - (|waiting| - 1) + k == total - |waiting| + (k + 1);
    }
  }

  /** 16-bit indices tell an empty ring from a non-empty one as long as it never holds 65536. */
  lemma WrapAround(total: nat, n: nat)
    requires n <= total && n <= 8
    ensures total % 0x1_0000 % 8 == total % 8
    ensures (total % 0x1_0000 + 1) % 0x1_0000 == (total + 1) % 0x1_0000
    ensures (total - n) % 0x1_0000 == total % 0x1_0000 <==> n == 0
  {
  }

  /** Where the request of head `h` stands: queued for the device, taken by it, answered, seen by
      the interrupt handler. */
  predicate HeadOk(chains: map<nat, Chain>, queued: seq<nat>, pending: seq<nat>, completed: seq<bool>,
                   finished: map<nat, nat>, nextId: nat, h: nat)
    requires |completed| == NUM
  {
    && (h in queued || h in pending ==> h in chains)
    && (h in chains ==>
          && h < NUM && chains[h].id < nextId
          && (completed[h] ==> chains[h].id in finished && h !in pending)
          && (h in pending ==> chains[h].id in finished)
          && (chains[h].id in finished ==> completed[h] || h in pending)
          && (h in queued ==> chains[h].id !in finished))
  }

  ghost predicate HeadsOk(chains: map<nat, Chain>, queued: seq<nat>, pending: seq<nat>, completed: seq<bool>,
                          finished: map<nat, nat>, nextId: nat)
    requires |completed| == NUM
  {
    && Distinct(queued) && Distinct(pending)
    && (forall h {:trigger HeadOk(chains, queued, pending, completed, finished, nextId, h)} ::
          HeadOk(chains, queued, pending, completed, finished, nextId, h))
    && (forall g, h :: g in chains && h in chains && chains[g].id == chains[h].id ==> g == h)
    && (forall id :: id in finished ==> id < nextId)
  }

  /** Distinct heads of requests are at most two. */
  lemma AtMostTwo(chains: map<nat, Chain>, free: seq<bool>, s: seq<nat>)
    requires |free| == NUM && Disjoint(chains, free) && Distinct(s) && forall h :: h in s ==> h in chains
    ensures |s| <= 2
  {
    Cardinal(s);
    SubsetSize(Elems(s), chains.Keys);
    assert |chains.Keys| == |chains|;
  }

  function Elems(s: seq<nat>): (e: set<nat>) { set h | h in s }

  lemma {:induction false} Cardinal(s: seq<nat>)
    requires Distinct(s)
    ensures |Elems(s)| == |s|
  {
    if s != [] {
      var t, last := s[..|s| - 1], s[|s| - 1];
      Cardinal(t);
      assert s == t + [last] && last !in t;
      assert Elems(s) == Elems(t) + {last};
    }
  }

  lemma SubmitHeads(chains: map<nat, Chain>, queued: seq<nat>, pending: seq<nat>, completed: seq<bool>,
                    finished: map<nat, nat>, nextId: nat, a: nat, b: nat, c: nat, req: Request)
    requires |completed| == NUM && HeadsOk(chains, queued, pending, completed, finished, nextId) && a < NUM &&
               a !in chains
    ensures HeadsOk(chains[a := Chain(b, c, nextId, req)], queued + [a], pending, completed[a := false], finished,
                    nextId + 1)
  {
    var chains', queued', completed', next' :=
        chains[a := Chain(b, c, nextId, req)], queued + [a], completed[a := false], nextId + 1;
    assert HeadOk(chains, queued, pending, completed, finished, nextId, a);
    forall h ensures HeadOk(chains', queued', pending, completed', finished, next', h) {
      assert HeadOk(chains, queued, pending, completed, finished, nextId, h);
    }
    forall g, h | g in chains' && h in chains' && chains'[g].id == chains'[h].id ensures g == h {
      assert HeadOk(chains, queued, pending, completed, finished, nextId, g);
      assert HeadOk(chains, queued, pending, completed, finished, nextId, h);
    }
  }

  lemma TakeHeads(chains: map<nat, Chain>, queued: seq<nat>, pending: seq<nat>, completed: seq<bool>,
                  finished: map<nat, nat>, nextId: nat)
    requires |completed| == NUM && HeadsOk(chains, queued, pending, completed, finished, nextId) && queued != []
    ensures HeadsOk(chains, queued[1..], pending, completed, finished, nextId)
  {
    forall h ensures HeadOk(chains, queued[1..], pending, completed, finished, nextId, h) {
      assert HeadOk(chains, queued, pending, completed, finished, nextId, h);
    }
  }

  lemma AnswerHeads(chains: map<nat, Chain>, queued: seq<nat>, pending: seq<nat>, completed: seq<bool>,
                    finished: map<nat, nat>, nextId: nat, a: nat, status: nat)
    requires |completed| == NUM && HeadsOk(chains, queued, pending, completed, finished, nextId)
    requires a in chains && a !in queued && chains[a].id !in finished
    ensures HeadsOk(chains, queued, pending + [a], completed, finished[chains[a].id := status], nextId)
  {
    assert HeadOk(chains, queued, pending, completed, finished, nextId, a);
    var pending', finished' := pending + [a], finished[chains[a].id := status];
    forall h ensures HeadOk(chains, queued, pending', completed, finished', nextId, h) {
      assert HeadOk(chains, queued, pending, completed, finished, nextId, h);
    }
  }

  lemma SeeHeads(chains: map<nat, Chain>, queued: seq<nat>, pending: seq<nat>, completed: seq<bool>,
                 finished: map<nat, nat>, nextId: nat)
    requires |completed| == NUM && HeadsOk(chains, queued, pending, completed, finished, nextId) && pending != []
    ensures pending[0] < NUM && HeadsOk(chains, queued, pending[1..], completed[pending[0] := true], finished, nextId)
  {
    var p := pending[0];
    assert HeadOk(chains, queued, pending, completed, finished, nextId, p);
    var pending', completed' := pending[1..], completed[p := true];
    forall h ensures HeadOk(chains, queued, pending', completed', finished, nextId, h) {
      assert HeadOk(chains, queued, pending, completed, finished, nextId, h);
    }
  }

  lemma RetireHeads(chains: map<nat, Chain>, queued: seq<nat>, pending: seq<nat>, completed: seq<bool>,
                    finished: map<nat, nat>, nextId: nat, a: nat)
    requires |completed| == NUM && HeadsOk(chains, queued, pending, completed, finished, nextId)
    requires a in chains && a < NUM && completed[a]
    ensures HeadsOk(chains - {a}, queued, pending, completed, finished, nextId)
  {
    assert HeadOk(chains, queued, pending, completed, finished, nextId, a);
    forall h ensures HeadOk(chains - {a}, queued, pending, completed, finished, nextId, h) {
      assert HeadOk(chains, queued, pending, completed, finished, nextId, h);
    }
  }

  /** Neither ring ever holds more than the two requests that fit. */
  lemma RingsShort(chains: map<nat, Chain>, free: seq<bool>, queued: seq<nat>, pending: seq<nat>,
                   completed: seq<bool>, finished: map<nat, nat>, nextId: nat)
    requires |free| == NUM && Disjoint(chains, free)
    requires |completed| == NUM && HeadsOk(chains, queued, pending, completed, finished, nextId)
    ensures |queued| <= 2 && |pending| <= 2
  {
    forall h | h in queued || h in pending ensures h in chains {
      assert HeadOk(chains, queued, pending, completed, finished, nextId, h);
    }
    AtMostTwo(chains, free, queued);
    AtMostTwo(chains, free, pending);
  }

  /** Every answer is in the status byte of its request. */
  ghost predicate StatusesOk(chains: map<nat, Chain>, statuses: seq<nat>, finished: map<nat, nat>)
    requires |statuses| == NUM
  {
    forall h :: h in chains && h < NUM && chains[h].id in finished ==> statuses[h] == finished[chains[h].id]
  }

  /** Request header, data buffer and status byte, linked. */
  method FillChain(descs: array<Desc>, headers: array<Header>, idx: seq<nat>, sector: nat, buf: nat, write: bool)
    requires descs.Length == NUM && headers.Length == NUM && |idx| == 3 && (forall k :: 0 <= k < 3 ==> idx[k] < NUM)
    requires idx[0] != idx[1] && idx[1] != idx[2] && idx[0] != idx[2]
    modifies descs, headers
    ensures forall d :: 0 <= d < NUM && d !in idx ==> descs[d] == old(descs[d])
    ensures forall d :: 0 <= d < NUM && d != idx[0] ==> headers[d] == old(headers[d])
    ensures descs[idx[0]].hasNext && descs[idx[0]].next == idx[1] && descs[idx[0]].addr == HeaderAt(idx[0])
    ensures descs[idx[1]].hasNext && descs[idx[1]].next == idx[2] && !descs[idx[2]].hasNext
    ensures Parse(descs[..], headers[..], idx[0]) == Some((Request(sector, buf, write), idx[0]))
  {
    headers[idx[0]] := Header(if write then 1 else 0, sector);
    descs[idx[0]] := Desc(HeaderAt(idx[0]), 16, true, false, idx[1]);
    descs[idx[1]] := Desc(Memory(buf), 512, true, !write, idx[2]);
    descs[idx[2]] := Desc(StatusAt(idx[0]), 1, false, true, 0);
  }

  // ---- The driver and the device ----

  /** The disk and memory after the device has done what a request asks for. */
  function Served(disk: map<nat, seq<nat>>, mem: map<nat, seq<nat>>, q: Request):
      (r: (map<nat, seq<nat>>, map<nat, seq<nat>>)) {
    if q.write then (if q.buf in mem then disk[q.sector := mem[q.buf]] else disk, mem)
    else (disk, if q.sector in disk then mem[q.buf := disk[q.sector]] else mem)
  }

  class Disk {
    const free: array<bool>
    const descs: array<Desc>
    const headers: array<Header>
    const statuses: array<nat>
    const completed: array<bool>
    const avail: array<nat>
    const used: array<nat>
    var availIdx: nat
    var usedIdx: nat
    var seen: nat
    ghost var chains: map<nat, Chain>
    ghost var queued: seq<nat>
    ghost var pending: seq<nat>
    /** The status each answered request got. */
    ghost var finished: map<nat, nat>
    ghost var nextId: nat
    ghost var availTotal: nat
    ghost var usedTotal: nat

    ghost predicate Valid()
      reads this, free, descs, headers, statuses, completed, avail, used
    {
      && Sizes() && RingsOk()
      && (var owned, heads :=
            ChainsOk(chains, free[..], descs[..], headers[..]),
            HeadsOk(chains, queued, pending, completed[..], finished, nextId);
          var answers := StatusesOk(chains, statuses[..], finished);
          owned && heads && answers)
    }

    constructor ()
      ensures Valid() && chains == map[] && fresh(free) && fresh(descs) && fresh(headers) && fresh(statuses)
      ensures fresh(completed) && fresh(avail) && fresh(used)
    {
      free := new bool[NUM](i => true);
      descs := new Desc[NUM](i => ZERO);
      headers := new Header[NUM](i => Header(0, 0));
      statuses := new nat[NUM](i => 0);
      completed := new bool[NUM](i => false);
      avail := new nat[NUM](i => 0);
      used := new nat[NUM](i => 0);
      availIdx, usedIdx, seen := 0, 0, 0;
      chains, queued, pending, finished, nextId, availTotal, usedTotal := map[], [], [], map[], 0, 0, 0;
      new;
      CountAll(free[..]);
      assert forall d: nat :: !InUse(chains, d);
    }

    /** Submit a request: three descriptors of its own that ask for what the caller wants, its flag
        cleared, its head last in the ring. */
    method Submit(sector: nat, buf: nat, write: bool) returns (r: Option<nat>)
      requires Valid()
      modifies this, free, descs, headers, statuses, completed, avail
      ensures Valid() && finished == old(finished) && pending == old(pending)
      ensures r.None? <==> Count(old(free[..])) < 3
      ensures r.None? ==> chains == old(chains) && free[..] == old(free[..]) && queued == old(queued)
      ensures r.Some? ==>
                r.value !in old(chains) && r.value in chains && chains == old(chains)[r.value := chains[r.value]]
      ensures r.Some? ==> chains[r.value].id == old(nextId) && old(nextId) !in finished
      ensures r.Some? ==> chains[r.value].req == Request(sector, buf, write) && queued == old(queued) + [r.value]
      ensures r.Some? ==> Count(free[..]) == Count(old(free[..])) - 3
    {
      ghost var free0 := free[..];
      var idx := AllocThree(free);
      if idx.None? {
        assert free[..] == free0;
        return None;
      }
      Launch(idx.value, sector, buf, write, free0);
      r := Some(idx.value[0]);
    }

    /** The rest of `submit_chain`, once three descriptors are taken. */
    method Launch(idx: seq<nat>, sector: nat, buf: nat, write: bool, ghost free0: seq<bool>)
      requires Sizes() && |free0| == NUM && RingsOk() && StatusesOk(chains, statuses[..], finished)
      requires ChainsOk(chains, free0, descs[..], headers[..])
      requires HeadsOk(chains, queued, pending, completed[..], finished, nextId)
      requires |idx| == 3 && Picked(free0, idx) && free[..] == Without(free0, idx) &&
                 Count(free[..]) == Count(free0) - 3
      modifies this, descs, headers, statuses, completed, avail
      ensures Valid() && finished == old(finished) && pending == old(pending) && queued == old(queued) + [idx[0]]
      ensures
        var c := Chain(idx[1], idx[2], old(nextId), Request(sector, buf, write));
        idx[0] !in old(chains) && chains == old(chains)[idx[0] := c]
    {
      ghost var descs0, headers0, q := descs[..], headers[..], Request(sector, buf, write);
      RingsShort(chains, free0, queued, pending, completed[..], finished, nextId);
      FillChain(descs, headers, idx, sector, buf, write);
      Joined(chains, free0, descs0, headers0, idx, nextId, q, free[..], descs[..], headers[..]);
      Enroll(idx[0], idx[1], idx[2], q);
    }

    /** Clear the status and the completion flag of the new request and hand its head to the device. */
    method Enroll(i0: nat, i1: nat, i2: nat, ghost q: Request)
      requires Sizes() && RingsOk() && |queued| <= 2 && i0 < NUM && i0 !in chains
      requires ChainsOk(chains[i0 := Chain(i1, i2, nextId, q)], free[..], descs[..], headers[..])
      requires HeadsOk(chains, queued, pending, completed[..], finished, nextId)
      requires StatusesOk(chains, statuses[..], finished)
      modifies this, statuses, completed, avail
      ensures Valid() && finished == old(finished) && pending == old(pending) && queued == old(queued) + [i0]
      ensures chains == old(chains)[i0 := Chain(i1, i2, old(nextId), q)]
    {
      ghost var completed0, statuses0 := completed[..], statuses[..];
      SubmitHeads(chains, queued, pending, completed0, finished, nextId, i0, i1, i2, q);
      statuses[i0] := 0xff;
      assert statuses[..] == statuses0[i0 := 0xff];
      completed[i0] := false;
      assert completed[..] == completed0[i0 := false];
      chains, nextId := chains[i0 := Chain(i1, i2, nextId, q)], nextId + 1;
      Publish(i0);
    }

    ghost predicate Sizes() {
      && free.Length == NUM && descs.Length == NUM && headers.Length == NUM && completed.Length == NUM
      && avail.Length == NUM && used.Length == NUM && statuses.Length == NUM
      && free != completed && avail != used && statuses != avail && statuses != used
    }

    ghost predicate RingsOk()
      requires Sizes()
      reads this, avail, used
    {
      && (var out, back := RingHolds(avail[..], availTotal, queued), RingHolds(used[..], usedTotal, pending);
          out && back)
      && availIdx == availTotal % 0x1_0000 && usedIdx == usedTotal % 0x1_0000
      && seen == (usedTotal - |pending|) % 0x1_0000
    }

    /** Put a head in the available ring. */
    method Publish(h: nat)
      requires avail.Length == NUM && RingHolds(avail[..], availTotal, queued) && |queued| <= 2
      requires availIdx == availTotal % 0x1_0000
      modifies this`availIdx, this`availTotal, this`queued, avail
      ensures RingHolds(avail[..], availTotal, queued) && availIdx == availTotal % 0x1_0000 &&
                queued == old(queued) + [h]
    {
      ghost var avail0 := avail[..];
      WrapAround(availTotal, 0);
      RingAppend(avail0, availTotal, queued, h);
      avail[availIdx % NUM] := h;
      assert avail[..] == avail0[availTotal % 8 := h];
      availIdx := (availIdx + 1) % 0x1_0000;
      queued, availTotal := queued + [h], availTotal + 1;
    }

    /** The device puts a head in the used ring. */
    method Return(h: nat)
      requires used.Length == NUM && RingHolds(used[..], usedTotal, pending) && |pending| <= 2
      requires usedIdx == usedTotal % 0x1_0000
      modifies this`usedIdx, this`usedTotal, this`pending, used
      ensures RingHolds(used[..], usedTotal, pending) && usedIdx == usedTotal % 0x1_0000
      ensures pending == old(pending) + [h] && usedTotal == old(usedTotal) + 1
    {
      ghost var used0 := used[..];
      WrapAround(usedTotal, 0);
      RingAppend(used0, usedTotal, pending, h);
      used[usedIdx % NUM] := h;
      assert used[..] == used0[usedTotal % 8 := h];
      usedIdx := (usedIdx + 1) % 0x1_0000;
      pending, usedTotal := pending + [h], usedTotal + 1;
    }

    /** The device fetches the oldest request of the available ring, and reads in its descriptors what was
        asked for. */
    ghost method DeviceTake() returns (h: nat)
      requires Valid() && queued != []
      modifies this
      ensures Valid() && chains == old(chains) && queued == old(queued)[1..] && finished == old(finished)
      ensures h == avail[(availTotal - |old(queued)|) % 8] == old(queued)[0]
      ensures h in chains && Parse(descs[..], headers[..], h) == Some((chains[h].req, h))
    {
      RingTake(avail[..], availTotal, queued);
      TakeHeads(chains, queued, pending, completed[..], finished, nextId);
      h := queued[0];
      assert HeadOk(chains, queued, pending, completed[..], finished, nextId, h);
      assert ChainOk(chains, free[..], descs[..], headers[..], h);
      queued := queued[1..];
    }

    /** The device answers a request it fetched, in any order, with any status. What it does to the disk
        and to memory is what its descriptors say: what the caller asked for. */
    method DeviceAnswer(h: nat, status: nat, ghost disk: map<nat, seq<nat>>, ghost mem: map<nat, seq<nat>>)
        returns (ghost disk': map<nat, seq<nat>>, ghost mem': map<nat, seq<nat>>)
      requires Valid() && h in chains && h !in queued && chains[h].id !in finished
      modifies this, used, statuses
      ensures Valid() && chains == old(chains) && queued == old(queued) && pending == old(pending) + [h]
      ensures finished == old(finished)[chains[h].id := status]
      ensures (disk', mem') == if status == 0 then Served(disk, mem, chains[h].req) else (disk, mem)
    {
      ghost var statuses0 := statuses[..];
      assert ChainOk(chains, free[..], descs[..], headers[..], h);
      ghost var fetched := Parse(descs[..], headers[..], h).value;
      AnswerHeads(chains, queued, pending, completed[..], finished, nextId, h, status);
      RingsShort(chains, free[..], queued, pending, completed[..], finished, nextId);
      statuses[h] := status;
      assert statuses[..] == statuses0[fetched.1 := status];
      Return(h);
      finished := finished[chains[h].id := status];
      disk', mem' := disk, mem;
      if status == 0 {
        disk', mem' := Served(disk, mem, fetched.0).0, Served(disk, mem, fetched.0).1;
      }
    }

    /** The interrupt handler takes one answer from the used ring. */
    method See()
      requires Valid() && pending != []
      modifies this`seen, this`pending, completed
      ensures Valid() && pending == old(pending)[1..] && old(pending)[0] < NUM
      ensures completed[..] == old(completed[..])[old(pending)[0] := true]
    {
      ghost var completed0 := completed[..];
      RingTake(used[..], usedTotal, pending);
      SeeHeads(chains, queued, pending, completed[..], finished, nextId);
      WrapAround(usedTotal - |pending|, 0);
      var id := used[seen % NUM];
      completed[id] := true;
      assert completed[..] == completed0[id := true];
      seen := (seen + 1) % 0x1_0000;
      pending := pending[1..];
    }

    /** All answers seen, or not, by the indices. */
    lemma SeenAll()
      requires Valid()
      ensures seen == usedIdx <==> pending == []
    {
      RingsShort(chains, free[..], queued, pending, completed[..], finished, nextId);
      WrapAround(usedTotal, |pending|);
    }

    /** The interrupt handler: drains the used ring, across index wrap, flagging exactly the requests
        answered since the last drain. */
    method OnIrq()
      requires Valid()
      modifies this, completed
      ensures Valid() && pending == [] && chains == old(chains) && finished == old(finished) && queued == old(queued)
      ensures forall h: nat :: h < NUM ==> completed[h] == (old(completed[h]) || h in old(pending))
    {
      var now := usedIdx;
      ghost var was, all := completed[..], pending;
      ghost var n := 0;
      SeenAll();
      while seen != now
        invariant Valid() && chains == old(chains) && finished == old(finished) && queued == old(queued)
        invariant now == usedIdx && n <= |all| && pending == all[n..]
        invariant forall h: nat :: h < NUM ==> completed[h] == (was[h] || h in all[..n])
        invariant seen == now <==> pending == []
        decreases |pending|
      {
        See();
        assert all[..n + 1] == all[..n] + [all[n]];
        n := n + 1;
        SeenAll();
      }
      assert all[..n] == all;
    }

    /** `BlockOp::poll`: a task gets past it exactly when the device has answered its own request and the
        interrupt handler has seen the answer. */
    method Poll(h: nat) returns (ready: bool)
      requires Valid() && h in chains
      ensures ready <==> chains[h].id in finished && h !in pending
    {
      assert HeadOk(chains, queued, pending, completed[..], finished, nextId, h);
      ready := completed[h];
    }

    /** The task that got past frees its three descriptors, and learns the status of its own request. */
    method Finish(h: nat) returns (ok: bool)
      requires Valid() && h in chains && h < NUM && completed[h]
      modifies this, free, descs
      ensures Valid() && chains == old(chains) - {h} && finished == old(finished)
      ensures Count(free[..]) == Count(old(free[..])) + 3
      ensures forall d: nat :: d < NUM ==> free[d] == (old(free[d]) || Uses(old(chains), h, d))
      ensures old(chains)[h].id in finished && (ok <==> finished[old(chains)[h].id] == 0)
    {
      assert HeadOk(chains, queued, pending, completed[..], finished, nextId, h);
      var status := statuses[h];
      RetireHeads(chains, queued, pending, completed[..], finished, nextId, h);
      FreeChain(free, descs, h, chains, headers[..]);
      chains := chains - {h};
      ok := status == 0;
    }
  }
}
