/** The kernel heap: a first-fit allocator over a static arena. Free blocks form an
    address-ordered linked list through their own first words; a live block keeps its size in the
    word before its payload. */
module Heap {
  const HEAP_SIZE: nat := 0x100_0000

  // ---- Alignment ----

  predicate PowerOfTwo(a: nat) { a == 1 || (a > 1 && a % 2 == 0 && PowerOfTwo(a / 2)) }

  lemma LargePowers(a: nat)
    requires PowerOfTwo(a) && a >= 16
    ensures a % 16 == 0
  {
    assert a / 2 >= 8 && PowerOfTwo(a / 2);
    assert a / 2 / 2 >= 4 && PowerOfTwo(a / 2 / 2);
    assert a / 2 / 2 / 2 >= 2 && PowerOfTwo(a / 2 / 2 / 2);
  }

  /** The first multiple of `a` at or after `n`. */
  function RoundUp(n: nat, a: nat): (r: nat)
    requires a > 0
    ensures n <= r < n + a && r % a == 0
  {
    var q := (n + a - 1) / a;
    Multiple(q, a);
    assert a * q <= n + a - 1 < a * q + a;
    a * q
  }

  lemma Multiple(q: nat, a: nat)
    requires a > 0
    ensures (a * q) % a == 0
  {
    assert a * q == q * a + 0;
    DivMod(a * q, a, q);
  }

  lemma DivMod(n: int, a: int, q: int)
    requires a > 0 && n == a * q
    ensures n % a == 0
  {
    assert n == a * (n / a) + n % a;
    var d := q - n / a;
    assert a * d == n % a;
    assert d >= 1 ==> a * d >= a;
    assert d <= -1 ==> a * d <= -a;
  }

  /** No multiple of `a` lies in between. */
  lemma RoundUpLeast(n: nat, a: nat, q: nat)
    requires a > 0 && q % a == 0 && q >= n
    ensures q >= RoundUp(n, a)
  {
    var i, j := q / a, RoundUp(n, a) / a;
    assert q == a * i && RoundUp(n, a) == a * j;
    assert i <= j - 1 ==> a * i <= a * (j - 1);
    assert i >= j ==> a * i >= a * j;
  }

  /** A multiple of a multiple of 16 is a multiple of 16. */
  lemma Sixteenth(n: nat, a: nat)
    requires a > 0 && a % 16 == 0 && n % a == 0
    ensures n % 16 == 0
  {
    var q, b := n / a, a / 16;
    assert n == a * q == (16 * b) * q == 16 * (b * q);
  }

  // ---- Tiles ----

  /** A free or a live block of the arena. */
  datatype Tile = Tile(start: nat, len: nat, free: bool) {
    function End(): (e: nat) { start + len }
  }

  predicate Sane(t: Tile) { t.start % 16 == 0 && t.len % 16 == 0 && t.len >= 32 }

  /** `tiles` cover lo..hi without gap or overlap. */
  ghost predicate Cover(tiles: seq<Tile>, lo: nat, hi: nat) {
    && tiles != [] && tiles[0].start == lo && tiles[|tiles| - 1].End() == hi
    && (forall i: nat {:trigger Abut(tiles, i)} :: Abut(tiles, i))
    && (forall i: nat {:trigger SaneAt(tiles, i)} :: SaneAt(tiles, i))
  }

  predicate Abut(tiles: seq<Tile>, i: nat) { i + 1 < |tiles| ==> tiles[i].End() == tiles[i + 1].start }

  predicate SaneAt(tiles: seq<Tile>, i: nat) { i < |tiles| ==> Sane(tiles[i]) }

  /** No two neighbours are both free. */
  ghost predicate Coalesced(tiles: seq<Tile>) { forall i: nat :: !BothFree(tiles, i) }

  predicate BothFree(tiles: seq<Tile>, i: nat) { i + 1 < |tiles| && tiles[i].free && tiles[i + 1].free }

  function Bytes(tiles: seq<Tile>, free: bool): (n: nat) {
    if tiles == [] then 0 else Bytes(tiles[1..], free) + if tiles[0].free == free then tiles[0].len else 0
  }

  lemma {:induction false} BytesConcat(a: seq<Tile>, b: seq<Tile>, free: bool)
    ensures Bytes(a + b, free) == Bytes(a, free) + Bytes(b, free)
  {
    if a == [] {
      assert a + b == b;
    } else {
      BytesConcat(a[1..], b, free);
      assert (a + b)[1..] == a[1..] + b;
    }
  }

  lemma CoverTail(tiles: seq<Tile>, lo: nat, hi: nat)
    requires Cover(tiles, lo, hi) && |tiles| > 1
    ensures Cover(tiles[1..], tiles[0].End(), hi)
  {
    assert Abut(tiles, 0);
    forall i: nat ensures Abut(tiles[1..], i) && SaneAt(tiles[1..], i) {
      assert Abut(tiles, i + 1) && SaneAt(tiles, i + 1);
    }
  }

  /** Live and free bytes together are the arena. */
  lemma {:induction false} BytesCover(tiles: seq<Tile>, lo: nat, hi: nat)
    requires Cover(tiles, lo, hi)
    ensures Bytes(tiles, true) + Bytes(tiles, false) == hi - lo
  {
    if |tiles| == 1 {
      assert tiles[1..] == [];
    } else {
      CoverTail(tiles, lo, hi);
      BytesCover(tiles[1..], tiles[0].End(), hi);
    }
  }

  /** Earlier tiles end before later ones start, so payloads are disjoint. */
  lemma {:induction false} TilesDisjoint(tiles: seq<Tile>, lo: nat, hi: nat, i: nat, j: nat)
    requires Cover(tiles, lo, hi) && i < j < |tiles|
    ensures tiles[i].End() <= tiles[j].start
  {
    assert Abut(tiles, j - 1) && SaneAt(tiles, j - 1);
    if i + 1 < j {
      TilesDisjoint(tiles, lo, hi, i, j - 1);
    }
  }

  lemma TilesInside(tiles: seq<Tile>, lo: nat, hi: nat, i: nat)
    requires Cover(tiles, lo, hi) && i < |tiles|
    ensures lo <= tiles[i].start && tiles[i].End() <= hi
  {
    assert SaneAt(tiles, 0) && SaneAt(tiles, i) && SaneAt(tiles, |tiles| - 1);
    if i > 0 { TilesDisjoint(tiles, lo, hi, 0, i); }
    if i + 1 < |tiles| { TilesDisjoint(tiles, lo, hi, i, |tiles| - 1); }
  }

  // ---- The free list through the tiles ----

  /** The address of the first free tile at index `i` or later; 0 is null. */
  function FreeFrom(tiles: seq<Tile>, i: nat): (a: nat)
    requires i <= |tiles|
    decreases |tiles| - i
  {
    if i == |tiles| then 0 else if tiles[i].free then tiles[i].start else FreeFrom(tiles, i + 1)
  }

  lemma {:induction false} Skip(tiles: seq<Tile>, i: nat, j: nat)
    requires i <= j <= |tiles| && forall k :: i <= k < j ==> !tiles[k].free
    ensures FreeFrom(tiles, i) == FreeFrom(tiles, j)
    decreases j - i
  {
    if i < j { Skip(tiles, i + 1, j); }
  }

  lemma {:induction false} SamePrefix(a: seq<Tile>, b: seq<Tile>, i: nat, j: nat)
    requires i <= j < |a| && j < |b| && a[j].free && b[j].free && a[j].start == b[j].start
    requires forall k :: i <= k < j ==> a[k] == b[k]
    ensures FreeFrom(a, i) == FreeFrom(b, i)
    decreases j - i
  {
    if !a[i].free { SamePrefix(a, b, i + 1, j); }
  }

  lemma {:induction false} SameSuffix(a: seq<Tile>, i: nat, b: seq<Tile>, j: nat)
    requires i <= |a| && j <= |b| && a[i..] == b[j..]
    ensures FreeFrom(a, i) == FreeFrom(b, j)
    decreases |a| - i
  {
    assert |a| - i == |b| - j;
    if i < |a| {
      assert a[i] == a[i..][0] == b[j..][0] == b[j];
      assert a[i + 1..] == a[i..][1..] == b[j..][1..] == b[j + 1..];
      SameSuffix(a, i + 1, b, j + 1);
    }
  }

  /** The tile a list node is. */
  lemma {:induction false} NodeTile(tiles: seq<Tile>, i: nat) returns (k: nat)
    requires i <= |tiles| && FreeFrom(tiles, i) != 0
    ensures i <= k < |tiles| && tiles[k].free && tiles[k].start == FreeFrom(tiles, i)
    ensures forall j :: i <= j < k ==> !tiles[j].free
    decreases |tiles| - i
  {
    if tiles[i].free { k := i; } else { k := NodeTile(tiles, i + 1); }
  }

  /** No node left means no free tile left. */
  lemma {:induction false} NoNode(tiles: seq<Tile>, i: nat)
    requires i <= |tiles| && FreeFrom(tiles, i) == 0 && forall j :: 0 <= j < |tiles| ==> tiles[j].start > 0
    ensures forall j :: i <= j < |tiles| ==> !tiles[j].free
    decreases |tiles| - i
  {
    if i < |tiles| { NoNode(tiles, i + 1); }
  }

  // ---- First fit ----

  /** Where a payload goes in a free block at `b`: `hdr` is its header, `front` the pad left before
      it (0, or large enough to stay a free block), `end` the end of the payload. */
  datatype Place = Place(p: nat, hdr: nat, front: nat, end: nat)

  function PlaceWith(b: nat, p0: nat, p1: nat, psize: nat): (r: Place)
    requires p0 >= b + 16 && p1 >= b + 48
  {
    var p := if p0 - 16 - b != 0 && p0 - 16 - b < 32 then p1 else p0;
    Place(p, p - 16, p - 16 - b, p + psize)
  }

  function PlaceAt(b: nat, align: nat, psize: nat): (r: Place)
    requires align > 0
  {
    PlaceWith(b, RoundUp(b + 16, align), RoundUp(b + 48, align), psize)
  }

  /** The payload is aligned, and the pad before it is nothing or a block of its own. */
  lemma PlaceOk(b: nat, align: nat, psize: nat, r: Place)
    requires b % 16 == 0 && align > 0 && align % 16 == 0 && psize % 16 == 0
    requires r == PlaceAt(b, align, psize)
    ensures r.p % align == 0 && r.p % 16 == 0 && r.hdr == b + r.front && r.p == r.hdr + 16 && r.end == r.p + psize
    ensures r.front == 0 || r.front >= 32
    ensures align == 16 ==> r.p == b + 16
  {
    var p0, p1 := RoundUp(b + 16, align), RoundUp(b + 48, align);
    Sixteenth(p0, align);
    Sixteenth(p1, align);
    PlaceAligned(b, p0, p1, psize, align);
  }

  lemma PlaceAligned(b: nat, p0: nat, p1: nat, psize: nat, align: nat)
    requires b % 16 == 0 && p0 % 16 == 0 && p1 % 16 == 0 && p0 >= b + 16 && p1 >= b + 48
    requires align > 0 && p0 % align == 0 && p1 % align == 0 && p0 < b + 16 + align
    ensures
      var r := PlaceWith(b, p0, p1, psize);
      && (r.p == p0 || r.p == p1)
      && r.p % align == 0 && r.p % 16 == 0
      && (r.front == 0 || r.front >= 32)
      && (align == 16 ==> r.p == b + 16)
  {
  }

  /** A payload could go at address `q` of block `t`: it is aligned, there is room for it and its header,
      and what is left before the header is nothing or can be a block. */
  predicate Room(t: Tile, align: nat, psize: nat, q: nat)
    requires align > 0
  {
    t.free && q % align == 0 && (q == t.start + 16 || q >= t.start + 48) && q + psize <= t.End()
  }

  /** The place chosen in a block is the lowest at which there is room. */
  lemma RoomFits(t: Tile, align: nat, psize: nat)
    requires Sane(t) && align > 0 && align % 16 == 0 && psize % 16 == 0
    ensures Fits(t, align, psize) ==> Room(t, align, psize, PlaceAt(t.start, align, psize).p)
    ensures forall q: nat :: Room(t, align, psize, q) ==>
              Fits(t, align, psize) && PlaceAt(t.start, align, psize).p <= q
  {
    var x := PlaceAt(t.start, align, psize);
    PlaceOk(t.start, align, psize, x);
    forall q: nat | Room(t, align, psize, q) ensures Fits(t, align, psize) && x.p <= q {
      RoundUpLeast(t.start + 16, align, q);
      if q >= t.start + 48 {
        RoundUpLeast(t.start + 48, align, q);
      }
    }
  }

  predicate Fits(t: Tile, align: nat, psize: nat)
    requires align > 0
  {
    t.free && PlaceAt(t.start, align, psize).end <= t.End()
  }

  /** The tiles a fitting free tile becomes: front pad, live block, remainder; a remainder below
      32 bytes stays in the block. */
  function Carve(t: Tile, x: Place): (r: seq<Tile>)
    requires x.end <= t.End() && x.hdr <= x.end
  {
    var end := if t.End() - x.end < 32 then t.End() else x.end;
    (if x.front > 0 then [Tile(t.start, x.front, true)] else [])
    + [Tile(x.hdr, end - x.hdr, false)]
    + (if end < t.End() then [Tile(end, t.End() - end, true)] else [])
  }

  lemma Sixteens(a: int, b: int)
    requires a % 16 == 0 && b % 16 == 0
    ensures (a + b) % 16 == 0 && (a - b) % 16 == 0
  {
  }

  lemma CarveOk(t: Tile, x: Place, psize: nat)
    requires Sane(t) && psize % 16 == 0 && psize > 0 && x.end <= t.End()
    requires x.p % 16 == 0 && x.p == x.hdr + 16 && x.hdr == t.start + x.front && x.end == x.p + psize
    requires x.front == 0 || x.front >= 32
    ensures
      var r := Carve(t, x);
      var w := if x.front > 0 then 1 else 0;
      && Cover(r, t.start, t.End())
      && w < |r| && r[w].start + 16 == x.p && x.end <= r[w].End()
      && forall i :: 0 <= i < |r| ==> (r[i].free <==> i != w)
  {
    var r := Carve(t, x);
    var w := if x.front > 0 then 1 else 0;
    Sixteens(x.p, 16);
    Sixteens(x.p, psize);
    Sixteens(x.hdr, t.start);
    Sixteens(t.start, t.len);
    Sixteens(x.end, x.hdr);
    Sixteens(t.End(), x.hdr);
    Sixteens(t.End(), x.end);
    assert r[w].free == false && r[w].start == x.hdr && Sane(r[w]);
    assert w == 1 ==> r[0] == Tile(t.start, x.front, true) && Sane(r[0]);
    if t.End() - x.end < 32 {
      assert |r| == w + 1;
    } else {
      assert |r| == w + 2 && r[w + 1] == Tile(x.end, t.End() - x.end, true) && Sane(r[w + 1]);
    }
  }

  /** The tiles from `i` to `j` replaced by others. */
  function Replace(tiles: seq<Tile>, i: nat, j: nat, r: seq<Tile>): (s: seq<Tile>)
    requires i <= j <= |tiles|
  {
    tiles[..i] + r + tiles[j..]
  }

  lemma ReplaceCover(tiles: seq<Tile>, i: nat, j: nat, r: seq<Tile>, lo: nat, hi: nat)
    requires Cover(tiles, lo, hi) && i < j <= |tiles| && Cover(r, tiles[i].start, tiles[j - 1].End())
    ensures Cover(Replace(tiles, i, j, r), lo, hi)
  {
    var s := Replace(tiles, i, j, r);
    assert i > 0 ==> Abut(tiles, i - 1);
    assert Abut(tiles, j - 1);
    forall k: nat | k < |s| ensures Abut(s, k) && SaneAt(s, k) {
      if k < i {
        assert Abut(tiles, k) && SaneAt(tiles, k);
      } else if k < i + |r| {
        assert Abut(r, k - i) && SaneAt(r, k - i);
      } else {
        assert Abut(tiles, k - |r| - i + j) && SaneAt(tiles, k - |r| - i + j);
      }
    }
  }

  lemma ReplaceCoalesced(tiles: seq<Tile>, i: nat, j: nat, r: seq<Tile>)
    requires Coalesced(tiles) && i < j <= |tiles| && r != [] && Coalesced(r)
    requires i > 0 ==> !(tiles[i - 1].free && r[0].free)
    requires j < |tiles| ==> !(r[|r| - 1].free && tiles[j].free)
    ensures Coalesced(Replace(tiles, i, j, r))
  {
    var s := Replace(tiles, i, j, r);
    forall k: nat | k + 1 < |s| ensures !BothFree(s, k) {
      if k + 1 < i {
        assert !BothFree(tiles, k);
      } else if i <= k && k + 1 < i + |r| {
        assert !BothFree(r, k - i);
      } else if i + |r| <= k {
        assert !BothFree(tiles, k - |r| - i + j);
      }
    }
  }

  lemma ReplaceBytes(tiles: seq<Tile>, i: nat, j: nat, r: seq<Tile>, free: bool)
    requires i <= j <= |tiles|
    ensures Bytes(Replace(tiles, i, j, r), free) + Bytes(tiles[i..j], free) == Bytes(tiles, free) + Bytes(r, free)
  {
    BytesConcat(tiles[..i] + r, tiles[j..], free);
    BytesConcat(tiles[..i], r, free);
    BytesConcat(tiles[..i], tiles[i..j], free);
    BytesConcat(tiles[..i] + tiles[i..j], tiles[j..], free);
    assert tiles == tiles[..i] + tiles[i..j] + tiles[j..];
  }

  // ---- Links ----

  /** `head` and `next` chain the free tiles in order. */
  ghost predicate Linked(tiles: seq<Tile>, head: nat, next: map<nat, nat>) {
    && head == FreeFrom(tiles, 0)
    && forall i: nat {:trigger NodeOk(tiles, next, i)} :: i < |tiles| ==> NodeOk(tiles, next, i)
  }

  /** If tile `i` is free, its link leads to the next free tile. */
  predicate NodeOk(tiles: seq<Tile>, next: map<nat, nat>, i: nat)
    requires i < |tiles|
  {
    tiles[i].free ==> tiles[i].start in next && next[tiles[i].start] == FreeFrom(tiles, i + 1)
  }

  /** Every block's first word holds its length. */
  ghost predicate Sized(tiles: seq<Tile>, size: map<nat, nat>) {
    forall i :: 0 <= i < |tiles| ==> tiles[i].start in size && size[tiles[i].start] == tiles[i].len
  }

  /** `prev` is the last free tile before index `i`, number `pk`, or null if there is none. */
  ghost predicate LastFree(tiles: seq<Tile>, i: nat, prev: nat, pk: nat) {
    && i <= |tiles|
    && (prev == 0 ==> forall k :: 0 <= k < i ==> !tiles[k].free)
    && (prev != 0 ==> pk < i && tiles[pk].free && tiles[pk].start == prev && forall k :: pk < k < i ==> !tiles[k].free)
  }

  predicate NodeKept(tiles: seq<Tile>, next: map<nat, nat>, next': map<nat, nat>, k: nat)
    requires k < |tiles|
  {
    tiles[k].free && tiles[k].start in next ==> tiles[k].start in next' && next'[tiles[k].start] == next[tiles[k].start]
  }

  lemma LinkBefore(tiles: seq<Tile>, t: seq<Tile>, i: nat, prev: nat, pk: nat, k: nat)
    requires i <= |t| && LastFree(tiles, i, prev, pk) && t[..i] == tiles[..i] && k <= i
    ensures (if prev != 0 && k <= pk then FreeFrom(t, k) == FreeFrom(tiles, k) else FreeFrom(t, k) == FreeFrom(t, i))
  {
    assert forall m :: 0 <= m < i ==> t[m] == t[..i][m] == tiles[..i][m] == tiles[m];
    if prev != 0 && k <= pk { SamePrefix(tiles, t, k, pk); } else { Skip(t, k, i); }
  }

  lemma LinkAfter(tiles: seq<Tile>, i: nat, j: nat, r: seq<Tile>, m: nat)
    requires i <= j <= m <= |tiles|
    ensures FreeFrom(Replace(tiles, i, j, r), m - j + i + |r|) == FreeFrom(tiles, m)
  {
    var t := Replace(tiles, i, j, r);
    assert t[m - j + i + |r|..] == tiles[m..];
    SameSuffix(t, m - j + i + |r|, tiles, m);
  }

  /** The last free block before index `i`, or the head, leads to what is free from there on. */
  predicate Entered(t: seq<Tile>, i: nat, prev: nat, head: nat, head': nat, next': map<nat, nat>)
    requires i <= |t|
  {
    if prev == 0 then head' == FreeFrom(t, i) else head' == head && prev in next' && next'[prev] == FreeFrom(t, i)
  }

  /** The tiles of `t` from `i` to `j` are linked. */
  ghost predicate NodesOk(t: seq<Tile>, next': map<nat, nat>, i: nat, j: nat)
    requires j <= |t|
  {
    forall k: nat {:trigger NodeOk(t, next', k)} :: i <= k < j ==> NodeOk(t, next', k)
  }

  /** Outside `i` to `j` all links stay but that of the last free block before `i`. */
  ghost predicate OthersKept(tiles: seq<Tile>, i: nat, j: nat, prev: nat, pk: nat, next: map<nat, nat>,
                             next': map<nat, nat>) {
    forall k: nat {:trigger NodeKept(tiles, next, next', k)} ::
      k < |tiles| && !(i <= k < j) && !(prev != 0 && k == pk) ==> NodeKept(tiles, next, next', k)
  }

  /** Replacing tiles keeps the chain when the last free block before them (or the head) is pointed
      at what is free from there on. */
  lemma Relink(tiles: seq<Tile>, i: nat, j: nat, r: seq<Tile>, t: seq<Tile>, prev: nat, pk: nat,
               head: nat, next: map<nat, nat>, head': nat, next': map<nat, nat>)
    requires i <= j <= |tiles| && Linked(tiles, head, next) && LastFree(tiles, i, prev, pk)
    requires t == Replace(tiles, i, j, r) && Entered(t, i, prev, head, head', next')
    requires NodesOk(t, next', i, i + |r|) && OthersKept(tiles, i, j, prev, pk, next, next')
    ensures Linked(t, head', next')
  {
    assert t[..i] == tiles[..i];
    LinkBefore(tiles, t, i, prev, pk, 0);
    forall k: nat | k < |t| ensures NodeOk(t, next', k) {
      if k < i {
        RelinkBefore(tiles, i, j, t, prev, pk, head, next, head', next', k);
      } else if i + |r| <= k {
        assert NodeOk(tiles, next, k - |r| - i + j);
        RelinkAfter(tiles, i, j, r, prev, pk, next, next', k - |r| - i + j);
      }
    }
  }

  lemma RelinkBefore(tiles: seq<Tile>, i: nat, j: nat, t: seq<Tile>, prev: nat, pk: nat,
                     head: nat, next: map<nat, nat>, head': nat, next': map<nat, nat>, k: nat)
    requires k < i <= |t| && i <= j <= |tiles| && t[..i] == tiles[..i]
    requires Linked(tiles, head, next) && LastFree(tiles, i, prev, pk) && Entered(t, i, prev, head, head', next')
    requires OthersKept(tiles, i, j, prev, pk, next, next')
    ensures NodeOk(t, next', k)
  {
    assert t[k] == t[..i][k] == tiles[..i][k] == tiles[k];
    LinkBefore(tiles, t, i, prev, pk, k + 1);
    assert NodeOk(tiles, next, k);
    assert !(prev != 0 && k == pk) ==> NodeKept(tiles, next, next', k);
  }

  lemma RelinkAfter(tiles: seq<Tile>, i: nat, j: nat, r: seq<Tile>, prev: nat, pk: nat,
                    next: map<nat, nat>, next': map<nat, nat>, m: nat)
    requires i <= j <= m < |tiles| && NodeOk(tiles, next, m) && (prev != 0 ==> pk < i)
    requires OthersKept(tiles, i, j, prev, pk, next, next')
    ensures NodeOk(Replace(tiles, i, j, r), next', m - j + i + |r|)
  {
    assert Replace(tiles, i, j, r)[m - j + i + |r|] == tiles[m];
    LinkAfter(tiles, i, j, r, m + 1);
    assert NodeKept(tiles, next, next', m);
  }

  // ---- Carving a block out of the list ----

  ghost predicate Carvable(tiles: seq<Tile>, k: nat, x: Place, psize: nat) {
    && k < |tiles| && tiles[k].free && Sane(tiles[k])
    && psize % 16 == 0 && psize > 0 && x.end <= tiles[k].End()
    && x.p % 16 == 0 && x.p == x.hdr + 16 && x.hdr == tiles[k].start + x.front && x.end == x.p + psize
    && (x.front == 0 || x.front >= 32)
  }

  /** Where the carved block ends. */
  function BlockEnd(t: Tile, x: Place): (e: nat) { if t.End() - x.end < 32 then t.End() else x.end }

  function Carved(tiles: seq<Tile>, k: nat, x: Place): (t: seq<Tile>)
    requires k < |tiles| && x.end <= tiles[k].End() && x.hdr <= x.end
  {
    Replace(tiles, k, k + 1, Carve(tiles[k], x))
  }

  lemma CarvedTiles(tiles: seq<Tile>, k: nat, x: Place, psize: nat, lo: nat, hi: nat)
    requires Cover(tiles, lo, hi) && Coalesced(tiles) && Carvable(tiles, k, x, psize)
    ensures Cover(Carved(tiles, k, x), lo, hi) && Coalesced(Carved(tiles, k, x))
    ensures Bytes(Carved(tiles, k, x), false) == Bytes(tiles, false) + BlockEnd(tiles[k], x) - x.hdr
  {
    var r := Carve(tiles[k], x);
    CarveOk(tiles[k], x, psize);
    ReplaceCover(tiles, k, k + 1, r, lo, hi);
    if k > 0 { assert !BothFree(tiles, k - 1); }
    assert !BothFree(tiles, k);
    ReplaceCoalesced(tiles, k, k + 1, r);
    ReplaceBytes(tiles, k, k + 1, r, false);
    assert tiles[k..k + 1] == [tiles[k]];
    CarveBytes(tiles[k], x);
  }

  lemma CarveBytes(t: Tile, x: Place)
    requires t.free && x.end <= t.End() && x.hdr <= x.end
    ensures Bytes([t], false) == 0 && Bytes(Carve(t, x), false) == BlockEnd(t, x) - x.hdr
  {
    var end := BlockEnd(t, x);
    var a, b := if x.front > 0 then [Tile(t.start, x.front, true)] else [], [Tile(x.hdr, end - x.hdr, false)];
    var c := if end < t.End() then [Tile(end, t.End() - end, true)] else [];
    BytesConcat(a + b, c, false);
    BytesConcat(a, b, false);
  }

  /** The other tiles start outside tile `k`. */
  lemma StartsOutside(tiles: seq<Tile>, lo: nat, hi: nat, k: nat, q: nat)
    requires Cover(tiles, lo, hi) && k < |tiles| && q < |tiles| && q != k
    ensures tiles[q].start < tiles[k].start || tiles[k].End() <= tiles[q].start
    ensures tiles[q].start != tiles[k].start
  {
    assert SaneAt(tiles, q) && SaneAt(tiles, k);
    if q < k { TilesDisjoint(tiles, lo, hi, q, k); } else { TilesDisjoint(tiles, lo, hi, k, q); }
  }

  /** The size words after a block was carved out of free block `t`. */
  function NewSize(size: map<nat, nat>, t: Tile, x: Place): (size': map<nat, nat>)
    requires x.hdr <= x.end <= t.End()
  {
    var e := BlockEnd(t, x);
    var s1 := if e < t.End() then size[e := t.End() - e] else size;
    var s2 := if x.front >= 32 then s1[t.start := x.front] else s1;
    s2[x.hdr := e - x.hdr]
  }

  lemma CarvedSized(tiles: seq<Tile>, k: nat, x: Place, psize: nat, lo: nat, hi: nat, size: map<nat, nat>)
    requires Cover(tiles, lo, hi) && Carvable(tiles, k, x, psize) && Sized(tiles, size)
    ensures Sized(Carved(tiles, k, x), NewSize(size, tiles[k], x))
  {
    var t, r, size' := Carved(tiles, k, x), Carve(tiles[k], x), NewSize(size, tiles[k], x);
    forall q | 0 <= q < |t| ensures t[q].start in size' && size'[t[q].start] == t[q].len {
      if q < k {
        StartsOutside(tiles, lo, hi, k, q);
      } else if q >= k + |r| {
        assert t[q] == tiles[q - |r| + 1];
        StartsOutside(tiles, lo, hi, k, q - |r| + 1);
      } else {
        assert t[q] == r[q - k];
      }
    }
  }

  /** The free remainder after the carved block, or the next free block. */
  function TailNode(t: Tile, x: Place, rest: nat): (a: nat) {
    if BlockEnd(t, x) < t.End() then BlockEnd(t, x) else rest
  }

  /** The free block that takes the carved one's place in the list. */
  function FirstNode(t: Tile, x: Place, rest: nat): (a: nat) { if x.front >= 32 then t.start else TailNode(t, x, rest) }

  /** The links after a block was carved out of `t`, whose predecessor in the list is `prev`. */
  function NewNext(next: map<nat, nat>, t: Tile, x: Place, prev: nat, rest: nat): (next': map<nat, nat>) {
    var n1 := if BlockEnd(t, x) < t.End() then next[BlockEnd(t, x) := rest] else next;
    var n2 := if x.front >= 32 then n1[t.start := TailNode(t, x, rest)] else n1;
    if prev == 0 then n2 else n2[prev := FirstNode(t, x, rest)]
  }

  lemma CarvedFrom(tiles: seq<Tile>, k: nat, x: Place, psize: nat)
    requires Carvable(tiles, k, x, psize)
    ensures
      var t, r, rest := Carved(tiles, k, x), Carve(tiles[k], x), FreeFrom(tiles, k + 1);
      && FreeFrom(t, k) == FirstNode(tiles[k], x, rest)
      && FreeFrom(t, k + |r|) == rest
      && (x.front >= 32 ==> FreeFrom(t, k + 1) == TailNode(tiles[k], x, rest))
  {
    var t, r := Carved(tiles, k, x), Carve(tiles[k], x);
    LinkAfter(tiles, k, k + 1, r, k + 1);
    var w := if x.front > 0 then 1 else 0;
    CarvedAt(tiles, k, x, w);
    TailFrom(t, k + w, tiles[k], x, FreeFrom(tiles, k + 1), k + |r|);
  }

  /** The live piece of a carved tile, and what follows it. */
  lemma CarvedAt(tiles: seq<Tile>, k: nat, x: Place, w: nat)
    requires k < |tiles| && x.end <= tiles[k].End() && x.hdr <= x.end && w == if x.front > 0 then 1 else 0
    ensures
      var t, r, e := Carved(tiles, k, x), Carve(tiles[k], x), BlockEnd(tiles[k], x);
      && |r| == w + (if e < tiles[k].End() then 2 else 1) && k + |r| <= |t|
      && !t[k + w].free && (w == 1 ==> t[k].free && t[k].start == tiles[k].start)
      && (e < tiles[k].End() ==> t[k + w + 1].free && t[k + w + 1].start == e)
  {
    var t, r := Carved(tiles, k, x), Carve(tiles[k], x);
    assert t[k + w] == r[w];
    assert w == 1 ==> t[k] == r[0];
    assert BlockEnd(tiles[k], x) < tiles[k].End() ==> t[k + w + 1] == r[w + 1];
  }

  lemma TailFrom(t: seq<Tile>, i: nat, tile: Tile, x: Place, rest: nat, j: nat)
    requires i < j <= |t| && !t[i].free && FreeFrom(t, j) == rest
    requires j == i + if BlockEnd(tile, x) < tile.End() then 2 else 1
    requires BlockEnd(tile, x) < tile.End() ==> t[i + 1].free && t[i + 1].start == BlockEnd(tile, x)
    ensures FreeFrom(t, i) == TailNode(tile, x, rest)
  {
  }

  /** The predecessor in the list lies below. */
  lemma PrevBelow(tiles: seq<Tile>, k: nat, lo: nat, hi: nat, prev: nat, pk: nat)
    requires lo > 0 && Cover(tiles, lo, hi) && k < |tiles| && LastFree(tiles, k, prev, pk)
    ensures prev < tiles[k].start
  {
    TilesInside(tiles, lo, hi, k);
    if prev != 0 {
      TilesDisjoint(tiles, lo, hi, pk, k);
      StartsOutside(tiles, lo, hi, k, pk);
    }
  }

  /** Links of the other free blocks stay. */
  lemma CarvedOthers(tiles: seq<Tile>, k: nat, x: Place, psize: nat, lo: nat, hi: nat, prev: nat, pk: nat,
                     next: map<nat, nat>, rest: nat, next': map<nat, nat>)
    requires Cover(tiles, lo, hi) && Carvable(tiles, k, x, psize) && next' == NewNext(next, tiles[k], x, prev, rest)
    requires prev != 0 ==> pk < |tiles| && tiles[pk].start == prev
    ensures OthersKept(tiles, k, k + 1, prev, pk, next, next')
  {
    forall q: nat | q < |tiles| && !(k <= q < k + 1) && !(prev != 0 && q == pk)
      ensures NodeKept(tiles, next, next', q)
    {
      StartsOutside(tiles, lo, hi, k, q);
      if prev != 0 { StartsOutside(tiles, lo, hi, pk, q); }
    }
  }

  lemma {:induction false} CarvedPieces(tiles: seq<Tile>, k: nat, x: Place, psize: nat, prev: nat, next: map<nat, nat>,
                     next': map<nat, nat>)
    requires Carvable(tiles, k, x, psize) && prev < tiles[k].start
    requires next' == NewNext(next, tiles[k], x, prev, FreeFrom(tiles, k + 1))
    ensures NodesOk(Carved(tiles, k, x), next', k, k + |Carve(tiles[k], x)|)
  {
    CarvedFrom(tiles, k, x, psize);
    var t, r := Carved(tiles, k, x), Carve(tiles[k], x);
    forall q: nat | k <= q < k + |r| ensures NodeOk(t, next', q) {
      assert t[q] == r[q - k];
    }
  }

  lemma CarvedEntered(tiles: seq<Tile>, k: nat, x: Place, psize: nat, prev: nat,
                      head: nat, next: map<nat, nat>, head': nat, next': map<nat, nat>)
    requires Carvable(tiles, k, x, psize)
    requires next' == NewNext(next, tiles[k], x, prev, FreeFrom(tiles, k + 1))
    requires head' == if prev == 0 then FirstNode(tiles[k], x, FreeFrom(tiles, k + 1)) else head
    ensures Entered(Carved(tiles, k, x), k, prev, head, head', next')
  {
    CarvedFrom(tiles, k, x, psize);
  }

  lemma CarvedLinked(tiles: seq<Tile>, k: nat, x: Place, psize: nat, lo: nat, hi: nat, prev: nat, pk: nat,
                     head: nat, next: map<nat, nat>, head': nat, next': map<nat, nat>)
    requires lo > 0 && Cover(tiles, lo, hi) && Carvable(tiles, k, x, psize)
    requires Linked(tiles, head, next) && LastFree(tiles, k, prev, pk)
    requires next' == NewNext(next, tiles[k], x, prev, FreeFrom(tiles, k + 1))
    requires head' == if prev == 0 then FirstNode(tiles[k], x, FreeFrom(tiles, k + 1)) else head
    ensures Linked(Carved(tiles, k, x), head', next')
  {
    PrevBelow(tiles, k, lo, hi, prev, pk);
    CarvedEntered(tiles, k, x, psize, prev, head, next, head', next');
    CarvedPieces(tiles, k, x, psize, prev, next, next');
    CarvedOthers(tiles, k, x, psize, lo, hi, prev, pk, next, FreeFrom(tiles, k + 1), next');
    Relink(tiles, k, k + 1, Carve(tiles[k], x), Carved(tiles, k, x), prev, pk, head, next, head', next');
  }

  // ---- Returning a block ----

  function Freed(tiles: seq<Tile>, k: nat): (t: seq<Tile>)
    requires k < |tiles|
  {
    Replace(tiles, k, k + 1, [tiles[k].(free := true)])
  }

  function LinkIn(next: map<nat, nat>, node: nat, prev: nat, cur: nat): (next': map<nat, nat>) {
    if prev == 0 then next[node := cur] else next[node := cur][prev := node]
  }

  lemma FreedOthers(tiles: seq<Tile>, k: nat, lo: nat, hi: nat, prev: nat, pk: nat, cur: nat,
                    next: map<nat, nat>, next': map<nat, nat>)
    requires Cover(tiles, lo, hi) && k < |tiles| && next' == LinkIn(next, tiles[k].start, prev, cur)
    requires prev != 0 ==> pk < |tiles| && tiles[pk].start == prev
    ensures OthersKept(tiles, k, k + 1, prev, pk, next, next')
  {
    forall q: nat | q < |tiles| && !(k <= q < k + 1) && !(prev != 0 && q == pk)
      ensures NodeKept(tiles, next, next', q)
    {
      StartsOutside(tiles, lo, hi, k, q);
      if prev != 0 { StartsOutside(tiles, lo, hi, pk, q); }
    }
  }

  lemma FreedFrom(tiles: seq<Tile>, k: nat)
    requires k < |tiles|
    ensures FreeFrom(Freed(tiles, k), k) == tiles[k].start
    ensures FreeFrom(Freed(tiles, k), k + 1) == FreeFrom(tiles, k + 1)
  {
    LinkAfter(tiles, k, k + 1, [tiles[k].(free := true)], k + 1);
  }

  lemma FreedLinked(tiles: seq<Tile>, k: nat, lo: nat, hi: nat, prev: nat, pk: nat,
                    head: nat, next: map<nat, nat>, head': nat, next': map<nat, nat>)
    requires lo > 0 && Cover(tiles, lo, hi) && k < |tiles| && !tiles[k].free
    requires Linked(tiles, head, next) && LastFree(tiles, k, prev, pk)
    requires next' == LinkIn(next, tiles[k].start, prev, FreeFrom(tiles, k + 1))
    requires head' == if prev == 0 then tiles[k].start else head
    ensures Linked(Freed(tiles, k), head', next')
  {
    PrevBelow(tiles, k, lo, hi, prev, pk);
    FreedFrom(tiles, k);
    FreedOthers(tiles, k, lo, hi, prev, pk, FreeFrom(tiles, k + 1), next, next');
    assert NodeOk(Freed(tiles, k), next', k);
    Relink(tiles, k, k + 1, [tiles[k].(free := true)], Freed(tiles, k), prev, pk, head, next, head', next');
  }

  lemma FreedTiles(tiles: seq<Tile>, k: nat, lo: nat, hi: nat)
    requires Cover(tiles, lo, hi) && k < |tiles| && !tiles[k].free
    ensures Cover(Freed(tiles, k), lo, hi)
    ensures Bytes(Freed(tiles, k), false) == Bytes(tiles, false) - tiles[k].len
  {
    var r := [tiles[k].(free := true)];
    assert SaneAt(tiles, k);
    assert Cover(r, tiles[k].start, tiles[k].End());
    ReplaceCover(tiles, k, k + 1, r, lo, hi);
    ReplaceBytes(tiles, k, k + 1, r, false);
    assert tiles[k..k + 1] == [tiles[k]];
  }

  lemma FreedSized(tiles: seq<Tile>, k: nat, size: map<nat, nat>)
    requires k < |tiles| && Sized(tiles, size)
    ensures Sized(Freed(tiles, k), size)
  {
    var t := Freed(tiles, k);
    assert forall q :: 0 <= q < |tiles| && q != k ==> t[q] == tiles[q];
  }

  /** Two free neighbours become one free block. */
  function Merged(tiles: seq<Tile>, i: nat): (t: seq<Tile>)
    requires i + 1 < |tiles|
  {
    Replace(tiles, i, i + 2, [Tile(tiles[i].start, tiles[i].len + tiles[i + 1].len, true)])
  }

  lemma MergedTiles(tiles: seq<Tile>, i: nat, lo: nat, hi: nat)
    requires Cover(tiles, lo, hi) && BothFree(tiles, i)
    ensures Cover(Merged(tiles, i), lo, hi)
    ensures Bytes(Merged(tiles, i), false) == Bytes(tiles, false)
  {
    var r := [Tile(tiles[i].start, tiles[i].len + tiles[i + 1].len, true)];
    assert Abut(tiles, i) && SaneAt(tiles, i) && SaneAt(tiles, i + 1);
    Sixteens(tiles[i].len, tiles[i + 1].len);
    ReplaceCover(tiles, i, i + 2, r, lo, hi);
    ReplaceBytes(tiles, i, i + 2, r, false);
    assert tiles[i..i + 2] == [tiles[i]] + [tiles[i + 1]];
    BytesConcat([tiles[i]], [tiles[i + 1]], false);
  }

  lemma MergedSized(tiles: seq<Tile>, i: nat, lo: nat, hi: nat, size: map<nat, nat>)
    requires Cover(tiles, lo, hi) && BothFree(tiles, i) && Sized(tiles, size)
    ensures Sized(Merged(tiles, i), size[tiles[i].start := tiles[i].len + tiles[i + 1].len])
  {
    var t, size' := Merged(tiles, i), size[tiles[i].start := tiles[i].len + tiles[i + 1].len];
    forall q | 0 <= q < |t| ensures t[q].start in size' && size'[t[q].start] == t[q].len {
      if q < i {
        StartsOutside(tiles, lo, hi, i, q);
      } else if q > i {
        assert t[q] == tiles[q + 1];
        StartsOutside(tiles, lo, hi, i, q + 1);
      }
    }
  }

  lemma MergedLinked(tiles: seq<Tile>, i: nat, lo: nat, hi: nat, head: nat, next: map<nat, nat>)
    requires Cover(tiles, lo, hi) && BothFree(tiles, i) && Linked(tiles, head, next)
    ensures tiles[i + 1].start in next &&
              Linked(Merged(tiles, i), head, next[tiles[i].start := next[tiles[i + 1].start]])
  {
    assert NodeOk(tiles, next, i) && NodeOk(tiles, next, i + 1);
    var t, next' := Merged(tiles, i), next[tiles[i].start := next[tiles[i + 1].start]];
    SamePrefix(tiles, t, 0, i);
    forall q: nat | q < |t| ensures NodeOk(t, next', q) {
      if q < i {
        assert NodeOk(tiles, next, q);
        StartsOutside(tiles, lo, hi, i, q);
        SamePrefix(tiles, t, q + 1, i);
      } else {
        if q > i {
          assert NodeOk(tiles, next, q + 1);
          assert t[q] == tiles[q + 1];
          StartsOutside(tiles, lo, hi, i, q + 1);
        }
        LinkAfter(tiles, i, i + 2, [t[i]], q + 2);
      }
    }
  }

  lemma FreedPairs(tiles: seq<Tile>, k: nat)
    requires Coalesced(tiles) && k < |tiles|
    ensures forall j: nat :: BothFree(Freed(tiles, k), j) ==> j == k || j + 1 == k
  {
    var t := Freed(tiles, k);
    assert forall q :: 0 <= q < |tiles| && q != k ==> t[q] == tiles[q];
    forall j: nat | BothFree(t, j) ensures j == k || j + 1 == k {
      assert !BothFree(tiles, j);
    }
  }

  lemma MergedPairs(tiles: seq<Tile>, i: nat)
    requires BothFree(tiles, i)
    ensures forall j: nat :: BothFree(Merged(tiles, i), j) ==> BothFree(tiles, if j < i then j else j + 1)
  {
    var t := Merged(tiles, i);
    assert forall q :: 0 <= q < i ==> t[q] == tiles[q];
    assert forall q :: i < q < |t| ==> t[q] == tiles[q + 1];
  }

  /** The address comparisons of the code tell whether the freed block has free neighbours. */
  lemma FreeNeighbours(tiles: seq<Tile>, k: nat, lo: nat, hi: nat, prev: nat, pk: nat, cur: nat)
    requires lo > 0 && Cover(tiles, lo, hi) && k < |tiles| && !tiles[k].free
    requires LastFree(tiles, k, prev, pk) && cur == FreeFrom(tiles, k + 1)
    ensures var t := Freed(tiles, k);
      && (cur != 0 && tiles[k].End() == cur <==> BothFree(t, k))
      && (BothFree(t, k) ==> t[k + 1].start == cur)
      && (prev != 0 && tiles[pk].End() == tiles[k].start <==> k > 0 && BothFree(t, k - 1))
      && (k > 0 && BothFree(t, k - 1) ==> pk == k - 1)
  {
    var t := Freed(tiles, k);
    assert forall q :: 0 <= q < |tiles| && q != k ==> t[q] == tiles[q];
    assert Abut(tiles, k);
    if cur != 0 {
      var m := NodeTile(tiles, k + 1);
      if m > k + 1 {
        TilesDisjoint(tiles, lo, hi, k + 1, m);
        assert SaneAt(tiles, k + 1);
      }
    }
    if k + 1 < |tiles| { TilesInside(tiles, lo, hi, k + 1); }
    if k > 0 {
      assert Abut(tiles, k - 1);
      if prev != 0 && pk < k - 1 {
        TilesDisjoint(tiles, lo, hi, pk, k - 1);
        assert SaneAt(tiles, k - 1);
      }
    }
  }

  // ---- The allocator ----

  /** The live blocks. */
  ghost function Live(tiles: seq<Tile>): (s: set<Tile>) { set t | t in tiles && !t.free }

  lemma {:induction false} LiveConcat(a: seq<Tile>, b: seq<Tile>)
    ensures Live(a + b) == Live(a) + Live(b)
  {
    assert forall t :: t in a + b <==> t in a || t in b;
  }

  lemma ReplaceLive(tiles: seq<Tile>, i: nat, j: nat, r: seq<Tile>)
    requires i <= j <= |tiles|
    ensures Live(Replace(tiles, i, j, r)) == Live(tiles[..i]) + Live(r) + Live(tiles[j..])
    ensures Live(tiles) == Live(tiles[..i]) + Live(tiles[i..j]) + Live(tiles[j..])
  {
    LiveConcat(tiles[..i] + r, tiles[j..]);
    LiveConcat(tiles[..i], r);
    LiveConcat(tiles[..i], tiles[i..j]);
    LiveConcat(tiles[..i] + tiles[i..j], tiles[j..]);
    assert tiles == tiles[..i] + tiles[i..j] + tiles[j..];
  }

  /** Carving adds one live block, large enough, at the payload, and touches no other. */
  lemma CarvedLive(tiles: seq<Tile>, k: nat, x: Place, psize: nat, lo: nat, hi: nat) returns (b: Tile)
    requires Cover(tiles, lo, hi) && Carvable(tiles, k, x, psize)
    ensures Live(Carved(tiles, k, x)) == Live(tiles) + {b} && b !in Live(tiles)
    ensures b == Tile(x.hdr, BlockEnd(tiles[k], x) - x.hdr, false) && b.start + 16 == x.p && x.end <= b.End()
  {
    var r := Carve(tiles[k], x);
    b := Tile(x.hdr, BlockEnd(tiles[k], x) - x.hdr, false);
    CarveOk(tiles[k], x, psize);
    ReplaceLive(tiles, k, k + 1, r);
    assert tiles[k..k + 1] == [tiles[k]];
    assert Live([tiles[k]]) == {} && Live(r) == {b};
    forall t | t in Live(tiles) ensures t != b {
      var q: nat :| q < |tiles| && tiles[q] == t;
      StartsOutside(tiles, lo, hi, k, q);
    }
  }

  /** It is at most 32 bytes larger than the payload: its header, and a remainder of 16 bytes. */
  lemma CarvedSize(tiles: seq<Tile>, k: nat, x: Place, psize: nat)
    requires Carvable(tiles, k, x, psize)
    ensures BlockEnd(tiles[k], x) - x.hdr <= psize + 32
  {
    Sixteens(tiles[k].start, tiles[k].len);
    Sixteens(x.p, psize);
    Sixteens(tiles[k].End(), x.end);
  }

  /** Freeing removes that live block only. */
  lemma FreedLive(tiles: seq<Tile>, k: nat, lo: nat, hi: nat)
    requires Cover(tiles, lo, hi) && k < |tiles| && !tiles[k].free
    ensures Live(Freed(tiles, k)) == Live(tiles) - {tiles[k]}
  {
    var t := Freed(tiles, k);
    assert |t| == |tiles| && t[k].free && forall q :: 0 <= q < |tiles| && q != k ==> t[q] == tiles[q];
    forall b ensures b in Live(t) <==> b in Live(tiles) && b != tiles[k] {
      if b in Live(t) {
        var q: nat :| q < |t| && t[q] == b;
        StartsOutside(tiles, lo, hi, k, q);
        assert tiles[q] == b;
      }
      if b in Live(tiles) && b != tiles[k] {
        var q: nat :| q < |tiles| && tiles[q] == b;
        assert t[q] == b;
      }
    }
  }

  lemma MergedLive(tiles: seq<Tile>, i: nat)
    requires BothFree(tiles, i)
    ensures Live(Merged(tiles, i)) == Live(tiles)
  {
    ReplaceLive(tiles, i, i + 2, [Tile(tiles[i].start, tiles[i].len + tiles[i + 1].len, true)]);
    assert tiles[i..i + 2] == [tiles[i], tiles[i + 1]];
  }

  /** With every block freed the arena is one free block again. */
  lemma AllFreeIsOne(tiles: seq<Tile>, lo: nat, hi: nat)
    requires Cover(tiles, lo, hi) && Coalesced(tiles) && Live(tiles) == {}
    ensures |tiles| == 1 && tiles[0].free && tiles[0].start == lo && tiles[0].End() == hi
  {
    forall i | 0 <= i < |tiles| ensures tiles[i].free {
      assert tiles[i] in tiles && tiles[i] !in Live(tiles);
    }
    assert !BothFree(tiles, 0);
  }

  /** Two live blocks, hence their payloads, never overlap. */
  lemma LiveDisjoint(tiles: seq<Tile>, lo: nat, hi: nat, a: Tile, b: Tile)
    requires Cover(tiles, lo, hi) && a in Live(tiles) && b in Live(tiles) && a != b
    ensures a.End() <= b.start || b.End() <= a.start
    ensures lo <= a.start && a.End() <= hi
  {
    var i: nat :| i < |tiles| && tiles[i] == a;
    var j: nat :| j < |tiles| && tiles[j] == b;
    TilesInside(tiles, lo, hi, i);
    if i < j { TilesDisjoint(tiles, lo, hi, i, j); } else { TilesDisjoint(tiles, lo, hi, j, i); }
  }

  class ListAlloc {
    const base: nat
    var head: nat
    var initialized: bool
    var used: nat
    var peak: nat
    var size: map<nat, nat>
    var next: map<nat, nat>
    ghost var tiles: seq<Tile>

    ghost predicate Valid()
      reads this
    {
      && base > 0 && base % 16 == 0
      && Cover(tiles, base, base + HEAP_SIZE) && Coalesced(tiles)
      && used == Bytes(tiles, false) && used <= peak
      && (if initialized then Linked(tiles, head, next) && Sized(tiles, size)
          else tiles == [Tile(base, HEAP_SIZE, true)])
    }

    constructor (base: nat)
      requires base > 0 && base % 16 == 0
      ensures Valid() && tiles == [Tile(base, HEAP_SIZE, true)] && this.base == base
    {
      this.base := base;
      head, initialized, used, peak, size, next := 0, false, 0, 0, map[], map[];
      tiles := [Tile(base, HEAP_SIZE, true)];
    }

    /** The first call turns the arena into one free block. */
    method Initialize()
      requires Valid()
      modifies this
      ensures Valid() && initialized && tiles == old(tiles) && used == old(used) && peak == old(peak)
    {
      if !initialized {
        size := size[base := HEAP_SIZE];
        next := next[base := 0];
        head := base;
        initialized := true;
        assert NodeOk(tiles, next, 0);
      }
    }

    /** Put the pieces of the carved block `cur` in its place in the list. */
    method Splice(cur: nat, prev: nat, x: Place, ghost k: nat, ghost pk: nat, ghost psize: nat)
      requires Valid() && initialized && Carvable(tiles, k, x, psize) && tiles[k].start == cur
      requires LastFree(tiles, k, prev, pk)
      modifies this
      ensures Valid() && initialized && tiles == Carved(old(tiles), k, x)
      ensures used == old(used) + BlockEnd(old(tiles)[k], x) - x.hdr
      ensures peak == if used > old(peak) then used else old(peak)
    {
      CarvedTiles(tiles, k, x, psize, base, base + HEAP_SIZE);
      CarvedSized(tiles, k, x, psize, base, base + HEAP_SIZE, size);
      assert NodeOk(tiles, next, k);
      var sizes, links, first, block := SpliceNodes(size, next, cur, prev, x);
      CarvedLinked(tiles, k, x, psize, base, base + HEAP_SIZE, prev, pk, head, next,
                   if prev == 0 then first else head, links);
      size, next := sizes, links;
      if prev == 0 {
        head := first;
      }
      used := used + block;
      if used > peak {
        peak := used;
      }
      tiles := Carved(tiles, k, x);
    }

    /** The walk of `alloc` along the list to the first block with room, number `k`. */
    method FirstFit(a: nat, psize: nat) returns (cur: nat, prev: nat, x: Place, ghost k: nat, ghost pk: nat)
      requires Valid() && initialized && a > 0 && a % 16 == 0 && psize % 16 == 0 && psize > 0
      ensures cur == 0 ==> forall t :: t in tiles ==> !Fits(t, a, psize)
      ensures cur != 0 ==> Carvable(tiles, k, x, psize) && tiles[k].start == cur && Fits(tiles[k], a, psize)
      ensures cur != 0 ==> x == PlaceAt(cur, a, psize) && x.p % a == 0 && LastFree(tiles, k, prev, pk)
      ensures cur != 0 ==> forall j :: 0 <= j < k ==> !Fits(tiles[j], a, psize)
    {
      prev, cur := 0, head;
      x := Place(0, 0, 0, 0);
      k, pk := 0, 0;
      ghost var i := 0;
      while cur != 0
        invariant i <= |tiles| && cur == FreeFrom(tiles, i) && LastFree(tiles, i, prev, pk)
        invariant forall j :: 0 <= j < i ==> !Fits(tiles[j], a, psize)
        decreases |tiles| - i
      {
        k := NodeTile(tiles, i);
        assert NodeOk(tiles, next, k) && SaneAt(tiles, k);
        x := PlaceAt(cur, a, psize);
        PlaceOk(cur, a, psize, x);
        if x.end <= cur + size[cur] {
          return;
        }
        prev, cur := cur, next[cur];
        i, pk := k + 1, k;
      }
      forall j | 0 <= j < |tiles| ensures tiles[j].start > 0 {
        TilesInside(tiles, base, base + HEAP_SIZE, j);
      }
      NoNode(tiles, i);
    }

    /** First fit. Null exactly when there is room nowhere; otherwise the payload goes to the lowest address
        with room: one new live block, aligned, large enough and at most 48 bytes larger, and every
        other live block as it was. */
    method Alloc(bytes: nat, align: nat) returns (p: nat, ghost b: Tile)
      requires Valid() && PowerOfTwo(align)
      modifies this
      ensures Valid() && initialized
      ensures p == 0 ==> tiles == old(tiles)
      ensures p == 0 <==> forall t, q: nat :: t in old(tiles) ==> !Room(t, Alignment(align), Payload(bytes), q)
      ensures p != 0 ==> exists t :: t in old(tiles) && Room(t, Alignment(align), Payload(bytes), p)
      ensures p != 0 ==>
                forall t, q: nat :: t in old(tiles) && Room(t, Alignment(align), Payload(bytes), q) ==> p <= q
      ensures p != 0 ==> Live(tiles) == old(Live(tiles)) + {b} && b !in old(Live(tiles))
      ensures p != 0 ==> p % Alignment(align) == 0 && b.start + 16 == p && p + bytes <= b.End()
      ensures p != 0 ==> b.len <= bytes + 48 && used == old(used) + b.len
      ensures p == 0 ==> used == old(used) && peak == old(peak)
      ensures p != 0 ==> peak == if used > old(peak) then used else old(peak)
    {
      Initialize();
      b := Tile(0, 0, false);
      var psize := Payload(bytes);
      if align >= 16 { LargePowers(align); }
      var cur, prev, x, k, pk := FirstFit(Alignment(align), psize);
      if cur == 0 {
        NoRoom(tiles, base, base + HEAP_SIZE, Alignment(align), psize);
        return 0, b;
      }
      LowestRoom(tiles, base, base + HEAP_SIZE, Alignment(align), psize, k);
      b := CarvedLive(tiles, k, x, psize, base, base + HEAP_SIZE);
      CarvedSize(tiles, k, x, psize);
      Splice(cur, prev, x, k, pk, psize);
      p := x.p;
    }

    /** Merge free block `i` with its neighbour, also free, as two writes to its node. */
    method Merge(ghost i: nat, at: nat, other: nat)
      requires base > 0 && initialized && Cover(tiles, base, base + HEAP_SIZE)
      requires Linked(tiles, head, next) && Sized(tiles, size)
      requires BothFree(tiles, i) && at == tiles[i].start && other == tiles[i + 1].start
      modifies this`size, this`next, this`tiles
      ensures tiles == Merged(old(tiles), i) && Cover(tiles, base, base + HEAP_SIZE)
      ensures Linked(tiles, head, next) && Sized(tiles, size)
      ensures Bytes(tiles, false) == Bytes(old(tiles), false) && Live(tiles) == Live(old(tiles))
      ensures i < |tiles| && tiles[i].start == at && forall j :: 0 <= j < i ==> tiles[j] == old(tiles)[j]
      ensures forall j: nat :: BothFree(tiles, j) ==> BothFree(old(tiles), if j < i then j else j + 1)
    {
      MergedPairs(tiles, i);
      MergedTiles(tiles, i, base, base + HEAP_SIZE);
      MergedSized(tiles, i, base, base + HEAP_SIZE, size);
      MergedLinked(tiles, i, base, base + HEAP_SIZE, head, next);
      MergedLive(tiles, i);
      assert NodeOk(tiles, next, i);
      size := size[at := size[at] + size[other]];
      next := next[at := next[other]];
      tiles := Merged(tiles, i);
    }

    /** Walk the list to the place of address `hdr`, where live block `k` starts. */
    method FindPlace(hdr: nat, ghost k: nat) returns (prev: nat, cur: nat, ghost pk: nat)
      requires base > 0 && Cover(tiles, base, base + HEAP_SIZE) && Linked(tiles, head, next)
      requires k < |tiles| && !tiles[k].free && tiles[k].start == hdr
      ensures LastFree(tiles, k, prev, pk) && cur == FreeFrom(tiles, k + 1)
    {
      prev, cur, pk := 0, head, 0;
      ghost var i := 0;
      while cur != 0 && cur < hdr
        invariant i <= k && cur == FreeFrom(tiles, i) && LastFree(tiles, i, prev, pk)
        decreases k - i
      {
        ghost var m := NodeTile(tiles, i);
        assert NodeOk(tiles, next, m);
        if k < m { TilesDisjoint(tiles, base, base + HEAP_SIZE, k, m); }
        prev, cur := cur, next[cur];
        i, pk := m + 1, m;
      }
      NoneBetween(tiles, base, base + HEAP_SIZE, i, k);
    }

    /** Link live block `k`, which starts at `hdr`, into the list. */
    method Insert(hdr: nat, ghost k: nat) returns (prev: nat, cur: nat, ghost pk: nat)
      requires base > 0 && initialized && Cover(tiles, base, base + HEAP_SIZE) && Coalesced(tiles)
      requires Linked(tiles, head, next) && Sized(tiles, size)
      requires k < |tiles| && !tiles[k].free && tiles[k].start == hdr
      modifies this`head, this`next, this`tiles
      ensures tiles == Freed(old(tiles), k) && Cover(tiles, base, base + HEAP_SIZE)
      ensures Linked(tiles, head, next) && Sized(tiles, size)
      ensures Bytes(tiles, false) == Bytes(old(tiles), false) - old(tiles)[k].len
      ensures Live(tiles) == Live(old(tiles)) - {old(tiles)[k]}
      ensures forall j: nat :: BothFree(tiles, j) ==> j == k || j + 1 == k
      ensures cur != 0 && hdr + tiles[k].len == cur <==> BothFree(tiles, k)
      ensures BothFree(tiles, k) ==> tiles[k + 1].start == cur
      ensures prev != 0 ==> pk < k && tiles[pk].start == prev
      ensures prev != 0 && tiles[pk].End() == hdr <==> k > 0 && BothFree(tiles, k - 1)
      ensures k > 0 && BothFree(tiles, k - 1) ==> pk == k - 1
    {
      ghost var lo, hi := base, base + HEAP_SIZE;
      FreedTiles(tiles, k, lo, hi);
      FreedSized(tiles, k, size);
      FreedLive(tiles, k, lo, hi);
      prev, cur, pk := FindPlace(hdr, k);
      FreedLinked(tiles, k, lo, hi, prev, pk, head, next,
                  if prev == 0 then hdr else head, LinkIn(next, hdr, prev, cur));
      FreeNeighbours(tiles, k, lo, hi, prev, pk, cur);
      FreedPairs(tiles, k);
      next := next[hdr := cur];
      if prev == 0 {
        head := hdr;
      } else {
        next := next[prev := hdr];
      }
      tiles := Freed(tiles, k);
    }

    /** Merge freed block `k` with the free blocks before and after it. */
    method Coalesce(hdr: nat, prev: nat, cur: nat, ghost k: nat, ghost pk: nat)
      requires base > 0 && initialized && Cover(tiles, base, base + HEAP_SIZE)
      requires Linked(tiles, head, next) && Sized(tiles, size)
      requires k < |tiles| && tiles[k].start == hdr
      requires forall j: nat :: BothFree(tiles, j) ==> j == k || j + 1 == k
      requires cur != 0 && hdr + tiles[k].len == cur <==> BothFree(tiles, k)
      requires BothFree(tiles, k) ==> tiles[k + 1].start == cur
      requires prev != 0 ==> pk < k && tiles[pk].start == prev
      requires prev != 0 && tiles[pk].End() == hdr <==> k > 0 && BothFree(tiles, k - 1)
      requires k > 0 && BothFree(tiles, k - 1) ==> pk == k - 1
      modifies this`size, this`next, this`tiles
      ensures Cover(tiles, base, base + HEAP_SIZE) && Coalesced(tiles)
      ensures Linked(tiles, head, next) && Sized(tiles, size)
      ensures Bytes(tiles, false) == Bytes(old(tiles), false) && Live(tiles) == Live(old(tiles))
    {
      if cur != 0 && hdr + size[hdr] == cur {
        Merge(k, hdr, cur);
      }
      if prev != 0 && prev + size[prev] == hdr {
        Merge(k - 1, prev, hdr);
      }
    }

    /** Give back the payload at `ptr`, that of live block `k`: the block leaves the live ones,
        everything else stays live, and it merges with free neighbours. */
    method Dealloc(ptr: nat, ghost k: nat)
      requires Valid()
      requires ptr != 0 ==> initialized && k < |tiles| && !tiles[k].free && tiles[k].start + 16 == ptr
      modifies this
      ensures Valid()
      ensures ptr == 0 ==> tiles == old(tiles)
      ensures ptr != 0 ==> Live(tiles) == old(Live(tiles)) - {old(tiles)[k]}
      ensures used == old(used) - (if ptr != 0 then old(tiles)[k].len else 0) && peak == old(peak)
    {
      if ptr == 0 {
        return;
      }
      var hdr := ptr - 16;
      var block := size[hdr];
      var prev, cur, pk := Insert(hdr, k);
      used := used - block;
      Coalesce(hdr, prev, cur, k, pk);
    }
  }

  /** The first block that fits has the lowest room. */
  lemma LowestRoom(tiles: seq<Tile>, lo: nat, hi: nat, a: nat, psize: nat, k: nat)
    requires Cover(tiles, lo, hi) && a > 0 && a % 16 == 0 && psize % 16 == 0
    requires k < |tiles| && Fits(tiles[k], a, psize) && forall j :: 0 <= j < k ==> !Fits(tiles[j], a, psize)
    ensures tiles[k] in tiles && Room(tiles[k], a, psize, PlaceAt(tiles[k].start, a, psize).p)
    ensures forall t, q: nat :: t in tiles && Room(t, a, psize, q) ==> PlaceAt(tiles[k].start, a, psize).p <= q
  {
    assert SaneAt(tiles, k);
    RoomFits(tiles[k], a, psize);
    forall t, q: nat | t in tiles && Room(t, a, psize, q) ensures PlaceAt(tiles[k].start, a, psize).p <= q {
      var j: nat :| j < |tiles| && tiles[j] == t;
      assert SaneAt(tiles, j);
      RoomFits(t, a, psize);
      if k < j { TilesDisjoint(tiles, lo, hi, k, j); }
    }
  }

  lemma NoRoom(tiles: seq<Tile>, lo: nat, hi: nat, a: nat, psize: nat)
    requires Cover(tiles, lo, hi) && a > 0 && a % 16 == 0 && psize % 16 == 0
    requires forall t :: t in tiles ==> !Fits(t, a, psize)
    ensures forall t, q: nat :: t in tiles ==> !Room(t, a, psize, q)
  {
    forall t, q: nat | t in tiles ensures !Room(t, a, psize, q) {
      var j: nat :| j < |tiles| && tiles[j] == t;
      assert SaneAt(tiles, j);
      RoomFits(t, a, psize);
    }
  }

  /** Past the loop no free tile lies between index `i` and live tile `k`. */
  lemma NoneBetween(tiles: seq<Tile>, lo: nat, hi: nat, i: nat, k: nat)
    requires lo > 0 && Cover(tiles, lo, hi) && i <= k < |tiles| && !tiles[k].free
    requires FreeFrom(tiles, i) == 0 || FreeFrom(tiles, i) >= tiles[k].start
    ensures forall j :: i <= j < k ==> !tiles[j].free
    ensures FreeFrom(tiles, i) == FreeFrom(tiles, k + 1)
  {
    if FreeFrom(tiles, i) == 0 {
      forall j | 0 <= j < |tiles| ensures tiles[j].start > 0 { TilesInside(tiles, lo, hi, j); }
      NoNode(tiles, i);
    } else {
      var m := NodeTile(tiles, i);
      if m < k {
        TilesDisjoint(tiles, lo, hi, m, k);
        StartsOutside(tiles, lo, hi, k, m);
        assert false;
      }
    }
    Skip(tiles, i, k + 1);
  }

  /** The alignment and payload size a request is rounded to. */
  function Alignment(align: nat): (a: nat) { if align < 16 then 16 else align }

  /** For alignments up to 16 a free block fits exactly when it has room for payload and header. */
  lemma SmallAlignment(t: Tile, align: nat, bytes: nat)
    requires Sane(t) && align <= 16
    ensures Fits(t, Alignment(align), Payload(bytes)) <==> t.free && t.len >= Payload(bytes) + 16
  {
    PlaceOk(t.start, 16, Payload(bytes), PlaceAt(t.start, 16, Payload(bytes)));
  }

  function Payload(bytes: nat): (n: nat)
    ensures bytes <= n <= bytes + 16 && n > 0 && n % 16 == 0
  {
    RoundUp(if bytes == 0 then 1 else bytes, 16)
  }

  /** The writes to the nodes: the remainder, the front pad, the predecessor, the header. */
  method SpliceNodes(size: map<nat, nat>, next: map<nat, nat>, cur: nat, prev: nat, x: Place)
      returns (size': map<nat, nat>, next': map<nat, nat>, first: nat, block: nat)
    requires cur in size && cur in next && x.hdr <= x.end <= cur + size[cur]
    ensures var t := Tile(cur, size[cur], true);
      && size' == NewSize(size, t, x) && next' == NewNext(next, t, x, prev, next[cur])
      && first == FirstNode(t, x, next[cur]) && x.hdr + block == BlockEnd(t, x)
  {
    size', next' := size, next;
    var bound := cur + size[cur];
    var end := if bound - x.end < 32 then bound else x.end;
    var tailNode := next[cur];
    if end < bound {
      size' := size'[end := bound - end];
      next' := next'[end := next[cur]];
      tailNode := end;
    }
    first := tailNode;
    if x.front >= 32 {
      size' := size'[cur := x.front];
      next' := next'[cur := tailNode];
      first := cur;
    }
    if prev != 0 {
      next' := next'[prev := first];
    }
    block := end - x.hdr;
    size' := size'[x.hdr := block];
  }
}
