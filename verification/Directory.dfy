/** Directories: files of 16-byte slots, each an inode number (0 marks a free slot) and a name
    of up to 14 bytes, NUL-padded, read and written through `readi` and `writei`. */
module Directory {
  import opened Collections
  import opened Layout
  import opened FileTree
  import opened FileOps

  type Name = seq<Byte>

  datatype Dirent = Dirent(inum: nat, name: Name)

  /** A stored name field. */
  predicate Field(s: Name) { |s| == DIRSIZ }

  predicate NulFree(s: Name) { forall i :: 0 <= i < |s| ==> s[i] != 0 }

  /** Names are silently cut to 14 bytes. */
  function Cut(s: Name): (r: Name) { if |s| <= DIRSIZ then s else s[..DIRSIZ] }

  /** A stored field up to its first NUL. */
  function Trimmed(s: Name): (r: Name) { if s == [] || s[0] == 0 then [] else [s[0]] + Trimmed(s[1..]) }

  lemma {:induction false} TrimmedShape(s: Name)
    ensures var n := |Trimmed(s)|;
      n <= |s| && Trimmed(s) == s[..n] && NulFree(Trimmed(s)) && (n < |s| ==> s[n] == 0)
  {
    if s != [] && s[0] != 0 {
      TrimmedShape(s[1..]);
      var n := |Trimmed(s[1..])|;
      assert s[..n + 1] == [s[0]] + s[1..][..n];
    }
  }

  /** The field `dirlink` stores for a name. */
  function Padded(s: Name): (r: Name)
    ensures |r| == DIRSIZ
  {
    Cut(s) + seq(DIRSIZ - |Cut(s)|, i => 0)
  }

  lemma TrimmedPadded(s: Name)
    requires NulFree(s)
    ensures Trimmed(Padded(s)) == Cut(s)
  {
    TrimmedUnique(Padded(s), |Cut(s)|);
    assert Padded(s)[..|Cut(s)|] == Cut(s);
  }

  lemma {:induction false} TrimmedUnique(s: Name, n: nat)
    requires n <= |s| && NulFree(s[..n]) && (n < |s| ==> s[n] == 0)
    ensures Trimmed(s) == s[..n]
  {
    if n > 0 {
      assert s[0] == s[..n][0];
      assert s[1..][..n - 1] == s[..n][1..];
      TrimmedUnique(s[1..], n - 1);
      assert s[..n] == [s[0]] + s[1..][..n - 1];
    }
  }

  /** The comparison loop: true exactly when the stored name is the wanted one cut to 14 bytes. */
  method NameMatches(entry: Dirent, name: Name) returns (b: bool)
    requires Field(entry.name) && NulFree(name)
    ensures b <==> Trimmed(entry.name) == Cut(name)
  {
    var nb := Cut(name);
    TrimmedShape(entry.name);
    var i := 0;
    while i < DIRSIZ
      invariant i <= DIRSIZ && i <= |nb| && entry.name[..i] == nb[..i]
    {
      var want := if i < |nb| then nb[i] else 0;
      if entry.name[i] != want {
        Differ(entry.name, nb, i);
        return false;
      }
      if want == 0 {
        TrimmedUnique(entry.name, i);
        return true;
      }
      assert entry.name[..i + 1] == entry.name[..i] + [entry.name[i]];
      i := i + 1;
    }
    assert entry.name[..DIRSIZ] == entry.name && nb[..DIRSIZ] == nb;
    TrimmedUnique(entry.name, DIRSIZ);
    return true;
  }

  lemma Differ(s: Name, nb: Name, i: nat)
    requires i < |s| && i <= |nb| <= DIRSIZ && NulFree(nb) && s[i] != (if i < |nb| then nb[i] else 0)
    ensures Trimmed(s) != nb
  {
    TrimmedShape(s);
  }

  // ---- Slots as bytes ----

  function EntryAt(s: seq<Byte>, i: nat): (e: Dirent)
    requires 16 * i + 16 <= |s|
  {
    Dirent(s[16 * i] as int + 256 * (s[16 * i + 1] as int), s[16 * i + 2..16 * i + 16])
  }

  /** The slots of a file that holds a directory. */
  function Entries(s: seq<Byte>): (r: seq<Dirent>) {
    seq(|s| / 16, i requires 0 <= i < |s| / 16 => EntryAt(s, i))
  }

  function EntryBytes(e: Dirent): (s: seq<Byte>)
    requires e.inum < 0x1_0000 && Field(e.name)
    ensures |s| == 16
  {
    [e.inum % 256, e.inum / 256] + e.name
  }

  /** Writing one slot, or one past the last, changes that slot only. */
  lemma EntriesOfPwrite(s: seq<Byte>, i: nat, e: Dirent)
    requires |s| % 16 == 0 && 16 * i <= |s| && e.inum < 0x1_0000 && Field(e.name)
    ensures
      var t := Pwrite(s, 16 * i, EntryBytes(e));
      && |t| == (if 16 * i < |s| then |s| else |s| + 16)
      && Entries(t) == if 16 * i < |s| then Entries(s)[i := e] else Entries(s) + [e]
  {
    var t := Pwrite(s, 16 * i, EntryBytes(e));
    assert t[16 * i..16 * i + 16] == EntryBytes(e);
    assert EntryAt(t, i) == e;
    forall j: nat | j < |t| / 16 && j != i ensures EntryAt(t, j) == EntryAt(s, j) {
      assert t[16 * j..16 * j + 16] == s[16 * j..16 * j + 16];
      OtherSlot(s, t, j);
    }
  }

  lemma OtherSlot(s: seq<Byte>, t: seq<Byte>, j: nat)
    requires 16 * j + 16 <= |s| && 16 * j + 16 <= |t| && t[16 * j..16 * j + 16] == s[16 * j..16 * j + 16]
    ensures EntryAt(t, j) == EntryAt(s, j)
  {
    var u, v := t[16 * j..16 * j + 16], s[16 * j..16 * j + 16];
    assert t[16 * j] == u[0] && s[16 * j] == v[0] && t[16 * j + 1] == u[1] && s[16 * j + 1] == v[1];
    assert t[16 * j + 2..16 * j + 16] == u[2..] && s[16 * j + 2..16 * j + 16] == v[2..];
  }

  // ---- The directory as a map ----

  predicate SlotsOk(slots: seq<Dirent>) { forall i :: 0 <= i < |slots| ==> Field(slots[i].name) }

  predicate Live(slots: seq<Dirent>, i: nat) { i < |slots| && slots[i].inum != 0 }

  /** Slot `i` is live and holds the name `key`. */
  predicate Holds(slots: seq<Dirent>, i: nat, key: Name) { Live(slots, i) && Trimmed(slots[i].name) == key }

  /** No two live slots hold the same name. */
  ghost predicate Unique(slots: seq<Dirent>) {
    forall i: nat, j: nat, key :: Holds(slots, i, key) && Holds(slots, j, key) ==> i == j
  }

  /** `m` maps exactly the live names to their inode numbers. */
  ghost predicate Is(slots: seq<Dirent>, m: map<Name, nat>) {
    && (forall i: nat, key :: Holds(slots, i, key) ==> key in m && m[key] == slots[i].inum)
    && (forall key {:trigger Has(slots, key)} :: key in m ==> Has(slots, key))
  }

  ghost predicate Has(slots: seq<Dirent>, key: Name) { exists i: nat :: Holds(slots, i, key) }

  /** Slot `i` is the first that is free, or the one after the last. */
  predicate FirstFree(slots: seq<Dirent>, i: nat) {
    i <= |slots| && !Live(slots, i) && forall j: nat :: j < i ==> Live(slots, j)
  }

  function Put(slots: seq<Dirent>, i: nat, e: Dirent): (r: seq<Dirent>)
    requires i <= |slots|
  {
    if i < |slots| then slots[i := e] else slots + [e]
  }

  /** None of the first `n` slots holds the name. */
  ghost predicate NoneOf(slots: seq<Dirent>, n: nat, key: Name) {
    var none := forall j: nat :: j < n ==> !Holds(slots, j, key);
    none
  }

  lemma NoneMore(slots: seq<Dirent>, n: nat, key: Name)
    requires NoneOf(slots, n, key) && !Holds(slots, n, key)
    ensures NoneOf(slots, n + 1, key)
  {
  }

  lemma NotThere(slots: seq<Dirent>, m: map<Name, nat>, key: Name)
    requires Is(slots, m) && NoneOf(slots, |slots|, key)
    ensures key !in m
  {
    assert !Has(slots, key);
  }

  function LiveCount(slots: seq<Dirent>): (n: nat)
    ensures n <= |slots|
  {
    if slots == [] then 0 else LiveCount(slots[..|slots| - 1]) + if slots[|slots| - 1].inum != 0 then 1 else 0
  }

  lemma {:induction false} CountUpdate(slots: seq<Dirent>, i: nat, e: Dirent)
    requires i < |slots|
    ensures LiveCount(slots[i := e]) == LiveCount(slots) +
              (if e.inum != 0 then 1 else 0) - (if slots[i].inum != 0 then 1 else 0)
  {
    var t := slots[i := e];
    if i == |slots| - 1 {
      assert t[..i] == slots[..i];
    } else {
      CountUpdate(slots[..|slots| - 1], i, e);
      assert t[..|slots| - 1] == slots[..|slots| - 1][i := e];
    }
  }

  lemma {:induction false} CountFull(slots: seq<Dirent>)
    requires forall i: nat :: i < |slots| ==> Live(slots, i)
    ensures LiveCount(slots) == |slots|
  {
    if slots != [] {
      var t := slots[..|slots| - 1];
      assert Live(slots, |slots| - 1);
      forall i: nat | i < |t| ensures Live(t, i) {
        assert Live(slots, i);
      }
      CountFull(t);
    }
  }

  /** A name goes into a slot that was free, or into a new one at the end. */
  lemma NameLinked(slots: seq<Dirent>, m: map<Name, nat>, t: seq<Dirent>, i: nat, e: Dirent)
    requires SlotsOk(slots) && Unique(slots) && Is(slots, m) && Field(e.name) && e.inum != 0 && Trimmed(e.name) !in m
    requires (i < |slots| && !Live(slots, i) && t == slots[i := e]) || (i == |slots| && t == slots + [e])
    ensures SlotsOk(t) && Unique(t) && Is(t, m[Trimmed(e.name) := e.inum])
  {
    var key := Trimmed(e.name);
    assert forall j: nat, k :: Holds(t, j, k) <==> if j == i then k == key else Holds(slots, j, k);
    var m' := m[key := e.inum];
    forall k | k in m' ensures Has(t, k) {
      if k == key {
        assert Holds(t, i, key);
      } else {
        assert Has(slots, k);
        var j: nat :| Holds(slots, j, k);
        assert Holds(t, j, k);
      }
    }
  }

  lemma NameUnlinked(slots: seq<Dirent>, m: map<Name, nat>, i: nat, key: Name, e: Dirent)
    requires SlotsOk(slots) && Unique(slots) && Is(slots, m) && Holds(slots, i, key) && e.inum == 0 && Field(e.name)
    ensures var t := slots[i := e]; SlotsOk(t) && Unique(t) && Is(t, m - {key})
  {
    var t := slots[i := e];
    assert forall j: nat, k :: Holds(t, j, k) <==> j != i && Holds(slots, j, k);
    forall k | k in m - {key} ensures Has(t, k) {
      assert Has(slots, k);
      var j: nat :| Holds(slots, j, k);
      assert Holds(t, j, k);
    }
  }

  /** The map of a directory without doubles. */
  function MapOf(slots: seq<Dirent>): (m: map<Name, nat>) {
    if slots == [] then map[]
    else
      var m, e := MapOf(slots[..|slots| - 1]), slots[|slots| - 1];
      if e.inum != 0 then m[Trimmed(e.name) := e.inum] else m
  }

  lemma {:induction false} IsMapOf(slots: seq<Dirent>)
    requires Unique(slots)
    ensures Is(slots, MapOf(slots))
  {
    if slots != [] {
      var n := |slots| - 1;
      var t, e := slots[..n], slots[n];
      assert forall i: nat, key :: Holds(t, i, key) <==> i < n && Holds(slots, i, key);
      assert slots == t + [e];
      IsMapOf(t);
      forall key | key in MapOf(slots) ensures Has(slots, key) {
        if e.inum != 0 && key == Trimmed(e.name) {
          assert Holds(slots, n, key);
        } else {
          assert Has(t, key);
          var i: nat :| Holds(t, i, key);
          assert Holds(slots, i, key);
        }
      }
      forall i: nat, key | Holds(slots, i, key) ensures key in MapOf(slots) && MapOf(slots)[key] == slots[i].inum {
        if i < n {
          assert Holds(t, i, key);
          assert e.inum != 0 ==> Holds(slots, n, Trimmed(e.name));
        }
      }
    }
  }

  lemma {:induction false} CountIsSize(slots: seq<Dirent>)
    requires Unique(slots)
    ensures LiveCount(slots) == |MapOf(slots)|
  {
    if slots != [] {
      var n := |slots| - 1;
      var t, e := slots[..n], slots[n];
      assert forall i: nat, key :: Holds(t, i, key) <==> i < n && Holds(slots, i, key);
      CountIsSize(t);
      IsMapOf(t);
      if e.inum != 0 && Trimmed(e.name) in MapOf(t) {
        assert Has(t, Trimmed(e.name));
        var i: nat :| Holds(t, i, Trimmed(e.name));
        assert Holds(slots, i, Trimmed(e.name)) && Holds(slots, n, Trimmed(e.name));
      }
    }
  }

  /** A new entry in the first free slot, or at the end: the slots grow exactly when all were live. */
  lemma PutCount(before: seq<Dirent>, after: seq<Dirent>, target: nat, e: Dirent)
    requires target <= |before| && e.inum != 0 && !Live(before, target)
    requires forall j: nat :: j < target ==> Live(before, j)
    requires after == if target < |before| then before[target := e] else before + [e]
    ensures LiveCount(after) == LiveCount(before) + 1
    ensures |after| == if LiveCount(after) > |before| then LiveCount(after) else |before|
  {
    if target < |before| {
      CountUpdate(before, target, e);
    } else {
      CountFull(before);
      assert after[..|after| - 1] == before;
    }
  }

  function Max(s: seq<nat>): (n: nat)
    requires s != []
    ensures n in s && forall i :: 0 <= i < |s| ==> s[i] <= n
  {
    if |s| == 1 then s[0]
    else var m := Max(s[..|s| - 1]); if s[|s| - 1] > m then s[|s| - 1] else m
  }

  lemma MaxSnoc(s: seq<nat>, k: nat)
    requires s != []
    ensures Max(s + [k]) == if k > Max(s) then k else Max(s)
  {
    assert (s + [k])[..|s|] == s;
  }

  // ---- The file that holds a directory ----

  /** File `f` holds exactly `slots`, on a well-formed disk. */
  ghost predicate Stored(c: Ctx, t: Tree, f: nat, slots: seq<Dirent>) {
    var stored := forall k {:trigger Look(k)} :: Look(k) ==>
      && Own(c, t) && ZeroTail(c, t)
      && f in t.inodes && t.inodes[f].size == 16 * |slots|
      && slots == Entries(Content(c, t, f));
    stored
  }

  lemma StoredMeans(c: Ctx, t: Tree, f: nat, slots: seq<Dirent>)
    requires Stored(c, t, f, slots)
    ensures Own(c, t) && ZeroTail(c, t) && f in t.inodes
    ensures t.inodes[f].size == 16 * |slots| && slots == Entries(Content(c, t, f))
  {
    assert Look(0);
  }

  lemma StoredNow(c: Ctx, t: Tree, f: nat, s: seq<Byte>)
    requires Own(c, t) && ZeroTail(c, t) && f in t.inodes && Content(c, t, f) == s && |s| % 16 == 0
    ensures Stored(c, t, f, Entries(s))
  {
  }

  /** Every file of whole slots on a well-formed disk holds some slots. */
  lemma SomeStored(c: Ctx, t: Tree, f: nat)
    requires Own(c, t) && ZeroTail(c, t) && f in t.inodes && t.inodes[f].size % 16 == 0
    ensures Stored(c, t, f, Entries(Content(c, t, f))) && SlotsOk(Entries(Content(c, t, f)))
  {
    EntryFields(Content(c, t, f));
  }

  lemma EntryFields(s: seq<Byte>)
    ensures SlotsOk(Entries(s))
  {
    assert forall i: nat :: i < |s| / 16 ==> Field(EntryAt(s, i).name);
  }

  ghost predicate OthersKept(c: Ctx, t: Tree, t': Tree, f: nat) {
    t.inodes.Keys == t'.inodes.Keys
    && forall g {:trigger Content(c, t', g)} :: g in t.inodes && g != f ==> Content(c, t', g) == Content(c, t, g)
  }

  /** One `readi` of a slot. */
  method ReadSlot(fs: FileSystem, f: nat, i: nat, ghost slots: seq<Dirent>) returns (e: Dirent)
    requires Stored(fs.c, fs.T(), f, slots) && i < |slots|
    ensures e == slots[i]
  {
    StoredMeans(fs.c, fs.T(), f, slots);
    var bytes := fs.Readi(f, 16, 16 * i);
    ghost var s := Content(fs.c, fs.T(), f);
    SlotRead(s, bytes, i);
    e := EntryAt(bytes, 0);
  }

  lemma SlotRead(s: seq<Byte>, bytes: seq<Byte>, i: nat)
    requires 16 * i + 16 <= |s| && bytes == s[16 * i..16 * i + 16]
    ensures EntryAt(bytes, 0) == Entries(s)[i]
  {
    assert bytes[2..16] == s[16 * i + 2..16 * i + 16];
  }

  /** A write that stops at a block boundary stops before the slot or after it. */
  lemma SlotsDoNotStraddle(i: nat, n: nat)
    requires 16 * i >= 512 * MAXFILE ==> n == 0
    requires 16 * i < 512 * MAXFILE ==>
               n <= Clip(16 * i, 16) && (0 < n < Clip(16 * i, 16) ==> EndsAt(16 * i, n) == 0)
    ensures n == 0 || n == 16
    ensures 16 * i < 512 * MAXFILE ==> Clip(16 * i, 16) == 16
  {
    if 16 * i < 512 * MAXFILE {
      assert (512 * MAXFILE) % 16 == 0;
    }
  }

  /** One `writei` of a slot: all of it or, on a full disk or at the size cap, nothing. */
  method WriteSlot(fs: FileSystem, f: nat, i: nat, e: Dirent, ghost slots: seq<Dirent>) returns (ok: bool)
    requires Stored(fs.c, fs.T(), f, slots) && i <= |slots| && e.inum < 0x1_0000 && Field(e.name)
    modifies fs
    ensures !ok ==> Stored(fs.c, fs.T(), f, slots) && (Full(fs.c, fs.blocks) || 16 * i >= 512 * MAXFILE)
    ensures ok ==> Stored(fs.c, fs.T(), f, if i < |slots| then slots[i := e] else slots + [e])
    ensures OthersKept(fs.c, old(fs.T()), fs.T(), f)
  {
    StoredMeans(fs.c, fs.T(), f, slots);
    ghost var s := Content(fs.c, fs.T(), f);
    EntriesOfPwrite(s, i, e);
    var bytes := EntryBytes(e);
    var n := fs.Writei(f, bytes, 16 * i);
    SlotsDoNotStraddle(i, n);
    ok := n == 16;
    assert bytes[..16] == bytes;
    StoredNow(fs.c, fs.T(), f, if ok then Pwrite(s, 16 * i, bytes) else s);
  }

  // ---- dirlookup, dirlink, dirunlink_at ----

  /** What a directory goes through. */
  datatype Command = Link(name: Name, inum: nat) | Unlink(name: Name)

  predicate Fits(cmd: Command) { NulFree(cmd.name) && (cmd.Link? ==> 0 < cmd.inum < 0x1_0000) }

  /** The directory after a command that took effect, or did not. */
  function After(m: map<Name, nat>, cmd: Command, ok: bool): (m': map<Name, nat>) {
    if !ok then m
    else if cmd.Link? then m[Cut(cmd.name) := cmd.inum] else m - {Cut(cmd.name)}
  }

  function AfterAll(m: map<Name, nat>, cmds: seq<Command>, oks: seq<bool>): (m': map<Name, nat>)
    requires |cmds| == |oks|
  {
    if cmds == [] then m
    else After(AfterAll(m, cmds[..|cmds| - 1], oks[..|oks| - 1]), cmds[|cmds| - 1], oks[|oks| - 1])
  }

  /** How many names there are at the start and after each command. */
  function Sizes(m: map<Name, nat>, cmds: seq<Command>, oks: seq<bool>): (s: seq<nat>)
    requires |cmds| == |oks|
    ensures |s| == |cmds| + 1 && s[|cmds|] == |AfterAll(m, cmds, oks)|
  {
    if cmds == [] then [|m|]
    else Sizes(m, cmds[..|cmds| - 1], oks[..|oks| - 1]) + [|AfterAll(m, cmds, oks)|]
  }

  /** The directory in file `f`, with its slots and itself as a map. */
  class Dir {
    const fs: FileSystem
    const f: nat
    ghost var slots: seq<Dirent>
    ghost var m: map<Name, nat>

    /** Live names are unique and are the keys of `m`. */
    ghost predicate Valid()
      reads this, fs
    {
      && Stored(fs.c, fs.T(), f, slots)
      && SlotsOk(slots) && Unique(slots) && Is(slots, m) && LiveCount(slots) == |m|
    }

    /** Any stored slots without doubles; without free slots, there are as many as names. */
    constructor (fs: FileSystem, f: nat, ghost slots: seq<Dirent>)
      requires Stored(fs.c, fs.T(), f, slots) && SlotsOk(slots) && Unique(slots)
      ensures Valid() && this.fs == fs && this.f == f && this.slots == slots && m == MapOf(slots)
      ensures (forall i: nat :: i < |slots| ==> Live(slots, i)) ==> |slots| == |m|
    {
      this.fs, this.f := fs, f;
      this.slots, m := slots, MapOf(slots);
      IsMapOf(slots);
      CountIsSize(slots);
      if forall i: nat :: i < |slots| ==> Live(slots, i) {
        CountFull(slots);
      }
    }

    /** `dirlookup` and `dirlookup_full`: what the map says, and the slot it is in. */
    method Lookup(name: Name) returns (r: Option<(nat, nat)>)
      requires Valid() && NulFree(name)
      ensures r.None? <==> Cut(name) !in m
      ensures r.Some? ==> r.value.0 == m[Cut(name)] && r.value.0 != 0 && Holds(slots, r.value.1, Cut(name))
    {
      var n := Count();
      var i := 0;
      while i < n
        invariant i <= n
        invariant NoneOf(slots, i, Cut(name))
      {
        var entry := ReadSlot(fs, f, i, slots);
        var same := NameMatches(entry, name);
        if entry.inum != 0 && same {
          assert Holds(slots, i, Cut(name));
          return Some((entry.inum, i));
        }
        NoneMore(slots, i, Cut(name));
        i := i + 1;
      }
      NotThere(slots, m, Cut(name));
      r := None;
    }

    /** The number of slots, from the size of the file. */
    method Count() returns (n: nat)
      requires Valid()
      ensures n == |slots|
    {
      StoredMeans(fs.c, fs.T(), f, slots);
      n := fs.inodes[f].size / 16;
    }

    /** The loop of `dirlink`: is the name there, and where is the first free slot? */
    method Search(name: Name) returns (found: bool, target: nat)
      requires Valid() && NulFree(name)
      ensures found <==> Cut(name) in m
      ensures !found ==> FirstFree(slots, target)
    {
      var n := Count();
      var free: Option<nat> := None;
      var i := 0;
      while i < n
        invariant i <= n
        invariant NoneOf(slots, i, Cut(name))
        invariant free.Some? ==> free.value < i && !Live(slots, free.value)
        invariant forall j: nat :: j < (if free.Some? then free.value else i) ==> Live(slots, j)
      {
        var entry := ReadSlot(fs, f, i, slots);
        if entry.inum == 0 {
          if free.None? {
            free := Some(i);
          }
        } else {
          var same := NameMatches(entry, name);
          if same {
            assert Holds(slots, i, Cut(name));
            return true, 0;
          }
        }
        NoneMore(slots, i, Cut(name));
        i := i + 1;
      }
      NotThere(slots, m, Cut(name));
      return false, if free.Some? then free.value else n;
    }

    /** `dirlink`: refuses a name that exists; otherwise the first free slot, or a new one, takes it,
        unless the disk is full or the directory as large as a file can be. */
    method LinkName(name: Name, inum: nat) returns (ok: bool)
      requires Valid() && NulFree(name) && 0 < inum < 0x1_0000
      modifies this, fs
      ensures Valid() && m == if ok then old(m)[Cut(name) := inum] else old(m)
      ensures Cut(name) in old(m) ==> !ok
      ensures !ok ==> slots == old(slots)
      ensures ok ==> exists i: nat ::
                FirstFree(old(slots), i) && slots == Put(old(slots), i, Dirent(inum, Padded(name)))
      ensures !ok && Cut(name) !in old(m) ==> Full(fs.c, fs.blocks) || 16 * |slots| >= 512 * MAXFILE
      ensures |slots| == if |m| > |old(slots)| then |m| else |old(slots)|
      ensures OthersKept(fs.c, old(fs.T()), fs.T(), f)
    {
      var found, target := Search(name);
      if found {
        return false;
      }
      var entry := Dirent(inum, Padded(name));
      TrimmedPadded(name);
      ok := WriteSlot(fs, f, target, entry, slots);
      if ok {
        ghost var after := Put(slots, target, entry);
        NameLinked(slots, m, after, target, entry);
        PutCount(slots, after, target, entry);
        slots, m := after, m[Cut(name) := inum];
      }
    }

    /** `dirlookup_full` and `dirunlink_at`. */
    method UnlinkName(name: Name) returns (ok: bool)
      requires Valid() && NulFree(name)
      modifies this, fs
      ensures Valid() && m == if ok then old(m) - {Cut(name)} else old(m)
      ensures Cut(name) !in old(m) ==> !ok
      ensures !ok ==> slots == old(slots)
      ensures !ok && Cut(name) in old(m) ==> Full(fs.c, fs.blocks) || 16 * |slots| >= 512 * MAXFILE
      ensures |slots| == |old(slots)|
      ensures OthersKept(fs.c, old(fs.T()), fs.T(), f)
    {
      var r := Lookup(name);
      if r.None? {
        return false;
      }
      var cleared := Dirent(0, seq(DIRSIZ, k => 0));
      ok := WriteSlot(fs, f, r.value.1, cleared, slots);
      if ok {
        NameUnlinked(slots, m, r.value.1, Cut(name), cleared);
        CountUpdate(slots, r.value.1, cleared);
        slots, m := slots[r.value.1 := cleared], m - {Cut(name)};
      }
    }

    method Do(cmd: Command) returns (ok: bool)
      requires Valid() && Fits(cmd)
      modifies this, fs
      ensures Valid() && m == After(old(m), cmd, ok)
      ensures |slots| == if |m| > |old(slots)| then |m| else |old(slots)|
      ensures OthersKept(fs.c, old(fs.T()), fs.T(), f)
    {
      match cmd
      case Link(name, inum) => ok := LinkName(name, inum);
      case Unlink(name) =>
        ok := UnlinkName(name);
    }

    /** From a directory without free slots, any commands: the directory is what the successful ones
        make of it, and the file has as many slots as there were names at the fullest moment. */
    method Run(cmds: seq<Command>) returns (oks: seq<bool>)
      requires Valid() && |slots| == |m| && forall i :: 0 <= i < |cmds| ==> Fits(cmds[i])
      modifies this, fs
      ensures Valid() && |oks| == |cmds| && m == AfterAll(old(m), cmds, oks)
      ensures |slots| == Max(Sizes(old(m), cmds, oks))
      ensures OthersKept(fs.c, old(fs.T()), fs.T(), f)
    {
      oks := [];
      ghost var m0 := m;
      ghost var t0 := fs.T();
      assert cmds[..0] == [];
      while |oks| < |cmds|
        invariant Valid() && |oks| <= |cmds| && m == AfterAll(m0, cmds[..|oks|], oks)
        invariant |slots| == Max(Sizes(m0, cmds[..|oks|], oks))
        invariant OthersKept(fs.c, t0, fs.T(), f)
      {
        var i := |oks|;
        ghost var t1 := fs.T();
        var ok := Do(cmds[i]);
        Snoc(m0, cmds, oks, ok);
        OthersTrans(fs.c, t0, t1, fs.T(), f);
        oks := oks + [ok];
      }
      assert cmds[..|cmds|] == cmds;
    }
  }

  /** Open any file of whole slots on a well-formed disk, in which no name occurs twice. */
  method Open(fs: FileSystem, f: nat) returns (d: Dir)
    requires Own(fs.c, fs.T()) && ZeroTail(fs.c, fs.T()) && f in fs.inodes && fs.inodes[f].size % 16 == 0
    requires Unique(Entries(Content(fs.c, fs.T(), f)))
    ensures fresh(d) && d.Valid() && d.fs == fs && d.f == f && d.slots == Entries(Content(fs.c, fs.T(), f))
    ensures d.m == MapOf(d.slots)
    ensures (forall i: nat :: i < |d.slots| ==> Live(d.slots, i)) ==> |d.slots| == |d.m|
  {
    SomeStored(fs.c, fs.T(), f);
    d := new Dir(fs, f, Entries(Content(fs.c, fs.T(), f)));
  }

  lemma Snoc(m: map<Name, nat>, cmds: seq<Command>, oks: seq<bool>, ok: bool)
    requires |oks| < |cmds|
    ensures
      var now := AfterAll(m, cmds[..|oks| + 1], oks + [ok]);
      && now == After(AfterAll(m, cmds[..|oks|], oks), cmds[|oks|], ok)
      && var top := Max(Sizes(m, cmds[..|oks|], oks));
      Max(Sizes(m, cmds[..|oks| + 1], oks + [ok])) == if |now| > top then |now| else top
  {
    var cs, os := cmds[..|oks| + 1], oks + [ok];
    assert cs[..|cs| - 1] == cmds[..|oks|] && os[..|os| - 1] == oks;
    MaxSnoc(Sizes(m, cmds[..|oks|], oks), |AfterAll(m, cs, os)|);
  }

  lemma OthersTrans(c: Ctx, t0: Tree, t1: Tree, t2: Tree, f: nat)
    requires OthersKept(c, t0, t1, f) && OthersKept(c, t1, t2, f)
    ensures OthersKept(c, t0, t2, f)
  {
    forall g | g in t0.inodes && g != f ensures Content(c, t2, g) == Content(c, t0, g) {
      assert Content(c, t1, g) == Content(c, t0, g);
    }
  }
}
