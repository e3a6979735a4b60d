/** `namex` over the disk: a lookup scans the slots of a directory file, and the text of a symlink is
    read from its file. */
module PathOnDisk {
  import opened Collections
  import opened Layout
  import opened FileTree
  import opened FileOps
  import D = Directory
  import P = PathWalk

  /** What the slots of directory `f` say of a name. */
  ghost function LookupOf(c: Ctx, t: Tree, f: nat, name: P.Path): (r: Option<nat>) {
    if f !in t.inodes then None
    else
      var m, key := D.MapOf(D.Entries(Content(c, t, f))), D.Cut(name);
      if key in m then Some(m[key]) else None
  }

  /** What file `f` says as the text of a symlink; `valid` tells which bytes are text. */
  ghost function TextOf(c: Ctx, t: Tree, valid: P.Path -> bool, f: nat): (r: Option<P.Path>) {
    if f !in t.inodes then None
    else
      var s := Content(c, t, f);
      if 0 < |s| <= 256 && valid(s) then Some(s) else None
  }

  /** The disk as the walk sees it; `kind` is the type field of an inode. */
  ghost function View(c: Ctx, t: Tree, kind: nat -> P.Kind, valid: P.Path -> bool): (v: P.Fs) {
    P.Fs(kind, (f: nat, name: P.Path) => LookupOf(c, t, f, name), (f: nat) => TextOf(c, t, valid, f))
  }

  /** Directories have whole slots and no name twice; no symlink has a NUL in its text. */
  ghost predicate Sound(c: Ctx, t: Tree, kind: nat -> P.Kind) {
    var sound := forall k {:trigger Look(k)} :: Look(k) ==>
      && Own(c, t) && ZeroTail(c, t)
      && (forall f: nat :: kind(f) == P.Dir ==>
            f in t.inodes && t.inodes[f].size % 16 == 0 && D.Unique(D.Entries(Content(c, t, f))))
      && (forall f: nat :: kind(f) == P.Symlink ==> f in t.inodes && D.NulFree(Content(c, t, f)));
    sound
  }

  lemma SoundMeans(c: Ctx, t: Tree, kind: nat -> P.Kind, f: nat)
    requires Sound(c, t, kind)
    ensures Own(c, t) && ZeroTail(c, t)
    ensures kind(f) == P.Dir ==>
              f in t.inodes && t.inodes[f].size % 16 == 0 && D.Unique(D.Entries(Content(c, t, f)))
    ensures kind(f) == P.Symlink ==> f in t.inodes && D.NulFree(Content(c, t, f))
  {
    assert Look(0);
  }

  /** On any disk, the walk of a path is the resolution of its list of names. */
  lemma WalkOnDisk(c: Ctx, t: Tree, kind: nat -> P.Kind, valid: P.Path -> bool, ip: nat, path: P.Path,
                   hops: nat, wantParent: bool, followLast: bool)
    requires hops <= P.MAX_HOPS
    ensures
      var v := View(c, t, kind, valid);
      P.Walk(v, ip, path, hops, wantParent, followLast) ==
        P.Resolve(v, ip, P.Components(path), hops, wantParent, followLast)
  {
    P.WalkIsResolve(View(c, t, kind, valid), ip, path, hops, wantParent, followLast);
  }

  // ---- The loop ----

  /** `dirlookup`. */
  method Dirlookup(fs: FileSystem, ghost kind: nat -> P.Kind, ghost valid: P.Path -> bool, f: nat, name: P.Path)
      returns (r: Option<nat>)
    requires Sound(fs.c, fs.T(), kind) && kind(f) == P.Dir && D.NulFree(name)
    ensures r == View(fs.c, fs.T(), kind, valid).lookup(f, name)
  {
    SoundMeans(fs.c, fs.T(), kind, f);
    var d := D.Open(fs, f);
    var found := d.Lookup(name);
    r := if found.Some? then Some(found.value.0) else None;
  }

  /** `read_symlink_body`. */
  method ReadLink(fs: FileSystem, ghost kind: nat -> P.Kind, valid: P.Path -> bool, f: nat) returns (r: Option<P.Path>)
    requires Sound(fs.c, fs.T(), kind) && kind(f) == P.Symlink
    ensures r == View(fs.c, fs.T(), kind, valid).target(f) && (r.Some? ==> D.NulFree(r.value))
  {
    SoundMeans(fs.c, fs.T(), kind, f);
    var size := fs.inodes[f].size;
    if size == 0 || size > 256 {
      return None;
    }
    var s := fs.Readi(f, size, 0);
    assert s == Content(fs.c, fs.T(), f);
    r := if valid(s) then Some(s) else None;
  }

  lemma {:induction false} TrimNulFree(p: P.Path)
    requires D.NulFree(p)
    ensures D.NulFree(P.Trim(p))
  {
    if p != [] && p[0] == P.SLASH {
      TrimNulFree(p[1..]);
    }
  }

  lemma {:induction false} PartsNulFree(p: P.Path)
    requires D.NulFree(p)
    ensures D.NulFree(P.First(p)) && D.NulFree(P.Rest(p))
  {
    if p != [] && p[0] != P.SLASH {
      PartsNulFree(p[1..]);
    }
  }

  lemma SplicedNulFree(text: P.Path, rest: P.Path)
    requires D.NulFree(text) && D.NulFree(rest)
    ensures D.NulFree(P.Spliced(text, rest))
  {
  }

  /** One turn of the loop of `namex`. */
  method Advance(fs: FileSystem, kind: nat -> P.Kind, valid: P.Path -> bool, ip: nat, p: P.Path, hops: nat,
                 wantParent: bool, followLast: bool) returns (r: P.Turn)
    requires Sound(fs.c, fs.T(), kind) && D.NulFree(p)
    ensures r == P.OneTurn(View(fs.c, fs.T(), kind, valid), ip, p, hops, wantParent, followLast)
    ensures r.Next? ==> D.NulFree(r.path)
  {
    var q := P.Trim(p);
    if q == [] {
      return P.Done(if wantParent then None else Some((ip, None)));
    }
    var name, rest := P.First(q), P.Rest(q);
    var last := P.Trim(rest) == [];
    if kind(ip) != P.Dir {
      return P.Done(None);
    }
    if wantParent && last {
      return P.Done(Some((ip, Some(name))));
    }
    TrimNulFree(p);
    PartsNulFree(q);
    var next := Dirlookup(fs, kind, valid, ip, name);
    if next.None? {
      return P.Done(None);
    }
    if kind(next.value) != P.Symlink || (last && !followLast) {
      return P.Next(next.value, rest, hops);
    }
    if hops + 1 > P.MAX_HOPS {
      return P.Done(None);
    }
    var text := ReadLink(fs, kind, valid, next.value);
    if text.None? {
      return P.Done(None);
    }
    var path := P.Spliced(text.value, rest);
    SplicedNulFree(text.value, rest);
    r := P.Next(if path != [] && path[0] == P.SLASH then P.ROOT else ip, path, hops + 1);
  }

  /** `namex`: the loop terminates on every path and every symlink graph, and computes the resolution of the
      names of the path, from the root (inode 1) if it begins with a slash (byte 47), else from `start`. */
  method Namex(fs: FileSystem, kind: nat -> P.Kind, valid: P.Path -> bool, start: nat, path: P.Path,
               wantParent: bool, followLast: bool) returns (r: P.Found)
    requires Sound(fs.c, fs.T(), kind) && D.NulFree(path)
    ensures
      var v, names := View(fs.c, fs.T(), kind, valid), P.Components(path);
      if path != [] && path[0] == 47 then r == P.Resolve(v, 1, names, 0, wantParent, followLast)
      else r == P.Resolve(v, start, names, 0, wantParent, followLast)
  {
    var ip, p, hops := P.Start(start, path), path, 0;
    ghost var v := View(fs.c, fs.T(), kind, valid);
    WalkOnDisk(fs.c, fs.T(), kind, valid, ip, p, hops, wantParent, followLast);
    while true
      invariant hops <= P.MAX_HOPS && D.NulFree(p)
      invariant P.Walk(v, ip, p, hops, wantParent, followLast) ==
                  P.Walk(v, P.Start(start, path), path, 0, wantParent, followLast)
      decreases P.MAX_HOPS - hops, |p|
    {
      var turn := Advance(fs, kind, valid, ip, p, hops, wantParent, followLast);
      P.TurnKeeps(v, ip, p, hops, wantParent, followLast);
      if turn.Done? {
        return turn.found;
      }
      ip, p, hops := turn.ip, turn.path, turn.hops;
    }
  }
}
