/** Path resolution with symlink splicing, on a file system that does not change. */
module PathWalk {
  import opened Collections
  import opened Layout

  /** Text as bytes. */
  type Path = seq<Byte>

  const SLASH: Byte := 47

  datatype Kind = Dir | Symlink | Other

  /** What the walk asks of the file system: the kind of an inode, a directory lookup, and the text
      of a symlink (absent when empty, longer than 256 bytes or not text). Inode 1 is the root. */
  datatype Fs = Fs(kind: nat -> Kind, lookup: (nat, Path) -> Option<nat>, target: nat -> Option<Path>)

  const ROOT: nat := 1
  const MAX_HOPS: nat := 40

  /** The path without leading slashes. */
  function Trim(p: Path): (r: Path)
    ensures |r| <= |p| && (r != [] ==> r[0] != SLASH)
  {
    if p != [] && p[0] == SLASH then Trim(p[1..]) else p
  }

  /** The first component of a path that does not start with a slash, and what follows its slash. */
  function First(p: Path): (r: Path)
    ensures |r| <= |p|
  {
    if p == [] || p[0] == SLASH then [] else [p[0]] + First(p[1..])
  }

  function Rest(p: Path): (r: Path)
    ensures |r| <= |p| && (p != [] ==> |r| < |p|)
  {
    if p == [] then [] else if p[0] == SLASH then p[1..] else Rest(p[1..])
  }

  function Spliced(target: Path, rest: Path): (r: Path) { if rest == [] then target else target + [SLASH] + rest }

  /** Inode and, when the parent is asked for, the last component. */
  type Found = Option<(nat, Option<Path>)>

  /** The walk from directory `ip` with `hops` symlinks followed. The measure is the number of hops
      left, then the length of the remaining path. */
  function Walk(fs: Fs, ip: nat, path: Path, hops: nat, wantParent: bool, followLast: bool): (r: Found)
    requires hops <= MAX_HOPS
    decreases MAX_HOPS - hops, |path|
  {
    var p := Trim(path);
    if p == [] then (if wantParent then None else Some((ip, None)))
    else
      var name, rest := First(p), Rest(p);
      var last := Trim(rest) == [];
      if fs.kind(ip) != Dir then None
      else if wantParent && last then Some((ip, Some(name)))
      else
        var next := fs.lookup(ip, name);
        if next.None? then None
        else if fs.kind(next.value) == Symlink && (!last || followLast) then
          if hops + 1 > MAX_HOPS then None
          else
            var text := fs.target(next.value);
            if text.None? then None
            else
              var q := Spliced(text.value, rest);
              Walk(fs, if q != [] && q[0] == SLASH then ROOT else ip, q, hops + 1, wantParent, followLast)
        else Walk(fs, next.value, rest, hops, wantParent, followLast)
  }

  /** How a turn of the loop of `namex` ends. */
  datatype Turn = Done(found: Found) | Next(ip: nat, path: Path, hops: nat)

  /** One turn of that loop. */
  function OneTurn(fs: Fs, ip: nat, path: Path, hops: nat, wantParent: bool, followLast: bool): (r: Turn)
    ensures r.Next? && hops <= MAX_HOPS ==> hops <= r.hops <= MAX_HOPS && (r.hops == hops ==> |r.path| < |path|)
  {
    var p := Trim(path);
    var name, rest := First(p), Rest(p);
    var last := Trim(rest) == [];
    if p == [] then Done(if wantParent then None else Some((ip, None)))
    else if fs.kind(ip) != Dir then Done(None)
    else if wantParent && last then Done(Some((ip, Some(name))))
    else
      var next := fs.lookup(ip, name);
      if next.None? then Done(None)
      else if fs.kind(next.value) != Symlink || (last && !followLast) then Next(next.value, rest, hops)
      else if hops + 1 > MAX_HOPS || fs.target(next.value).None? then Done(None)
      else
        var q := Spliced(fs.target(next.value).value, rest);
        Next(if q != [] && q[0] == SLASH then ROOT else ip, q, hops + 1)
  }

  /** A turn leaves the same walk to be done. */
  lemma {:induction false} TurnKeeps(fs: Fs, ip: nat, path: Path, hops: nat, wantParent: bool, followLast: bool)
    requires hops <= MAX_HOPS
    ensures
      Walk(fs, ip, path, hops, wantParent, followLast) ==
        match OneTurn(fs, ip, path, hops, wantParent, followLast)
        case Done(found) => found
        case Next(ip', path', hops') => Walk(fs, ip', path', hops', wantParent, followLast)
  {
  }

  function Start(start: nat, path: Path): (ip: nat) { if path != [] && path[0] == SLASH then ROOT else start }

  // ---- nameiparent and namei_nofollow ----

  lemma {:induction false} TrimSpliced(text: Path, rest: Path)
    requires Trim(rest) != []
    ensures Trim(Spliced(text, rest)) != []
  {
    var q := Spliced(text, rest);
    if text == [] {
      assert q[1..] == rest;
    } else if text[0] == SLASH {
      assert q[1..] == Spliced(text[1..], rest);
      TrimSpliced(text[1..], rest);
    }
  }

  /** If the parent walk gives (d, name), the walk that does not follow a last symlink gives exactly
      what looking up name in d gives; if it gives nothing, that walk finds nothing. */
  lemma {:induction false} ParentThenLookup(fs: Fs, ip: nat, path: Path, hops: nat)
    requires hops <= MAX_HOPS
    ensures
      var parent := Walk(fs, ip, path, hops, true, true);
      parent.Some? ==>
        && parent.value.1.Some? && fs.kind(parent.value.0) == Dir
        && Walk(fs, ip, path, hops, false, false) ==
             (var n := fs.lookup(parent.value.0, parent.value.1.value); if n.None? then None else Some((n.value, None)))
    ensures Walk(fs, ip, path, hops, true, true).None? && Trim(path) != [] ==>
              Walk(fs, ip, path, hops, false, false).None?
    decreases MAX_HOPS - hops, |path|
  {
    var p := Trim(path);
    if p != [] && fs.kind(ip) == Dir {
      var name, rest := First(p), Rest(p);
      var next := fs.lookup(ip, name);
      if Trim(rest) != [] && next.Some? {
        if fs.kind(next.value) == Symlink {
          if hops + 1 <= MAX_HOPS && fs.target(next.value).Some? {
            var q := Spliced(fs.target(next.value).value, rest);
            TrimSpliced(fs.target(next.value).value, rest);
            ParentThenLookup(fs, if q != [] && q[0] == SLASH then ROOT else ip, q, hops + 1);
          }
        } else {
          ParentThenLookup(fs, next.value, rest, hops);
        }
      }
    }
  }

  /** The two entry points agree on every path, start and file system. */
  lemma ParentAgrees(fs: Fs, start: nat, path: Path)
    ensures
      var parent := Walk(fs, Start(start, path), path, 0, true, true);
      && (parent.Some? ==>
            && parent.value.1.Some?
            && Walk(fs, Start(start, path), path, 0, false, false) ==
                 (var n := fs.lookup(parent.value.0, parent.value.1.value);
                  if n.None? then None else Some((n.value, None))))
      && (parent.None? && Trim(path) != [] ==> Walk(fs, Start(start, path), path, 0, false, false).None?)
  {
    ParentThenLookup(fs, Start(start, path), path, 0);
  }

  // ---- What a walk means ----

  /** The non-empty components between slashes. */
  function Components(path: Path): (r: seq<Path>)
    decreases |path|
  {
    var p := Trim(path);
    if p == [] then [] else [First(p)] + Components(Rest(p))
  }

  predicate Absolute(path: Path) { path != [] && path[0] == SLASH }

  /** No symlink has an empty text. */
  ghost predicate TextsOk(fs: Fs) { forall i: nat :: fs.target(i) != Some([]) }

  /** Look up a list of names. A symlink on the way is replaced by the names of its text, looked up
      from the directory that holds it, or from the root. */
  function Resolve(fs: Fs, ip: nat, names: seq<Path>, hops: nat, wantParent: bool, followLast: bool): (r: Found)
    requires hops <= MAX_HOPS
    decreases MAX_HOPS - hops, |names|
  {
    if names == [] then (if wantParent then None else Some((ip, None)))
    else if fs.kind(ip) != Dir then None
    else if wantParent && |names| == 1 then Some((ip, Some(names[0])))
    else
      var next := fs.lookup(ip, names[0]);
      if next.None? then None
      else if fs.kind(next.value) == Symlink && (|names| > 1 || followLast) then
        if hops == MAX_HOPS || fs.target(next.value).None? then None
        else
          var text := fs.target(next.value).value;
          Resolve(fs, if Absolute(text) then ROOT else ip, Components(text) + names[1..], hops + 1,
                  wantParent, followLast)
      else Resolve(fs, next.value, names[1..], hops, wantParent, followLast)
  }

  lemma ComponentsOf(p: Path)
    requires p != [] && p[0] != SLASH
    ensures Components(p) == [First(p)] + Components(Rest(p))
  {
  }

  /** Splicing paths is joining lists of names. */
  lemma {:induction false} ComponentsJoin(a: Path, b: Path)
    ensures Components(a + [SLASH] + b) == Components(a) + Components(b)
    decreases |a|
  {
    var q := a + [SLASH] + b;
    if a == [] {
      assert q[0] == SLASH && q[1..] == b;
      assert Trim(q) == Trim(b);
    } else if a[0] == SLASH {
      assert q[1..] == a[1..] + [SLASH] + b;
      ComponentsJoin(a[1..], b);
      assert Trim(q) == Trim(q[1..]) && Trim(a) == Trim(a[1..]);
    } else {
      FirstOf(a, b);
      ComponentsOf(q);
      ComponentsOf(a);
      if Rest(q) != b || Rest(a) != [] {
        ComponentsJoin(Rest(a), b);
      }
    }
  }

  /** The first component of a path is that of its front part, and splitting it off leaves the join of
      the rest, or the second part alone. */
  lemma {:induction false} FirstOf(a: Path, b: Path)
    requires a != [] && a[0] != SLASH
    ensures var q := a + [SLASH] + b;
      First(q) == First(a) && (Rest(q) == Rest(a) + [SLASH] + b || (Rest(q) == b && Rest(a) == []))
  {
    var q := a + [SLASH] + b;
    assert q[0] == a[0] && q[1..] == a[1..] + [SLASH] + b;
    if |a| == 1 {
      assert q[1..] == [SLASH] + b && q[1..][1..] == b;
    } else if a[1] == SLASH {
      assert q[1..][0] == SLASH && q[1..][1..] == a[1..][1..] + [SLASH] + b;
    } else {
      FirstOf(a[1..], b);
    }
  }

  /** On every file system, start and path, the walk resolves the list of names. */
  lemma {:induction false} WalkIsResolve(fs: Fs, ip: nat, path: Path, hops: nat, wantParent: bool, followLast: bool)
    requires hops <= MAX_HOPS && TextsOk(fs)
    ensures Walk(fs, ip, path, hops, wantParent, followLast) ==
            Resolve(fs, ip, Components(path), hops, wantParent, followLast)
    decreases MAX_HOPS - hops, |path|
  {
    var p := Trim(path);
    if p == [] {
      return;
    }
    var rest := Rest(p);
    var names := Components(path);
    assert names[0] == First(p) && names[1..] == Components(rest);
    var next := fs.lookup(ip, First(p));
    if fs.kind(ip) == Dir && next.Some? && !(wantParent && |names| == 1) {
      if fs.kind(next.value) == Symlink && (|names| > 1 || followLast) {
        if hops < MAX_HOPS && fs.target(next.value).Some? {
          var text := fs.target(next.value).value;
          var q := Spliced(text, rest);
          ComponentsJoin(text, rest);
          assert Components(q) == Components(text) + Components(rest) && Absolute(q) == Absolute(text);
          WalkIsResolve(fs, if Absolute(q) then ROOT else ip, q, hops + 1, wantParent, followLast);
        }
      } else {
        WalkIsResolve(fs, next.value, rest, hops, wantParent, followLast);
      }
    }
  }

  /** Look the names up one after the other, meeting no symlink. */
  function Descend(fs: Fs, ip: nat, names: seq<Path>): (r: Option<nat>)
    decreases names
  {
    if names == [] then Some(ip)
    else if fs.kind(ip) != Dir then None
    else
      var next := fs.lookup(ip, names[0]);
      if next.None? || fs.kind(next.value) == Symlink then None else Descend(fs, next.value, names[1..])
  }

  lemma {:induction false} DescendFirst(fs: Fs, ip: nat, front: seq<Path>, names: seq<Path>, hops: nat,
                                        wantParent: bool, followLast: bool)
    requires hops <= MAX_HOPS && Descend(fs, ip, front).Some? && (wantParent ==> names != [])
    ensures Resolve(fs, ip, front + names, hops, wantParent, followLast) ==
            Resolve(fs, Descend(fs, ip, front).value, names, hops, wantParent, followLast)
    decreases front
  {
    if front == [] {
      assert front + names == names;
    } else {
      assert (front + names)[1..] == front[1..] + names;
      DescendFirst(fs, fs.lookup(ip, front[0]).value, front[1..], names, hops, wantParent, followLast);
    }
  }

  /** Following a symlink is substituting its text for its name in the path, at the cost of a hop; an
      absolute text replaces what is in front of the name as well. */
  lemma LinkIsSubstitution(fs: Fs, ip: nat, front: Path, name: Path, rest: Path, hops: nat,
                           wantParent: bool, followLast: bool)
    requires hops < MAX_HOPS && TextsOk(fs) && name != [] && SLASH !in name
    requires Descend(fs, ip, Components(front)).Some?
    requires
      var d := Descend(fs, ip, Components(front)).value;
      && fs.kind(d) == Dir && fs.lookup(d, name).Some?
      && var link := fs.lookup(d, name).value;
      fs.kind(link) == Symlink && fs.target(link).Some?
    requires Components(rest) != [] || (followLast && !wantParent)
    ensures
      var text := fs.target(fs.lookup(Descend(fs, ip, Components(front)).value, name).value).value;
      Walk(fs, ip, front + [SLASH] + (name + [SLASH] + rest), hops, wantParent, followLast) ==
        if Absolute(text) then Walk(fs, ROOT, text + [SLASH] + rest, hops + 1, wantParent, followLast)
        else Walk(fs, ip, front + [SLASH] + (text + [SLASH] + rest), hops + 1, wantParent, followLast)
  {
    var text := fs.target(fs.lookup(Descend(fs, ip, Components(front)).value, name).value).value;
    NamesOf(front, name, rest);
    NamesOf(front, text, rest);
    OneComponent(name);
    assert Components(name) == [name];
    WalkIsResolve(fs, ip, front + [SLASH] + (name + [SLASH] + rest), hops, wantParent, followLast);
    if Absolute(text) {
      WalkIsResolve(fs, ROOT, text + [SLASH] + rest, hops + 1, wantParent, followLast);
    } else {
      WalkIsResolve(fs, ip, front + [SLASH] + (text + [SLASH] + rest), hops + 1, wantParent, followLast);
    }
    ResolveLink(fs, ip, Components(front), name, Components(rest), hops, wantParent, followLast);
  }

  lemma ResolveLink(fs: Fs, ip: nat, front: seq<Path>, name: Path, rest: seq<Path>, hops: nat,
                    wantParent: bool, followLast: bool)
    requires hops < MAX_HOPS && TextsOk(fs) && Descend(fs, ip, front).Some?
    requires
      var d := Descend(fs, ip, front).value;
      && fs.kind(d) == Dir && fs.lookup(d, name).Some?
      && var link := fs.lookup(d, name).value;
      fs.kind(link) == Symlink && fs.target(link).Some?
    requires rest != [] || (followLast && !wantParent)
    ensures
      var text := fs.target(fs.lookup(Descend(fs, ip, front).value, name).value).value;
      Resolve(fs, ip, front + ([name] + rest), hops, wantParent, followLast) ==
        if Absolute(text) then Resolve(fs, ROOT, Components(text) + rest, hops + 1, wantParent, followLast)
        else Resolve(fs, ip, front + (Components(text) + rest), hops + 1, wantParent, followLast)
  {
    var d := Descend(fs, ip, front).value;
    var text := fs.target(fs.lookup(d, name).value).value;
    DescendFirst(fs, ip, front, [name] + rest, hops, wantParent, followLast);
    assert ([name] + rest)[1..] == rest;
    if !Absolute(text) {
      NonEmpty(text);
      DescendFirst(fs, ip, front, Components(text) + rest, hops + 1, wantParent, followLast);
    }
  }

  lemma NamesOf(front: Path, middle: Path, rest: Path)
    ensures Components(middle + [SLASH] + rest) == Components(middle) + Components(rest)
    ensures Components(front + [SLASH] + (middle + [SLASH] + rest)) ==
            Components(front) + (Components(middle) + Components(rest))
  {
    ComponentsJoin(middle, rest);
    ComponentsJoin(front, middle + [SLASH] + rest);
  }

  lemma NonEmpty(text: Path)
    requires text != [] && !Absolute(text)
    ensures Components(text) != []
  {
  }

  /** Without symlinks the walk looks up the names in order, whatever the number of slashes; the
      parent walk stops one short. */
  lemma {:induction false} WalkIsDescent(fs: Fs, ip: nat, path: Path, hops: nat, followLast: bool)
    requires hops <= MAX_HOPS && forall i: nat :: fs.kind(i) != Symlink
    ensures
      var d := Descend(fs, ip, Components(path));
      Walk(fs, ip, path, hops, false, followLast) == if d.None? then None else Some((d.value, None))
    decreases |path|
  {
    var p := Trim(path);
    if p != [] {
      var names := Components(path);
      assert names[0] == First(p) && names[1..] == Components(Rest(p));
      if fs.kind(ip) == Dir && fs.lookup(ip, First(p)).Some? {
        WalkIsDescent(fs, fs.lookup(ip, First(p)).value, Rest(p), hops, followLast);
      }
    }
  }

  lemma {:induction false} ParentIsDescent(fs: Fs, ip: nat, path: Path, hops: nat, followLast: bool)
    requires hops <= MAX_HOPS && forall i: nat :: fs.kind(i) != Symlink
    ensures
      var names := Components(path);
      Walk(fs, ip, path, hops, true, followLast) ==
        if names == [] then None
        else
          var d := Descend(fs, ip, names[..|names| - 1]);
          if d.None? || fs.kind(d.value) != Dir then None else Some((d.value, Some(names[|names| - 1])))
    decreases |path|
  {
    var p := Trim(path);
    if p != [] {
      var names, tail := Components(path), Components(Rest(p));
      assert names[0] == First(p) && names[1..] == tail;
      if tail != [] {
        assert names[..|names| - 1][1..] == tail[..|tail| - 1];
        if fs.kind(ip) == Dir && fs.lookup(ip, First(p)).Some? {
          ParentIsDescent(fs, fs.lookup(ip, First(p)).value, Rest(p), hops, followLast);
        }
      }
    }
  }

  /** A symlink that names itself is given up after 40 hops, not followed for ever. */
  lemma {:induction false} SelfLink(fs: Fs, ip: nat, link: nat, name: Path, hops: nat)
    requires hops <= MAX_HOPS && name != [] && SLASH !in name
    requires fs.kind(ip) == Dir && fs.lookup(ip, name) == Some(link) && fs.kind(link) == Symlink &&
               fs.target(link) == Some(name)
    ensures Walk(fs, ip, name, hops, false, true) == None
    decreases MAX_HOPS - hops
  {
    OneComponent(name);
    if hops < MAX_HOPS {
      SelfLink(fs, ip, link, name, hops + 1);
    }
  }

  lemma {:induction false} OneComponent(name: Path)
    requires SLASH !in name
    ensures First(name) == name && Rest(name) == [] && Trim(name) == name
  {
    if name != [] {
      assert name[0] in name;
      OneComponent(name[1..]);
    }
  }

  predicate IsName(name: Path) { name != [] && SLASH !in name }

  /** The names with a slash before each. */
  function Joined(names: seq<Path>): (p: Path) {
    if names == [] then [] else Joined(names[..|names| - 1]) + [SLASH] + names[|names| - 1]
  }

  /** Splitting undoes joining. */
  lemma {:induction false} SplitOfJoined(names: seq<Path>)
    requires forall i :: 0 <= i < |names| ==> IsName(names[i])
    ensures Components(Joined(names)) == names
  {
    if names != [] {
      var init, last := names[..|names| - 1], names[|names| - 1];
      SplitOfJoined(init);
      ComponentsJoin(Joined(init), last);
      OneComponent(last);
      assert Components(last) == [last];
    }
  }

  /** Every component is a name. */
  lemma {:induction false} ComponentsAreNames(path: Path)
    ensures forall i :: 0 <= i < |Components(path)| ==> IsName(Components(path)[i])
    decreases |path|
  {
    var p := Trim(path);
    if p != [] {
      FirstIsName(p);
      ComponentsAreNames(Rest(p));
    }
  }

  lemma {:induction false} FirstIsName(p: Path)
    requires p != [] && p[0] != SLASH
    ensures IsName(First(p))
  {
    if |p| > 1 && p[1] != SLASH {
      FirstIsName(p[1..]);
    }
  }

  /** In directory `ip` each name but the last is a symlink to the next. */
  ghost predicate Chain(fs: Fs, ip: nat, names: seq<Path>) {
    fs.kind(ip) == Dir && forall k :: 0 <= k < |names| - 1 ==>
      IsName(names[k]) && LinksTo(fs, ip, names[k], names[k + 1])
  }

  ghost predicate LinksTo(fs: Fs, ip: nat, name: Path, text: Path) {
    var l := fs.lookup(ip, name);
    l.Some? && fs.kind(l.value) == Symlink && fs.target(l.value) == Some(text)
  }

  /** Of a chain of links exactly 40 are followed: its end is found if and only if there are no more. */
  lemma {:induction false} FortyHops(fs: Fs, ip: nat, names: seq<Path>, file: nat, hops: nat)
    requires hops <= 40 && names != [] && Chain(fs, ip, names) && IsName(names[|names| - 1])
    requires fs.lookup(ip, names[|names| - 1]) == Some(file) && fs.kind(file) != Symlink
    ensures Walk(fs, ip, names[0], hops, false, true) == if hops + |names| - 1 <= 40 then Some((file, None)) else None
    decreases |names|
  {
    OneComponent(names[0]);
    if |names| > 1 {
      assert LinksTo(fs, ip, names[0], names[1]);
      assert IsName(names[1]) by { assert |names| > 2 ==> LinksTo(fs, ip, names[1], names[2]); }
      if hops < 40 {
        var rest := names[1..];
        forall k | 0 <= k < |rest| - 1 ensures IsName(rest[k]) && LinksTo(fs, ip, rest[k], rest[k + 1]) {
          assert LinksTo(fs, ip, names[k + 1], names[k + 2]);
        }
        FortyHops(fs, ip, rest, file, hops + 1);
      }
    }
  }

  /** Nothing is looked up in what is no directory. */
  lemma NotADirectory(fs: Fs, ip: nat, path: Path, hops: nat, wantParent: bool, followLast: bool)
    requires hops <= MAX_HOPS && fs.kind(ip) != Dir && Components(path) != []
    ensures Walk(fs, ip, path, hops, wantParent, followLast) == None
  {
  }

  /** A walk that follows links does not end at one. */
  lemma {:induction false} EndsAtNoLink(fs: Fs, ip: nat, names: seq<Path>, hops: nat)
    requires hops <= MAX_HOPS && TextsOk(fs) && fs.kind(ROOT) != Symlink && (names == [] ==> fs.kind(ip) != Symlink)
    ensures
      var r := Resolve(fs, ip, names, hops, false, true);
      r.Some? ==> fs.kind(r.value.0) != Symlink
    decreases MAX_HOPS - hops, |names|
  {
    if names != [] && fs.kind(ip) == Dir {
      var next := fs.lookup(ip, names[0]);
      if next.Some? {
        if fs.kind(next.value) != Symlink {
          EndsAtNoLink(fs, next.value, names[1..], hops);
        } else if hops < MAX_HOPS && fs.target(next.value).Some? {
          var text := fs.target(next.value).value;
          EndsAtNoLink(fs, if Absolute(text) then ROOT else ip, Components(text) + names[1..], hops + 1);
        }
      }
    }
  }
}
