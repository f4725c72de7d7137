/** The part of the operating system the update steps touch: a file tree
    addressed by cleaned absolute paths, the `os` and `path/filepath` calls
    made on it, and the service-manager actions (stop, start, reload,
    restart), which are recorded as events with an outcome given from
    outside. */
module Fs {
  import opened Text

  /** A cleaned absolute path, as its components; `[]` is the root "/". */
  type Path = seq<string>

  type Byte = b: int | 0 <= b < 256

  /** Unix permission bits. */
  type Perm = nat

  /** 0644, the mode a newly written file gets. */
  const FilePerm: Perm := 420
  /** 0755, the mode given to the executable and to new directories. */
  const ExecPerm: Perm := 493

  /** A node of the tree. Directories carry no mode in this model. */
  datatype Node = File(body: seq<Byte>, perm: Perm) | Dir

  type Tree = map<Path, Node>

  datatype Option<T> = None | Some(value: T)

  /** The error values that reach the caller of an update. */
  datatype Error =
    | NotExist(path: Path)      // ENOENT
    | NotDir(path: Path)        // ENOTDIR: a component on the way is a file
    | IsDir(path: Path)         // EISDIR
    | Exists(path: Path)        // EEXIST: os.Rename onto a directory
    | NotEmpty(path: Path)      // ENOTEMPTY from os.Remove
    | Busy(path: Path)          // EBUSY: removing the root
    | FileExists(path: Path)    // "cannot create directory %q: file exists"
    | NoUpdateURL               // "no update url provided"
    | BadPattern                // filepath.ErrBadPattern
    | External(cause: string)   // executable lookup, download, unpack, service manager

  datatype Result<T> = Ok(value: T) | Err(error: Error)

  /** `filepath.Dir` on a cleaned absolute path. */
  function Parent(p: Path): (q: Path)
    ensures p != [] ==> |q| == |p| - 1 && q <= p
    ensures p == [] ==> q == []
  {
    if p == [] then [] else p[..|p| - 1]
  }

  /** `filepath.Base` on a cleaned absolute path. */
  function Base(p: Path): string {
    if p == [] then "/" else p[|p| - 1]
  }

  /** A component of a cleaned path. */
  predicate IsName(c: string) {
    c != "" && c != "." && c != ".." && '/' !in c
  }

  predicate IsClean(p: Path) {
    forall i :: 0 <= i < |p| ==> IsName(p[i])
  }

  /** Lexical cleaning of `base` followed by the pieces of a relative name:
      empty and "." pieces vanish, ".." drops the last component (and stays
      at the root, as `filepath.Clean` does for an absolute path). */
  function Resolve(base: Path, parts: seq<string>): (r: Path)
    ensures IsClean(base) && (forall k :: 0 <= k < |parts| ==> '/' !in parts[k]) ==> IsClean(r)
    decreases |parts|
  {
    if parts == [] then base
    else if parts[0] == "" || parts[0] == "." then Resolve(base, parts[1..])
    else if parts[0] == ".." then Resolve(Parent(base), parts[1..])
    else Resolve(base + [parts[0]], parts[1..])
  }

  /** `filepath.Join(dir, name)` for a cleaned absolute `dir`. */
  function Join(dir: Path, name: string): (r: Path)
    ensures IsClean(dir) ==> IsClean(r)
  {
    Resolve(dir, Split(name))
  }

  /** Joining a path's base name onto its directory gives the path back. */
  lemma JoinBase(p: Path)
    requires p != [] && IsClean(p)
    ensures Join(Parent(p), Base(p)) == p
  {
    var b := Base(p);
    assert IsName(b);
    assert Split(b) == [b];
    assert [b][1..] == [];
    assert Resolve(Parent(p), [b]) == Resolve(Parent(p) + [b], []);
    assert Parent(p) + [b] == p;
  }

  /** The path whose text is that of `p` followed by `suffix` (`self + "~"`,
      `self + ".<date>.tmp"`); `suffix` is taken to hold no separator. */
  function Sibling(p: Path, suffix: string): (q: Path)
    ensures suffix != "" ==> q != p
    ensures q != [] && Parent(q) == Parent(p)
  {
    if p == [] then [suffix]
    else
      var q := Parent(p) + [Base(p) + suffix];
      assert |q[|q| - 1]| > |p[|p| - 1]| || suffix == "";
      q
  }

  /** The tree invariant: the root is a directory and every other node sits
      in a directory. */
  ghost predicate Valid(t: Tree) {
    && [] in t && t[[]].Dir?
    && forall p :: p in t && p != [] ==> Parent(p) in t && t[Parent(p)].Dir?
  }

  /** Some proper ancestor of `p` is a file. */
  ghost predicate Blocked(t: Tree, p: Path) {
    exists i :: 0 <= i < |p| && p[..i] in t && t[p[..i]].File?
  }

  /** In a valid tree every ancestor of a present node is a directory. */
  lemma {:induction false} AncestorsAreDirs(t: Tree, p: Path)
    requires Valid(t) && p in t
    ensures forall i :: 0 <= i < |p| ==> p[..i] in t && t[p[..i]].Dir?
    decreases |p|
  {
    if p != [] {
      var q := Parent(p);
      AncestorsAreDirs(t, q);
      forall i | 0 <= i < |p| ensures p[..i] in t && t[p[..i]].Dir? {
        if i < |q| {
          assert p[..i] == q[..i];
        } else {
          assert p[..i] == q;
        }
      }
    }
  }

  /** The ancestors of `p` are those of its parent and the parent itself. */
  lemma BlockedStep(t: Tree, p: Path)
    requires p != []
    ensures Blocked(t, p) <==> Blocked(t, Parent(p)) || (Parent(p) in t && t[Parent(p)].File?)
  {
    var q := Parent(p);
    if Blocked(t, p) {
      var i :| 0 <= i < |p| && p[..i] in t && t[p[..i]].File?;
      if i < |q| {
        assert q[..i] == p[..i];
      } else {
        assert p[..i] == q;
      }
    }
    if Blocked(t, q) {
      var i :| 0 <= i < |q| && q[..i] in t && t[q[..i]].File?;
      assert p[..i] == q[..i];
    }
    if q in t && t[q].File? {
      assert p[..|q|] == q;
    }
  }

  datatype StatResult = Found(node: Node) | Absent | UnderFile

  /** `os.Stat`: the node, or ENOENT (`Absent`, which `os.IsNotExist`
      accepts), or ENOTDIR when a component on the way is a file
      (`UnderFile`, which `os.IsNotExist` rejects). */
  function Stat(t: Tree, p: Path): (r: StatResult)
    ensures r.Found? <==> p in t
    ensures r.Found? ==> r.node == t[p]
    decreases |p|
  {
    if p in t then Found(t[p])
    else if p == [] then Absent
    else
      match Stat(t, Parent(p))
      case Found(n) => if n.Dir? then Absent else UnderFile
      case Absent => Absent
      case UnderFile => UnderFile
  }

  /** What `Stat` reports about an absent path, in terms of the tree. */
  lemma {:induction false} StatMeaning(t: Tree, p: Path)
    requires Valid(t)
    ensures Stat(t, p).Found? <==> p in t
    ensures Stat(t, p) == Absent <==> p !in t && !Blocked(t, p)
    ensures Stat(t, p) == UnderFile <==> p !in t && Blocked(t, p)
    decreases |p|
  {
    if p !in t {
      var q := Parent(p);
      StatMeaning(t, q);
      BlockedStep(t, p);
      if q in t {
        AncestorsAreDirs(t, q);
        assert !Blocked(t, q);
      }
    }
  }

  /** The error a call on a path that is not there reports. */
  function LookupError(t: Tree, p: Path): Error {
    if Stat(t, p) == UnderFile then NotDir(p) else NotExist(p)
  }

  /** `os.MkdirAll`: an existing directory is success, an existing file is
      ENOTDIR, otherwise the parent is made first and then the path. */
  function MkdirAll(t: Tree, p: Path): Result<Tree>
    decreases |p|
  {
    if p in t then (if t[p].Dir? then Ok(t) else Err(NotDir(p)))
    else if p == [] then Ok(t[p := Dir])
    else
      match MkdirAll(t, Parent(p))
      case Ok(t1) => Ok(t1[p := Dir])
      case Err(e) => Err(e)
  }

  /** `t2` is `t` with every ancestor-or-self of `p` present as a directory and nothing else changed. */
  ghost predicate MadeDirs(t: Tree, p: Path, t2: Tree) {
    && (forall q :: q in t2 <==> q in t || q <= p)
    && (forall q :: q in t ==> t2[q] == t[q])
    && (forall q :: q in t2 && q <= p ==> t2[q] == Dir)
  }

  /** `MkdirAll` succeeds exactly when no ancestor-or-self of `p` is a file. */
  lemma {:induction false} MkdirAllSucceeds(t: Tree, p: Path)
    requires Valid(t)
    ensures MkdirAll(t, p).Ok? <==> !Blocked(t, p) && (p in t ==> t[p].Dir?)
    decreases |p|
  {
    if p in t {
      AncestorsAreDirs(t, p);
    } else if p != [] {
      MkdirAllSucceeds(t, Parent(p));
      BlockedStep(t, p);
    }
  }

  /** A proper prefix of a path is a prefix of its parent. */
  lemma PrefixOfParent(r: Path, p: Path)
    requires r <= p && r != p
    ensures r <= Parent(p)
  {
    assert |r| < |p|;
    assert r == p[..|r|];
    assert Parent(p)[..|r|] == p[..|r|];
  }

  /** On success `MkdirAll` adds the missing directories on the way to `p`
      and nothing else, and the tree stays a tree. */
  lemma {:induction false} MkdirAllEffect(t: Tree, p: Path)
    requires Valid(t) && MkdirAll(t, p).Ok?
    ensures Valid(MkdirAll(t, p).value) && MadeDirs(t, p, MkdirAll(t, p).value)
    decreases |p|
  {
    if p in t {
      AncestorsAreDirs(t, p);
      forall q | q <= p ensures q in t && t[q] == Dir {
        if q != p {
          assert |q| < |p| && q == p[..|q|];
          assert p[..|q|] in t;
        }
      }
    } else {
      var q := Parent(p);
      MkdirAllEffect(t, q);
      var t1 := MkdirAll(t, q).value;
      var t2 := t1[p := Dir];
      assert MkdirAll(t, p).value == t2;
      assert p != [];
      assert q <= p;
      forall r | r in t2 ensures r in t || r <= p {
        if r != p {
          assert r in t1;
          if r <= q { assert q <= p; }
        }
      }
      forall r | r in t || r <= p ensures r in t2 {
        if r !in t && r != p { PrefixOfParent(r, p); }
      }
      forall r | r in t2 && r <= p ensures t2[r] == Dir {
        if r != p { PrefixOfParent(r, p); }
      }
      forall r | r in t2 && r != [] ensures Parent(r) in t2 && t2[Parent(r)].Dir? {
        if r != p { assert r in t1; }
      }
    }
  }

  /** `os.WriteFile`: an existing file is truncated and keeps its mode; a new
      file is created with `perm` inside an existing directory. */
  function WriteFile(t: Tree, p: Path, body: seq<Byte>, perm: Perm): (r: Result<Tree>)
    ensures r.Ok? ==> p in r.value && r.value[p] == File(body, if p in t && t[p].File? then t[p].perm else perm)
    ensures p in t && t[p].Dir? ==> r == Err(IsDir(p))
  {
    if p in t then
      (if t[p].File? then Ok(t[p := File(body, t[p].perm)]) else Err(IsDir(p)))
    else if p != [] && Parent(p) in t && t[Parent(p)].Dir? then Ok(t[p := File(body, perm)])
    else Err(LookupError(t, p))
  }

  /** `os.Rename` of a file, as on Unix: a directory at the destination
      gives EEXIST, or the source's own error when the source is missing;
      otherwise the node moves and replaces a file at the destination.
      Renaming a directory elsewhere is outside the model and fails. */
  function Rename(t: Tree, src: Path, dst: Path): (r: Result<Tree>)
    ensures r.Ok? ==> src in t && t[src].File? && dst in r.value && r.value[dst] == t[src]
    ensures r.Ok? && src != dst ==> src !in r.value
    ensures src in t && dst in t && t[dst].Dir? ==> r == Err(Exists(dst))
  {
    if dst in t && t[dst].Dir? then
      (if src !in t then Err(LookupError(t, src)) else Err(Exists(dst)))
    else if src !in t then Err(LookupError(t, src))
    else if t[src].Dir? then Err(IsDir(src))
    else if src == dst then Ok(t)
    else if dst == [] || Parent(dst) !in t || !t[Parent(dst)].Dir? then Err(LookupError(t, dst))
    else Ok((t - {src})[dst := t[src]])
  }

  /** `os.RemoveAll`: the path and everything below it go, the root stays.
      Errors from it are only logged by its callers, so it has none here. */
  function RemoveAll(t: Tree, p: Path): (r: Tree)
    ensures forall q :: q in r <==> q in t && (q == [] || !(p <= q))
  {
    map q | q in t && (q == [] || !(p <= q)) :: t[q]
  }

  predicate HasChild(t: Tree, p: Path) {
    exists q :: q in t && q != [] && Parent(q) == p
  }

  /** `os.Remove`: a file or an empty directory goes. */
  function Remove(t: Tree, p: Path): (r: Result<Tree>)
    ensures r.Ok? <==> p in t && p != [] && !(t[p].Dir? && HasChild(t, p))
    ensures r.Ok? ==> r.value == t - {p}
  {
    if p !in t then Err(LookupError(t, p))
    else if p == [] then Err(Busy(p))
    else if t[p].Dir? && HasChild(t, p) then Err(NotEmpty(p))
    else Ok(t - {p})
  }

  /** `os.Chmod`. */
  function Chmod(t: Tree, p: Path, perm: Perm): (r: Result<Tree>)
    ensures r.Ok? <==> p in t
    ensures r.Ok? && t[p].File? ==> p in r.value && r.value[p] == File(t[p].body, perm)
  {
    if p !in t then Err(LookupError(t, p))
    else if t[p].File? then Ok(t[p := File(t[p].body, perm)])
    else Ok(t)
  }

  /** `os.WriteFile` changes nothing but its path. */
  lemma WriteFileFrame(t: Tree, p: Path, body: seq<Byte>, perm: Perm, q: Path)
    requires q != p && WriteFile(t, p, body, perm).Ok?
    ensures var t2 := WriteFile(t, p, body, perm).value;
      (q in t2 <==> q in t) && (q in t ==> t2[q] == t[q])
  {
  }

  /** `os.Rename` changes nothing but its two paths. */
  lemma RenameFrame(t: Tree, src: Path, dst: Path, q: Path)
    requires q != src && q != dst && Rename(t, src, dst).Ok?
    ensures var t2 := Rename(t, src, dst).value;
      (q in t2 <==> q in t) && (q in t ==> t2[q] == t[q])
  {
  }

  /** Every call on the tree keeps it a tree. */
  lemma WriteFileValid(t: Tree, p: Path, body: seq<Byte>, perm: Perm)
    requires Valid(t) && WriteFile(t, p, body, perm).Ok?
    ensures Valid(WriteFile(t, p, body, perm).value)
  {
  }

  lemma RenameValid(t: Tree, src: Path, dst: Path)
    requires Valid(t) && Rename(t, src, dst).Ok?
    ensures Valid(Rename(t, src, dst).value)
  {
    var t2 := Rename(t, src, dst).value;
    if src != dst {
      forall q | q in t2 && q != [] ensures Parent(q) in t2 && t2[Parent(q)].Dir? {
        if q != dst {
          assert q in t && q != src;
          assert Parent(q) != src;
        }
      }
    }
  }

  lemma RemoveAllValid(t: Tree, p: Path)
    requires Valid(t)
    ensures Valid(RemoveAll(t, p))
  {
    var t2 := RemoveAll(t, p);
    forall q | q in t2 && q != [] ensures Parent(q) in t2 && t2[Parent(q)].Dir? {
      assert !(p <= q);
      assert Parent(q) <= q;
      assert Parent(q) in t;
    }
  }

  lemma RemoveValid(t: Tree, p: Path)
    requires Valid(t) && Remove(t, p).Ok?
    ensures Valid(Remove(t, p).value)
  {
    var t2 := Remove(t, p).value;
    forall q | q in t2 && q != [] ensures Parent(q) in t2 && t2[Parent(q)].Dir? {
      assert q in t;
      if Parent(q) == p {
        assert t[p].Dir?;
        assert HasChild(t, p);
      }
    }
  }

  lemma ChmodValid(t: Tree, p: Path, perm: Perm)
    requires Valid(t) && Chmod(t, p, perm).Ok?
    ensures Valid(Chmod(t, p, perm).value)
  {
  }
}

/** The machine the service runs on, as mutable state: the file tree and
    the log of service-manager actions. Each method is one `os` call or one
    service-manager action. */
module Os {
  import opened Fs

  /** The service-manager actions, in the order they were asked for. */
  datatype Event = StopCalled | StartCalled | ReloadCalled | RestartCalled

  /** What the service manager answers to each action (nil or an error). */
  datatype Platform = Platform(stop: Option<Error>, start: Option<Error>, reload: Option<Error>, restart: Option<Error>)

  /** `r` applied to the tree: on success the new tree, on failure the old one and the error. */
  ghost predicate Applied(before: Tree, r: Result<Tree>, after: Tree, err: Option<Error>) {
    match r
    case Ok(t) => after == t && err == None
    case Err(e) => after == before && err == Some(e)
  }

  /** The machine the service runs on: its file tree and the log of
      service-manager actions. */
  class Host {
    var fs: Tree
    var events: seq<Event>

    constructor (tree: Tree)
      ensures fs == tree && events == []
    {
      fs := tree;
      events := [];
    }

    method Stat(p: Path) returns (r: StatResult)
      ensures r == Fs.Stat(fs, p)
    {
      r := Fs.Stat(fs, p);
    }

    method MkdirAll(p: Path) returns (err: Option<Error>)
      modifies this`fs
      ensures Applied(old(fs), Fs.MkdirAll(old(fs), p), fs, err)
    {
      match Fs.MkdirAll(fs, p)
      case Ok(t) => fs := t; err := None;
      case Err(e) => err := Some(e);
    }

    method WriteFile(p: Path, body: seq<Byte>, perm: Perm) returns (err: Option<Error>)
      modifies this`fs
      ensures Applied(old(fs), Fs.WriteFile(old(fs), p, body, perm), fs, err)
    {
      match Fs.WriteFile(fs, p, body, perm)
      case Ok(t) => fs := t; err := None;
      case Err(e) => err := Some(e);
    }

    method Rename(src: Path, dst: Path) returns (err: Option<Error>)
      modifies this`fs
      ensures Applied(old(fs), Fs.Rename(old(fs), src, dst), fs, err)
    {
      match Fs.Rename(fs, src, dst)
      case Ok(t) => fs := t; err := None;
      case Err(e) => err := Some(e);
    }

    method RemoveAll(p: Path)
      modifies this`fs
      ensures fs == Fs.RemoveAll(old(fs), p)
    {
      fs := Fs.RemoveAll(fs, p);
    }

    method Remove(p: Path) returns (err: Option<Error>)
      modifies this`fs
      ensures Applied(old(fs), Fs.Remove(old(fs), p), fs, err)
    {
      match Fs.Remove(fs, p)
      case Ok(t) => fs := t; err := None;
      case Err(e) => err := Some(e);
    }

    method Chmod(p: Path, perm: Perm) returns (err: Option<Error>)
      modifies this`fs
      ensures Applied(old(fs), Fs.Chmod(old(fs), p, perm), fs, err)
    {
      match Fs.Chmod(fs, p, perm)
      case Ok(t) => fs := t; err := None;
      case Err(e) => err := Some(e);
    }

    /** Asks the service manager for `e`; it answers `outcome`. */
    method Control(e: Event, outcome: Option<Error>) returns (err: Option<Error>)
      modifies this`events
      ensures events == old(events) + [e] && err == outcome
    {
      events := events + [e];
      err := outcome;
    }
  }
}
