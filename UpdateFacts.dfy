/** What the update of update.go guarantees, proved about the functions
    that specify it. */
module UpdateFacts {
  import opened Fs
  import opened Os
  import opened Update

  /** `t2` agrees with `t` at `q`: present in both with the same node, or in neither. */
  ghost predicate SameAt(t: Tree, t2: Tree, q: Path) {
    (q in t2 <==> q in t) && (q in t ==> t2[q] == t[q])
  }

  /** The rename-aside name is a sibling of the executable, other than it. */
  ghost predicate WellNamed(ctx: Context) {
    ctx.selfTmp != ctx.self && ctx.selfTmp != [] && Parent(ctx.selfTmp) == Parent(ctx.self)
  }

  lemma PrefixTrans(a: Path, b: Path, c: Path)
    requires a <= b && b <= c
    ensures a <= c
  {
    assert c[..|b|][..|a|] == c[..|a|];
  }

  lemma NoMatchShift(glob: Glob, ps: seq<string>, name: string, i: nat)
    requires ps != [] && glob(ps[0], name) == NoMatch
    ensures NoMatchBefore(glob, ps, name, i + 1) <==> NoMatchBefore(glob, ps[1..], name, i)
  {
    if NoMatchBefore(glob, ps, name, i + 1) {
      forall j | 0 <= j < i && j < |ps[1..]| ensures glob(ps[1..][j], name) == NoMatch {
        assert ps[1..][j] == ps[j + 1];
      }
    }
    if NoMatchBefore(glob, ps[1..], name, i) {
      forall j | 0 <= j < i + 1 && j < |ps| ensures glob(ps[j], name) == NoMatch {
        if j > 0 { assert ps[j] == ps[1..][j - 1]; }
      }
    }
  }

  /** Some pattern answers `r` for the name and every pattern before it
      answers `NoMatch`. */
  ghost predicate FirstHit(glob: Glob, ps: seq<string>, name: string, r: MatchResult) {
    exists i :: 0 <= i < |ps| && glob(ps[i], name) == r && NoMatchBefore(glob, ps, name, i)
  }

  /** Past a leading pattern that does not match, the first hit is the
      first hit of the rest. */
  lemma FirstHitShift(glob: Glob, ps: seq<string>, name: string, r: MatchResult)
    requires ps != [] && glob(ps[0], name) == NoMatch && r != NoMatch
    ensures FirstHit(glob, ps, name, r) <==> FirstHit(glob, ps[1..], name, r)
  {
    var rest := ps[1..];
    if FirstHit(glob, ps, name, r) {
      var i :| 0 <= i < |ps| && glob(ps[i], name) == r && NoMatchBefore(glob, ps, name, i);
      NoMatchShift(glob, ps, name, i - 1);
      assert rest[i - 1] == ps[i];
    }
    if FirstHit(glob, rest, name, r) {
      var i :| 0 <= i < |rest| && glob(rest[i], name) == r && NoMatchBefore(glob, rest, name, i);
      NoMatchShift(glob, ps, name, i);
      assert rest[i] == ps[i + 1];
    }
  }

  /** An entry is excluded exactly when some pattern matches its name and
      every earlier pattern is well formed and does not; the walk aborts
      exactly when a malformed pattern comes before any match; otherwise
      no pattern matches. */
  lemma {:induction false} ExclusionCases(glob: Glob, ps: seq<string>, name: string)
    ensures Exclusion(glob, ps, name) == Ok(true) <==> FirstHit(glob, ps, name, Matched)
    ensures Exclusion(glob, ps, name) == Err(BadPattern) <==> FirstHit(glob, ps, name, Malformed)
    ensures Exclusion(glob, ps, name) == Ok(false) <==> NoMatchBefore(glob, ps, name, |ps|)
    decreases |ps|
  {
    if ps != [] {
      assert NoMatchBefore(glob, ps, name, 0);
      match glob(ps[0], name)
      case Malformed =>
        assert forall i :: 0 < i <= |ps| ==> !NoMatchBefore(glob, ps, name, i);
      case Matched =>
        assert forall i :: 0 < i <= |ps| ==> !NoMatchBefore(glob, ps, name, i);
      case NoMatch =>
        ExclusionCases(glob, ps[1..], name);
        NoMatchShift(glob, ps, name, |ps| - 1);
        FirstHitShift(glob, ps, name, Matched);
        FirstHitShift(glob, ps, name, Malformed);
    }
  }

  /** An excluded entry leaves the tree as it is; a malformed pattern aborts
      the walk with the tree as it is. */
  lemma ExcludedEntry(t: Tree, ctx: Context, glob: Glob, e: Entry)
    ensures Exclusion(glob, ctx.excludes, e.name) == Ok(true) ==> ApplyEntry(t, ctx, glob, e) == Step(t, None)
    ensures Exclusion(glob, ctx.excludes, e.name) == Err(BadPattern) ==>
      ApplyEntry(t, ctx, glob, e) == Step(t, Some(BadPattern))
  {
  }

  /** A directory entry: an existing directory is left as it is, a file in
      its place is a conflict, a file further up is the stat error, and an
      absent path is made together with its missing ancestors. */
  lemma DirEntryCases(t: Tree, target: Path)
    requires Valid(t)
    ensures target in t && t[target].Dir? ==> DirEntry(t, target) == Step(t, None)
    ensures target in t && t[target].File? ==> DirEntry(t, target) == Step(t, Some(FileExists(target)))
    ensures target !in t && Blocked(t, target) ==> DirEntry(t, target) == Step(t, Some(NotDir(target)))
    ensures target !in t && !Blocked(t, target) ==>
      DirEntry(t, target).err == None && MadeDirs(t, target, DirEntry(t, target).fs)
    ensures Valid(DirEntry(t, target).fs)
  {
    StatMeaning(t, target);
    MkdirAllSucceeds(t, target);
    if target !in t && !Blocked(t, target) {
      MkdirAllEffect(t, target);
    }
  }

  /** The mode a written file gets: the one it had, or 0644 when it is new. */
  function WrittenPerm(t: Tree, target: Path): Perm {
    if target in t && t[target].File? then t[target].perm else FilePerm
  }

  /** A file entry keeps the tree a tree. */
  lemma FileEntryValid(t: Tree, ctx: Context, target: Path, body: seq<Byte>)
    requires Valid(t) && WellNamed(ctx)
    ensures Valid(FileEntry(t, ctx, target, body).fs)
  {
    var p := Parent(target);
    var perm := PermFor(Stat(t, target));
    if MkdirAll(t, p).Ok? {
      MkdirAllEffect(t, p);
      var t1 := MkdirAll(t, p).value;
      var moved := if target == ctx.self then Rename(t1, ctx.self, ctx.selfTmp) else Ok(t1);
      if moved.Ok? {
        if target == ctx.self { RenameValid(t1, ctx.self, ctx.selfTmp); }
        if WriteFile(moved.value, target, body, perm).Ok? {
          WriteFileValid(moved.value, target, body, perm);
        }
      }
    }
  }

  /** A file entry changes nothing but its target, the target's ancestors
      and the rename-aside name. */
  lemma FileEntryFrame(t: Tree, ctx: Context, target: Path, body: seq<Byte>)
    requires Valid(t) && WellNamed(ctx)
    ensures forall q :: !(q <= target) && q != ctx.selfTmp ==> SameAt(t, FileEntry(t, ctx, target, body).fs, q)
  {
    var s := FileEntry(t, ctx, target, body);
    var p := Parent(target);
    if MkdirAll(t, p).Ok? {
      MkdirAllEffect(t, p);
      var t1 := MkdirAll(t, p).value;
      var moved := if target == ctx.self then Rename(t1, ctx.self, ctx.selfTmp) else Ok(t1);
      forall q | !(q <= target) && q != ctx.selfTmp ensures SameAt(t, s.fs, q) {
        if q <= p { PrefixTrans(q, p, target); }
        assert SameAt(t, t1, q);
        assert q != target;
        if moved.Ok? {
          if target == ctx.self { RenameFrame(t1, ctx.self, ctx.selfTmp, q); }
          assert SameAt(t1, moved.value, q);
          if WriteFile(moved.value, target, body, PermFor(Stat(t, target))).Ok? {
            WriteFileFrame(moved.value, target, body, PermFor(Stat(t, target)), q);
          }
        }
      }
    }
  }

  /** On success a file entry leaves the body in its target with the mode
      the target had (0644 when new). */
  lemma FileEntryWritten(t: Tree, ctx: Context, target: Path, body: seq<Byte>)
    requires Valid(t) && WellNamed(ctx)
    ensures var s := FileEntry(t, ctx, target, body);
      s.err.None? ==> target in s.fs && s.fs[target] == File(body, WrittenPerm(t, target))
  {
    var p := Parent(target);
    var perm := PermFor(Stat(t, target));
    if MkdirAll(t, p).Ok? {
      MkdirAllEffect(t, p);
      var t1 := MkdirAll(t, p).value;
      assert target != [] ==> !(target <= p);
      assert target in t1 ==> target in t && t1[target] == t[target];
    }
  }

  /** On success the ancestors of a file entry's target are directories. */
  lemma FileEntryParents(t: Tree, ctx: Context, target: Path, body: seq<Byte>)
    requires Valid(t) && WellNamed(ctx)
    ensures var s := FileEntry(t, ctx, target, body);
      s.err.None? ==> forall q :: q in s.fs && q <= Parent(target) ==> s.fs[q] == Dir
  {
    var p := Parent(target);
    var perm := PermFor(Stat(t, target));
    var s := FileEntry(t, ctx, target, body);
    if MkdirAll(t, p).Ok? && s.err.None? {
      MkdirAllEffect(t, p);
      var t1 := MkdirAll(t, p).value;
      assert target != [];
      var t2 := if target == ctx.self then Rename(t1, ctx.self, ctx.selfTmp).value else t1;
      assert s.fs == t2[target := File(body, WrittenPerm(t, target))] by {
        FileEntryWritten(t, ctx, target, body);
      }
      forall q | q in s.fs && q <= p ensures s.fs[q] == Dir {
        assert |q| < |target|;
        if target == ctx.self {
          assert |Parent(ctx.selfTmp)| == |ctx.selfTmp| - 1;
          assert q != ctx.selfTmp;
        }
        assert t2[q] == t1[q];
      }
    }
  }

  /** When the target is the executable, a successful file entry leaves the
      old binary, unchanged, at the rename-aside name. */
  lemma FileEntryRenamesAside(t: Tree, ctx: Context, body: seq<Byte>)
    requires Valid(t) && WellNamed(ctx)
    ensures var s := FileEntry(t, ctx, ctx.self, body);
      s.err.None? ==> ctx.self in t && ctx.selfTmp in s.fs && s.fs[ctx.selfTmp] == t[ctx.self]
  {
    var self := ctx.self;
    var p := Parent(self);
    var s := FileEntry(t, ctx, self, body);
    if s.err.None? {
      MkdirAllEffect(t, p);
      var t1 := MkdirAll(t, p).value;
      var t2 := Rename(t1, self, ctx.selfTmp).value;
      assert self in t1 && t1[self].File?;
      assert self != [] && !(self <= p);
      assert self in t && t1[self] == t[self];
      assert t2 == (t1 - {self})[ctx.selfTmp := t1[self]];
      assert s.fs == WriteFile(t2, self, body, PermFor(Stat(t, self))).value;
      assert s.fs[ctx.selfTmp] == t2[ctx.selfTmp];
    }
  }

  /** A directory where a file entry points is an error. */
  lemma FileEntryOnDir(t: Tree, ctx: Context, target: Path, body: seq<Byte>)
    requires Valid(t) && WellNamed(ctx) && target in t && t[target].Dir?
    ensures FileEntry(t, ctx, target, body).err.Some?
  {
    var p := Parent(target);
    if MkdirAll(t, p).Ok? {
      MkdirAllEffect(t, p);
    }
  }

  /** Where an entry points. */
  function Target(ctx: Context, e: Entry): Path {
    Join(ctx.dir, e.name)
  }

  /** One pass of the entry loop keeps the tree a tree and changes nothing
      but its target, the target's ancestors and the rename-aside name. */
  lemma ApplyEntryEffect(t: Tree, ctx: Context, glob: Glob, e: Entry)
    requires Valid(t) && WellNamed(ctx)
    ensures Valid(ApplyEntry(t, ctx, glob, e).fs)
    ensures forall q :: !(q <= Target(ctx, e)) && q != ctx.selfTmp ==> SameAt(t, ApplyEntry(t, ctx, glob, e).fs, q)
  {
    var target := Target(ctx, e);
    if Exclusion(glob, ctx.excludes, e.name) == Ok(false) {
      if e.isDir {
        DirEntryCases(t, target);
      } else {
        FileEntryValid(t, ctx, target, e.body);
        FileEntryFrame(t, ctx, target, e.body);
      }
    }
  }

  /** No entry points at `q` or below it, and `q` is not the rename-aside name. */
  ghost predicate Untouched(ctx: Context, es: seq<Entry>, q: Path) {
    q != ctx.selfTmp && forall k :: 0 <= k < |es| ==> !(q <= Target(ctx, es[k]))
  }

  lemma UntouchedTail(ctx: Context, es: seq<Entry>, q: Path)
    requires es != [] && Untouched(ctx, es, q)
    ensures !(q <= Target(ctx, es[0])) && Untouched(ctx, es[1..], q)
  {
    forall k | 0 <= k < |es[1..]| ensures !(q <= Target(ctx, es[1..][k])) {
      assert es[1..][k] == es[k + 1];
    }
  }

  /** The entry loop keeps the tree a tree, and every path no entry reaches
      keeps its node (or its absence). */
  lemma {:induction false} ApplyEntriesEffect(t: Tree, ctx: Context, glob: Glob, es: seq<Entry>)
    requires Valid(t) && WellNamed(ctx)
    ensures Valid(ApplyEntries(t, ctx, glob, es).fs)
    ensures forall q :: Untouched(ctx, es, q) ==> SameAt(t, ApplyEntries(t, ctx, glob, es).fs, q)
    decreases |es|
  {
    if es != [] {
      var s := ApplyEntry(t, ctx, glob, es[0]);
      var r := ApplyEntries(t, ctx, glob, es).fs;
      ApplyEntryEffect(t, ctx, glob, es[0]);
      if s.err.None? {
        assert r == ApplyEntries(s.fs, ctx, glob, es[1..]).fs;
        ApplyEntriesEffect(s.fs, ctx, glob, es[1..]);
        forall q | Untouched(ctx, es, q) ensures SameAt(t, r, q) {
          UntouchedTail(ctx, es, q);
          assert SameAt(t, s.fs, q);
          assert SameAt(s.fs, r, q);
        }
      } else {
        assert r == s.fs;
        forall q | Untouched(ctx, es, q) ensures SameAt(t, r, q) {
          UntouchedTail(ctx, es, q);
          assert SameAt(t, s.fs, q);
        }
      }
    }
  }

  /** The executable is a file of the tree. */
  ghost predicate HasBinary(t: Tree, self: Path) {
    self in t && t[self].File?
  }

  /** An entry below the executable cannot be applied: the executable is a
      file in its way. */
  lemma EntryBelowBinary(t: Tree, ctx: Context, glob: Glob, e: Entry)
    requires Valid(t) && WellNamed(ctx) && HasBinary(t, ctx.self)
    requires ctx.self <= Target(ctx, e) && ctx.self != Target(ctx, e)
    requires Exclusion(glob, ctx.excludes, e.name) == Ok(false)
    ensures ApplyEntry(t, ctx, glob, e).err.Some?
  {
    var target := Target(ctx, e);
    var self := ctx.self;
    assert target[..|self|] == self;
    if e.isDir {
      if target in t {
        AncestorsAreDirs(t, target);
      }
      assert Blocked(t, target);
      DirEntryCases(t, target);
    } else {
      var p := Parent(target);
      PrefixOfParent(self, target);
      MkdirAllSucceeds(t, p);
      if self != p {
        assert p[..|self|] == self;
        assert Blocked(t, p);
      }
    }
  }

  /** A successful pass of the entry loop leaves the executable a file. */
  lemma ApplyEntryKeepsBinary(t: Tree, ctx: Context, glob: Glob, e: Entry)
    requires Valid(t) && WellNamed(ctx) && HasBinary(t, ctx.self)
    ensures ApplyEntry(t, ctx, glob, e).err.None? ==> HasBinary(ApplyEntry(t, ctx, glob, e).fs, ctx.self)
  {
    var target := Target(ctx, e);
    if Exclusion(glob, ctx.excludes, e.name) == Ok(false) {
      if target == ctx.self {
        if e.isDir {
          DirEntryCases(t, target);
        } else {
          FileEntryWritten(t, ctx, target, e.body);
        }
      } else if ctx.self <= target {
        EntryBelowBinary(t, ctx, glob, e);
      } else {
        ApplyEntryEffect(t, ctx, glob, e);
        assert SameAt(t, ApplyEntry(t, ctx, glob, e).fs, ctx.self);
      }
    }
  }

  /** A successful entry loop leaves the executable a file. */
  lemma {:induction false} ApplyEntriesKeepsBinary(t: Tree, ctx: Context, glob: Glob, es: seq<Entry>)
    requires Valid(t) && WellNamed(ctx) && HasBinary(t, ctx.self)
    ensures ApplyEntries(t, ctx, glob, es).err.None? ==> HasBinary(ApplyEntries(t, ctx, glob, es).fs, ctx.self)
    decreases |es|
  {
    if es != [] {
      var s := ApplyEntry(t, ctx, glob, es[0]);
      if s.err.None? {
        ApplyEntryKeepsBinary(t, ctx, glob, es[0]);
        ApplyEntryEffect(t, ctx, glob, es[0]);
        ApplyEntriesKeepsBinary(s.fs, ctx, glob, es[1..]);
      }
    }
  }

  /** Some listed path other than the executable, joined to `dir`, is `q` or
      an ancestor of `q`. */
  ghost predicate Purged(dir: Path, self: Path, rs: seq<string>, q: Path) {
    exists k :: 0 <= k < |rs| && Join(dir, rs[k]) != self && Join(dir, rs[k]) <= q
  }

  lemma PurgedStep(dir: Path, self: Path, rs: seq<string>, q: Path)
    requires rs != []
    ensures Purged(dir, self, rs, q) <==>
      (Join(dir, rs[0]) != self && Join(dir, rs[0]) <= q) || Purged(dir, self, rs[1..], q)
  {
    if Purged(dir, self, rs, q) {
      var k :| 0 <= k < |rs| && Join(dir, rs[k]) != self && Join(dir, rs[k]) <= q;
      if k > 0 { assert rs[1..][k - 1] == rs[k]; }
    }
    if Purged(dir, self, rs[1..], q) {
      var k :| 0 <= k < |rs[1..]| && Join(dir, rs[1..][k]) != self && Join(dir, rs[1..][k]) <= q;
      assert rs[1..][k] == rs[k + 1];
    }
  }

  /** The purge keeps the tree a tree and leaves exactly the nodes that no
      purged path is at or above (the root always stays), unchanged. */
  lemma {:induction false} RemovePathsEffect(t: Tree, dir: Path, self: Path, rs: seq<string>)
    requires Valid(t)
    ensures Valid(RemovePaths(t, dir, self, rs))
    ensures forall q :: q in RemovePaths(t, dir, self, rs) <==> q in t && (q == [] || !Purged(dir, self, rs, q))
    ensures forall q :: q in RemovePaths(t, dir, self, rs) ==> RemovePaths(t, dir, self, rs)[q] == t[q]
    decreases |rs|
  {
    if rs != [] {
      var file := Join(dir, rs[0]);
      var t1 := if file != self then RemoveAll(t, file) else t;
      var r := RemovePaths(t, dir, self, rs);
      assert r == RemovePaths(t1, dir, self, rs[1..]);
      if file != self { RemoveAllValid(t, file); }
      RemovePathsEffect(t1, dir, self, rs[1..]);
      forall q ensures q in r <==> q in t && (q == [] || !Purged(dir, self, rs, q)) {
        PurgedStep(dir, self, rs, q);
      }
    }
  }

  /** The walk's fixed data for the executable `self`. */
  function WalkContext(self: Path, opts: Options, stamp: string): (ctx: Context)
    ensures WellNamed(ctx)
  {
    Context(Parent(self), self, TmpPath(self, stamp), opts.excludeFiles)
  }

  /** Purge and entry loop together keep the tree a tree and leave every
      path that neither reaches as it was. */
  lemma InstallEffect(t: Tree, ctx: Context, glob: Glob, rs: seq<string>, files: seq<Entry>)
    requires Valid(t) && WellNamed(ctx)
    ensures Valid(Install(t, ctx, glob, rs, files).fs)
    ensures forall q :: !Purged(ctx.dir, ctx.self, rs, q) && Untouched(ctx, files, q) ==>
      SameAt(t, Install(t, ctx, glob, rs, files).fs, q)
  {
    var t1 := RemovePaths(t, ctx.dir, ctx.self, rs);
    RemovePathsEffect(t, ctx.dir, ctx.self, rs);
    ApplyEntriesEffect(t1, ctx, glob, files);
    forall q | !Purged(ctx.dir, ctx.self, rs, q) && Untouched(ctx, files, q)
      ensures SameAt(t, Install(t, ctx, glob, rs, files).fs, q)
    {
      assert SameAt(t, t1, q);
    }
  }

  /** Unless a purged path lies above it, the executable is still a file
      after a successful purge and entry loop. */
  lemma InstallKeepsBinary(t: Tree, ctx: Context, glob: Glob, rs: seq<string>, files: seq<Entry>)
    requires Valid(t) && WellNamed(ctx) && HasBinary(t, ctx.self) && !Purged(ctx.dir, ctx.self, rs, ctx.self)
    ensures Install(t, ctx, glob, rs, files).err.None? ==> HasBinary(Install(t, ctx, glob, rs, files).fs, ctx.self)
  {
    var t1 := RemovePaths(t, ctx.dir, ctx.self, rs);
    RemovePathsEffect(t, ctx.dir, ctx.self, rs);
    ApplyEntriesKeepsBinary(t1, ctx, glob, files);
  }

  /** Starting and the clean-up: the start (or reload) is logged, nothing
      but the renamed-aside name changes, and on success that name is gone. */
  lemma FinishEffect(t: Tree, stopped: seq<Event>, selfTmp: Path, platform: Platform, darwin: bool)
    ensures var o := Finish(t, stopped, selfTmp, platform, darwin);
      o.events == stopped + [if darwin then ReloadCalled else StartCalled]
    ensures var o := Finish(t, stopped, selfTmp, platform, darwin);
      forall q :: q != selfTmp ==> SameAt(t, o.fs, q)
    ensures var o := Finish(t, stopped, selfTmp, platform, darwin);
      o.err.None? ==> selfTmp !in o.fs
    ensures Valid(t) ==> Valid(Finish(t, stopped, selfTmp, platform, darwin).fs)
  {
    if Valid(t) && Remove(t, selfTmp).Ok? {
      RemoveValid(t, selfTmp);
    }
  }

  /** Until the payload is an entry list nothing happens: an empty update
      URL, a failed executable lookup, a failed download or a failed unpack
      return their error with the tree and the event log as they were. */
  lemma UpdateEarlyErrors(t: Tree, events: seq<Event>, opts: Options, fetch: Fetch, stamp: string,
                          platform: Platform, darwin: bool, glob: Glob)
    ensures var o := UpdateSpec(t, events, opts, fetch, stamp, platform, darwin, glob);
      opts.updateURL == "" ==> o == Outcome(t, events, Some(NoUpdateURL))
    ensures var o := UpdateSpec(t, events, opts, fetch, stamp, platform, darwin, glob);
      opts.updateURL != "" && (fetch.exe.Err? || fetch.download.Err?
        || Files(fetch.isArchive, fetch.unpacked, fetch.download.value, fetch.exe.value).Err?) ==>
      o.fs == t && o.events == events && o.err.Some?
  {
  }

  /** The service is stopped before the tree is touched: the log only grows,
      any change to the tree comes after a stop, and a failed stop leaves
      the tree as it was. */
  lemma UpdateStopsFirst(t: Tree, events: seq<Event>, opts: Options, fetch: Fetch, stamp: string,
                         platform: Platform, darwin: bool, glob: Glob)
    ensures var o := UpdateSpec(t, events, opts, fetch, stamp, platform, darwin, glob);
      |o.events| >= |events| && o.events[..|events|] == events
    ensures var o := UpdateSpec(t, events, opts, fetch, stamp, platform, darwin, glob);
      o.fs != t ==> |o.events| > |events| && o.events[|events|] == StopCalled
    ensures var o := UpdateSpec(t, events, opts, fetch, stamp, platform, darwin, glob);
      platform.stop.Some? ==> o.fs == t
  {
    if opts.updateURL != "" && fetch.exe.Ok? && fetch.download.Ok? {
      var self := fetch.exe.value;
      var files := Files(fetch.isArchive, fetch.unpacked, fetch.download.value, self);
      if files.Ok? && platform.stop.None? {
        var ctx := WalkContext(self, opts, stamp);
        var s := Install(t, ctx, glob, opts.removeBeforeUpdate, files.value);
        UpdateStages(t, events, opts, fetch, stamp, platform, darwin, glob);
        FinishEffect(s.fs, events + [StopCalled], ctx.selfTmp, platform, darwin);
      }
    }
  }

  /** A successful update stopped the service and then started it (reloaded
      it on darwin), and the renamed-aside binary is gone. */
  lemma UpdateSucceeded(t: Tree, events: seq<Event>, opts: Options, fetch: Fetch, stamp: string,
                        platform: Platform, darwin: bool, glob: Glob)
    ensures var o := UpdateSpec(t, events, opts, fetch, stamp, platform, darwin, glob);
      o.err.None? ==>
        && fetch.exe.Ok?
        && TmpPath(fetch.exe.value, stamp) !in o.fs
        && o.events == events + [StopCalled, if darwin then ReloadCalled else StartCalled]
  {
    if opts.updateURL != "" && fetch.exe.Ok? && fetch.download.Ok? {
      var self := fetch.exe.value;
      var files := Files(fetch.isArchive, fetch.unpacked, fetch.download.value, self);
      if files.Ok? && platform.stop.None? {
        var ctx := WalkContext(self, opts, stamp);
        var s := Install(t, ctx, glob, opts.removeBeforeUpdate, files.value);
        UpdateStages(t, events, opts, fetch, stamp, platform, darwin, glob);
        FinishEffect(s.fs, events + [StopCalled], ctx.selfTmp, platform, darwin);
        assert events + [StopCalled] + [if darwin then ReloadCalled else StartCalled]
            == events + [StopCalled, if darwin then ReloadCalled else StartCalled];
      }
    }
  }

  /** An update, whatever its outcome, leaves the tree a tree. */
  lemma UpdateValid(t: Tree, events: seq<Event>, opts: Options, fetch: Fetch, stamp: string,
                    platform: Platform, darwin: bool, glob: Glob)
    requires Valid(t)
    ensures Valid(UpdateSpec(t, events, opts, fetch, stamp, platform, darwin, glob).fs)
  {
    if opts.updateURL != "" && fetch.exe.Ok? && fetch.download.Ok? {
      var self := fetch.exe.value;
      var files := Files(fetch.isArchive, fetch.unpacked, fetch.download.value, self);
      if files.Ok? && platform.stop.None? {
        var ctx := WalkContext(self, opts, stamp);
        InstallEffect(t, ctx, glob, opts.removeBeforeUpdate, files.value);
        var s := Install(t, ctx, glob, opts.removeBeforeUpdate, files.value);
        UpdateStages(t, events, opts, fetch, stamp, platform, darwin, glob);
        FinishEffect(s.fs, events + [StopCalled], ctx.selfTmp, platform, darwin);
      }
    }
  }

  /** A path that no purged path reaches and no entry reaches, other than
      the renamed-aside name, is as it was after the update. */
  lemma UpdateFrame(t: Tree, events: seq<Event>, opts: Options, fetch: Fetch, stamp: string,
                    platform: Platform, darwin: bool, glob: Glob, q: Path)
    requires Valid(t) && fetch.exe.Ok? && fetch.download.Ok?
    requires Files(fetch.isArchive, fetch.unpacked, fetch.download.value, fetch.exe.value).Ok?
    requires !Purged(Parent(fetch.exe.value), fetch.exe.value, opts.removeBeforeUpdate, q)
    requires Untouched(WalkContext(fetch.exe.value, opts, stamp),
                       Files(fetch.isArchive, fetch.unpacked, fetch.download.value, fetch.exe.value).value, q)
    ensures SameAt(t, UpdateSpec(t, events, opts, fetch, stamp, platform, darwin, glob).fs, q)
  {
    var self := fetch.exe.value;
    var files := Files(fetch.isArchive, fetch.unpacked, fetch.download.value, self).value;
    var ctx := WalkContext(self, opts, stamp);
    if opts.updateURL != "" && platform.stop.None? {
      InstallEffect(t, ctx, glob, opts.removeBeforeUpdate, files);
      var s := Install(t, ctx, glob, opts.removeBeforeUpdate, files);
      assert SameAt(t, s.fs, q);
      UpdateStages(t, events, opts, fetch, stamp, platform, darwin, glob);
      if s.err.None? {
        var o := Finish(s.fs, events + [StopCalled], ctx.selfTmp, platform, darwin);
        FinishEffect(s.fs, events + [StopCalled], ctx.selfTmp, platform, darwin);
        assert SameAt(s.fs, o.fs, q);
      }
    }
  }

  /** Unless a purged path lies above it, the executable is still a file
      after a successful update. */
  lemma UpdateKeepsBinary(t: Tree, events: seq<Event>, opts: Options, fetch: Fetch, stamp: string,
                          platform: Platform, darwin: bool, glob: Glob)
    requires Valid(t) && fetch.exe.Ok? && HasBinary(t, fetch.exe.value)
    requires !Purged(Parent(fetch.exe.value), fetch.exe.value, opts.removeBeforeUpdate, fetch.exe.value)
    ensures var o := UpdateSpec(t, events, opts, fetch, stamp, platform, darwin, glob);
      o.err.None? ==> HasBinary(o.fs, fetch.exe.value)
  {
    var self := fetch.exe.value;
    if opts.updateURL != "" && fetch.download.Ok? {
      var files := Files(fetch.isArchive, fetch.unpacked, fetch.download.value, self);
      if files.Ok? && platform.stop.None? {
        var ctx := WalkContext(self, opts, stamp);
        InstallKeepsBinary(t, ctx, glob, opts.removeBeforeUpdate, files.value);
        var s := Install(t, ctx, glob, opts.removeBeforeUpdate, files.value);
        UpdateStages(t, events, opts, fetch, stamp, platform, darwin, glob);
        if s.err.None? {
          var o := Finish(s.fs, events + [StopCalled], ctx.selfTmp, platform, darwin);
          FinishEffect(s.fs, events + [StopCalled], ctx.selfTmp, platform, darwin);
          assert SameAt(s.fs, o.fs, self);
        }
      }
    }
  }

  /** The purge and the entry loop on the one entry a bare payload makes:
      on success the executable holds the payload with the mode it had. */
  lemma InstallRawBinary(t: Tree, ctx: Context, glob: Glob, rs: seq<string>, body: seq<Byte>)
    requires Valid(t) && WellNamed(ctx) && ctx.self != [] && IsClean(ctx.self) && ctx.dir == Parent(ctx.self)
    requires HasBinary(t, ctx.self) && !Purged(ctx.dir, ctx.self, rs, ctx.self)
    requires Exclusion(glob, ctx.excludes, Base(ctx.self)) == Ok(false)
    ensures var s := Install(t, ctx, glob, rs, [Entry(Base(ctx.self), body, false)]);
      s.err.None? ==> ctx.self in s.fs && s.fs[ctx.self] == File(body, t[ctx.self].perm)
  {
    var self := ctx.self;
    var t1 := RemovePaths(t, ctx.dir, self, rs);
    RemovePathsEffect(t, ctx.dir, self, rs);
    assert t1[self] == t[self];
    var e := Entry(Base(self), body, false);
    JoinBase(self);
    assert Target(ctx, e) == self;
    FileEntryWritten(t1, ctx, self, body);
    var a := ApplyEntry(t1, ctx, glob, e);
    assert a == FileEntry(t1, ctx, self, body);
    assert [e][1..] == [];
    assert Install(t, ctx, glob, rs, [e]) == ApplyEntries(t1, ctx, glob, [e]);
    assert a.err.None? ==> ApplyEntries(t1, ctx, glob, [e]) == ApplyEntries(a.fs, ctx, glob, []);
  }

  /** Once the payload is an entry list and the stop succeeded, the update
      is the purge and entry loop followed, on success, by the finish. */
  lemma UpdateStages(t: Tree, events: seq<Event>, opts: Options, fetch: Fetch, stamp: string,
                     platform: Platform, darwin: bool, glob: Glob)
    requires opts.updateURL != "" && fetch.exe.Ok? && fetch.download.Ok? && platform.stop.None?
    requires Files(fetch.isArchive, fetch.unpacked, fetch.download.value, fetch.exe.value).Ok?
    ensures var ctx := WalkContext(fetch.exe.value, opts, stamp);
      var s := Install(t, ctx, glob, opts.removeBeforeUpdate,
                       Files(fetch.isArchive, fetch.unpacked, fetch.download.value, fetch.exe.value).value);
      UpdateSpec(t, events, opts, fetch, stamp, platform, darwin, glob)
        == if s.err.Some? then Outcome(s.fs, events + [StopCalled], s.err)
           else Finish(s.fs, events + [StopCalled], ctx.selfTmp, platform, darwin)
  {
  }

  /** A payload that is not an archive replaces the executable: after a
      successful update the executable holds the payload with the mode it
      had, unless its name is excluded. */
  lemma UpdateRawBinary(t: Tree, events: seq<Event>, opts: Options, fetch: Fetch, stamp: string,
                        platform: Platform, darwin: bool, glob: Glob)
    requires Valid(t) && !fetch.isArchive && fetch.exe.Ok? && fetch.download.Ok?
    requires fetch.exe.value != [] && IsClean(fetch.exe.value) && HasBinary(t, fetch.exe.value)
    requires !Purged(Parent(fetch.exe.value), fetch.exe.value, opts.removeBeforeUpdate, fetch.exe.value)
    requires Exclusion(glob, opts.excludeFiles, Base(fetch.exe.value)) == Ok(false)
    ensures var o := UpdateSpec(t, events, opts, fetch, stamp, platform, darwin, glob);
      o.err.None? ==> fetch.exe.value in o.fs && o.fs[fetch.exe.value] == File(fetch.download.value, t[fetch.exe.value].perm)
  {
    var self := fetch.exe.value;
    var body := fetch.download.value;
    var ctx := WalkContext(self, opts, stamp);
    var rs := opts.removeBeforeUpdate;
    InstallRawBinary(t, ctx, glob, rs, body);
    var s := Install(t, ctx, glob, rs, [Entry(Base(self), body, false)]);
    if opts.updateURL != "" && platform.stop.None? {
      assert Files(fetch.isArchive, fetch.unpacked, body, self) == Ok([Entry(Base(self), body, false)]);
      UpdateStages(t, events, opts, fetch, stamp, platform, darwin, glob);
      if s.err.None? {
        var o := Finish(s.fs, events + [StopCalled], ctx.selfTmp, platform, darwin);
        FinishEffect(s.fs, events + [StopCalled], ctx.selfTmp, platform, darwin);
        assert self != ctx.selfTmp;
        assert o.err.None? ==> SameAt(s.fs, o.fs, self);
      }
    }
  }
}
