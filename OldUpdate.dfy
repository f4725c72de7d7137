/** The earlier self-update of service.go (`Service.Update` there), from
    the point where the payload is an entry list: the executable is renamed
    to `self~` first, the purge removes every listed path, file entries are
    written with 0644, then the executable is made 0755, the service is
    restarted and `self~` is removed if the executable exists. Exclusion
    and directory entries follow the same rules as the later update. */
module OldUpdate {
  import opened Fs
  import opened Os
  import opened Update
  import opened UpdateFacts

  /** `self + "~"`. */
  function Backup(self: Path): (p: Path)
    ensures p != self && p != [] && Parent(p) == Parent(self)
  {
    Sibling(self, "~")
  }

  /** The purge loop: every listed path, joined to the install directory,
      is removed with what is below it. */
  function OldRemovePaths(t: Tree, dir: Path, rs: seq<string>): Tree
    decreases |rs|
  {
    if rs == [] then t else OldRemovePaths(RemoveAll(t, Join(dir, rs[0])), dir, rs[1..])
  }

  /** A file entry: parent directories, then the write with 0644 (which an
      existing file does not take: `os.WriteFile` keeps its mode). */
  function OldFileEntry(t: Tree, target: Path, body: seq<Byte>): Step {
    match MkdirAll(t, Parent(target))
    case Err(e) => Step(t, Some(e))
    case Ok(t1) =>
      match WriteFile(t1, target, body, FilePerm)
      case Err(e) => Step(t1, Some(e))
      case Ok(t2) => Step(t2, None)
  }

  /** One pass of the entry loop. */
  function OldApplyEntry(t: Tree, dir: Path, excludes: seq<string>, glob: Glob, e: Entry): Step {
    match Exclusion(glob, excludes, e.name)
    case Err(x) => Step(t, Some(x))
    case Ok(excluded) =>
      if excluded then Step(t, None)
      else
        var target := Join(dir, e.name);
        if e.isDir then DirEntry(t, target) else OldFileEntry(t, target, e.body)
  }

  /** The entry loop: entries in order, the first error ends it. */
  function OldApplyEntries(t: Tree, dir: Path, excludes: seq<string>, glob: Glob, es: seq<Entry>): Step
    decreases |es|
  {
    if es == [] then Step(t, None)
    else
      var s := OldApplyEntry(t, dir, excludes, glob, es[0]);
      if s.err.Some? then s else OldApplyEntries(s.fs, dir, excludes, glob, es[1..])
  }

  /** After the entry loop: chmod 0755 of the executable, restart, and the
      removal of `self~` when the executable is there. */
  function OldFinish(t: Tree, events: seq<Event>, self: Path, platform: Platform): Outcome {
    match Chmod(t, self, ExecPerm)
    case Err(e) => Outcome(t, events, Some(e))
    case Ok(t1) =>
      var restarted := events + [RestartCalled];
      if platform.restart.Some? then Outcome(t1, restarted, platform.restart)
      else if Stat(t1, self).Found? then
        (match Remove(t1, Backup(self))
         case Ok(t2) => Outcome(t2, restarted, None)
         case Err(e) => Outcome(t1, restarted, Some(e)))
      else Outcome(t1, restarted, None)
  }

  /** The whole earlier update as a function of the state before it and of
      what the foreign calls answer. */
  function OldUpdateSpec(t: Tree, events: seq<Event>, opts: Options, fetch: Fetch, platform: Platform, glob: Glob): Outcome {
    if opts.updateURL == "" then Outcome(t, events, Some(NoUpdateURL))
    else if fetch.exe.Err? then Outcome(t, events, Some(fetch.exe.error))
    else if fetch.download.Err? then Outcome(t, events, Some(fetch.download.error))
    else
      var self := fetch.exe.value;
      match Files(fetch.isArchive, fetch.unpacked, fetch.download.value, self)
      case Err(e) => Outcome(t, events, Some(e))
      case Ok(files) =>
        match Rename(t, self, Backup(self))
        case Err(e) => Outcome(t, events, Some(e))
        case Ok(t1) => OldInstall(t1, events, opts, self, platform, glob, files)
  }

  /** What follows the rename: the purge, the entry loop and, when that
      succeeds, the finish. */
  function OldInstall(t1: Tree, events: seq<Event>, opts: Options, self: Path, platform: Platform, glob: Glob, files: seq<Entry>): Outcome {
    var dir := Parent(self);
    var s := OldApplyEntries(OldRemovePaths(t1, dir, opts.removeBeforeUpdate), dir, opts.excludeFiles, glob, files);
    if s.err.Some? then Outcome(s.fs, events, s.err)
    else OldFinish(s.fs, events, self, platform)
  }

  /** Exclusion and directory entries are handled as in the later update:
      an excluded entry, a malformed pattern and a directory entry do there
      what they do here, whatever the executable and its rename-aside name. */
  lemma OldEntryAgrees(t: Tree, dir: Path, self: Path, selfTmp: Path, excludes: seq<string>, glob: Glob, e: Entry)
    requires e.isDir || Exclusion(glob, excludes, e.name) != Ok(false)
    ensures OldApplyEntry(t, dir, excludes, glob, e) == ApplyEntry(t, Context(dir, self, selfTmp, excludes), glob, e)
  {
  }

  /** The earlier `Service.Update` from the payload on, on the machine `h`. */
  method OldUpdate(h: Host, opts: Options, fetch: Fetch, platform: Platform, glob: Glob) returns (err: Option<Error>)
    modifies h
    ensures Outcome(h.fs, h.events, err) == OldUpdateSpec(old(h.fs), old(h.events), opts, fetch, platform, glob)
  {
    if opts.updateURL == "" {
      return Some(NoUpdateURL);
    }
    if fetch.exe.Err? {
      return Some(fetch.exe.error);
    }
    var self := fetch.exe.value;
    if fetch.download.Err? {
      return Some(fetch.download.error);
    }
    var b := fetch.download.value;
    var files: seq<Entry>;
    if fetch.isArchive {
      if fetch.unpacked.Err? {
        return Some(fetch.unpacked.error);
      }
      files := fetch.unpacked.value;
    } else {
      files := [Entry(Base(self), b, false)];
    }

    err := h.Rename(self, Backup(self));
    if err.Some? {
      return;
    }
    var path := Parent(self);

    ghost var renamed := h.fs;
    var rs := opts.removeBeforeUpdate;
    for i := 0 to |rs|
      invariant OldRemovePaths(renamed, path, rs) == OldRemovePaths(h.fs, path, rs[i..])
      invariant h.events == old(h.events)
    {
      assert rs[i..][1..] == rs[i + 1..];
      h.RemoveAll(Join(path, rs[i]));
    }

    err := OldApplyAll(h, path, opts.excludeFiles, glob, files);
    if err.Some? {
      return;
    }
    err := OldFinishOn(h, self, platform);
  }

  /** The earlier entry loop, on the machine `h`. */
  method OldApplyAll(h: Host, path: Path, excludes: seq<string>, glob: Glob, files: seq<Entry>) returns (err: Option<Error>)
    modifies h
    ensures Step(h.fs, err) == OldApplyEntries(old(h.fs), path, excludes, glob, files)
    ensures h.events == old(h.events)
  {
    err := None;
    ghost var purged := h.fs;
    for i := 0 to |files|
      invariant OldApplyEntries(purged, path, excludes, glob, files)
             == OldApplyEntries(h.fs, path, excludes, glob, files[i..])
      invariant h.events == old(h.events) && err == None
    {
      assert files[i..][1..] == files[i + 1..];
      var file := files[i];
      var excluded := MatchExcluded(excludes, file.name, glob);
      if excluded.Err? {
        return Some(excluded.error);
      }
      if excluded.value {
        continue;
      }
      var target := Join(path, file.name);
      if file.isDir {
        var stat := h.Stat(target);
        match stat
        case Found(n) =>
          if !n.Dir? {
            return Some(FileExists(target));
          }
        case Absent =>
          err := h.MkdirAll(target);
          if err.Some? {
            return;
          }
        case UnderFile =>
          return Some(NotDir(target));
      } else {
        err := h.MkdirAll(Parent(target));
        if err.Some? {
          return;
        }
        err := h.WriteFile(target, file.body, FilePerm);
        if err.Some? {
          return;
        }
      }
    }
  }

  /** The chmod, the restart and the removal of `self~`, on the machine `h`. */
  method OldFinishOn(h: Host, self: Path, platform: Platform) returns (err: Option<Error>)
    modifies h
    ensures Outcome(h.fs, h.events, err) == OldFinish(old(h.fs), old(h.events), self, platform)
  {
    err := h.Chmod(self, ExecPerm);
    if err.Some? {
      return;
    }
    err := h.Control(RestartCalled, platform.restart);
    if err.Some? {
      return;
    }
    var st := h.Stat(self);
    if st.Found? {
      err := h.Remove(Backup(self));
    }
  }

  /** The purge keeps the tree a tree. */
  lemma {:induction false} OldRemovePathsValid(t: Tree, dir: Path, rs: seq<string>)
    requires Valid(t)
    ensures Valid(OldRemovePaths(t, dir, rs))
    decreases |rs|
  {
    if rs != [] {
      RemoveAllValid(t, Join(dir, rs[0]));
      OldRemovePathsValid(RemoveAll(t, Join(dir, rs[0])), dir, rs[1..]);
    }
  }

  /** A file entry keeps the tree a tree and, on success, leaves the body in
      its target with the mode the target had, or 0644 when it is new. */
  lemma OldFileEntryEffect(t: Tree, target: Path, body: seq<Byte>)
    requires Valid(t)
    ensures Valid(OldFileEntry(t, target, body).fs)
    ensures var s := OldFileEntry(t, target, body);
      s.err.None? ==> target in s.fs && s.fs[target] == File(body, WrittenPerm(t, target))
  {
    var p := Parent(target);
    if MkdirAll(t, p).Ok? {
      MkdirAllEffect(t, p);
      var t1 := MkdirAll(t, p).value;
      assert target != [] ==> !(target <= p);
      assert target in t1 ==> target in t && t1[target] == t[target];
      if WriteFile(t1, target, body, FilePerm).Ok? {
        WriteFileValid(t1, target, body, FilePerm);
      }
    }
  }

  /** The entry loop keeps the tree a tree. */
  lemma {:induction false} OldApplyEntriesValid(t: Tree, dir: Path, excludes: seq<string>, glob: Glob, es: seq<Entry>)
    requires Valid(t)
    ensures Valid(OldApplyEntries(t, dir, excludes, glob, es).fs)
    decreases |es|
  {
    if es != [] {
      var e := es[0];
      var target := Join(dir, e.name);
      if Exclusion(glob, excludes, e.name) == Ok(false) {
        if e.isDir { DirEntryCases(t, target); } else { OldFileEntryEffect(t, target, e.body); }
      }
      var s := OldApplyEntry(t, dir, excludes, glob, e);
      OldApplyEntriesValid(s.fs, dir, excludes, glob, es[1..]);
    }
  }

  /** Until the payload is an entry list nothing happens, and a failed
      rename of the executable leaves everything as it was: the rename
      comes before any removal or write. */
  lemma OldRenameFirst(t: Tree, events: seq<Event>, opts: Options, fetch: Fetch, platform: Platform, glob: Glob)
    ensures var o := OldUpdateSpec(t, events, opts, fetch, platform, glob);
      opts.updateURL == "" ==> o == Outcome(t, events, Some(NoUpdateURL))
    ensures var o := OldUpdateSpec(t, events, opts, fetch, platform, glob);
      o.fs != t ==> fetch.exe.Ok? && Rename(t, fetch.exe.value, Backup(fetch.exe.value)).Ok?
    ensures var o := OldUpdateSpec(t, events, opts, fetch, platform, glob);
      fetch.exe.Ok? && Rename(t, fetch.exe.value, Backup(fetch.exe.value)).Err? ==> o.fs == t && o.events == events
  {
  }

  /** The finish keeps the tree a tree. */
  lemma OldFinishValid(t: Tree, events: seq<Event>, self: Path, platform: Platform)
    requires Valid(t)
    ensures Valid(OldFinish(t, events, self, platform).fs)
  {
    if Chmod(t, self, ExecPerm).Ok? {
      var t1 := Chmod(t, self, ExecPerm).value;
      ChmodValid(t, self, ExecPerm);
      if Remove(t1, Backup(self)).Ok? {
        RemoveValid(t1, Backup(self));
      }
    }
  }

  /** A successful finish leaves the executable there, with mode 0755 when
      it is a file, removes `self~` and records the restart once. */
  ghost predicate Finished(o: Outcome, events: seq<Event>, self: Path) {
    o.err.None? ==>
      && self in o.fs
      && (o.fs[self].File? ==> o.fs[self].perm == ExecPerm)
      && Backup(self) !in o.fs
      && o.events == events + [RestartCalled]
  }

  /** The finish, when it succeeds, is `Finished`. */
  lemma OldFinishSucceeded(t: Tree, events: seq<Event>, self: Path, platform: Platform)
    ensures Finished(OldFinish(t, events, self, platform), events, self)
  {
  }

  /** What follows the rename keeps the tree a tree. */
  lemma OldInstallValid(t1: Tree, events: seq<Event>, opts: Options, self: Path, platform: Platform, glob: Glob, files: seq<Entry>)
    requires Valid(t1)
    ensures Valid(OldInstall(t1, events, opts, self, platform, glob, files).fs)
  {
    var dir := Parent(self);
    var t2 := OldRemovePaths(t1, dir, opts.removeBeforeUpdate);
    OldRemovePathsValid(t1, dir, opts.removeBeforeUpdate);
    OldApplyEntriesValid(t2, dir, opts.excludeFiles, glob, files);
    var s := OldApplyEntries(t2, dir, opts.excludeFiles, glob, files);
    if s.err.None? {
      OldFinishValid(s.fs, events, self, platform);
    }
  }

  /** An earlier update, whatever its outcome, leaves the tree a tree. */
  lemma OldUpdateValid(t: Tree, events: seq<Event>, opts: Options, fetch: Fetch, platform: Platform, glob: Glob)
    requires Valid(t)
    ensures Valid(OldUpdateSpec(t, events, opts, fetch, platform, glob).fs)
  {
    if opts.updateURL != "" && fetch.exe.Ok? && fetch.download.Ok? {
      var self := fetch.exe.value;
      var files := Files(fetch.isArchive, fetch.unpacked, fetch.download.value, self);
      if files.Ok? && Rename(t, self, Backup(self)).Ok? {
        RenameValid(t, self, Backup(self));
        OldInstallValid(Rename(t, self, Backup(self)).value, events, opts, self, platform, glob, files.value);
      }
    }
  }

  /** A successful earlier update restarted the service once, left the
      executable in place with mode 0755 and removed `self~`. */
  lemma OldSucceeded(t: Tree, events: seq<Event>, opts: Options, fetch: Fetch, platform: Platform, glob: Glob)
    ensures var o := OldUpdateSpec(t, events, opts, fetch, platform, glob);
      o.err.None? && fetch.exe.Ok? && HasBinary(o.fs, fetch.exe.value) ==> o.fs[fetch.exe.value].perm == ExecPerm
    ensures var o := OldUpdateSpec(t, events, opts, fetch, platform, glob);
      o.err.None? ==>
        && fetch.exe.Ok?
        && fetch.exe.value in o.fs
        && Backup(fetch.exe.value) !in o.fs
        && o.events == events + [RestartCalled]
  {
    if opts.updateURL != "" && fetch.exe.Ok? && fetch.download.Ok? {
      var self := fetch.exe.value;
      var files := Files(fetch.isArchive, fetch.unpacked, fetch.download.value, self);
      if files.Ok? && Rename(t, self, Backup(self)).Ok? {
        var t1 := Rename(t, self, Backup(self)).value;
        var dir := Parent(self);
        var s := OldApplyEntries(OldRemovePaths(t1, dir, opts.removeBeforeUpdate), dir, opts.excludeFiles, glob, files.value);
        if s.err.None? {
          OldFinishSucceeded(s.fs, events, self, platform);
        }
      }
    }
  }

  /** The earlier update loses the executable when the payload does not
      carry it: with an archive of no entries and nothing to purge, the
      executable is renamed to `self~`, the chmod then finds nothing under
      the executable's name, and the update fails without restarting and
      without putting the binary back. */
  lemma OldLosesBinary(t: Tree, events: seq<Event>, opts: Options, fetch: Fetch, platform: Platform, glob: Glob)
    requires Valid(t) && opts.updateURL != "" && fetch.exe.Ok? && fetch.download.Ok?
    requires fetch.exe.value != [] && HasBinary(t, fetch.exe.value)
    requires !(Backup(fetch.exe.value) in t && t[Backup(fetch.exe.value)].Dir?)
    requires fetch.isArchive && fetch.unpacked == Ok([]) && opts.removeBeforeUpdate == []
    ensures var o := OldUpdateSpec(t, events, opts, fetch, platform, glob);
      && o.err == Some(NotExist(fetch.exe.value))
      && fetch.exe.value !in o.fs
      && Backup(fetch.exe.value) in o.fs && o.fs[Backup(fetch.exe.value)] == t[fetch.exe.value]
      && o.events == events
  {
    var self := fetch.exe.value;
    var p := Parent(self);
    assert p in t && t[p].Dir?;
    var t1 := Rename(t, self, Backup(self)).value;
    assert t1 == (t - {self})[Backup(self) := t[self]];
    assert |p| != |Backup(self)|;
    assert p in t1 && t1[p].Dir?;
    assert Stat(t1, self) == Absent;
  }
}
