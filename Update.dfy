/** The self-update of update.go from the point where the payload is in
    memory: the entry list, stopping the service, the purge of
    `RemoveBeforeUpdate`, the walk over the entries (exclusion patterns,
    directory entries, file entries with the rename-aside of the running
    executable), starting (or, on darwin, reloading) the service and the
    removal of the renamed-aside binary. */
module Update {
  import opened Fs
  import opened Os

  /** One entry of the payload (`archive.File`): a name relative to the
      install directory, its content and whether it marks a directory. */
  datatype Entry = Entry(name: string, body: seq<Byte>, isDir: bool)

  /** The options the update reads. */
  datatype Options = Options(updateURL: string, removeBeforeUpdate: seq<string>, excludeFiles: seq<string>)

  /** What the steps before the apply phase produced: `os.Executable`, the
      download (request, `content-length`, body), `archive.IsArchive` and
      `archive.Unpack`. */
  datatype Fetch = Fetch(exe: Result<Path>, download: Result<seq<Byte>>, isArchive: bool, unpacked: Result<seq<Entry>>)

  /** The answer of `filepath.Match(pattern, name)`. */
  datatype MatchResult = Matched | NoMatch | Malformed

  type Glob = (string, string) -> MatchResult

  /** The fixed data of one walk: the install directory, the executable,
      the name it is renamed aside to, and the exclusion patterns. */
  datatype Context = Context(dir: Path, self: Path, selfTmp: Path, excludes: seq<string>)

  /** The tree after a part of the walk, and the error that ended it, if any. */
  datatype Step = Step(fs: Tree, err: Option<Error>)

  /** The state an update leaves and the error it returns. */
  datatype Outcome = Outcome(fs: Tree, events: seq<Event>, err: Option<Error>)

  /** `"<self>.<date>.tmp"`, the name the running executable is moved to. */
  function TmpPath(self: Path, stamp: string): (p: Path)
    ensures p != self && Parent(p) == Parent(self)
  {
    Sibling(self, "." + stamp + ".tmp")
  }

  /** The entry list: the unpacked archive, or the whole payload as one file
      named after the executable. */
  function Files(isArchive: bool, unpacked: Result<seq<Entry>>, body: seq<Byte>, self: Path): Result<seq<Entry>> {
    if isArchive then unpacked else Ok([Entry(Base(self), body, false)])
  }

  /** The inner pattern loop: the first pattern that matches excludes the
      entry, a malformed pattern met before that aborts. */
  function Exclusion(glob: Glob, patterns: seq<string>, name: string): Result<bool>
    decreases |patterns|
  {
    if patterns == [] then Ok(false)
    else
      match glob(patterns[0], name)
      case Malformed => Err(BadPattern)
      case Matched => Ok(true)
      case NoMatch => Exclusion(glob, patterns[1..], name)
  }

  ghost predicate NoMatchBefore(glob: Glob, patterns: seq<string>, name: string, i: int) {
    forall j :: 0 <= j < i && j < |patterns| ==> glob(patterns[j], name) == NoMatch
  }

  /** The pattern loop over `ExcludeFiles` for one entry name. */
  method MatchExcluded(patterns: seq<string>, name: string, glob: Glob) returns (r: Result<bool>)
    ensures r == Exclusion(glob, patterns, name)
  {
    for i := 0 to |patterns|
      invariant Exclusion(glob, patterns, name) == Exclusion(glob, patterns[i..], name)
    {
      assert patterns[i..][1..] == patterns[i + 1..];
      match glob(patterns[i], name)
      case Malformed => return Err(BadPattern);
      case Matched => return Ok(true);
      case NoMatch =>
    }
    return Ok(false);
  }

  /** A directory entry: an existing directory is kept, an absent path is
      made with its ancestors, a file in the way is a conflict, and a stat
      error other than "does not exist" is returned. */
  function DirEntry(t: Tree, target: Path): Step {
    match Stat(t, target)
    case Found(n) => if n.Dir? then Step(t, None) else Step(t, Some(FileExists(target)))
    case Absent =>
      (match MkdirAll(t, target)
       case Ok(t1) => Step(t1, None)
       case Err(e) => Step(t, Some(e)))
    case UnderFile => Step(t, Some(NotDir(target)))
  }

  /** The mode a written file ends up with: that of the file it replaces,
      read before anything is renamed, or 0644. */
  function PermFor(st: StatResult): Perm {
    if st.Found? && st.node.File? then st.node.perm else FilePerm
  }

  /** A file entry: parent directories, the rename-aside when the target is
      the executable, then the write. */
  function FileEntry(t: Tree, ctx: Context, target: Path, body: seq<Byte>): Step {
    var perm := PermFor(Stat(t, target));
    match MkdirAll(t, Parent(target))
    case Err(e) => Step(t, Some(e))
    case Ok(t1) =>
      var moved := if target == ctx.self then Rename(t1, ctx.self, ctx.selfTmp) else Ok(t1);
      match moved
      case Err(e) => Step(t1, Some(e))
      case Ok(t2) =>
        match WriteFile(t2, target, body, perm)
        case Err(e) => Step(t2, Some(e))
        case Ok(t3) => Step(t3, None)
  }

  /** One pass of the entry loop. */
  function ApplyEntry(t: Tree, ctx: Context, glob: Glob, e: Entry): Step {
    match Exclusion(glob, ctx.excludes, e.name)
    case Err(x) => Step(t, Some(x))
    case Ok(excluded) =>
      if excluded then Step(t, None)
      else
        var target := Join(ctx.dir, e.name);
        if e.isDir then DirEntry(t, target) else FileEntry(t, ctx, target, e.body)
  }

  /** The entry loop: entries in order, the first error ends it. */
  function ApplyEntries(t: Tree, ctx: Context, glob: Glob, es: seq<Entry>): Step
    decreases |es|
  {
    if es == [] then Step(t, None)
    else
      var s := ApplyEntry(t, ctx, glob, es[0]);
      if s.err.Some? then s else ApplyEntries(s.fs, ctx, glob, es[1..])
  }

  /** The purge loop: every listed path, joined to the install directory,
      is removed with what is below it, unless it is the executable. */
  function RemovePaths(t: Tree, dir: Path, self: Path, rs: seq<string>): Tree
    decreases |rs|
  {
    if rs == [] then t
    else
      var file := Join(dir, rs[0]);
      RemovePaths(if file != self then RemoveAll(t, file) else t, dir, self, rs[1..])
  }

  /** The last step: the renamed-aside binary is removed if it is there. */
  function DropTmp(t: Tree, selfTmp: Path): Step {
    if Stat(t, selfTmp).Found? then
      match Remove(t, selfTmp)
      case Ok(t1) => Step(t1, None)
      case Err(e) => Step(t, Some(e))
    else Step(t, None)
  }

  /** The tree work between stopping and starting: the purge, then the entry loop. */
  function Install(t: Tree, ctx: Context, glob: Glob, rs: seq<string>, files: seq<Entry>): Step {
    ApplyEntries(RemovePaths(t, ctx.dir, ctx.self, rs), ctx, glob, files)
  }

  /** After the entry loop succeeded: start (on darwin, reload) the service,
      then remove the renamed-aside binary if it is there. */
  function Finish(t: Tree, stopped: seq<Event>, selfTmp: Path, platform: Platform, darwin: bool): Outcome {
    var started := stopped + [if darwin then ReloadCalled else StartCalled];
    var answer := if darwin then platform.reload else platform.start;
    if answer.Some? then Outcome(t, started, answer)
    else
      var d := DropTmp(t, selfTmp);
      Outcome(d.fs, started, d.err)
  }

  /** The whole update as a function of the state before it and of what the
      foreign calls answer. */
  function UpdateSpec(t: Tree, events: seq<Event>, opts: Options, fetch: Fetch, stamp: string,
                      platform: Platform, darwin: bool, glob: Glob): Outcome
  {
    if opts.updateURL == "" then Outcome(t, events, Some(NoUpdateURL))
    else if fetch.exe.Err? then Outcome(t, events, Some(fetch.exe.error))
    else if fetch.download.Err? then Outcome(t, events, Some(fetch.download.error))
    else
      var self := fetch.exe.value;
      match Files(fetch.isArchive, fetch.unpacked, fetch.download.value, self)
      case Err(e) => Outcome(t, events, Some(e))
      case Ok(files) =>
        var stopped := events + [StopCalled];
        if platform.stop.Some? then Outcome(t, stopped, platform.stop)
        else
          var ctx := Context(Parent(self), self, TmpPath(self, stamp), opts.excludeFiles);
          var s := Install(t, ctx, glob, opts.removeBeforeUpdate, files);
          if s.err.Some? then Outcome(s.fs, stopped, s.err)
          else Finish(s.fs, stopped, ctx.selfTmp, platform, darwin)
  }

  /** `Service.Update` from the payload on, on the machine `h`. */
  method Update(h: Host, opts: Options, fetch: Fetch, stamp: string, platform: Platform, darwin: bool, glob: Glob)
    returns (err: Option<Error>)
    modifies h
    ensures Outcome(h.fs, h.events, err) == UpdateSpec(old(h.fs), old(h.events), opts, fetch, stamp, platform, darwin, glob)
  {
    if opts.updateURL == "" {
      return Some(NoUpdateURL);
    }
    if fetch.exe.Err? {
      return Some(fetch.exe.error);
    }
    var self := fetch.exe.value;
    var selfTmp := TmpPath(self, stamp);
    if fetch.download.Err? {
      return Some(fetch.download.error);
    }
    var b := fetch.download.value;
    var files: seq<Entry>;
    if fetch.isArchive {
      if fetch.unpacked.Err? {
        return Some(fetch.unpacked.error);
      }
      files := fetch.unpacked.value;
    } else {
      files := [Entry(Base(self), b, false)];
    }
    var path := Parent(self);

    err := h.Control(StopCalled, platform.stop);
    if err.Some? {
      return;
    }
    ghost var stopped := h.events;

    var rs := opts.removeBeforeUpdate;
    for i := 0 to |rs|
      invariant RemovePaths(old(h.fs), path, self, rs) == RemovePaths(h.fs, path, self, rs[i..])
      invariant h.events == stopped
    {
      assert rs[i..][1..] == rs[i + 1..];
      var file := Join(path, rs[i]);
      if file != self {
        h.RemoveAll(file);
      }
    }

    ghost var purged := h.fs;
    ghost var ctx := Context(path, self, selfTmp, opts.excludeFiles);
    for i := 0 to |files|
      invariant ApplyEntries(purged, ctx, glob, files) == ApplyEntries(h.fs, ctx, glob, files[i..])
      invariant h.events == stopped && err == None
    {
      assert files[i..][1..] == files[i + 1..];
      var file := files[i];
      var excluded := MatchExcluded(opts.excludeFiles, file.name, glob);
      if excluded.Err? {
        return Some(excluded.error);
      }
      if excluded.value {
        continue;
      }
      var target := Join(path, file.name);
      var stat := h.Stat(target);
      if file.isDir {
        match stat
        case Found(n) =>
          if !n.Dir? {
            return Some(FileExists(target));
          }
        case Absent =>
          err := h.MkdirAll(target);
          if err.Some? {
            return;
          }
        case UnderFile =>
          return Some(NotDir(target));
      } else {
        err := h.MkdirAll(Parent(target));
        if err.Some? {
          return;
        }
        if target == self {
          err := h.Rename(self, selfTmp);
          if err.Some? {
            return;
          }
        }
        var perm := PermFor(stat);
        err := h.WriteFile(target, file.body, perm);
        if err.Some? {
          return;
        }
      }
    }

    if darwin {
      err := h.Control(ReloadCalled, platform.reload);
    } else {
      err := h.Control(StartCalled, platform.start);
    }
    if err.Some? {
      return;
    }
    var st := h.Stat(selfTmp);
    if st.Found? {
      err := h.Remove(selfTmp);
    }
  }
}
