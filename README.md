# sunshineplan/service — a verified model of its command registry and self-update

`sunshineplan/service` is a Go library that turns a program into a system
service. It covers installing, starting, stopping and restarting the
service, and updating it in place. This project models the parts of it
that carry sequential logic, and proves what they promise:

- **The command registry of `command.go`** (module `Commands`, `Commands.dfy`).
  - A service keeps a table from lower-case command names to `command`
    records, plus the list of names in first-registration order.
  - `initCommand` fills the table with eleven built-in commands.
  - `RegisterCommand` adds or replaces one entry.
  - `ParseAndRun` dispatches a command line: run the service, call a
    command's function with the remaining words, or fail with a message.
  - `Usage` renders the help text.
  - The class `Commands.Service` holds the two fields and updates them in
    place. Each method is proved against a function on the `Registry`
    value.
  - The invariant `WellFormed` says:
    - the order list has no duplicates;
    - the order list holds exactly the table's keys;
    - every key is lower case.
- **The self-update of `update.go`** (modules `Update` and `UpdateFacts`).
  - The model starts once the payload is in memory. It covers:
    - building the entry list;
    - stopping the service;
    - deleting the `RemoveBeforeUpdate` paths;
    - the walk over the entries: exclusion patterns, directory entries,
      and file entries with the rename-aside of the running executable;
    - starting the service (reloading it on darwin);
    - removing the renamed-aside binary.
  - The method `Update.Update` runs on a `Host` object. A `Host` has a file
    tree `fs: map<Path, Node>` and a log of service-manager actions
    `events`.
  - The method is proved equal to the function `UpdateSpec`. The lemmas in
    `UpdateFacts` state what the update guarantees about the tree and the
    log.
- **The verb switch, `Test`, `Remove` and the earlier update of `service.go`**
  (module `Verbs` in `Service.dfy`, module `OldUpdate`).
  - `Command` maps a verb, in any letter case, to an operation and
    returns whether it knew the verb.
  - The earlier `Update` renames the executable to `self~` first, writes
    files with 0644, chmods the executable to 0755, restarts the service,
    and removes `self~`.

The pieces they stand on:
- `Text`: ASCII lower-casing, `strings.Join`, splitting on `/`, and the
  decimal rendering of `%d`.
- `Fs`: cleaned absolute paths as component lists, plus the `os` and
  `path/filepath` calls as functions on the tree. Each call fails with the
  error its Go counterpart returns on Unix, except for the two cases
  listed under "Left out": renaming a directory, and errors from
  `os.RemoveAll`.
- `Os`: the `Host` class, whose methods apply those functions to its
  fields.

The service manager's answers to stop, start, reload and restart are
parameters (`Platform`). The verb switch, and the commands that wrap
operations, take the answer of each operation as the parameter `Answers`.
`Update` is one of those operations. The results of these calls are
parameters too:
- `os.Executable`;
- the download;
- `archive.IsArchive` and `archive.Unpack` (`Fetch`);
- `filepath.Match` (`Glob`, which can report a malformed pattern);
- the date in the temporary name (`stamp`);
- `runtime.GOOS == "darwin"` (`darwin`);
- `IsWindowsService()` (`isWindowsService`).

Notes on what the code does:
- **Glob patterns and `/`.** The update matches each pattern against the
  whole entry name. `filepath.Match`'s `*` does not cross `/`, so `*.log`
  matches the entry name `a.log` but not `b/skip.log`. The model leaves
  the matching to the `Glob` parameter.
- **The earlier update's 0644.** The earlier update writes with 0644, but
  `os.WriteFile` keeps the mode of a file that already exists. Only newly
  created files get 0644 (`OldUpdate.OldFileEntryEffect`, through
  `WrittenPerm`).
- **The earlier `Service` struct.** The struct in `service.go` has no `m`
  or `commands` field, and its `New` does not call `initCommand`.
  `command.go` uses both fields, and the first test of `command_test.go`
  expects `New` to register the built-ins. The model's `Commands.Service`
  has both fields, and its constructor runs `initCommand`.
- **`initCommand` and the order list.** `initCommand` makes a fresh table
  but does not reset the order list. So the registry is well formed after
  it only when the list started empty, as it does in `New`.
  `Commands.Service.InitCommand` states exactly that.

## Model

| member | source | states |
|---|---|---|
| Commands.Register | command.go:49-55 | `RegisterCommand` on the registry value: the record goes under the lower-cased name, and the name is appended to the order list the first time only. `RegisterEffect` and `RegisterAgain` state its properties |
| Commands.Route | command.go:58-79 | `ParseAndRun` on the registry value: run the service, invoke the named function with the rest of the line, or fail with the arity or unknown-command message. The `Route…` lemmas state its properties |
| Commands.UsageText | command.go:82-92 | `Usage` on the registry value: the header, then two help lines for each name in the order list that is displayed and has a function. The `Usage…` lemmas state its properties |
| Commands.Call | command.go:72 | what calling a registered function returns: a wrapped operation's answer (`wrapFunc`), the `log` command's answer, or the program's own function's answer for these arguments |
| Commands.WrapFuncIgnoresArgs | command.go:94-96 | a wrapped operation ignores the arguments it is called with and returns what the operation returns |
| Commands.RegisterEffect | command.go:49-55 | registration keeps the registry invariant; the entry sits under the lower-cased name; every other name keeps its entry or stays absent; the name joins the order list exactly when it was not in the table |
| Commands.RegisterAgain | command.go:50-54 | registering a name twice, in any letter cases, is the same as registering it the second time only: the entry is replaced and the order list has no second copy |
| Commands.Service.RegisterCommand | command.go:49-55 | the new state is `Register` of the old one, and a well-formed registry stays well formed |
| Commands.RegisterAllWellFormed | command.go:49-55 | any sequence of registrations keeps the registry invariant |
| Commands.RegisterAllFresh | command.go:49-55 | registering distinct lower-case names that are new appends them to the order list in order and leaves every other name's entry as it was |
| Commands.RegisterAllEntries | command.go:49-55 | after registering distinct lower-case names, each stands for the record built from its own registration |
| Commands.RegisterAllUsage | command.go:82-91 | registering distinct new names appends, in order, the help lines of those that are displayed and have a function |
| Commands.UsageAfterInsert | command.go:82-91 | registering a new name adds its two help lines at the end of the usage text when it is displayed and has a function, and nothing otherwise |
| Commands.UsageAfterRegister | command.go:82-91 | the same for a well-formed registry and any name not yet in its table |
| Commands.UsageAfterReregister | command.go:51-53 | re-registering a known name leaves the order list, and so the place of its help lines, unchanged |
| Commands.Service.Usage | command.go:82-92 | the loop over the order list builds the header followed by the lines of each name that is displayed and has a function, in list order |
| Commands.RouteRunsService | command.go:58-65 | `ParseAndRun` runs the service if and only if it runs as a Windows service or has no arguments |
| Commands.RouteUnknown | command.go:70-77 | a first word whose lower case is not registered, or is registered with a nil function, gives `unknown arguments: ` followed by the words joined by spaces |
| Commands.RouteRegistered | command.go:70-75 | a registered function runs with the rest of the line, under any letter case of its name, when the count matches or is negative; otherwise the result is `<word> need <n> arguments` |
| Commands.RouteIgnoresCase | command.go:70 | a line runs a function exactly when its lower-cased form does, and then runs the same function with the same arguments |
| Commands.ArityMessage | command.go:71-75 | an arity failure names a command that asks for a non-negative count, and the count in the message reads back as that count |
| Commands.Service.ParseAndRun | command.go:58-79 | the method returns the dispatch `Route` gives for the service's state |
| Commands.BuiltinsDistinct | command.go:18-28 | the eleven built-in names are distinct |
| Commands.InitCommandNames | command.go:16-45 | on an empty order list, `initCommand` lists install, uninstall, remove, run, test, start, stop, restart, status, update, log in that order |
| Commands.InitCommandEntries | command.go:18-44 | after `initCommand` each built-in name stands for its usage, its function, count 0 and displayed |
| Commands.InitCommandWellFormed | command.go:16-45 | on an empty order list, `initCommand` leaves a well-formed registry |
| Commands.InitCommandUsage | command_test.go:11-35 | the usage text of a new service is the header followed by the two help lines of each of the eleven built-ins, in order |
| Commands.Service.InitCommand | command.go:16-45 | the new state is the fresh table with the eleven registrations applied in order, and it is well formed when the order list started empty |
| Commands.Service.constructor | command.go:16-45 | a new service holds the registry `initCommand` produces, and it is well formed |
| Commands.TestRegistryTable | command_test.go:38-48 | after the two registrations of the test, `test` and `hide` stand for their records |
| Commands.TestRegistryUsage | command_test.go:49-56 | the usage text of that registry is exactly `"\nservice command:\n  test\n  \ttest\n"`: the hidden command is left out |
| Commands.TestRegistryRuns | command_test.go:57-61 | `test a b` runs the `test` function with `a b` |
| Commands.TestRegistryUnknown | command_test.go:62-64 | `start` fails with `unknown arguments: start` |
| Commands.TestRegistryArity | command_test.go:65-67 | `test a` fails with `test need 2 arguments` |
| Verbs.Perform | service.go:190-209 | what calling an operation returns: `Remove` gives `Uninstall`'s answer, `Test` gives `TestResult`, and every other operation its own answer |
| Verbs.TestResult | service.go:190-204 | `Test` returns nil when `TestExec` is unset and otherwise exactly what `TestExec` returned |
| Verbs.RemoveIsUninstall | service.go:207-209 | `Remove` returns what `Uninstall` returns |
| Verbs.Command | service.go:212-239 | an unknown verb returns `(false, nil)` and runs nothing; a known one returns `true` and the error of the single operation it runs |
| Verbs.VerbOfName | service.go:214-234 | every operation's verb reaches that operation, and `remove` reaches `Uninstall` as `uninstall` does |
| Verbs.NameOfVerb | service.go:214-236 | a verb is known if and only if its lower case is the name of an operation |
| Verbs.CommandIgnoresCase | service.go:214 | `Command` gives the same answer for a verb and for its lower case |
| Fs.Stat | update.go:86 | `os.Stat`: the node at the path; or "not exist", which `os.IsNotExist` accepts; or ENOTDIR when a file lies on the way |
| Fs.MkdirAll | update.go:101 | `os.MkdirAll`: an existing directory is success; an existing file on the way is ENOTDIR at that file; otherwise the missing directories are made |
| Fs.WriteFile | update.go:117 | `os.WriteFile`: an existing file is replaced and keeps its mode; a new file gets `perm` inside an existing directory; a directory is EISDIR; otherwise the lookup error |
| Fs.Rename | update.go:107 | `os.Rename` on Unix: a directory at the destination is EEXIST, or the source's error when the source is missing; a missing source gives its lookup error; otherwise the file moves and replaces a file at the destination |
| Fs.RemoveAll | update.go:67 | `os.RemoveAll`: the path and everything below it go, and the root stays |
| Fs.Remove | update.go:133 | `os.Remove`: a file or an empty directory goes; a missing path gives its lookup error, a non-empty directory ENOTEMPTY, and the root EBUSY |
| Fs.Chmod | service.go:174 | `os.Chmod`: a file gets the new mode; a missing path gives its lookup error |
| Update.Files | update.go:47-56 | the entry list: the unpacked archive, or a single entry named after the executable holding the payload |
| Update.RemovePaths | update.go:64-71 | the purge: `os.RemoveAll` on each listed name joined onto the executable's directory, skipping the executable itself |
| Update.Exclusion | update.go:75-83 | the pattern loop: the first pattern that matches excludes the entry, and the first malformed pattern met aborts the walk |
| Update.DirEntry | update.go:86-99 | a directory entry: it is made with its ancestors when Stat reports "not exist"; an existing file there is a `file exists` error; any other Stat error is returned |
| Update.FileEntry | update.go:101-119 | a file entry: the parent directories are made, the executable is renamed aside when it is the target, and the body is written with the mode Stat saw before, or 0644 |
| Update.ApplyEntries | update.go:73-121 | the entry loop: entries in order, excluded ones skipped, and the first error ends the loop |
| Update.Install | update.go:64-121 | the purge followed by the entry loop |
| Update.Finish | update.go:122-135 | start, or reload on darwin, then removal of the renamed-aside binary when Stat finds it |
| Update.UpdateSpec | update.go:19-136 | the whole update as a function of the state before it and of what the foreign calls answer |
| Update.TmpPath | update.go:27 | the rename-aside name is a sibling of the executable and differs from it |
| Update.MatchExcluded | update.go:75-83 | the inner pattern loop returns what `Exclusion` gives: the first matching pattern excludes, and a malformed pattern met first aborts |
| UpdateFacts.ExclusionCases | update.go:75-83 | an entry is excluded if and only if some pattern matches it and every earlier one answers no match; the walk aborts if and only if a malformed pattern comes first in the same sense; otherwise no pattern matches |
| UpdateFacts.ExcludedEntry | update.go:75-83 | an excluded entry leaves the tree as it is, and a malformed pattern aborts with the tree as it is |
| UpdateFacts.DirEntryCases | update.go:86-99 | directory-entry outcomes: an existing directory is kept; a file in its place is a `file exists` error; a file further up is the stat error; an absent path is made with its missing ancestors and nothing else; the tree stays a tree |
| UpdateFacts.FileEntryValid | update.go:101-119 | a file entry keeps the tree a tree |
| UpdateFacts.FileEntryFrame | update.go:101-119 | a file entry changes only its target, the target's ancestors and the rename-aside name |
| UpdateFacts.FileEntryWritten | update.go:111-117 | on success the target holds the entry's body, with the mode the target had before the entry, or 0644 when it is new |
| UpdateFacts.FileEntryParents | update.go:101-103 | on success every ancestor of the target is a directory |
| UpdateFacts.FileEntryRenamesAside | update.go:106-110 | when the target is the executable, a successful entry leaves the old binary, unchanged, at the temporary name |
| UpdateFacts.FileEntryOnDir | update.go:117-119 | a file entry whose target is a directory fails |
| UpdateFacts.ApplyEntryEffect | update.go:74-120 | one pass of the entry loop keeps the tree a tree and changes only its target, the target's ancestors and the rename-aside name |
| UpdateFacts.ApplyEntriesEffect | update.go:73-121 | the entry loop keeps the tree a tree, and every path that no entry reaches keeps its node or its absence |
| UpdateFacts.EntryBelowBinary | update.go:85-103 | an entry that points below the executable fails, because the executable is a file in its way |
| UpdateFacts.ApplyEntriesKeepsBinary | update.go:73-121 | a successful entry loop leaves the executable a file |
| UpdateFacts.RemovePathsEffect | update.go:64-71 | the purge keeps the tree a tree; it leaves, unchanged, exactly the nodes that no listed path other than the executable is at or above; the root always stays |
| UpdateFacts.InstallEffect | update.go:64-121 | the purge and the entry loop together keep the tree a tree, and leave every path that neither reaches as it was |
| UpdateFacts.FinishEffect | update.go:122-135 | start (reload on darwin) is logged once; nothing but the temporary name changes; on success the temporary name is gone |
| UpdateFacts.UpdateEarlyErrors | update.go:19-56 | an empty update URL returns its error with no other effect; a failed executable lookup, download or unpack leaves the tree and the log as they were |
| UpdateFacts.UpdateStopsFirst | update.go:59-62 | the log only grows; any change to the tree comes after a stop request; a failed stop leaves the tree unchanged |
| UpdateFacts.UpdateSucceeded | update.go:122-135 | a successful update logged exactly stop and then start (reload on darwin), and the temporary name is gone |
| UpdateFacts.UpdateValid | update.go:47-136 | an update, whatever its outcome, leaves the tree a tree |
| UpdateFacts.UpdateFrame | update.go:64-121 | a path that no purged path and no entry reaches, other than the temporary name, is as it was after the update |
| UpdateFacts.UpdateKeepsBinary | update.go:101-119 | unless a purged path lies above it, the executable is still a file after a successful update |
| UpdateFacts.InstallRawBinary | update.go:54-56 | the single entry a bare payload becomes writes the payload into the executable, with the mode the executable had |
| UpdateFacts.UpdateRawBinary | update.go:54-119 | after a successful update with a payload that is not an archive, the executable holds the payload with the mode it had, provided its name is not excluded and no purged path lies above it |
| Update.Update | update.go:47-136 | the method's final tree, log and error are those `UpdateSpec` gives for the state before it |
| OldUpdate.OldRemovePaths | service.go:128-133 | the earlier purge: `os.RemoveAll` on every listed name, the executable's name included |
| OldUpdate.OldFileEntry | service.go:162-171 | an earlier file entry: the parent directories are made, then the body is written with 0644 |
| OldUpdate.OldApplyEntries | service.go:135-172 | the earlier entry loop |
| OldUpdate.OldFinish | service.go:174-186 | chmod of the executable to 0755, restart, then removal of `self~` when Stat finds the executable |
| OldUpdate.OldUpdateSpec | service.go:81-187 | the whole earlier update as a function of the state before it and of what the foreign calls answer |
| OldUpdate.Backup | service.go:123 | `self~` is a sibling of the executable and differs from it |
| OldUpdate.OldUpdate | service.go:112-186 | the earlier update's final tree, log and error are those `OldUpdateSpec` gives |
| OldUpdate.OldApplyAll | service.go:135-172 | the entry loop run on the machine leaves the tree and error `OldApplyEntries` gives, and logs nothing |
| OldUpdate.OldFinishOn | service.go:174-186 | the chmod, restart and `self~` removal run on the machine leave the tree, log and error `OldFinish` gives |
| OldUpdate.OldRenameFirst | service.go:82-125 | an empty URL returns its error with no side effect; the tree changes only after the rename of the executable to `self~` succeeds; a failed rename leaves tree and log as they were |
| OldUpdate.OldRemovePathsValid | service.go:128-133 | the purge keeps the tree a tree |
| OldUpdate.OldFileEntryEffect | service.go:163-170 | a file entry keeps the tree a tree and, on success, leaves its body in the target, with 0644 when the target is new and the old mode otherwise |
| OldUpdate.OldApplyEntriesValid | service.go:135-172 | the entry loop keeps the tree a tree |
| OldUpdate.OldEntryAgrees | service.go:137-161 | exclusion, malformed patterns and directory entries give here exactly what they give in the later update |
| OldUpdate.OldFinishValid | service.go:174-186 | the chmod, restart and `self~` removal keep the tree a tree |
| OldUpdate.OldFinishSucceeded | service.go:174-186 | on success the executable is present, with mode 0755 when it is a file; `self~` is gone; the restart was logged once |
| OldUpdate.OldUpdateValid | service.go:81-187 | the earlier update, whatever its outcome, leaves the tree a tree |
| OldUpdate.OldSucceeded | service.go:174-184 | a successful earlier update leaves the executable in place, with mode 0755 when it is a file, removes `self~`, and logs exactly one restart |
| OldUpdate.OldLosesBinary | service.go:120-176 | with an empty archive and nothing to purge, the earlier update renames the executable to `self~`; the chmod then fails, and the binary is never put back |

## Left out

- The HTTP download, the `content-length` parse and the progress bar are network I/O. Their result, or their error, is an input.
- Archive detection and unpacking are library code. The archive flag and the entry list are inputs.
- `filepath.Match` is an oracle parameter; real glob semantics are not modelled.
- `Run`, `Install`, `Uninstall`, `Start`, `Stop`, `Restart` and `Status` live in the platform files. They involve concurrency, signals and service-manager processes. Their answers are parameters, and the update's calls to them are logged events.
- `reload`, called by the update on darwin, is not part of this model. Its answer is `Platform.reload`.
- `Kill` is a hook the program supplies in the `Service` struct. Its answer is the parameter `answers(Kill)`.
- Logging (`Printf`, `SetExtra` in `ParseAndRun`, the `Logger` defaults in `Update` and `Test`) has no effect on results.
- The `log` command reads a file and prints it. Its answer is the parameter `showLog`.
- The closures the test registers are abstract handlers, so the `a,b` value the test reads is not modelled.
- `Commands.Service.ParseAndRun` returns what to do (`Dispatch`) and does not call the chosen function. What a call returns is `Commands.Call`, over the same parameters as `Verbs.Command`.
- Calling a nil `Kill` panics in Go. The model returns `answers(Kill)` instead.
- `Verbs.Command`: the `update` verb, and the `update` built-in command through `Commands.Call`, answer with the parameter `answers(Update)`. The model does not tie that answer to the error `Update.UpdateSpec` gives, because `Verbs` describes the switch for any set of operation answers. The update itself is `Update.Update`.
- The static `Usage` constant of the earlier `service.go` is documentation text; it is not modelled.
- `Text.ToLower`: does not model Unicode case mapping. It lower-cases ASCII letters only, so every case-insensitivity property holds for ASCII.
- Paths are cleaned absolute paths split on `/`. Windows separators and volume names are not modelled.
- `Fs.Rename`: renaming a directory onto a path that is not a directory is modelled as failing with EISDIR, where Unix would move the directory. The update renames only the executable, a file. A directory at the destination gives EEXIST, as Go's `os.Rename` does.
- `os.RemoveAll` has no error here, because its callers only log it.
- The umask and directory modes are not modelled: directories carry no mode.
- The time stamp in the temporary name is an input; the clock is not modelled.
- `Commands.InitCommandUsage`: states the first test's text as the header followed by `HelpLines(name, usage)`, which is `"  " + name + "\n" + "  \t" + usage + "\n"`, for each built-in. It does not spell out the full literal string. The second test's text is proved literally, in `Commands.TestRegistryUsage`.

## Findings

| source | as written | input that shows it | evidently intended | confidence | as-written member | corrected member |
|---|---|---|---|---|---|---|
| service.go:123-176 | the earlier update renames the executable to `self~` before the entry loop and puts it back nowhere | an archive payload with no entries and no `RemoveBeforeUpdate` paths: the chmod at line 174 finds no executable and the update returns that error, leaving the binary at `self~` and the service not restarted | the executable stays in place unless an entry replaces it. The later `update.go` does this: it renames only when an entry's target is the executable, and it proves the executable survives a successful update | not executed | OldUpdate.OldLosesBinary | UpdateFacts.UpdateKeepsBinary |
