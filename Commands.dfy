/** The command registry of command.go: a table from lower-case names to
    commands and the list of names in first-registration order, the
    registration of a command, the dispatch of a command line and the usage
    text. */
module Commands {
  import opened Text
  import opened Fs
  import opened Verbs

  /** What a registered function does: a service operation wrapped by
      `wrapFunc`, the `log` command's function, or a function of the
      program's own, told apart by a number. */
  datatype Handler = Wrapped(op: Operation) | ShowLog | Custom(id: nat)

  /** The `command` record; `fn` is `None` for a nil function. */
  datatype Command = Command(fn: Option<Handler>, args: int, usage: string, display: bool)

  /** The registry state: the table `m` and the order list `commands`. */
  datatype Registry = Registry(m: map<string, Command>, commands: seq<string>)

  predicate NoDup(s: seq<string>) {
    forall i, j :: 0 <= i < j < |s| ==> s[i] != s[j]
  }

  /** The registry invariant: the order list holds each name once, its
      names are exactly the table's keys, and every key is lower case. */
  ghost predicate WellFormed(r: Registry) {
    && NoDup(r.commands)
    && (forall n :: n in r.m <==> n in r.commands)
    && (forall n :: n in r.m ==> IsLower(n))
  }

  /** `wrapFunc`: a function of no arguments as a command function. */
  function WrapFunc(op: Operation): Handler {
    Wrapped(op)
  }

  /** What calling a command function with `args` returns: a wrapped
      operation returns what the operation returns, the `log` command what
      showing the log returns, and a function of the program's own what
      `custom` says. */
  function Call(h: Handler, args: seq<string>, answers: Answers, testExec: Option<Option<Error>>,
                showLog: Option<Error>, custom: (nat, seq<string>) -> Option<Error>): Option<Error> {
    match h
    case Wrapped(op) => Perform(op, answers, testExec)
    case ShowLog => showLog
    case Custom(id) => custom(id, args)
  }

  /** A wrapped function ignores its arguments. */
  lemma WrapFuncIgnoresArgs(op: Operation, a: seq<string>, b: seq<string>, answers: Answers,
                            testExec: Option<Option<Error>>, showLog: Option<Error>,
                            custom: (nat, seq<string>) -> Option<Error>)
    ensures Call(WrapFunc(op), a, answers, testExec, showLog, custom)
         == Call(WrapFunc(op), b, answers, testExec, showLog, custom)
    ensures Call(WrapFunc(op), a, answers, testExec, showLog, custom) == Perform(op, answers, testExec)
  {
  }

  function Empty(): (r: Registry)
    ensures WellFormed(r)
  {
    Registry(map[], [])
  }

  /** `RegisterCommand`: the entry goes under the lower-cased name,
      replacing an earlier one; the name joins the order list only the
      first time. */
  function Register(st: Registry, name: string, usage: string, fn: Option<Handler>, args: int, display: bool): Registry {
    var k := ToLower(name);
    Registry(st.m[k := Command(fn, args, usage, display)],
             if k in st.m then st.commands else st.commands + [k])
  }

  /** Registration keeps the invariant, stores the entry under the
      lower-cased name, leaves every other name as it was, and appends to
      the order list exactly when the name is new. */
  lemma RegisterEffect(st: Registry, name: string, usage: string, fn: Option<Handler>, args: int, display: bool)
    requires WellFormed(st)
    ensures var r := Register(st, name, usage, fn, args, display);
      && WellFormed(r)
      && ToLower(name) in r.m && r.m[ToLower(name)] == Command(fn, args, usage, display)
      && (forall n :: n != ToLower(name) ==> (n in r.m <==> n in st.m))
      && (forall n :: n != ToLower(name) && n in st.m ==> r.m[n] == st.m[n])
      && r.commands == if ToLower(name) in st.m then st.commands else st.commands + [ToLower(name)]
  {
    ToLowerIsLower(name);
  }

  /** Registering a name again, in any letter case, replaces its entry and
      keeps the order list: registering twice is registering the second
      time only. */
  lemma RegisterAgain(st: Registry, a: string, b: string, u1: string, u2: string,
                      f1: Option<Handler>, f2: Option<Handler>, n1: int, n2: int, d1: bool, d2: bool)
    requires ToLower(a) == ToLower(b)
    ensures Register(Register(st, a, u1, f1, n1, d1), b, u2, f2, n2, d2) == Register(st, b, u2, f2, n2, d2)
  {
  }

  /** `initCommand`: a fresh table, then the eleven built-in commands of
      `Builtins`, in order (the order list is not reset). */
  function Initialized(st: Registry): Registry {
    RegisterAll(Registry(map[], st.commands), Builtins)
  }

  /** A new service: `New`, which runs `initCommand`. */
  function Initial(): Registry {
    Initialized(Empty())
  }

  /** The result of `ParseAndRun`: run the service, call a command's
      function with the remaining arguments, or fail with a message. */
  datatype Dispatch = RunService | Invoke(fn: Handler, args: seq<string>) | Fail(msg: string)

  /** `ParseAndRun`, with `IsWindowsService()` as `isWindowsService`. */
  function Route(st: Registry, args: seq<string>, isWindowsService: bool): Dispatch {
    if isWindowsService || args == [] then RunService
    else
      var k := ToLower(args[0]);
      if k in st.m && st.m[k].fn.Some? then
        var cmd := st.m[k];
        if cmd.args < 0 || |args| - 1 == cmd.args then Invoke(cmd.fn.value, args[1..])
        else Fail(args[0] + " need " + Itoa(cmd.args) + " arguments")
      else Fail("unknown arguments: " + Text.Join(args, " "))
  }

  /** `ParseAndRun` runs the service exactly when it runs as a Windows
      service or has no arguments. */
  lemma RouteRunsService(st: Registry, args: seq<string>, isWindowsService: bool)
    ensures Route(st, args, isWindowsService) == RunService <==> isWindowsService || args == []
  {
  }

  /** A first word whose lower case names no command, or names one with a
      nil function, is an unknown command line. */
  lemma RouteUnknown(st: Registry, args: seq<string>)
    requires args != []
    requires ToLower(args[0]) !in st.m || st.m[ToLower(args[0])].fn == None
    ensures Route(st, args, false) == Fail("unknown arguments: " + Text.Join(args, " "))
  {
  }

  /** A command registered under a name runs, under any letter case of the
      name, with the rest of the line when the count of the rest is what
      it asks for (any count when it asks for a negative one). */
  lemma RouteRegistered(st: Registry, name: string, usage: string, h: Handler, n: int, display: bool,
                        cmd: string, rest: seq<string>)
    requires ToLower(cmd) == ToLower(name)
    ensures var d := Route(Register(st, name, usage, Some(h), n, display), [cmd] + rest, false);
      (n < 0 || |rest| == n ==> d == Invoke(h, rest))
      && (0 <= n && |rest| != n ==> d == Fail(cmd + " need " + Itoa(n) + " arguments"))
  {
    assert ([cmd] + rest)[1..] == rest;
  }

  /** A line runs exactly the function its first word names, in any letter
      case. */
  lemma RouteIgnoresCase(st: Registry, cmd: string, rest: seq<string>)
    ensures var d := Route(st, [cmd] + rest, false);
      var e := Route(st, [ToLower(cmd)] + rest, false);
      (d.Invoke? <==> e.Invoke?) && (d.Invoke? ==> d == e)
  {
    ToLowerIsLower(cmd);
    assert ([cmd] + rest)[1..] == rest && ([ToLower(cmd)] + rest)[1..] == rest;
  }

  /** The count in an arity message reads back as the count the command asks for. */
  lemma ArityMessage(st: Registry, args: seq<string>)
    requires Route(st, args, false).Fail? && args != []
    requires ToLower(args[0]) in st.m && st.m[ToLower(args[0])].fn.Some?
    ensures st.m[ToLower(args[0])].args >= 0
    ensures Route(st, args, false).msg
         == args[0] + " need " + Itoa(st.m[ToLower(args[0])].args) + " arguments"
    ensures ParseDecimal(Itoa(st.m[ToLower(args[0])].args)) == st.m[ToLower(args[0])].args
  {
    ParseItoa(st.m[ToLower(args[0])].args);
  }

  /** The two lines of help for one name, or nothing when it is hidden or
      has no function. */
  function Line(m: map<string, Command>, name: string): string {
    if name in m && m[name].display && m[name].fn.Some? then HelpLines(name, m[name].usage) else ""
  }

  /** `"  name\n"` then `"  \tusage\n"`. */
  function HelpLines(name: string, usage: string): string {
    ("  " + name + "\n") + ("  \t" + usage + "\n")
  }

  function Lines(m: map<string, Command>, names: seq<string>): string
    decreases |names|
  {
    if names == [] then "" else Lines(m, names[..|names| - 1]) + Line(m, names[|names| - 1])
  }

  lemma Assoc(x: string, y: string, z: string)
    ensures (x + y) + z == x + (y + z)
  {
  }

  const UsageHeader: string := "\nservice command:\n"

  /** The text `Usage` returns. */
  function UsageText(st: Registry): string {
    UsageHeader + Lines(st.m, st.commands)
  }

  /** Lines of names the table agrees on are the same. */
  lemma {:induction false} LinesAgree(m: map<string, Command>, m2: map<string, Command>, names: seq<string>)
    requires forall i :: 0 <= i < |names| ==> Line(m, names[i]) == Line(m2, names[i])
    ensures Lines(m, names) == Lines(m2, names)
    decreases |names|
  {
    if names != [] {
      var init := names[..|names| - 1];
      forall i | 0 <= i < |init| ensures Line(m, init[i]) == Line(m2, init[i]) {
        assert init[i] == names[i];
      }
      LinesAgree(m, m2, init);
    }
  }

  lemma LinesAfterRegister(st: Registry, name: string, usage: string, fn: Option<Handler>, args: int, display: bool)
    requires ToLower(name) !in st.m && ToLower(name) !in st.commands
    ensures var r := Register(st, name, usage, fn, args, display);
      Lines(r.m, r.commands) == Lines(st.m, st.commands) + Line(r.m, ToLower(name))
  {
    var k := ToLower(name);
    var r := Register(st, name, usage, fn, args, display);
    assert r.commands == st.commands + [k];
    forall i | 0 <= i < |st.commands| ensures Line(r.m, st.commands[i]) == Line(st.m, st.commands[i]) {
      assert st.commands[i] != k;
    }
    LinesAgree(r.m, st.m, st.commands);
    assert r.commands[..|r.commands| - 1] == st.commands;
  }

  /** Registering a new name adds its two lines at the end of the usage
      text when it is displayed and has a function, and nothing otherwise. */
  lemma UsageAfterRegister(st: Registry, name: string, usage: string, fn: Option<Handler>, args: int, display: bool)
    requires WellFormed(st) && ToLower(name) !in st.m
    ensures var r := Register(st, name, usage, fn, args, display);
      UsageText(r) == UsageText(st) + (if display && fn.Some? then HelpLines(ToLower(name), usage) else "")
  {
    UsageAfterInsert(st, name, usage, fn, args, display);
  }

  lemma UsageAfterInsert(st: Registry, name: string, usage: string, fn: Option<Handler>, args: int, display: bool)
    requires ToLower(name) !in st.m && ToLower(name) !in st.commands
    ensures var r := Register(st, name, usage, fn, args, display);
      UsageText(r) == UsageText(st) + (if display && fn.Some? then HelpLines(ToLower(name), usage) else "")
  {
    LinesAfterRegister(st, name, usage, fn, args, display);
    var k := ToLower(name);
    var r := Register(st, name, usage, fn, args, display);
    var line := if display && fn.Some? then HelpLines(k, usage) else "";
    assert k in r.m && r.m[k] == Command(fn, args, usage, display);
    assert Line(r.m, k) == line;
    assert UsageText(r) == UsageHeader + (Lines(st.m, st.commands) + line);
    Assoc(UsageHeader, Lines(st.m, st.commands), line);
  }

  /** Re-registering a name keeps its place in the usage text. */
  lemma UsageAfterReregister(st: Registry, name: string, usage: string, fn: Option<Handler>, args: int, display: bool)
    requires WellFormed(st) && ToLower(name) in st.m
    ensures Register(st, name, usage, fn, args, display).commands == st.commands
  {
  }

  /** One call of `RegisterCommand`, as data. */
  datatype Registration = Registration(name: string, usage: string, fn: Option<Handler>, args: int, display: bool)

  /** One registration applied. */
  function Step(st: Registry, g: Registration): Registry {
    Register(st, g.name, g.usage, g.fn, g.args, g.display)
  }

  /** Registering a list of commands in order. */
  function RegisterAll(st: Registry, regs: seq<Registration>): Registry
    decreases |regs|
  {
    if regs == [] then st else Step(RegisterAll(st, regs[..|regs| - 1]), regs[|regs| - 1])
  }

  /** The commands `initCommand` registers, in order. */
  const Builtins: seq<Registration> := [
    Registration("install", "Install service", Some(WrapFunc(Install)), 0, true),
    Registration("uninstall", "Uninstall service", Some(WrapFunc(Uninstall)), 0, true),
    Registration("remove", "Remove service, equal uninstall", Some(WrapFunc(Remove)), 0, true),
    Registration("run", "Run service executor", Some(WrapFunc(Run)), 0, true),
    Registration("test", "Run service test executor", Some(WrapFunc(Test)), 0, true),
    Registration("start", "Start service", Some(WrapFunc(Start)), 0, true),
    Registration("stop", "Stop service", Some(WrapFunc(Stop)), 0, true),
    Registration("restart", "Restart service", Some(WrapFunc(Restart)), 0, true),
    Registration("status", "Show service status info", Some(WrapFunc(Status)), 0, true),
    Registration("update", "Update service files if update url is provided", Some(WrapFunc(Update)), 0, true),
    Registration("log", "Display log if present", Some(ShowLog), 0, true)
  ]

  function Names(regs: seq<Registration>): (r: seq<string>)
    ensures |r| == |regs| && forall i :: 0 <= i < |regs| ==> r[i] == regs[i].name
  {
    seq(|regs|, i requires 0 <= i < |regs| => regs[i].name)
  }

  /** The help lines of one registration: nothing when it is hidden or
      has no function. */
  function HelpOf(g: Registration): string {
    if g.display && g.fn.Some? then HelpLines(g.name, g.usage) else ""
  }

  /** The help lines of a list of registrations, in order. */
  function Help(regs: seq<Registration>): string
    decreases |regs|
  {
    if regs == [] then "" else Help(regs[..|regs| - 1]) + HelpOf(regs[|regs| - 1])
  }

  /** The conditions under which registering a list only adds: lower-case,
      distinct names, none of them known yet. */
  ghost predicate Fresh(st: Registry, regs: seq<Registration>) {
    && (forall i :: 0 <= i < |regs| ==> IsLower(regs[i].name))
    && NoDup(Names(regs))
    && (forall i :: 0 <= i < |regs| ==> regs[i].name !in st.m && regs[i].name !in st.commands)
  }

  lemma FreshPrefix(st: Registry, regs: seq<Registration>)
    requires Fresh(st, regs) && regs != []
    ensures Fresh(st, regs[..|regs| - 1])
    ensures regs[|regs| - 1].name !in Names(regs[..|regs| - 1])
  {
    var init := regs[..|regs| - 1];
    assert forall i :: 0 <= i < |init| ==> init[i] == regs[i];
    assert forall i :: 0 <= i < |init| ==> Names(init)[i] == Names(regs)[i];
  }

  /** Registering one fresh lower-case name, in terms of the table and the
      order list. */
  lemma RegisterFresh(st: Registry, g: Registration)
    requires IsLower(g.name) && g.name !in st.m
    ensures Step(st, g).m == st.m[g.name := Command(g.fn, g.args, g.usage, g.display)]
    ensures Step(st, g).commands == st.commands + [g.name]
  {
    ToLowerOfLower(g.name);
  }

  /** Registering fresh names appends them to the order list in order and
      leaves every other name alone. */
  lemma {:induction false} RegisterAllFresh(st: Registry, regs: seq<Registration>)
    requires Fresh(st, regs)
    ensures var r := RegisterAll(st, regs);
      && r.commands == st.commands + Names(regs)
      && (forall n :: n !in Names(regs) ==> (n in r.m <==> n in st.m) && (n in st.m ==> r.m[n] == st.m[n]))
    decreases |regs|
  {
    if regs != [] {
      var init := regs[..|regs| - 1];
      var g := regs[|regs| - 1];
      FreshPrefix(st, regs);
      RegisterAllFresh(st, init);
      var s1 := RegisterAll(st, init);
      RegisterFresh(s1, g);
      assert RegisterAll(st, regs) == Step(s1, g);
      assert Names(regs) == Names(init) + [g.name];
    }
  }

  /** Registering distinct lower-case names stores each entry under its
      name. */
  lemma {:induction false} RegisterAllEntries(st: Registry, regs: seq<Registration>)
    requires forall i :: 0 <= i < |regs| ==> IsLower(regs[i].name)
    requires NoDup(Names(regs))
    ensures forall i :: 0 <= i < |regs| ==>
      (regs[i].name in RegisterAll(st, regs).m
       && RegisterAll(st, regs).m[regs[i].name] == Command(regs[i].fn, regs[i].args, regs[i].usage, regs[i].display))
    decreases |regs|
  {
    if regs != [] {
      var init := regs[..|regs| - 1];
      var g := regs[|regs| - 1];
      assert forall i :: 0 <= i < |init| ==> init[i] == regs[i];
      assert NoDup(Names(init)) by {
        assert forall i :: 0 <= i < |init| ==> Names(init)[i] == Names(regs)[i];
      }
      RegisterAllEntries(st, init);
      ToLowerOfLower(g.name);
      var r := RegisterAll(st, regs);
      assert r == Step(RegisterAll(st, init), g);
      forall i | 0 <= i < |regs|
        ensures regs[i].name in r.m && r.m[regs[i].name] == Command(regs[i].fn, regs[i].args, regs[i].usage, regs[i].display)
      {
        if i < |init| {
          assert Names(regs)[i] != Names(regs)[|regs| - 1];
        }
      }
    }
  }

  /** The lines of a concatenation of name lists. */
  lemma {:induction false} LinesAppend(m: map<string, Command>, a: seq<string>, b: seq<string>)
    ensures Lines(m, a + b) == Lines(m, a) + Lines(m, b)
    decreases |b|
  {
    if b != [] {
      var b' := b[..|b| - 1];
      assert (a + b)[..|a + b| - 1] == a + b';
      assert (a + b)[|a + b| - 1] == b[|b| - 1];
      LinesAppend(m, a, b');
      var last := Line(m, b[|b| - 1]);
      assert Lines(m, a + b) == Lines(m, a + b') + last;
      Assoc(Lines(m, a), Lines(m, b'), last);
    } else {
      assert a + b == a;
    }
  }

  /** Over a table holding the registrations' entries, the lines of their
      names are their help lines. */
  lemma {:induction false} LinesOfNames(m: map<string, Command>, regs: seq<Registration>)
    requires forall i :: 0 <= i < |regs| ==>
      regs[i].name in m && m[regs[i].name] == Command(regs[i].fn, regs[i].args, regs[i].usage, regs[i].display)
    ensures Lines(m, Names(regs)) == Help(regs)
    decreases |regs|
  {
    if regs != [] {
      var init := regs[..|regs| - 1];
      assert Names(regs)[..|regs| - 1] == Names(init);
      LinesOfNames(m, init);
    }
  }

  /** Registering fresh names appends the help lines of the displayed
      ones to the usage text. */
  lemma RegisterAllUsage(st: Registry, regs: seq<Registration>)
    requires Fresh(st, regs)
    ensures UsageText(RegisterAll(st, regs)) == UsageText(st) + Help(regs)
  {
    RegisterAllFresh(st, regs);
    RegisterAllEntries(st, regs);
    var r := RegisterAll(st, regs);
    forall i | 0 <= i < |st.commands| ensures Line(r.m, st.commands[i]) == Line(st.m, st.commands[i]) {
      assert st.commands[i] !in Names(regs);
    }
    LinesAgree(r.m, st.m, st.commands);
    LinesAppend(r.m, st.commands, Names(regs));
    LinesOfNames(r.m, regs);
    Assoc(UsageHeader, Lines(st.m, st.commands), Help(regs));
  }

  lemma RegisterAllSnoc(st: Registry, p: seq<Registration>, g: Registration)
    ensures RegisterAll(st, p + [g]) == Step(RegisterAll(st, p), g)
  {
    assert (p + [g])[..|p|] == p;
  }

  /** Registering two lists in a row is registering their concatenation. */
  lemma {:induction false} RegisterAllAppend(st: Registry, a: seq<Registration>, b: seq<Registration>)
    ensures RegisterAll(st, a + b) == RegisterAll(RegisterAll(st, a), b)
    decreases |b|
  {
    if b == [] {
      assert a + b == a;
    } else {
      var b' := b[..|b| - 1];
      assert (a + b)[..|a + b| - 1] == a + b';
      assert (a + b)[|a + b| - 1] == b[|b| - 1];
      RegisterAllAppend(st, a, b');
    }
  }

  /** Six registrations, one after the other. */
  lemma RegisterSix(st: Registry, regs: seq<Registration>, g0: Registration, g1: Registration, g2: Registration, g3: Registration, g4: Registration, g5: Registration)
    requires regs == [g0, g1, g2, g3, g4, g5]
    ensures RegisterAll(st, regs) == Step(Step(Step(Step(Step(Step(st, g0), g1), g2), g3), g4), g5)
  {
    var p: seq<Registration> := [];
    RegisterAllSnoc(st, p, g0);
    p := p + [g0];
    RegisterAllSnoc(st, p, g1);
    p := p + [g1];
    RegisterAllSnoc(st, p, g2);
    p := p + [g2];
    RegisterAllSnoc(st, p, g3);
    p := p + [g3];
    RegisterAllSnoc(st, p, g4);
    p := p + [g4];
    RegisterAllSnoc(st, p, g5);
    p := p + [g5];
    assert regs == p;
  }

  /** Five registrations, one after the other. */
  lemma RegisterFive(st: Registry, regs: seq<Registration>, g0: Registration, g1: Registration, g2: Registration, g3: Registration, g4: Registration)
    requires regs == [g0, g1, g2, g3, g4]
    ensures RegisterAll(st, regs) == Step(Step(Step(Step(Step(st, g0), g1), g2), g3), g4)
  {
    var p: seq<Registration> := [];
    RegisterAllSnoc(st, p, g0);
    p := p + [g0];
    RegisterAllSnoc(st, p, g1);
    p := p + [g1];
    RegisterAllSnoc(st, p, g2);
    p := p + [g2];
    RegisterAllSnoc(st, p, g3);
    p := p + [g3];
    RegisterAllSnoc(st, p, g4);
    p := p + [g4];
    assert regs == p;
  }

  /** Eleven registrations, one after the other. */
  lemma RegisterEleven(st: Registry, regs: seq<Registration>, g0: Registration, g1: Registration, g2: Registration, g3: Registration, g4: Registration, g5: Registration, g6: Registration, g7: Registration, g8: Registration, g9: Registration, g10: Registration)
    requires regs == [g0, g1, g2, g3, g4, g5, g6, g7, g8, g9, g10]
    ensures RegisterAll(st, regs) == Step(Step(Step(Step(Step(Step(Step(Step(Step(Step(Step(st, g0), g1), g2), g3), g4), g5), g6), g7), g8), g9), g10)
  {
    var a := [g0, g1, g2, g3, g4, g5];
    var b := [g6, g7, g8, g9, g10];
    assert regs == a + b;
    RegisterAllAppend(st, a, b);
    RegisterSix(st, a, g0, g1, g2, g3, g4, g5);
    RegisterFive(RegisterAll(st, a), b, g6, g7, g8, g9, g10);
  }

  /** The help lines of two lists in a row. */
  lemma {:induction false} HelpAppend(a: seq<Registration>, b: seq<Registration>)
    ensures Help(a + b) == Help(a) + Help(b)
    decreases |b|
  {
    if b == [] {
      assert a + b == a;
    } else {
      var b' := b[..|b| - 1];
      assert (a + b)[..|a + b| - 1] == a + b';
      assert (a + b)[|a + b| - 1] == b[|b| - 1];
      HelpAppend(a, b');
      assert Help(a + b) == Help(a + b') + HelpOf(b[|b| - 1]);
      Assoc(Help(a), Help(b'), HelpOf(b[|b| - 1]));
    }
  }

  /** The help lines of six registrations, one after the other. */
  lemma HelpSix(regs: seq<Registration>, g0: Registration, g1: Registration, g2: Registration, g3: Registration, g4: Registration, g5: Registration)
    requires regs == [g0, g1, g2, g3, g4, g5]
    ensures Help(regs) == HelpOf(g0) + HelpOf(g1) + HelpOf(g2) + HelpOf(g3) + HelpOf(g4) + HelpOf(g5)
  {
    assert regs[..0] == [];
    assert regs[..1][..0] == regs[..0];
    assert Help(regs[..1]) == HelpOf(g0);
    assert regs[..2][..1] == regs[..1];
    assert Help(regs[..2]) == HelpOf(g0) + HelpOf(g1);
    assert regs[..3][..2] == regs[..2];
    assert Help(regs[..3]) == HelpOf(g0) + HelpOf(g1) + HelpOf(g2);
    assert regs[..4][..3] == regs[..3];
    assert Help(regs[..4]) == HelpOf(g0) + HelpOf(g1) + HelpOf(g2) + HelpOf(g3);
    assert regs[..5][..4] == regs[..4];
    assert Help(regs[..5]) == HelpOf(g0) + HelpOf(g1) + HelpOf(g2) + HelpOf(g3) + HelpOf(g4);
    assert regs[..6][..5] == regs[..5];
    assert Help(regs[..6]) == HelpOf(g0) + HelpOf(g1) + HelpOf(g2) + HelpOf(g3) + HelpOf(g4) + HelpOf(g5);
    assert regs[..6] == regs;
  }

  /** The help lines of five registrations, one after the other. */
  lemma HelpFive(regs: seq<Registration>, g0: Registration, g1: Registration, g2: Registration, g3: Registration, g4: Registration)
    requires regs == [g0, g1, g2, g3, g4]
    ensures Help(regs) == HelpOf(g0) + HelpOf(g1) + HelpOf(g2) + HelpOf(g3) + HelpOf(g4)
  {
    assert regs[..0] == [];
    assert regs[..1][..0] == regs[..0];
    assert Help(regs[..1]) == HelpOf(g0);
    assert regs[..2][..1] == regs[..1];
    assert Help(regs[..2]) == HelpOf(g0) + HelpOf(g1);
    assert regs[..3][..2] == regs[..2];
    assert Help(regs[..3]) == HelpOf(g0) + HelpOf(g1) + HelpOf(g2);
    assert regs[..4][..3] == regs[..3];
    assert Help(regs[..4]) == HelpOf(g0) + HelpOf(g1) + HelpOf(g2) + HelpOf(g3);
    assert regs[..5][..4] == regs[..4];
    assert Help(regs[..5]) == HelpOf(g0) + HelpOf(g1) + HelpOf(g2) + HelpOf(g3) + HelpOf(g4);
    assert regs[..5] == regs;
  }

  /** The help lines of eleven registrations, one after the other. */
  lemma HelpEleven(regs: seq<Registration>, g0: Registration, g1: Registration, g2: Registration, g3: Registration, g4: Registration, g5: Registration, g6: Registration, g7: Registration, g8: Registration, g9: Registration, g10: Registration)
    requires regs == [g0, g1, g2, g3, g4, g5, g6, g7, g8, g9, g10]
    ensures Help(regs) == HelpOf(g0) + HelpOf(g1) + HelpOf(g2) + HelpOf(g3) + HelpOf(g4) + HelpOf(g5) + HelpOf(g6) + HelpOf(g7) + HelpOf(g8) + HelpOf(g9) + HelpOf(g10)
  {
    var a := [g0, g1, g2, g3, g4, g5];
    var b := [g6, g7, g8, g9, g10];
    assert regs == a + b;
    HelpAppend(a, b);
    HelpSix(a, g0, g1, g2, g3, g4, g5);
    HelpFive(b, g6, g7, g8, g9, g10);
    var s6 := Help(a);
    Assoc(s6, HelpOf(g6) + HelpOf(g7) + HelpOf(g8) + HelpOf(g9), HelpOf(g10));
    Assoc(s6, HelpOf(g6) + HelpOf(g7) + HelpOf(g8), HelpOf(g9));
    Assoc(s6, HelpOf(g6) + HelpOf(g7), HelpOf(g8));
    Assoc(s6, HelpOf(g6), HelpOf(g7));
  }


  /** Registering eleven fresh names appends their help lines in order. */
  lemma UsageEleven(st: Registry, regs: seq<Registration>, g0: Registration, g1: Registration, g2: Registration, g3: Registration, g4: Registration, g5: Registration, g6: Registration, g7: Registration, g8: Registration, g9: Registration, g10: Registration)
    requires Fresh(st, regs) && regs == [g0, g1, g2, g3, g4, g5, g6, g7, g8, g9, g10]
    ensures UsageText(RegisterAll(st, regs)) == UsageText(st) + (HelpOf(g0) + HelpOf(g1) + HelpOf(g2) + HelpOf(g3) + HelpOf(g4) + HelpOf(g5) + HelpOf(g6) + HelpOf(g7) + HelpOf(g8) + HelpOf(g9) + HelpOf(g10))
  {
    RegisterAllUsage(st, regs);
    HelpEleven(regs, g0, g1, g2, g3, g4, g5, g6, g7, g8, g9, g10);
  }

  /** The built-in names in order. */
  lemma BuiltinNames()
    ensures Names(Builtins) == ["install", "uninstall", "remove", "run", "test", "start", "stop", "restart", "status", "update", "log"]
  {
  }

  /** No two built-in names are the same: each is told apart from the
      others by its length and its first letter. */
  lemma BuiltinsDistinct()
    ensures NoDup(Names(Builtins))
  {
    BuiltinNames();
    var ns: seq<string> := ["install", "uninstall", "remove", "run", "test", "start", "stop", "restart", "status", "update", "log"];
    var keys: seq<int> := [7 * 256 + 'i' as int, 9 * 256 + 'u' as int, 6 * 256 + 'r' as int, 3 * 256 + 'r' as int,
                           4 * 256 + 't' as int, 5 * 256 + 's' as int, 4 * 256 + 's' as int, 7 * 256 + 'r' as int,
                           6 * 256 + 's' as int, 6 * 256 + 'u' as int, 3 * 256 + 'l' as int];
    forall i | 0 <= i < |ns| ensures |ns[i]| * 256 + ns[i][0] as int == keys[i] {
    }
    forall i, j | 0 <= i < j < |ns| ensures ns[i] != ns[j] {
      assert keys[i] != keys[j];
    }
  }

  lemma BuiltinsLower()
    ensures forall i :: 0 <= i < |Builtins| ==> IsLower(Builtins[i].name)
  {
  }

  /** The built-in names are lower case and distinct. */
  lemma BuiltinsFresh(st: Registry)
    requires st.m == map[] && st.commands == []
    ensures Fresh(st, Builtins)
  {
    BuiltinsDistinct();
    BuiltinsLower();
  }

  /** On a service with no commands yet, `initCommand` lists the eleven
      names in order. */
  lemma InitCommandNames(st: Registry)
    requires st.commands == []
    ensures Initialized(st).commands == ["install", "uninstall", "remove", "run", "test", "start", "stop", "restart", "status", "update", "log"]
  {
    var r0 := Registry(map[], st.commands);
    BuiltinsFresh(r0);
    RegisterAllFresh(r0, Builtins);
    BuiltinNames();
  }

  /** Registering lower-case names adds exactly those names to the table. */
  lemma {:induction false} RegisterAllKeys(st: Registry, regs: seq<Registration>)
    requires forall i :: 0 <= i < |regs| ==> IsLower(regs[i].name)
    ensures forall n :: n in RegisterAll(st, regs).m <==> n in st.m || n in Names(regs)
    decreases |regs|
  {
    if regs != [] {
      var init := regs[..|regs| - 1];
      var g := regs[|regs| - 1];
      assert forall i :: 0 <= i < |init| ==> init[i] == regs[i];
      RegisterAllKeys(st, init);
      ToLowerOfLower(g.name);
      assert Names(regs) == Names(init) + [g.name];
    }
  }

  /** `initCommand` holds each built-in command under its name, and no
      other name. */
  lemma InitCommandEntries(st: Registry)
    ensures forall i :: 0 <= i < |Builtins| ==>
      (Builtins[i].name in Initialized(st).m
       && Initialized(st).m[Builtins[i].name] == Command(Builtins[i].fn, Builtins[i].args, Builtins[i].usage, Builtins[i].display))
    ensures forall n :: n in Initialized(st).m <==> n in Names(Builtins)
  {
    BuiltinsLower();
    BuiltinsDistinct();
    RegisterAllEntries(Registry(map[], st.commands), Builtins);
    RegisterAllKeys(Registry(map[], st.commands), Builtins);
  }

  /** Registering any list of commands keeps the registry invariant. */
  lemma {:induction false} RegisterAllWellFormed(st: Registry, regs: seq<Registration>)
    requires WellFormed(st)
    ensures WellFormed(RegisterAll(st, regs))
    decreases |regs|
  {
    if regs != [] {
      var g := regs[|regs| - 1];
      RegisterAllWellFormed(st, regs[..|regs| - 1]);
      RegisterEffect(RegisterAll(st, regs[..|regs| - 1]), g.name, g.usage, g.fn, g.args, g.display);
    }
  }

  /** On a service with no commands yet, `initCommand` gives a well-formed
      registry. */
  lemma InitCommandWellFormed(st: Registry)
    requires st.commands == []
    ensures WellFormed(Initialized(st))
  {
    RegisterAllWellFormed(Registry(map[], st.commands), Builtins);
  }

  /** On a service with no commands yet, the usage text of `initCommand`
      is the header and then the help of each built-in in order. */
  lemma InitUsageOf(st: Registry)
    requires st.commands == []
    ensures UsageText(Initialized(st)) == UsageHeader + (
      HelpOf(Registration("install", "Install service", Some(WrapFunc(Install)), 0, true))
      + HelpOf(Registration("uninstall", "Uninstall service", Some(WrapFunc(Uninstall)), 0, true))
      + HelpOf(Registration("remove", "Remove service, equal uninstall", Some(WrapFunc(Remove)), 0, true))
      + HelpOf(Registration("run", "Run service executor", Some(WrapFunc(Run)), 0, true))
      + HelpOf(Registration("test", "Run service test executor", Some(WrapFunc(Test)), 0, true))
      + HelpOf(Registration("start", "Start service", Some(WrapFunc(Start)), 0, true))
      + HelpOf(Registration("stop", "Stop service", Some(WrapFunc(Stop)), 0, true))
      + HelpOf(Registration("restart", "Restart service", Some(WrapFunc(Restart)), 0, true))
      + HelpOf(Registration("status", "Show service status info", Some(WrapFunc(Status)), 0, true))
      + HelpOf(Registration("update", "Update service files if update url is provided", Some(WrapFunc(Update)), 0, true))
      + HelpOf(Registration("log", "Display log if present", Some(ShowLog), 0, true)))
  {
    var r0 := Registry(map[], st.commands);
    BuiltinsFresh(r0);
    UsageEleven(r0, Builtins,
      Registration("install", "Install service", Some(WrapFunc(Install)), 0, true),
      Registration("uninstall", "Uninstall service", Some(WrapFunc(Uninstall)), 0, true),
      Registration("remove", "Remove service, equal uninstall", Some(WrapFunc(Remove)), 0, true),
      Registration("run", "Run service executor", Some(WrapFunc(Run)), 0, true),
      Registration("test", "Run service test executor", Some(WrapFunc(Test)), 0, true),
      Registration("start", "Start service", Some(WrapFunc(Start)), 0, true),
      Registration("stop", "Stop service", Some(WrapFunc(Stop)), 0, true),
      Registration("restart", "Restart service", Some(WrapFunc(Restart)), 0, true),
      Registration("status", "Show service status info", Some(WrapFunc(Status)), 0, true),
      Registration("update", "Update service files if update url is provided", Some(WrapFunc(Update)), 0, true),
      Registration("log", "Display log if present", Some(ShowLog), 0, true));
    assert UsageText(r0) == UsageHeader;
  }
  /** Every built-in is displayed and has a function, so each gives its
      two help lines. */
  lemma BuiltinLines()
    ensures HelpOf(Registration("install", "Install service", Some(WrapFunc(Install)), 0, true)) == HelpLines("install", "Install service")
    ensures HelpOf(Registration("uninstall", "Uninstall service", Some(WrapFunc(Uninstall)), 0, true)) == HelpLines("uninstall", "Uninstall service")
    ensures HelpOf(Registration("remove", "Remove service, equal uninstall", Some(WrapFunc(Remove)), 0, true)) == HelpLines("remove", "Remove service, equal uninstall")
    ensures HelpOf(Registration("run", "Run service executor", Some(WrapFunc(Run)), 0, true)) == HelpLines("run", "Run service executor")
    ensures HelpOf(Registration("test", "Run service test executor", Some(WrapFunc(Test)), 0, true)) == HelpLines("test", "Run service test executor")
    ensures HelpOf(Registration("start", "Start service", Some(WrapFunc(Start)), 0, true)) == HelpLines("start", "Start service")
    ensures HelpOf(Registration("stop", "Stop service", Some(WrapFunc(Stop)), 0, true)) == HelpLines("stop", "Stop service")
    ensures HelpOf(Registration("restart", "Restart service", Some(WrapFunc(Restart)), 0, true)) == HelpLines("restart", "Restart service")
    ensures HelpOf(Registration("status", "Show service status info", Some(WrapFunc(Status)), 0, true)) == HelpLines("status", "Show service status info")
    ensures HelpOf(Registration("update", "Update service files if update url is provided", Some(WrapFunc(Update)), 0, true)) == HelpLines("update", "Update service files if update url is provided")
    ensures HelpOf(Registration("log", "Display log if present", Some(ShowLog), 0, true)) == HelpLines("log", "Display log if present")
  {
  }

  /** On a service with no commands yet, `initCommand` produces the usage
      text the first test of command_test.go expects. */
  lemma InitCommandUsage(st: Registry)
    requires st.commands == []
    ensures UsageText(Initialized(st)) == UsageHeader + (
      HelpLines("install", "Install service")
      + HelpLines("uninstall", "Uninstall service")
      + HelpLines("remove", "Remove service, equal uninstall")
      + HelpLines("run", "Run service executor")
      + HelpLines("test", "Run service test executor")
      + HelpLines("start", "Start service")
      + HelpLines("stop", "Stop service")
      + HelpLines("restart", "Restart service")
      + HelpLines("status", "Show service status info")
      + HelpLines("update", "Update service files if update url is provided")
      + HelpLines("log", "Display log if present"))
  {
    InitUsageOf(st);
    BuiltinLines();
  }


  /** The registry of the second part of command_test.go: for two
      functions `f` and `g`, a displayed `test` running `f` and a hidden
      `hide` running `g`, both asking for two arguments. */
  function TestRegistry(f: Handler, g: Handler): Registry {
    var r := Register(Empty(), "test", "test", Some(f), 2, true);
    Register(r, "hide", "test", Some(g), 2, false)
  }

  /** Only `test` is in the usage text of that registry. */
  lemma TestRegistryUsage(f: Handler, g: Handler)
    ensures UsageText(TestRegistry(f, g)) == "\nservice command:\n  test\n  \ttest\n"
  {
    TestRegistryLines(f, g);
    TestUsageLiteral();
  }

  lemma TestRegistryLines(f: Handler, g: Handler)
    ensures UsageText(TestRegistry(f, g)) == UsageHeader + HelpLines("test", "test")
  {
    ToLowerOfLower("test");
    ToLowerOfLower("hide");
    var r := Register(Empty(), "test", "test", Some(f), 2, true);
    UsageAfterInsert(Empty(), "test", "test", Some(f), 2, true);
    UsageAfterInsert(r, "hide", "test", Some(g), 2, false);
    assert UsageText(Empty()) == UsageHeader;
  }

  lemma TestUsageLiteral()
    ensures UsageHeader + HelpLines("test", "test") == "\nservice command:\n  test\n  \ttest\n"
  {
  }

  /** The table of that registry. */
  lemma TestRegistryTable(f: Handler, g: Handler)
    ensures TestRegistry(f, g).m
         == map["test" := Command(Some(f), 2, "test", true), "hide" := Command(Some(g), 2, "test", false)]
  {
    ToLowerOfLower("test");
    ToLowerOfLower("hide");
  }

  /** In that registry `test a b` runs `f` with `a b`. */
  lemma TestRegistryRuns(f: Handler, g: Handler)
    ensures Route(TestRegistry(f, g), ["test", "a", "b"], false) == Invoke(f, ["a", "b"])
  {
    TestRegistryTable(f, g);
    ToLowerOfLower("test");
  }

  /** In that registry `start` is unknown. */
  lemma TestRegistryUnknown(f: Handler, g: Handler)
    ensures Route(TestRegistry(f, g), ["start"], false) == Fail("unknown arguments: start")
  {
    TestRegistryTable(f, g);
    ToLowerOfLower("start");
    assert "start" !in TestRegistry(f, g).m;
    assert Text.Join(["start"], " ") == "start";
  }

  /** In that registry `test a` has the wrong count. */
  lemma TestRegistryArity(f: Handler, g: Handler)
    ensures Route(TestRegistry(f, g), ["test", "a"], false) == Fail("test need 2 arguments")
  {
    TestRegistryTable(f, g);
    ToLowerOfLower("test");
    assert ["test", "a"][1..] == ["a"];
    ArityLiteral();
  }

  /** The message for `test` with two arguments asked for. */
  lemma ArityLiteral()
    ensures "test" + " need " + Itoa(2) + " arguments" == "test need 2 arguments"
  {
    assert Itoa(2) == "2";
    assert "test" + " need " + "2" + " arguments" == "test need 2 arguments";
  }

  /** The service's command state. */
  class Service {
    var m: map<string, Command>
    var commands: seq<string>

    function State(): Registry
      reads this
    {
      Registry(m, commands)
    }

    ghost predicate Valid()
      reads this
    {
      WellFormed(State())
    }

    /** `New`, which runs `initCommand` on an empty service. */
    constructor ()
      ensures Valid() && State() == Initial()
    {
      m := map[];
      commands := [];
      new;
      InitCommand();
    }

    /** `initCommand`: a fresh table, then the eleven built-in commands in
        order. The order list is not reset, so the result is well formed
        when it starts empty. */
    method InitCommand()
      modifies this
      ensures State() == Initialized(old(State()))
      ensures old(commands) == [] ==> Valid()
    {
      ghost var st := Registry(map[], commands);
      m := map[];
      RegisterCommand("install", "Install service", Some(WrapFunc(Install)), 0, true);
      RegisterCommand("uninstall", "Uninstall service", Some(WrapFunc(Uninstall)), 0, true);
      RegisterCommand("remove", "Remove service, equal uninstall", Some(WrapFunc(Remove)), 0, true);
      RegisterCommand("run", "Run service executor", Some(WrapFunc(Run)), 0, true);
      RegisterCommand("test", "Run service test executor", Some(WrapFunc(Test)), 0, true);
      RegisterCommand("start", "Start service", Some(WrapFunc(Start)), 0, true);
      RegisterCommand("stop", "Stop service", Some(WrapFunc(Stop)), 0, true);
      RegisterCommand("restart", "Restart service", Some(WrapFunc(Restart)), 0, true);
      RegisterCommand("status", "Show service status info", Some(WrapFunc(Status)), 0, true);
      RegisterCommand("update", "Update service files if update url is provided", Some(WrapFunc(Update)), 0, true);
      RegisterCommand("log", "Display log if present", Some(ShowLog), 0, true);
      RegisterEleven(st, Builtins,
        Registration("install", "Install service", Some(WrapFunc(Install)), 0, true),
        Registration("uninstall", "Uninstall service", Some(WrapFunc(Uninstall)), 0, true),
        Registration("remove", "Remove service, equal uninstall", Some(WrapFunc(Remove)), 0, true),
        Registration("run", "Run service executor", Some(WrapFunc(Run)), 0, true),
        Registration("test", "Run service test executor", Some(WrapFunc(Test)), 0, true),
        Registration("start", "Start service", Some(WrapFunc(Start)), 0, true),
        Registration("stop", "Stop service", Some(WrapFunc(Stop)), 0, true),
        Registration("restart", "Restart service", Some(WrapFunc(Restart)), 0, true),
        Registration("status", "Show service status info", Some(WrapFunc(Status)), 0, true),
        Registration("update", "Update service files if update url is provided", Some(WrapFunc(Update)), 0, true),
        Registration("log", "Display log if present", Some(ShowLog), 0, true));
      if old(commands) == [] {
        InitCommandWellFormed(old(State()));
      }
    }

    /** `RegisterCommand`; a well-formed registry stays well formed. */
    method RegisterCommand(name: string, usage: string, fn: Option<Handler>, args: int, display: bool)
      modifies this
      ensures old(Valid()) ==> Valid()
      ensures State() == Register(old(State()), name, usage, fn, args, display)
    {
      if Valid() {
        RegisterEffect(State(), name, usage, fn, args, display);
      }
      var k := ToLower(name);
      if k !in m {
        commands := commands + [k];
      }
      m := m[k := Command(fn, args, usage, display)];
    }

    method ParseAndRun(args: seq<string>, isWindowsService: bool) returns (d: Dispatch)
      ensures d == Route(State(), args, isWindowsService)
    {
      if isWindowsService || |args| == 0 {
        return RunService;
      }
      var k := ToLower(args[0]);
      if k in m && m[k].fn.Some? {
        var cmd := m[k];
        var a := args[1..];
        if cmd.args < 0 || |a| == cmd.args {
          return Invoke(cmd.fn.value, a);
        }
        return Fail(args[0] + " need " + Itoa(cmd.args) + " arguments");
      }
      return Fail("unknown arguments: " + Text.Join(args, " "));
    }

    method Usage() returns (u: string)
      ensures u == UsageText(State())
    {
      u := UsageHeader;
      for i := 0 to |commands|
        invariant u == UsageHeader + Lines(m, commands[..i])
      {
        assert commands[..i + 1][..i] == commands[..i];
        var name := commands[i];
        if name in m && m[name].display && m[name].fn.Some? {
          ghost var before := u;
          u := u + ("  " + name + "\n");
          u := u + ("  \t" + m[name].usage + "\n");
          Assoc(before, "  " + name + "\n", "  \t" + m[name].usage + "\n");
          Assoc(UsageHeader, Lines(m, commands[..i]), HelpLines(name, m[name].usage));
        }
      }
      assert commands[..|commands|] == commands;
    }
  }
}
