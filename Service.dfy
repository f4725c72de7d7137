/** The verb switch of service.go: `Service.Command` maps a verb, in any
    letter case, to one of the service's operations and returns whether it
    knew the verb and what the operation returned. `Test` and the `Remove`
    alias are the two operations whose bodies sit in the same file. */
module Verbs {
  import opened Text
  import opened Fs

  /** The operations of a service. */
  datatype Operation = Install | Uninstall | Remove | Run | Kill | Test | Start | Stop | Restart | Status | Update

  /** What the platform-specific operations return (nil or an error). */
  type Answers = Operation -> Option<Error>

  /** `Service.Test`: `testExec` is `None` when `TestExec` is unset and
      otherwise what it returned; the test's own error is passed through. */
  function TestResult(testExec: Option<Option<Error>>): (err: Option<Error>)
    ensures testExec == None ==> err == None
    ensures testExec != None ==> err == testExec.value
  {
    match testExec
    case None => None
    case Some(r) => r
  }

  /** What calling an operation returns: `Remove` is `Uninstall`, `Test` is
      `TestResult`, the rest are the platform's. */
  function Perform(op: Operation, answers: Answers, testExec: Option<Option<Error>>): Option<Error> {
    match op
    case Remove => answers(Uninstall)
    case Test => TestResult(testExec)
    case _ => answers(op)
  }

  /** `Remove` is an alias of `Uninstall`. */
  lemma RemoveIsUninstall(answers: Answers, testExec: Option<Option<Error>>)
    ensures Perform(Remove, answers, testExec) == Perform(Uninstall, answers, testExec)
  {
  }

  /** The verbs `Command` knows, after lower-casing. */
  function Verb(cmd: string): Option<Operation> {
    var c := ToLower(cmd);
    if c == "run" then Some(Run)
    else if c == "kill" then Some(Kill)
    else if c == "test" then Some(Test)
    else if c == "install" then Some(Install)
    else if c == "uninstall" || c == "remove" then Some(Uninstall)
    else if c == "start" then Some(Start)
    else if c == "stop" then Some(Stop)
    else if c == "restart" then Some(Restart)
    else if c == "status" then Some(Status)
    else if c == "update" then Some(Update)
    else None
  }

  /** The verb that names an operation. */
  function Name(op: Operation): string {
    match op
    case Install => "install"
    case Uninstall => "uninstall"
    case Remove => "remove"
    case Run => "run"
    case Kill => "kill"
    case Test => "test"
    case Start => "start"
    case Stop => "stop"
    case Restart => "restart"
    case Status => "status"
    case Update => "update"
  }

  /** The operation a verb reaches once aliases are resolved. */
  function Canonical(op: Operation): Operation {
    if op == Remove then Uninstall else op
  }

  /** Every operation's name is a verb that reaches it; "remove" reaches
      `Uninstall`, as "uninstall" does. */
  lemma VerbOfName(op: Operation)
    ensures Verb(Name(op)) == Some(Canonical(op))
  {
    var n := Name(op);
    assert IsLower(n);
    ToLowerOfLower(n);
  }

  /** A verb is known exactly when its lower case names an operation, and
      it reaches the operation it names. */
  lemma NameOfVerb(cmd: string)
    ensures Verb(cmd) != None <==> exists o :: ToLower(cmd) == Name(o)
    ensures Verb(cmd) != None ==> ToLower(cmd) == Name(Verb(cmd).value) || ToLower(cmd) == Name(Remove)
  {
    var c := ToLower(cmd);
    if Verb(cmd) != None {
      if c == "remove" {
        assert c == Name(Remove);
      } else {
        assert c == Name(Verb(cmd).value);
      }
    }
    if exists o :: c == Name(o) {
      var o :| c == Name(o);
      VerbOfName(o);
    }
  }

  datatype Handled = Handled(handled: bool, invoked: Option<Operation>, err: Option<Error>)

  /** `Service.Command`: a known verb runs its operation and returns
      `(true, its error)`; an unknown one returns `(false, nil)` and runs
      nothing. */
  function Command(cmd: string, answers: Answers, testExec: Option<Option<Error>>): (r: Handled)
    ensures r.handled <==> Verb(cmd) != None
    ensures !r.handled ==> r.invoked == None && r.err == None
    ensures r.handled ==> r.invoked == Verb(cmd) && r.err == Perform(r.invoked.value, answers, testExec)
  {
    match Verb(cmd)
    case None => Handled(false, None, None)
    case Some(op) => Handled(true, Some(op), Perform(op, answers, testExec))
  }

  /** The verb's letter case does not matter. */
  lemma CommandIgnoresCase(cmd: string, answers: Answers, testExec: Option<Option<Error>>)
    ensures Command(cmd, answers, testExec) == Command(ToLower(cmd), answers, testExec)
  {
    ToLowerIsLower(cmd);
  }
}
