/**
 * The command runner (class `Main`): it checks the arguments, resolves the
 * list of target databases, changes the password on each of them in order,
 * and prints a summary. The configuration file becomes an immutable map, the
 * database an oracle `db`, and the console and the log file become the
 * `Output` the run returns.
 */
module Runner {
  import opened Wrappers
  import opened JavaText
  import opened Dao

  /** The contents of `settings.properties`. */
  type Properties = map<string, string>

  const IgnoreErrorsProp: string := "ignore_errors"
  const DbNamesProp: string := "db_names"

  const ErrorsLine: string := "There were some errors, please check logs."
  const StoppedLine: string := "The process stopped due to '" + IgnoreErrorsProp + "' property is set false"
  const CompletedOkLine: string := "DB password change completed successfully."
  const CompletedErrLine: string := "DB password change completed with errors."

  /** One line written to the log file. */
  datatype LogEntry = Info(message: string) | Error(message: string)

  /** What a step wrote: lines on standard output and entries in the log file. */
  datatype Output = Output(console: seq<string>, log: seq<LogEntry>) {
    function Then(next: Output): Output {
      Output(console + next.console, log + next.log)
    }
  }

  const Silent: Output := Output([], [])

  /** The rotation request from the command line: user, current password, new password. */
  datatype Rotation = Rotation(user: string, password: string, newPassword: string)

  /** What `processUser` did for one database: its verdict, the connection it attempted, and its output. */
  datatype Processed = Processed(ok: bool, connection: Option<Request>, out: Output)

  /** The databases attempted so far, the AND of their verdicts, the connections attempted, and the output. */
  datatype Batch = Batch(attempted: seq<string>, success: bool, connections: seq<Request>, out: Output) {
    function Then(next: Batch): Batch {
      Batch(attempted + next.attempted, success && next.success, connections + next.connections, out.Then(next.out))
    }
  }

  /** How a run ends: usage text and exit code 1, a `NullPointerException` for a missing `db_names`, or a summary. */
  datatype RunResult =
    | UsageError
    | DbNamesMissing
    | Finished(success: bool, attempted: seq<string>, connections: seq<Request>, out: Output)

  // ---------------------------------------------------------------------------
  // Output
  // ---------------------------------------------------------------------------

  /** `printMessage`: always printed; copied to the log only when it is not empty. */
  function PrintMessage(msg: string): (o: Output)
    ensures o.console == [msg]
    ensures o.log == [] <==> msg == ""
    ensures forall e :: e in o.log ==> e == Info(msg)
  {
    Output([msg], if msg == "" then [] else [Info(msg)])
  }

  /** The non-empty lines of a list, in order. */
  function NonEmpty(msgs: seq<string>): seq<string> {
    if msgs == [] then [] else (if msgs[0] == "" then [] else [msgs[0]]) + NonEmpty(msgs[1..])
  }

  /** `printMessage` on each line in turn: all lines on the console, the non-empty ones logged at info level. */
  function PrintMessages(msgs: seq<string>): (o: Output)
    ensures o.console == msgs
    ensures |o.log| == |NonEmpty(msgs)|
    ensures forall i :: 0 <= i < |o.log| ==> o.log[i] == Info(NonEmpty(msgs)[i])
  {
    if msgs == [] then Silent else PrintMessage(msgs[0]).Then(PrintMessages(msgs[1..]))
  }

  // ---------------------------------------------------------------------------
  // Configuration
  // ---------------------------------------------------------------------------

  /**
   * `getBooleanProperty`: the default when the property is absent or empty;
   * otherwise true exactly for `true`, `yes` and `y` in any case.
   */
  function GetBooleanProperty(props: Properties, name: string, defaultValue: bool): (r: bool)
    ensures name !in props || props[name] == "" ==> r == defaultValue
    ensures name in props && props[name] != "" ==> (r <==> ToLower(props[name]) in {"true", "yes", "y"})
  {
    if name !in props || props[name] == "" then defaultValue
    else
      var v := props[name];
      assert ToLower("true") == "true" && ToLower("yes") == "yes" && ToLower("y") == "y";
      EqualsIgnoreCase("true", v) || EqualsIgnoreCase("yes", v) || EqualsIgnoreCase("y", v)
  }

  /** `notIgnoreErrors`: stop at the first failure only when `ignore_errors` is set to a non-empty value other than true/yes/y. */
  function NotIgnoreErrors(props: Properties): (r: bool)
    ensures r <==> IgnoreErrorsProp in props && props[IgnoreErrorsProp] != ""
                   && ToLower(props[IgnoreErrorsProp]) !in {"true", "yes", "y"}
  {
    !GetBooleanProperty(props, IgnoreErrorsProp, true)
  }

  // ---------------------------------------------------------------------------
  // Arguments
  // ---------------------------------------------------------------------------

  /** `n` dashes. */
  function Dashes(n: nat): string {
    seq(n, _ => '-')
  }

  /** The length of the run of `-` that starts the string. */
  function LeadingDashes(s: string): (n: nat)
    ensures n <= |s|
    ensures forall i :: 0 <= i < n ==> s[i] == '-'
    ensures n < |s| ==> s[n] != '-'
  {
    if s != [] && s[0] == '-' then 1 + LeadingDashes(s[1..]) else 0
  }

  /** `isHelpParameter`: the whole argument matches `^-+((\bh\b)|(\bhelp\b))`, case-sensitively. */
  predicate IsHelpParameter(s: string) {
    var n := LeadingDashes(s);
    n >= 1 && (s[n..] == "h" || s[n..] == "help")
  }

  /** The help pattern's language: one or more dashes followed by exactly `h` or `help`. */
  lemma HelpParameterLanguage(s: string)
    ensures IsHelpParameter(s) <==> exists n :: n >= 1 && (s == Dashes(n) + "h" || s == Dashes(n) + "help")
  {
    var m := LeadingDashes(s);
    if IsHelpParameter(s) {
      assert s[..m] == Dashes(m);
      assert s == s[..m] + s[m..];
    }
    if exists n :: n >= 1 && (s == Dashes(n) + "h" || s == Dashes(n) + "help") {
      var n :| n >= 1 && (s == Dashes(n) + "h" || s == Dashes(n) + "help");
      assert s[n] == 'h';
      assert m == n;
      assert s[n..] == "h" || s[n..] == "help";
    }
  }

  /** The help flag: one or more dashes then `h` or `help`. */
  lemma HelpParameterAccepted()
    ensures IsHelpParameter("-h") && IsHelpParameter("--help") && IsHelpParameter("-help") && IsHelpParameter("---h")
  {
    assert IsHelpParameter("-h") by {
      assert LeadingDashes("-h") == 1 && "-h"[1..] == "h";
    }
    assert IsHelpParameter("--help") by {
      assert LeadingDashes("--help") == 2 && "--help"[2..] == "help";
    }
    assert IsHelpParameter("-help") by {
      assert LeadingDashes("-help") == 1 && "-help"[1..] == "help";
    }
    assert IsHelpParameter("---h") by {
      assert LeadingDashes("---h") == 3 && "---h"[3..] == "h";
    }
  }

  /** The help check is case-sensitive, needs at least one dash and the whole rest of the argument. */
  lemma HelpParameterRejected()
    ensures !IsHelpParameter("-H") && !IsHelpParameter("--HELP") && !IsHelpParameter("h")
    ensures !IsHelpParameter("-") && !IsHelpParameter("-hh") && !IsHelpParameter("--helpme")
  {
    assert !IsHelpParameter("-H") by {
      assert LeadingDashes("-H") == 1;
    }
    assert !IsHelpParameter("--HELP") by {
      assert LeadingDashes("--HELP") == 2;
    }
    assert !IsHelpParameter("-hh") by {
      assert LeadingDashes("-hh") == 1;
    }
    assert !IsHelpParameter("--helpme") by {
      assert LeadingDashes("--helpme") == 2;
    }
  }

  /** The usage path: wrong argument count, or a help flag as first argument (read only when the count is right). */
  predicate UsageRequested(args: seq<string>) {
    |args| < 3 || |args| > 4 || IsHelpParameter(args[0])
  }

  /** The target list: the fourth argument if given, else the `db_names` property, split on `,`. */
  function Targets(args: seq<string>, props: Properties): (r: Option<seq<string>>)
    requires |args| >= 3
    ensures r.None? <==> |args| == 3 && DbNamesProp !in props
    ensures |args| > 3 ==> r == Some(JavaSplit(args[3], ','))
    ensures |args| == 3 && DbNamesProp in props ==> r == Some(JavaSplit(props[DbNamesProp], ','))
  {
    if |args| > 3 then Some(JavaSplit(args[3], ','))
    else if DbNamesProp in props then Some(JavaSplit(props[DbNamesProp], ','))
    else None
  }

  // ---------------------------------------------------------------------------
  // One database
  // ---------------------------------------------------------------------------

  function ConnectionUrlProp(dbName: string): string {
    dbName + "_connection_url"
  }

  function Announcement(dbName: string, user: string): string {
    "\nIs about to change password for db '" + dbName + "' and user '" + user + "'"
  }

  /**
   * `processUser`: announce the database; without a connection URL, log an
   * error and fail without calling the updater; otherwise call the updater
   * and turn any exception it throws into `false`.
   */
  function ProcessUser(props: Properties, rot: Rotation, dbName: string, db: Request -> bool): (p: Processed)
    ensures ConnectionUrlProp(dbName) !in props ==> !p.ok && p.connection.None?
    ensures ConnectionUrlProp(dbName) in props ==>
      var u := UpdatePass(props[ConnectionUrlProp(dbName)], rot.user, rot.password, rot.newPassword, db);
      p.connection == u.connection && (p.ok <==> u.result.Pass?)
    ensures p.out.console == [Announcement(dbName, rot.user)]
    ensures p.ok <==> forall e :: e in p.out.log ==> e.Info?
  {
    var announced := PrintMessage(Announcement(dbName, rot.user));
    var key := ConnectionUrlProp(dbName);
    if key !in props then
      var missing := Error("Connection url for DB '" + dbName + "' must be specified");
      var out := announced.Then(Output([], [missing]));
      assert missing in out.log;
      Processed(false, None, out)
    else
      var u := UpdatePass(props[key], rot.user, rot.password, rot.newPassword, db);
      match u.result
      case Pass => Processed(true, u.connection, announced)
      case Fail(e) =>
        var daoLog := if e == SqlError then [Error("SQL Error occurred")] else [];
        var failed := Error("An error while running change password query");
        var out := announced.Then(Output([], daoLog + [failed]));
        assert failed in out.log;
        Processed(false, u.connection, out)
  }

  /** `processUser` for the run's configuration, credentials and database, as a function of the database name. */
  function Step(props: Properties, rot: Rotation, db: Request -> bool): string -> Processed {
    dbName => ProcessUser(props, rot, dbName, db)
  }

  function Connections(p: Processed): seq<Request> {
    if p.connection.Some? then [p.connection.value] else []
  }

  /** The connections `step` attempts for the given databases, in their order. */
  function StepConnections(step: string -> Processed, names: seq<string>): seq<Request>
    decreases |names|
  {
    if names == [] then [] else Connections(step(names[0])) + StepConnections(step, names[1..])
  }

  // ---------------------------------------------------------------------------
  // The loop over the targets
  // ---------------------------------------------------------------------------

  /**
   * The targets processed in order by `step`; when `stop` holds the
   * processing ends with the first database that fails.
   */
  function RunTargets(step: string -> Processed, stop: bool, names: seq<string>): Batch
    decreases |names|
  {
    if names == [] then Batch([], true, [], Silent)
    else
      var p := step(names[0]);
      var first := Batch([names[0]], p.ok, Connections(p), p.out);
      if !p.ok && stop then first
      else first.Then(RunTargets(step, stop, names[1..]))
  }

  /** The attempted databases are a prefix of the target list, and all of it without early stop. */
  lemma {:induction false} RunTargetsPrefix(step: string -> Processed, stop: bool, names: seq<string>)
    ensures var b := RunTargets(step, stop, names);
      |b.attempted| <= |names| && b.attempted == names[..|b.attempted|]
      && (!stop ==> b.attempted == names)
    decreases |names|
  {
    if names != [] {
      RunTargetsPrefix(step, stop, names[1..]);
      assert names == [names[0]] + names[1..];
    }
  }

  /** Overall success is the AND of the verdicts of the attempted databases. */
  lemma {:induction false} RunTargetsSuccess(step: string -> Processed, stop: bool, names: seq<string>)
    ensures var b := RunTargets(step, stop, names);
      b.success <==> forall j :: 0 <= j < |b.attempted| ==> step(b.attempted[j]).ok
    decreases |names|
  {
    if names != [] {
      RunTargetsSuccess(step, stop, names[1..]);
      var b := RunTargets(step, stop, names);
      if step(names[0]).ok || !stop {
        var br := RunTargets(step, stop, names[1..]);
        assert b.attempted == [names[0]] + br.attempted;
        assert b.success == (step(names[0]).ok && br.success);
        if b.success {
          forall j | 0 <= j < |b.attempted| ensures step(b.attempted[j]).ok {
            if j > 0 {
              assert b.attempted[j] == br.attempted[j - 1];
            }
          }
        }
        if forall j :: 0 <= j < |b.attempted| ==> step(b.attempted[j]).ok {
          assert step(b.attempted[0]).ok;
          forall j | 0 <= j < |br.attempted| ensures step(br.attempted[j]).ok {
            assert br.attempted[j] == b.attempted[j + 1];
          }
        }
      } else {
        assert b.attempted == [names[0]] && !b.success;
        assert !step(b.attempted[0]).ok;
      }
    }
  }

  /** With early stop, every attempted database but the last succeeded, and the loop ends early only right after a failure. */
  lemma {:induction false} RunTargetsStop(step: string -> Processed, names: seq<string>)
    ensures var b := RunTargets(step, true, names);
      var n := |b.attempted|;
      (forall j :: 0 <= j < n - 1 ==> step(b.attempted[j]).ok)
      && (n < |names| ==> n > 0 && !step(b.attempted[n - 1]).ok)
    decreases |names|
  {
    if names != [] {
      RunTargetsStop(step, names[1..]);
      var b := RunTargets(step, true, names);
      if step(names[0]).ok {
        var br := RunTargets(step, true, names[1..]);
        assert b.attempted == [names[0]] + br.attempted;
        assert forall j :: 1 <= j < |b.attempted| ==> b.attempted[j] == br.attempted[j - 1];
      }
    }
  }

  /**
   * The loop's invariant, for every target list: the attempted databases are
   * a prefix of the list; overall success is the AND of their verdicts;
   * without early stop every database is attempted; with it, every attempted
   * database but the last succeeded, and the run stops short of the end only
   * right after a failure.
   */
  lemma RunTargetsAttempts(step: string -> Processed, stop: bool, names: seq<string>)
    ensures var b := RunTargets(step, stop, names);
      var n := |b.attempted|;
      n <= |names| && b.attempted == names[..n]
      && (b.success <==> forall j :: 0 <= j < n ==> step(names[j]).ok)
      && (!stop ==> n == |names|)
      && (stop ==> (forall j :: 0 <= j < n - 1 ==> step(names[j]).ok)
                   && (n < |names| ==> n > 0 && !step(names[n - 1]).ok))
  {
    RunTargetsPrefix(step, stop, names);
    RunTargetsSuccess(step, stop, names);
    if stop {
      RunTargetsStop(step, names);
    }
  }

  /** With early stop and a failure somewhere, exactly the databases up to and including the first failure are attempted. */
  lemma StopsAtFirstFailure(step: string -> Processed, names: seq<string>, f: nat)
    requires f < |names| && !step(names[f]).ok
    requires forall j :: 0 <= j < f ==> step(names[j]).ok
    ensures RunTargets(step, true, names).attempted == names[..f + 1]
    ensures !RunTargets(step, true, names).success
  {
    RunTargetsAttempts(step, true, names);
    var n := |RunTargets(step, true, names).attempted|;
    assert n == f + 1;
  }

  /**
   * The loop prints each attempted database's own output, one announcement
   * per database, and records, in order, exactly the connection attempts of
   * the databases it attempted: a target skipped by early stop has none.
   */
  lemma {:induction false} RunTargetsOutput(step: string -> Processed, stop: bool, names: seq<string>)
    requires forall name :: |step(name).out.console| == 1
    ensures var b := RunTargets(step, stop, names);
      |b.out.console| == |b.attempted|
      && (forall j :: 0 <= j < |b.attempted| ==> b.out.console[j] == step(b.attempted[j]).out.console[0])
      && (forall c :: c in b.connections ==> exists name :: name in b.attempted && step(name).connection == Some(c))
      && b.connections == StepConnections(step, b.attempted)
    decreases |names|
  {
    RunTargetsConnections(step, stop, names);
    if names != [] {
      RunTargetsOutput(step, stop, names[1..]);
      var b := RunTargets(step, stop, names);
      var br := RunTargets(step, stop, names[1..]);
      var p := step(names[0]);
      forall c | c in b.connections ensures exists name :: name in b.attempted && step(name).connection == Some(c) {
        assert names[0] in b.attempted;
        if c !in Connections(p) {
          assert b.attempted == [names[0]] + br.attempted;
          assert c in br.connections;
          var name :| name in br.attempted && step(name).connection == Some(c);
          assert name in b.attempted;
        }
      }
    }
  }

  /**
   * The loop records, in order, exactly the connection attempts of the
   * databases it attempted: one for each database whose step attempts one.
   */
  lemma {:induction false} RunTargetsConnections(step: string -> Processed, stop: bool, names: seq<string>)
    ensures var b := RunTargets(step, stop, names);
      b.connections == StepConnections(step, b.attempted)
    decreases |names|
  {
    if names != [] {
      RunTargetsConnections(step, stop, names[1..]);
      var b := RunTargets(step, stop, names);
      var br := RunTargets(step, stop, names[1..]);
      var p := step(names[0]);
      if !p.ok && stop {
        assert b.attempted == [names[0]];
        assert b.attempted[1..] == [];
      } else {
        assert b.attempted == [names[0]] + br.attempted;
        assert b.attempted[1..] == br.attempted;
      }
    }
  }

  /** Concatenating batches is associative. */
  lemma BatchThenAssociative(a: Batch, b: Batch, c: Batch)
    ensures a.Then(b).Then(c) == a.Then(b.Then(c))
  {
    assert a.out.Then(b.out).Then(c.out) == a.out.Then(b.out.Then(c.out));
  }

  // ---------------------------------------------------------------------------
  // Summary and the whole run
  // ---------------------------------------------------------------------------

  /** The lines `start` prints after the loop, for the run's verdict and the early-stop policy. */
  function SummaryLines(success: bool, stopOnError: bool): seq<string> {
    [""]
    + (if !success then [ErrorsLine] + (if stopOnError then [StoppedLine] else []) else [])
    + (if success || !stopOnError then [CompletedLine(success)] else [])
  }

  /** The completion line, built as `start` builds it. */
  function CompletedLine(success: bool): string {
    "DB password change completed" + (if success then " successfully" else " with errors") + "."
  }

  /**
   * The summary after the loop: an empty line first; the errors line exactly
   * when the run failed; the stopped line exactly when it failed with early
   * stop on; the completion line exactly when it succeeded or early stop is
   * off, saying "successfully" exactly when it succeeded.
   */
  lemma SummaryContents(success: bool, stopOnError: bool)
    ensures var lines := SummaryLines(success, stopOnError);
      |lines| >= 2 && lines[0] == ""
      && (ErrorsLine in lines <==> !success)
      && (StoppedLine in lines <==> !success && stopOnError)
      && (CompletedOkLine in lines <==> success)
      && (CompletedErrLine in lines <==> !success && !stopOnError)
  {
    assert CompletedLine(success) == if success then CompletedOkLine else CompletedErrLine;
    assert |ErrorsLine| == 42 && |StoppedLine| == 64 && |CompletedOkLine| == 42 && |CompletedErrLine| == 41;
    assert ErrorsLine != CompletedOkLine by {
      assert ErrorsLine[0] != CompletedOkLine[0];
    }
  }

  /** The summary ends with the completion line, or with the stopped line when the run failed with early stop on. */
  lemma SummaryLastLine(success: bool, stopOnError: bool)
    ensures var lines := SummaryLines(success, stopOnError);
      lines[|lines| - 1] == if success then CompletedOkLine else if stopOnError then StoppedLine else CompletedErrLine
  {
  }

  /** The end of `start`: the loop's batch, then the summary for its verdict and the early-stop policy. */
  function Summarize(b: Batch, stop: bool): RunResult {
    Finished(b.success, b.attempted, b.connections, b.out.Then(PrintMessages(SummaryLines(b.success, stop))))
  }

  /** The summary after a single target reports that target, its verdict and its connection. */
  lemma SummarizeOne(step: string -> Processed, stop: bool, name: string)
    ensures var r := Summarize(RunTargets(step, stop, [name]), stop);
      r.attempted == [name] && r.success == step(name).ok && r.connections == Connections(step(name))
  {
    SingleTarget(step, stop, name);
  }

  /** The last line printed is the summary's last line. */
  lemma SummarizeLastLine(b: Batch, stop: bool)
    ensures var console := Summarize(b, stop).out.console;
      |console| > 0
      && console[|console| - 1] == if b.success then CompletedOkLine else if stop then StoppedLine else CompletedErrLine
  {
    var summary := SummaryLines(b.success, stop);
    var console := b.out.console + summary;
    assert console[|console| - 1] == summary[|summary| - 1];
    SummaryLastLine(b.success, stop);
  }

  /** When every step prints one line, the run prints one line per attempted database and then the summary. */
  lemma SummarizeConsole(step: string -> Processed, stop: bool, names: seq<string>)
    requires forall name :: |step(name).out.console| == 1
    ensures var r := Summarize(RunTargets(step, stop, names), stop);
      var n := |r.attempted|;
      |r.out.console| == n + |SummaryLines(r.success, stop)|
      && (forall j :: 0 <= j < n ==> r.out.console[j] == step(r.attempted[j]).out.console[0])
      && r.out.console[n..] == SummaryLines(r.success, stop)
  {
    RunTargetsOutput(step, stop, names);
  }

  /** `start` as a function of the arguments, the configuration and the database. */
  function Run(args: seq<string>, props: Properties, db: Request -> bool): RunResult {
    if UsageRequested(args) then UsageError
    else
      match Targets(args, props)
      case None => DbNamesMissing
      case Some(names) =>
        Summarize(RunTargets(Step(props, Rotation(args[0], args[1], args[2]), db), NotIgnoreErrors(props), names),
                  NotIgnoreErrors(props))
  }

  /**
   * The `for` loop of `start`: process the targets in order, AND the
   * verdicts into `isSuccess`, and break after the first failure when
   * `stop` holds.
   */
  method ProcessTargets(step: string -> Processed, stop: bool, names: seq<string>) returns (b: Batch)
    ensures b == RunTargets(step, stop, names)
  {
    var isSuccess := true;
    var attempted: seq<string> := [];
    var connections: seq<Request> := [];
    var out := Silent;
    var i := 0;
    while i < |names|
      invariant 0 <= i <= |names|
      invariant stop ==> isSuccess
      invariant Batch(attempted, isSuccess, connections, out).Then(RunTargets(step, stop, names[i..]))
             == RunTargets(step, stop, names)
    {
      ghost var done := Batch(attempted, isSuccess, connections, out);
      var p := step(names[i]);
      ghost var first := Batch([names[i]], p.ok, Connections(p), p.out);
      assert RunTargets(step, stop, names[i..])
          == if !p.ok && stop then first else first.Then(RunTargets(step, stop, names[i + 1..])) by {
        assert names[i..][0] == names[i] && names[i..][1..] == names[i + 1..];
      }
      BatchThenAssociative(done, first, RunTargets(step, stop, names[i + 1..]));
      attempted := attempted + [names[i]];
      connections := connections + Connections(p);
      out := out.Then(p.out);
      i := i + 1;
      if !p.ok {
        isSuccess := false;
        if stop {
          assert Batch(attempted, isSuccess, connections, out) == done.Then(first);
          break;
        }
      }
      assert Batch(attempted, isSuccess, connections, out) == done.Then(first);
    }
    b := Batch(attempted, isSuccess, connections, out);
    if i == |names| && (!stop || isSuccess) {
      assert names[i..] == [];
      assert b.Then(Batch([], true, [], Silent)) == b;
    }
  }

  /**
   * `start`: the usage check, the target list, the loop over the targets
   * with `processUser` and the `ignore_errors` policy, and the summary.
   */
  method Start(args: seq<string>, props: Properties, db: Request -> bool) returns (r: RunResult)
    ensures r == Run(args, props, db)
  {
    if |args| < 3 || |args| > 4 || IsHelpParameter(args[0]) {
      return UsageError;
    }
    var rot := Rotation(args[0], args[1], args[2]);
    var dbNames: string;
    if |args| > 3 {
      dbNames := args[3];
    } else if DbNamesProp in props {
      dbNames := props[DbNamesProp];
    } else {
      return DbNamesMissing;
    }
    var names := JavaSplit(dbNames, ',');
    var b := ProcessTargets(Step(props, rot, db), NotIgnoreErrors(props), names);
    var summary := PrintMessages(SummaryLines(b.success, NotIgnoreErrors(props)));
    r := Finished(b.success, b.attempted, b.connections, b.out.Then(summary));
  }

  // ---------------------------------------------------------------------------
  // Properties of whole runs
  // ---------------------------------------------------------------------------

  /** The usage path is taken exactly for a wrong argument count or a first argument of dashes then `h` or `help`. */
  lemma RunUsage(args: seq<string>, props: Properties, db: Request -> bool)
    ensures Run(args, props, db).UsageError? <==>
      !(3 <= |args| <= 4) || exists n :: n >= 1 && (args[0] == Dashes(n) + "h" || args[0] == Dashes(n) + "help")
    ensures Run(args, props, db).DbNamesMissing? <==> !UsageRequested(args) && |args| == 3 && DbNamesProp !in props
  {
    if 3 <= |args| <= 4 {
      HelpParameterLanguage(args[0]);
    }
  }

  /** A finished run reports the loop's batch and then the summary for its verdict and the `ignore_errors` policy. */
  lemma RunIsBatchThenSummary(args: seq<string>, props: Properties, db: Request -> bool)
    requires !UsageRequested(args) && Targets(args, props).Some?
    ensures Run(args, props, db)
         == Summarize(RunTargets(Step(props, Rotation(args[0], args[1], args[2]), db), NotIgnoreErrors(props),
                                 Targets(args, props).value),
                      NotIgnoreErrors(props))
  {
  }

  /** A finished run attempts a prefix of the targets, and all of them when errors are ignored. */
  lemma RunAttemptsPrefix(args: seq<string>, props: Properties, db: Request -> bool)
    requires Run(args, props, db).Finished?
    ensures var r := Run(args, props, db);
      var names := Targets(args, props).value;
      |r.attempted| <= |names| && r.attempted == names[..|r.attempted|]
      && (!NotIgnoreErrors(props) ==> r.attempted == names)
  {
    RunIsBatchThenSummary(args, props, db);
    RunTargetsPrefix(Step(props, Rotation(args[0], args[1], args[2]), db), NotIgnoreErrors(props),
                     Targets(args, props).value);
  }

  /** A finished run succeeds exactly when `processUser` succeeded for every attempted database. */
  lemma RunSuccess(args: seq<string>, props: Properties, db: Request -> bool)
    requires Run(args, props, db).Finished?
    ensures var r := Run(args, props, db);
      r.success <==> forall j :: 0 <= j < |r.attempted| ==>
                       ProcessUser(props, Rotation(args[0], args[1], args[2]), r.attempted[j], db).ok
  {
    var rot := Rotation(args[0], args[1], args[2]);
    var step := Step(props, rot, db);
    RunIsBatchThenSummary(args, props, db);
    RunTargetsSuccess(step, NotIgnoreErrors(props), Targets(args, props).value);
    forall name: string ensures step(name).ok == ProcessUser(props, rot, name, db).ok { }
  }

  /**
   * When errors are not ignored, every attempted database but the last
   * succeeded, and a run that stops short of the end does so right after a
   * failing database.
   */
  lemma RunStopsAfterFailure(args: seq<string>, props: Properties, db: Request -> bool)
    requires Run(args, props, db).Finished? && NotIgnoreErrors(props)
    ensures var r := Run(args, props, db);
      var rot := Rotation(args[0], args[1], args[2]);
      var n := |r.attempted|;
      (forall j :: 0 <= j < n - 1 ==> ProcessUser(props, rot, r.attempted[j], db).ok)
      && (n < |Targets(args, props).value| ==> n > 0 && !ProcessUser(props, rot, r.attempted[n - 1], db).ok)
  {
    var rot := Rotation(args[0], args[1], args[2]);
    var step := Step(props, rot, db);
    RunIsBatchThenSummary(args, props, db);
    RunTargetsStop(step, Targets(args, props).value);
    forall name: string ensures step(name).ok == ProcessUser(props, rot, name, db).ok { }
  }

  /**
   * A finished run records, in order, the connection attempt of every
   * database it attempted that has one; each uses the user's name and
   * current password and the `<db>_connection_url` of a database it attempted.
   */
  lemma RunConnections(args: seq<string>, props: Properties, db: Request -> bool)
    requires Run(args, props, db).Finished?
    ensures var r := Run(args, props, db);
      r.connections == StepConnections(Step(props, Rotation(args[0], args[1], args[2]), db), r.attempted)
    ensures var r := Run(args, props, db);
      forall c :: c in r.connections ==>
        c.user == args[0] && c.password == args[1]
        && exists name :: name in r.attempted && ConnectionUrlProp(name) in props && c.url == props[ConnectionUrlProp(name)]
  {
    RunIsBatchThenSummary(args, props, db);
    var names := Targets(args, props).value;
    var rot := Rotation(args[0], args[1], args[2]);
    var step := Step(props, rot, db);
    var stop := NotIgnoreErrors(props);
    RunTargetsOutput(step, stop, names);
    var b := RunTargets(step, stop, names);
    forall c | c in b.connections
      ensures c.user == args[0] && c.password == args[1]
      ensures exists name :: name in b.attempted && ConnectionUrlProp(name) in props && c.url == props[ConnectionUrlProp(name)]
    {
      var name :| name in b.attempted && step(name).connection == Some(c);
      assert ProcessUser(props, rot, name, db).connection == Some(c);
    }
  }

  /** A finished run prints one announcement per attempted database, then the summary lines. */
  lemma RunConsole(args: seq<string>, props: Properties, db: Request -> bool)
    requires Run(args, props, db).Finished?
    ensures var r := Run(args, props, db);
      var n := |r.attempted|;
      |r.out.console| == n + |SummaryLines(r.success, NotIgnoreErrors(props))|
      && (forall j :: 0 <= j < n ==> r.out.console[j] == Announcement(r.attempted[j], args[0]))
      && r.out.console[n..] == SummaryLines(r.success, NotIgnoreErrors(props))
  {
    RunIsBatchThenSummary(args, props, db);
    var rot := Rotation(args[0], args[1], args[2]);
    var step := Step(props, rot, db);
    forall name ensures step(name).out.console == [Announcement(name, args[0])] { }
    SummarizeConsole(step, NotIgnoreErrors(props), Targets(args, props).value);
  }

  /** A finished run's last line says how it ended: completed successfully, stopped early, or completed with errors. */
  lemma RunLastLine(args: seq<string>, props: Properties, db: Request -> bool)
    requires Run(args, props, db).Finished?
    ensures var r := Run(args, props, db);
      |r.out.console| > 0
      && r.out.console[|r.out.console| - 1]
         == if r.success then CompletedOkLine else if NotIgnoreErrors(props) then StoppedLine else CompletedErrLine
  {
    RunIsBatchThenSummary(args, props, db);
    SummarizeLastLine(RunTargets(Step(props, Rotation(args[0], args[1], args[2]), db), NotIgnoreErrors(props),
                                 Targets(args, props).value),
                      NotIgnoreErrors(props));
  }

  /** A single target forms a batch of its own, whether or not early stop is on. */
  lemma SingleTarget(step: string -> Processed, stop: bool, name: string)
    ensures RunTargets(step, stop, [name]) == Batch([name], step(name).ok, Connections(step(name)), step(name).out)
  {
    assert [name][1..] == [];
    assert RunTargets(step, stop, []) == Batch([], true, [], Silent);
    var p := step(name);
    assert Batch([name], p.ok, Connections(p), p.out).Then(Batch([], true, [], Silent))
        == Batch([name], p.ok, Connections(p), p.out);
  }

  /** A database whose URL names a supported vendor: `processUser` connects with the current credentials and succeeds exactly when the database accepts the vendor's statement. */
  lemma ProcessUserJdbc(props: Properties, rot: Rotation, dbName: string, vendor: Dbms, rest: string, db: Request -> bool)
    requires !OnlyDelimiters(rest, ':')
    requires ConnectionUrlProp(dbName) in props && props[ConnectionUrlProp(dbName)] == "jdbc:" + Name(vendor) + ":" + rest
    ensures var req := Request("jdbc:" + Name(vendor) + ":" + rest, rot.user, rot.password,
                               Statement(vendor, rot.user, rot.newPassword, rot.password));
      var p := ProcessUser(props, rot, dbName, db);
      p.connection == Some(req) && (p.ok <==> db(req))
  {
    UpdatePassJdbc(vendor, rest, rot.user, rot.password, rot.newPassword, db);
  }

  /**
   * One database named on the command line whose URL names a supported
   * vendor: the run attempts one connection with the current credentials, runs
   * the vendor's statement, and succeeds exactly when the database accepts it.
   */
  lemma SingleDatabaseRun(args: seq<string>, props: Properties, vendor: Dbms, rest: string, db: Request -> bool)
    requires |args| == 4 && !IsHelpParameter(args[0]) && ',' !in args[3] && !OnlyDelimiters(rest, ':')
    requires ConnectionUrlProp(args[3]) in props && props[ConnectionUrlProp(args[3])] == "jdbc:" + Name(vendor) + ":" + rest
    ensures var req := Request("jdbc:" + Name(vendor) + ":" + rest, args[0], args[1],
                               Statement(vendor, args[0], args[2], args[1]));
      var r := Run(args, props, db);
      r.Finished? && r.success == db(req) && r.attempted == [args[3]] && r.connections == [req]
  {
    var rot := Rotation(args[0], args[1], args[2]);
    ProcessUserJdbc(props, rot, args[3], vendor, rest, db);
    assert Targets(args, props) == Some([args[3]]) by {
      assert JavaSplit(args[3], ',') == [args[3]];
    }
    var step := Step(props, rot, db);
    assert step(args[3]) == ProcessUser(props, rot, args[3], db);
    RunIsBatchThenSummary(args, props, db);
    SummarizeOne(step, NotIgnoreErrors(props), args[3]);
  }

  /**
   * A single database from `db_names` that has no connection URL: it is
   * attempted, and the run fails without attempting any connection.
   */
  lemma MissingUrlRun(args: seq<string>, props: Properties, db: Request -> bool)
    requires |args| == 3 && !IsHelpParameter(args[0])
    requires DbNamesProp in props && ',' !in props[DbNamesProp] && ConnectionUrlProp(props[DbNamesProp]) !in props
    ensures var r := Run(args, props, db);
      r.Finished? && !r.success && r.attempted == [props[DbNamesProp]] && r.connections == []
  {
    var dbName := props[DbNamesProp];
    var rot := Rotation(args[0], args[1], args[2]);
    assert Targets(args, props) == Some([dbName]) by {
      assert JavaSplit(dbName, ',') == [dbName];
    }
    var step := Step(props, rot, db);
    assert step(dbName) == ProcessUser(props, rot, dbName, db);
    RunIsBatchThenSummary(args, props, db);
    SummarizeOne(step, NotIgnoreErrors(props), dbName);
  }

  /** Different database names have different `<db>_connection_url` keys. */
  lemma ConnectionUrlPropInjective(a: string, b: string)
    requires a != b
    ensures ConnectionUrlProp(a) != ConnectionUrlProp(b)
  {
    if |a| == |b| {
      assert ConnectionUrlProp(a)[..|a|] == a && ConnectionUrlProp(b)[..|b|] == b;
    }
  }

  /**
   * Three databases, the first without a URL and the other two on MySQL
   * (`jdbc:mysql:<rest>`): with `ignore_errors=false` the run stops after the
   * first one and attempts no connection at all.
   */
  lemma EarlyStopExample(db: Request -> bool, rot: Rotation, a: string, b: string, c: string, rest: string)
    requires a != b && a != c
    ensures var url := "jdbc:" + Name(MySql) + ":" + rest;
      var stopping: Properties := map[ConnectionUrlProp(b) := url, ConnectionUrlProp(c) := url, IgnoreErrorsProp := "false"];
      var stopped := RunTargets(Step(stopping, rot, db), NotIgnoreErrors(stopping), [a, b, c]);
      stopped.attempted == [a] && stopped.connections == []
  {
    var url := "jdbc:" + Name(MySql) + ":" + rest;
    var stopping: Properties := map[ConnectionUrlProp(b) := url, ConnectionUrlProp(c) := url, IgnoreErrorsProp := "false"];
    ConnectionUrlPropInjective(a, b);
    ConnectionUrlPropInjective(a, c);
    assert |ConnectionUrlProp(a)| != |IgnoreErrorsProp|;
    assert NotIgnoreErrors(stopping) by {
      assert ToLower("false") == "false";
    }
    var missing := Step(stopping, rot, db)(a);
    assert !missing.ok && missing.connection.None?;
    assert RunTargets(Step(stopping, rot, db), true, [a, b, c]) == Batch([a], false, [], missing.out);
  }

  /**
   * The same databases with `ignore_errors` unset: the run goes on past the
   * first failure and attempts the MySQL connections of the other two, in
   * order, with the current credentials.
   */
  lemma IgnoredErrorsExample(db: Request -> bool, rot: Rotation, a: string, b: string, c: string, rest: string)
    requires a != b && a != c && !OnlyDelimiters(rest, ':')
    ensures var url := "jdbc:" + Name(MySql) + ":" + rest;
      var urls: Properties := map[ConnectionUrlProp(b) := url, ConnectionUrlProp(c) := url];
      var req := Request(url, rot.user, rot.password, Statement(MySql, rot.user, rot.newPassword, rot.password));
      var all := RunTargets(Step(urls, rot, db), NotIgnoreErrors(urls), [a, b, c]);
      all.attempted == [a, b, c] && all.connections == [req, req]
  {
    var url := "jdbc:" + Name(MySql) + ":" + rest;
    var urls: Properties := map[ConnectionUrlProp(b) := url, ConnectionUrlProp(c) := url];
    var step := Step(urls, rot, db);
    assert !NotIgnoreErrors(urls) by {
      assert |ConnectionUrlProp(b)| != |IgnoreErrorsProp| && |ConnectionUrlProp(c)| != |IgnoreErrorsProp|;
    }
    ExampleSteps(db, rot, a, b, c, rest);
    RunTargetsOfThree(step, a, b, c);
  }

  /** The steps of the example above: no connection for `a`, the MySQL one for `b` and for `c`. */
  lemma ExampleSteps(db: Request -> bool, rot: Rotation, a: string, b: string, c: string, rest: string)
    requires a != b && a != c && !OnlyDelimiters(rest, ':')
    ensures var url := "jdbc:" + Name(MySql) + ":" + rest;
      var step := Step(map[ConnectionUrlProp(b) := url, ConnectionUrlProp(c) := url], rot, db);
      var req := Request(url, rot.user, rot.password, Statement(MySql, rot.user, rot.newPassword, rot.password));
      Connections(step(a)) == [] && Connections(step(b)) == [req] && Connections(step(c)) == [req]
  {
    var url := "jdbc:" + Name(MySql) + ":" + rest;
    var urls: Properties := map[ConnectionUrlProp(b) := url, ConnectionUrlProp(c) := url];
    ConnectionUrlPropInjective(a, b);
    ConnectionUrlPropInjective(a, c);
    ProcessUserJdbc(urls, rot, b, MySql, rest, db);
    ProcessUserJdbc(urls, rot, c, MySql, rest, db);
  }

  /** Three targets without early stop: all are attempted, and their connections recorded in order. */
  lemma RunTargetsOfThree(step: string -> Processed, a: string, b: string, c: string)
    ensures var all := RunTargets(step, false, [a, b, c]);
      all.attempted == [a, b, c]
      && all.connections == Connections(step(a)) + Connections(step(b)) + Connections(step(c))
  {
    RunTargetsAttempts(step, false, [a, b, c]);
    RunTargetsConnections(step, false, [a, b, c]);
    assert [a, b, c][1..] == [b, c] && [b, c][1..] == [c] && [c][1..] == [];
    assert StepConnections(step, [c]) == Connections(step(c)) + [];
  }
}
