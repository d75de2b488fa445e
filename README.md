# db-user-password-change, modelled in Dafny

`db-user-password-change` is a small command-line tool. It changes a database
user's password on one or more databases. It is run as
`Main <username> <password> <new_password> [db_names]`. It reads the database
list and one JDBC connection URL per database from `settings.properties`. For
each database it opens a connection with the current credentials and runs the
vendor's `ALTER USER` / `ALTER LOGIN` statement. It prints a summary at the end.
The `ignore_errors` property decides whether the first failure stops the run.

The model has four modules:

- `Wrappers`: `Option`, `Result` and `Outcome`.
- `JavaText`: the Java string operations the tool relies on, with their Java
  semantics written out:
  - `String.split` with a one-character delimiter, including the removal of
    trailing empty strings and the whole-string result when the delimiter is
    absent;
  - `toLowerCase` and `equalsIgnoreCase`;
  - `String.format` with `%s` conversions.
- `Dao` (`Dao.java`): the URL check `getDbmsName`, the vendor switch, the
  four statement templates and `updatePass`. The database is an oracle
  `db: Request -> bool`, which is told the URL, user, password and statement
  of a connection and answers whether the statement succeeded. The model
  records the connection that `updatePass` attempts, or that it attempts none.
  This makes "no connection is attempted for a bad URL or an unknown vendor"
  a provable fact.
- `Runner` (`Main.java`):
  - the usage check and the help-flag pattern;
  - the `getBooleanProperty` / `notIgnoreErrors` policy;
  - `printMessage`, which always prints and logs only non-empty lines;
  - `processUser`.
  `start` is the method `Runner.Start`. Its loop with early `break` is
  `Runner.ProcessTargets`. Both are proved equal to the specification
  functions `Runner.Run` and `Runner.RunTargets`, and the tool's promises are
  proved as lemmas about those functions. The console and the log file
  become the `Output` value a run returns. `settings.properties` becomes an
  immutable map.

Three behaviours of the code worth noting, each modelled as the code has it:

- The help flag is case-sensitive. `Pattern.compile` is called without
  `CASE_INSENSITIVE`, so `-H` and `--HELP` are not help flags.
- `getBooleanProperty` returns `false` for any non-empty value other than
  `true`, `yes` or `y`, in any case; it does not fall back to the default.
  So `ignore_errors=maybe` means "stop at the first error".
- With three arguments and no `db_names` property, `start` dereferences
  `null` and the run ends in a `NullPointerException`. The model returns
  `RunResult.DbNamesMissing`; it does not treat the list as empty.

## Model

| member | source | states |
|---|---|---|
| JavaText.JavaSplit | src/main/java/org/azatsh/dbpasswordchange/Dao.java:65 | `split` on `:` here and on `,` at Main.java:58: the whole string when the delimiter is absent, otherwise every piece with the trailing empty ones removed; specified by JavaSplitJoin, DropTrailingEmpty and DropTrailingEmptyUnique below |
| JavaText.SplitAllJoin | src/main/java/org/azatsh/dbpasswordchange/Dao.java:65 | cutting at every delimiter loses nothing: the pieces joined with the delimiter give the string back, and no piece holds the delimiter |
| JavaText.SplitAllCount | src/main/java/org/azatsh/dbpasswordchange/Dao.java:65 | a string with k delimiters is cut into k + 1 pieces before trailing empties are dropped |
| JavaText.SplitAllEmptyPieces | src/main/java/org/azatsh/dbpasswordchange/Dao.java:65 | all pieces are empty exactly when the string consists of delimiters only |
| JavaText.DropTrailingEmpty | src/main/java/org/azatsh/dbpasswordchange/Dao.java:65 | the result is a prefix of the pieces, everything after it is empty, and its last piece is not empty |
| JavaText.DropTrailingEmptyUnique | src/main/java/org/azatsh/dbpasswordchange/Dao.java:65 | any list with those three properties is the result, so they define it |
| JavaText.JavaSplitJoin | src/main/java/org/azatsh/dbpasswordchange/Main.java:58 | `split`'s result holds no delimiter; an input without the delimiter comes back whole; the pieces joined back give the input up to a trailing run of delimiters; an empty result means the input was a non-empty run of delimiters |
| JavaText.JavaSplitLower | src/main/java/org/azatsh/dbpasswordchange/Dao.java:65 | lower-casing and then splitting on `:` gives the lower-cased pieces of the split |
| JavaText.ToLower | src/main/java/org/azatsh/dbpasswordchange/Dao.java:69 | `toLowerCase`, ASCII letters only; specified by ToLowerIdempotent, ToLowerOfLowerCase and ToLowerKeepsDelimiter |
| JavaText.EqualsIgnoreCase | src/main/java/org/azatsh/dbpasswordchange/Dao.java:66 | `equalsIgnoreCase`, here and at Main.java:134-135: equal after lower-casing; DbmsNameOfUrl and GetBooleanProperty state what it decides for `jdbc` and for `true`/`yes`/`y` |
| JavaText.ToLowerIdempotent | src/main/java/org/azatsh/dbpasswordchange/Dao.java:69 | lower-casing twice is lower-casing once |
| JavaText.ToLowerKeepsDelimiter | src/main/java/org/azatsh/dbpasswordchange/Dao.java:65-69 | a caseless delimiter occurs in the lower-cased string exactly when it occurs in the original |
| JavaText.Format | src/main/java/org/azatsh/dbpasswordchange/Dao.java:55 | `String.format` with `%s` only; specified by FormatLiteral, FormatSlot and FormatIgnoresExtraArguments below |
| JavaText.FormatLiteral | src/main/java/org/azatsh/dbpasswordchange/Dao.java:55 | text without `%` is copied unchanged, whatever the arguments |
| JavaText.FormatSlot | src/main/java/org/azatsh/dbpasswordchange/Dao.java:55 | a `%s` is replaced by the next argument verbatim, and formatting continues with the remaining arguments |
| JavaText.FormatIgnoresExtraArguments | src/main/java/org/azatsh/dbpasswordchange/Dao.java:55 | arguments beyond those the format consumes do not change a successful result |
| JavaText.FormatTwoSlots | src/main/java/org/azatsh/dbpasswordchange/Dao.java:55 | a two-slot template takes the first two arguments in order and ignores the rest |
| JavaText.FormatThreeSlots | src/main/java/org/azatsh/dbpasswordchange/Dao.java:55 | a three-slot template takes the three arguments in order |
| Dao.ParseDbms | src/main/java/org/azatsh/dbpasswordchange/Dao.java:37-51 | a template is chosen exactly for the four tags `oracle`, `postgresql`, `sqlserver`, `mysql`, and the chosen vendor's name is the tag |
| Dao.ParseDbmsName | src/main/java/org/azatsh/dbpasswordchange/Dao.java:37-49 | every vendor's tag selects that vendor |
| Dao.Template | src/main/java/org/azatsh/dbpasswordchange/Dao.java:37-49 | the template chosen per vendor; Statement and FormatOracle to FormatMySql give its result for each vendor |
| Dao.FormatOracle | src/main/java/org/azatsh/dbpasswordchange/Dao.java:29 | the Oracle template inserts user, new password and old password, in that order |
| Dao.FormatPostgreSql | src/main/java/org/azatsh/dbpasswordchange/Dao.java:30 | the PostgreSQL template inserts user and new password; the old password is not used |
| Dao.FormatSqlServer | src/main/java/org/azatsh/dbpasswordchange/Dao.java:31 | the SQL Server template inserts user and new password; the old password is not used |
| Dao.FormatMySql | src/main/java/org/azatsh/dbpasswordchange/Dao.java:32 | the MySQL template inserts user and new password; the old password is not used |
| Dao.Statement | src/main/java/org/azatsh/dbpasswordchange/Dao.java:29-55 | the statement sent for each vendor, spelled out: `alter user U identified by "N" replace "P"`, `alter user U with password "N"`, `alter login U with password = "N"`, `alter user U identified by "N"` |
| Dao.GetDbmsName | src/main/java/org/azatsh/dbpasswordchange/Dao.java:64-70 | a rejected URL yields `IncorrectUrl` carrying that URL; an accepted one yields a lower-case tag |
| Dao.DbmsNameOfShortUrl | src/main/java/org/azatsh/dbpasswordchange/Dao.java:65-67 | a URL with fewer than two colons is always rejected |
| Dao.DbmsNameOfUrl | src/main/java/org/azatsh/dbpasswordchange/Dao.java:64-70 | `scheme:vendor:rest` is accepted exactly when `scheme` is `jdbc` in any case and `rest` is not made of colons only, and the tag is then `vendor` lower-cased |
| Dao.DbmsNameIgnoresCase | src/main/java/org/azatsh/dbpasswordchange/Dao.java:64-70 | two URLs that are equal up to case get the same verdict and the same tag |
| Dao.PlanUpdate | src/main/java/org/azatsh/dbpasswordchange/Dao.java:34-52 | a planned connection uses the given URL, user and current password; `UnsupportedDbms` is raised only for a tag the URL check accepted but the switch does not know |
| Dao.UpdatePass | src/main/java/org/azatsh/dbpasswordchange/Dao.java:34-62 | it fails with a configuration error exactly when it attempts no connection; once it attempts one, it succeeds exactly when the database accepts the connection and the statement; the connection carries the given URL, user and current password |
| Dao.UpdatePassOnUrl | src/main/java/org/azatsh/dbpasswordchange/Dao.java:34-62 | end to end on `scheme:vendor:rest`: a malformed URL gives `IncorrectUrl` and an unknown vendor gives `UnsupportedDbms`, both without connecting; otherwise one connection runs the vendor's statement and the outcome is the database's answer |
| Dao.UpdatePassJdbc | src/main/java/org/azatsh/dbpasswordchange/Dao.java:34-62 | `jdbc:<vendor>:<rest>` for a supported vendor connects once with the current credentials and runs that vendor's statement |
| Dao.EmptyVendorUnsupported | src/main/java/org/azatsh/dbpasswordchange/Dao.java:50-51 | `jdbc::x` passes the URL check but names the empty vendor, so it is rejected as unsupported without connecting |
| Runner.PrintMessage | src/main/java/org/azatsh/dbpasswordchange/Main.java:112-117 | the message is always printed, and logged at info level exactly when it is not empty |
| Runner.PrintMessages | src/main/java/org/azatsh/dbpasswordchange/Main.java:112-117 | printing lines in turn prints all of them, and logs the non-empty ones in order |
| Runner.GetBooleanProperty | src/main/java/org/azatsh/dbpasswordchange/Main.java:131-136 | an absent or empty property gives the default; otherwise the result is true exactly for `true`, `yes`, `y` in any case |
| Runner.NotIgnoreErrors | src/main/java/org/azatsh/dbpasswordchange/Main.java:138-140 | early stop is on exactly when `ignore_errors` is set to a non-empty value other than `true`/`yes`/`y` in any case |
| Runner.IsHelpParameter | src/main/java/org/azatsh/dbpasswordchange/Main.java:102-104 | the whole argument matches the help pattern; specified by HelpParameterLanguage, HelpParameterAccepted and HelpParameterRejected below |
| Runner.HelpParameterLanguage | src/main/java/org/azatsh/dbpasswordchange/Main.java:28 | an argument is the help flag exactly when it is one or more dashes followed by exactly `h` or `help` |
| Runner.HelpParameterAccepted | src/main/java/org/azatsh/dbpasswordchange/Main.java:102-104 | `-h`, `--help`, `-help` and `---h` are help flags |
| Runner.HelpParameterRejected | src/main/java/org/azatsh/dbpasswordchange/Main.java:102-104 | `-H`, `--HELP`, `h`, `-`, `-hh` and `--helpme` are not help flags |
| Runner.Targets | src/main/java/org/azatsh/dbpasswordchange/Main.java:57-58 | the target list is missing exactly when there are three arguments and no `db_names` property; a fourth argument wins and is split on `,`; otherwise the `db_names` value is split on `,` |
| Runner.ProcessUser | src/main/java/org/azatsh/dbpasswordchange/Main.java:82-100 | it prints the announcement; without a connection URL it fails and does not connect; with one, its connection and verdict are those of `updatePass`; it succeeds exactly when it logs no error |
| Runner.ProcessUserJdbc | src/main/java/org/azatsh/dbpasswordchange/Main.java:82-100 | for a URL naming a supported vendor, one connection with the current credentials runs the vendor's statement, and the verdict is the database's answer |
| Runner.RunTargets | src/main/java/org/azatsh/dbpasswordchange/Main.java:58-66 | the loop over the targets as a recursive function; specified by RunTargetsPrefix, RunTargetsSuccess, RunTargetsStop, RunTargetsOutput and RunTargetsConnections below, and computed by ProcessTargets |
| Runner.RunTargetsPrefix | src/main/java/org/azatsh/dbpasswordchange/Main.java:58-66 | the loop attempts a prefix of the targets, and all of them when early stop is off |
| Runner.RunTargetsSuccess | src/main/java/org/azatsh/dbpasswordchange/Main.java:53-66 | `isSuccess` ends true exactly when every attempted database succeeded |
| Runner.RunTargetsStop | src/main/java/org/azatsh/dbpasswordchange/Main.java:58-66 | with early stop, every attempted database but the last succeeded, and the loop ends before the last target only right after a failure |
| Runner.RunTargetsAttempts | src/main/java/org/azatsh/dbpasswordchange/Main.java:53-66 | the loop's properties together, stated over the target list |
| Runner.StopsAtFirstFailure | src/main/java/org/azatsh/dbpasswordchange/Main.java:58-66 | with early stop, exactly the databases up to and including the first failing one are attempted, and the run fails |
| Runner.RunTargetsOutput | src/main/java/org/azatsh/dbpasswordchange/Main.java:58-66 | the loop prints one line per attempted database, each database's own announcement in order, and records, in order, exactly the connection attempts of the attempted databases, so a target skipped by early stop has none |
| Runner.ProcessTargets | src/main/java/org/azatsh/dbpasswordchange/Main.java:53-66 | the imperative loop with `break` computes exactly the recursive `RunTargets` |
| Runner.SummaryLines | src/main/java/org/azatsh/dbpasswordchange/Main.java:68-78 | the lines printed after the loop; specified by SummaryContents and RunLastLine |
| Runner.SummaryContents | src/main/java/org/azatsh/dbpasswordchange/Main.java:68-78 | the summary starts with an empty line; the errors line appears exactly on failure; the stopped line exactly on failure with early stop; "completed successfully" exactly on success; "completed with errors" exactly on failure without early stop |
| Runner.Run | src/main/java/org/azatsh/dbpasswordchange/Main.java:47-80 | `start` as a function; specified by RunUsage, RunAttemptsPrefix, RunSuccess, RunStopsAfterFailure, RunConnections, RunConsole and RunLastLine below, and computed by Start |
| Runner.Start | src/main/java/org/azatsh/dbpasswordchange/Main.java:47-80 | the imperative `start` returns exactly what the specification `Run` describes |
| Runner.RunUsage | src/main/java/org/azatsh/dbpasswordchange/Main.java:47-57 | the usage path is taken exactly for a wrong argument count or a help flag as first argument; the missing-`db_names` failure happens exactly with three arguments and no such property |
| Runner.RunAttemptsPrefix | src/main/java/org/azatsh/dbpasswordchange/Main.java:57-66 | a finished run attempts a prefix of its targets, and all of them when errors are ignored |
| Runner.RunSuccess | src/main/java/org/azatsh/dbpasswordchange/Main.java:53-66 | a finished run succeeds exactly when `processUser` succeeded for every attempted database |
| Runner.RunStopsAfterFailure | src/main/java/org/azatsh/dbpasswordchange/Main.java:58-66 | with early stop, every attempted database but the last succeeded, and a run that ends before its last target ends right after a failure |
| Runner.RunConnections | src/main/java/org/azatsh/dbpasswordchange/Main.java:54-94 | a finished run records, in order, the connection attempt of every database it attempted that has one; each uses the user name and current password from the command line and the `<db>_connection_url` of a database the run attempted |
| Runner.RunConsole | src/main/java/org/azatsh/dbpasswordchange/Main.java:68-83 | the console shows one announcement per attempted database, in order, then exactly the summary lines |
| Runner.RunLastLine | src/main/java/org/azatsh/dbpasswordchange/Main.java:68-78 | a run's last line is "completed successfully", the stopped line, or "completed with errors", according to its verdict and the early-stop policy |
| Runner.SingleDatabaseRun | src/main/java/org/azatsh/dbpasswordchange/Main.java:47-99 | one database named on the command line whose URL names a supported vendor: one connection with the current credentials runs the vendor's statement, and the run succeeds exactly when the database accepts it |
| Runner.MissingUrlRun | src/main/java/org/azatsh/dbpasswordchange/Main.java:82-89 | a single database from `db_names` without a connection URL is attempted, the run fails, and no connection is attempted |
| Runner.RunTargetsConnections | src/main/java/org/azatsh/dbpasswordchange/Main.java:58-66 | the loop's recorded connections are exactly, and in order, those its attempted databases' steps attempt |
| Runner.EarlyStopExample | src/main/java/org/azatsh/dbpasswordchange/Main.java:58-66 | three databases, the first without a URL and the other two on MySQL: with `ignore_errors=false` only the first is attempted and no connection is attempted |
| Runner.IgnoredErrorsExample | src/main/java/org/azatsh/dbpasswordchange/Main.java:58-66 | the same three databases with `ignore_errors` unset: all three are attempted, and the two MySQL connections are attempted in order with the current credentials |
| Runner.ConnectionUrlPropInjective | src/main/java/org/azatsh/dbpasswordchange/Main.java:85 | different database names look up different `<db>_connection_url` properties |

## Left out

- JDBC is not modelled. `DriverManager.getConnection`, `prepareCall`,
  `setAutoCommit` and `execute` are the oracle `db`. A failure to connect and
  a failure to execute are both the oracle answering `false`; both are
  `SQLException`s in the source, and both lead to the same log lines.
- The `IllegalStateException` that wraps an `SQLException`, and the exception
  objects passed to the logger, are not modelled. Only the log messages are.
- Exception message texts are not modelled. The two `IllegalArgumentException`s
  become `DaoError` values that carry the URL or the tag.
- `getProperty` is not modelled as I/O. Loading `settings.properties` from the
  class path, the lazy cache, and the "error loading properties" path are
  left out. The properties are an arbitrary immutable map given to the run.
  This covers a missing resource (nothing is read, the map is empty) and a
  load that fails partway (the entries read before the failure are kept).
- Dao.UpdatePass: the database has no state in the model. The oracle `db`
  answers each request on its own, so a successful password change is not seen
  by later connections. A database listed twice (`a,a`) gets the same answer
  both times, while the real second attempt logs in with the now stale old
  password and fails.
- `printUsage`, the usage text and `System.exit(1)` are left out. The usage
  path is the result `UsageError`.
- SLF4J and `System.out` are left out. They become the `log` and `console`
  parts of `Output`.
- `%n` is modelled as `"\n"` in the announcement; the platform line separator
  is not modelled.
- The general regular-expression engine is left out. Only the one help
  pattern is modelled, as the language it accepts under `matches()`.
- Runner.ProcessUser: the announcement is built by concatenation, not by
  `String.format`. Both give the same text, because the arguments are inserted
  verbatim.
- JavaText.ToLower: case folding covers ASCII letters only. The effects of
  the default locale on `toLowerCase` are not modelled (for example the
  Turkish dotless i).
- JavaText.EqualsIgnoreCase: Java's Unicode case-insensitive comparison is
  not modelled, only ASCII. For example Java matches U+017F (long s) with
  `s`, so `ignore_errors=yeſ` counts as true in Java, while the model stops
  the run at the first failure.
- JavaText.Format: only `%s` conversions are modelled. Any other conversion is
  `UnsupportedConversion`; none of the tool's templates uses one.
- JavaText.JavaSplit: only a one-character literal delimiter is modelled,
  which is all the tool uses (`:` and `,`). General regex delimiters and the
  `limit` argument are left out.
