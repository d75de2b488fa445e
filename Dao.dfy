/**
 * The password updater (class `Dao`): it reads the database vendor out of a
 * JDBC connection URL, picks that vendor's statement template, fills it with
 * the user name, the new password and the old password, and hands the
 * statement to the database over a connection opened with the OLD
 * credentials. The database itself is an oracle `db` that says whether the
 * statement went through; everything before the connection is modelled
 * exactly, up to ASCII-only case folding.
 */
module Dao {
  import opened Wrappers
  import opened JavaText

  const OracleQuery: string := "alter user %s identified by \"%s\" replace \"%s\""
  const PostgreSqlQuery: string := "alter user %s with password \"%s\""
  const SqlServerQuery: string := "alter login %s with password = \"%s\""
  const MySqlQuery: string := "alter user %s identified by \"%s\""

  /** The closed set of supported database kinds. */
  datatype Dbms = Oracle | PostgreSql | SqlServer | MySql

  /** The two `IllegalArgumentException`s the updater throws before connecting. */
  datatype DaoError =
    | IncorrectUrl(url: string)      // "The jdbc url is incorrect: '<url>'"
    | UnsupportedDbms(dbms: string)  // "Unsupported dbms: <dbms>"

  /** One connection: where to, as whom, and the one statement executed on it. */
  datatype Request = Request(url: string, user: string, password: string, statement: string)

  /** Why `updatePass` threw: a configuration problem, or an `SQLException` from the database. */
  datatype UpdateError = ConfigurationError(cause: DaoError) | SqlError

  /** What one `updatePass` call did: the connection it attempted, if any, and how it ended. */
  datatype Update = Update(connection: Option<Request>, result: Outcome<UpdateError>)

  /** The lower-case tag the source switches on. */
  function Name(d: Dbms): string {
    match d
    case Oracle => "oracle"
    case PostgreSql => "postgresql"
    case SqlServer => "sqlserver"
    case MySql => "mysql"
  }

  /** The `switch (dbms)`: only the four exact tags select a template. */
  function ParseDbms(tag: string): (r: Option<Dbms>)
    ensures r.Some? <==> tag in {"oracle", "postgresql", "sqlserver", "mysql"}
    ensures r.Some? ==> Name(r.value) == tag
  {
    if tag == "oracle" then Some(Oracle)
    else if tag == "postgresql" then Some(PostgreSql)
    else if tag == "sqlserver" then Some(SqlServer)
    else if tag == "mysql" then Some(MySql)
    else None
  }

  /** Every vendor's tag selects that vendor. */
  lemma ParseDbmsName(d: Dbms)
    ensures ParseDbms(Name(d)) == Some(d)
  {
  }

  function Template(d: Dbms): string {
    match d
    case Oracle => OracleQuery
    case PostgreSql => PostgreSqlQuery
    case SqlServer => SqlServerQuery
    case MySql => MySqlQuery
  }

  /**
   * `String.format(query, dbUser, newPassword, password)`: the inputs are
   * inserted verbatim; only the Oracle template has a third slot, so the
   * other three never contain the old password.
   */
  function Statement(d: Dbms, user: string, newPassword: string, password: string): (r: string)
    ensures d == Oracle ==>
      r == "alter user " + user + " identified by \"" + newPassword + "\" replace \"" + password + "\""
    ensures d == PostgreSql ==> r == "alter user " + user + " with password \"" + newPassword + "\""
    ensures d == SqlServer ==> r == "alter login " + user + " with password = \"" + newPassword + "\""
    ensures d == MySql ==> r == "alter user " + user + " identified by \"" + newPassword + "\""
  {
    match d
    case Oracle =>
      FormatOracle(user, newPassword, password);
      Format(Template(d), [user, newPassword, password]).value
    case PostgreSql =>
      FormatPostgreSql(user, newPassword, password);
      Format(Template(d), [user, newPassword, password]).value
    case SqlServer =>
      FormatSqlServer(user, newPassword, password);
      Format(Template(d), [user, newPassword, password]).value
    case MySql =>
      FormatMySql(user, newPassword, password);
      Format(Template(d), [user, newPassword, password]).value
  }

  /** The Oracle template takes all three arguments, in order. */
  lemma FormatOracle(user: string, newPassword: string, password: string)
    ensures Format(OracleQuery, [user, newPassword, password])
      == Success("alter user " + user + " identified by \"" + newPassword + "\" replace \"" + password + "\"")
  {
    assert OracleQuery == "alter user " + "%s" + " identified by \"" + "%s" + "\" replace \"" + "%s" + "\"";
    FormatThreeSlots("alter user ", " identified by \"", "\" replace \"", "\"", user, newPassword, password);
  }

  /** The PostgreSQL template takes the user and the new password; the old password is left over. */
  lemma FormatPostgreSql(user: string, newPassword: string, password: string)
    ensures Format(PostgreSqlQuery, [user, newPassword, password])
      == Success("alter user " + user + " with password \"" + newPassword + "\"")
  {
    assert PostgreSqlQuery == "alter user " + "%s" + " with password \"" + "%s" + "\"";
    assert [user, newPassword, password] == [user, newPassword] + [password];
    FormatTwoSlots("alter user ", " with password \"", "\"", user, newPassword, [password]);
  }

  /** The SQL Server template takes the user and the new password; the old password is left over. */
  lemma FormatSqlServer(user: string, newPassword: string, password: string)
    ensures Format(SqlServerQuery, [user, newPassword, password])
      == Success("alter login " + user + " with password = \"" + newPassword + "\"")
  {
    assert SqlServerQuery == "alter login " + "%s" + " with password = \"" + "%s" + "\"";
    assert [user, newPassword, password] == [user, newPassword] + [password];
    FormatTwoSlots("alter login ", " with password = \"", "\"", user, newPassword, [password]);
  }

  /** The MySQL template takes the user and the new password; the old password is left over. */
  lemma FormatMySql(user: string, newPassword: string, password: string)
    ensures Format(MySqlQuery, [user, newPassword, password])
      == Success("alter user " + user + " identified by \"" + newPassword + "\"")
  {
    assert MySqlQuery == "alter user " + "%s" + " identified by \"" + "%s" + "\"";
    assert [user, newPassword, password] == [user, newPassword] + [password];
    FormatTwoSlots("alter user ", " identified by \"", "\"", user, newPassword, [password]);
  }

  /** `getDbmsName`: the second `:`-separated part, lower-cased, of a URL whose first part is `jdbc`. */
  function GetDbmsName(url: string): (r: Result<string, DaoError>)
    ensures r.Failure? ==> r.error == IncorrectUrl(url)
    ensures r.Success? ==> ToLower(r.value) == r.value
  {
    var parts := JavaSplit(url, ':');
    if |parts| < 3 || !EqualsIgnoreCase("jdbc", parts[0]) then Failure(IncorrectUrl(url))
    else
      ToLowerIdempotent(parts[1]);
      Success(ToLower(parts[1]))
  }

  /** Everything `updatePass` decides before it connects: the connection request, or the error thrown instead. */
  function PlanUpdate(url: string, user: string, password: string, newPassword: string): (r: Result<Request, DaoError>)
    ensures r.Success? ==> r.value.url == url && r.value.user == user && r.value.password == password
    ensures r.Failure? && r.error.UnsupportedDbms? ==>
      GetDbmsName(url) == Success(r.error.dbms) && ParseDbms(r.error.dbms).None?
  {
    match GetDbmsName(url)
    case Failure(e) => Failure(e)
    case Success(dbms) =>
      match ParseDbms(dbms)
      case None => Failure(UnsupportedDbms(dbms))
      case Some(d) => Success(Request(url, user, password, Statement(d, user, newPassword, password)))
  }

  /**
   * `updatePass`: a configuration error is thrown before any connection is
   * attempted; otherwise exactly one connection attempt is made to run the
   * statement, and the call fails exactly when the database refuses the
   * connection or rejects the statement.
   */
  function UpdatePass(url: string, user: string, password: string, newPassword: string, db: Request -> bool): (u: Update)
    ensures u.result.Fail? && u.result.error.ConfigurationError? <==> u.connection.None?
    ensures u.connection.Some? ==> (u.result.Pass? <==> db(u.connection.value))
    ensures u.connection.Some? ==>
      (u.connection.value.url == url && u.connection.value.user == user && u.connection.value.password == password)
  {
    match PlanUpdate(url, user, password, newPassword)
    case Failure(e) => Update(None, Fail(ConfigurationError(e)))
    case Success(req) => Update(Some(req), if db(req) then Pass else Fail(SqlError))
  }

  // ---------------------------------------------------------------------------
  // What getDbmsName accepts, stated on the shape of the URL
  // ---------------------------------------------------------------------------

  /** A URL with fewer than two colons is always rejected. */
  lemma DbmsNameOfShortUrl(url: string)
    requires multiset(url)[':'] < 2
    ensures GetDbmsName(url) == Failure(IncorrectUrl(url))
  {
    if ':' in url {
      SplitAllCount(url, ':');
    }
  }

  /**
   * A URL `scheme:vendor:rest` (the first two colons) is accepted exactly when
   * `scheme` is `jdbc` in any case and `rest` holds something besides colons;
   * the tag is then `vendor`, lower-cased.
   */
  lemma DbmsNameOfUrl(scheme: string, vendor: string, rest: string)
    requires ':' !in scheme && ':' !in vendor
    ensures var url := scheme + ":" + vendor + ":" + rest;
      GetDbmsName(url) ==
        if EqualsIgnoreCase("jdbc", scheme) && !OnlyDelimiters(rest, ':') then Success(ToLower(vendor))
        else Failure(IncorrectUrl(url))
  {
    var url := scheme + ":" + vendor + ":" + rest;
    assert url == scheme + [':'] + (vendor + [':'] + rest);
    SplitAllAt(scheme, vendor + [':'] + rest, ':');
    SplitAllAt(vendor, rest, ':');
    var t := SplitAll(rest, ':');
    assert SplitAll(url, ':') == [scheme, vendor] + t;
    assert url[|scheme|] == ':';
    SplitAllEmptyPieces(rest, ':');
    if OnlyDelimiters(rest, ':') {
      DropTrailingEmptyOfEmptyTail([scheme, vendor], t);
    } else {
      DropTrailingEmptyKeepsHead([scheme, vendor], t);
    }
  }

  /** The tag does not depend on the case of the URL: URLs equal up to case give the same verdict and tag. */
  lemma DbmsNameIgnoresCase(url1: string, url2: string)
    requires ToLower(url1) == ToLower(url2)
    ensures GetDbmsName(url1).Success? <==> GetDbmsName(url2).Success?
    ensures GetDbmsName(url1).Success? ==> GetDbmsName(url1).value == GetDbmsName(url2).value
  {
    var p1, p2 := JavaSplit(url1, ':'), JavaSplit(url2, ':');
    JavaSplitLower(url1, ':');
    JavaSplitLower(url2, ':');
    assert MapLower(p1) == MapLower(p2);
    assert |p1| == |p2|;
    if |p1| >= 3 {
      assert ToLower(p1[0]) == MapLower(p1)[0] == MapLower(p2)[0] == ToLower(p2[0]);
      assert ToLower(p1[1]) == MapLower(p1)[1] == MapLower(p2)[1] == ToLower(p2[1]);
    }
  }

  /**
   * `updatePass` end to end on a URL `scheme:vendor:rest`: a malformed URL or
   * an unknown vendor (including the empty one of `jdbc::x`) throws without
   * connecting; otherwise the connection uses the old credentials and runs
   * the vendor's statement.
   */
  lemma UpdatePassOnUrl(scheme: string, vendor: string, rest: string,
                        user: string, password: string, newPassword: string, db: Request -> bool)
    requires ':' !in scheme && ':' !in vendor
    ensures var url := scheme + ":" + vendor + ":" + rest;
      var u := UpdatePass(url, user, password, newPassword, db);
      if !EqualsIgnoreCase("jdbc", scheme) || OnlyDelimiters(rest, ':') then
        u == Update(None, Fail(ConfigurationError(IncorrectUrl(url))))
      else if ParseDbms(ToLower(vendor)).None? then
        u == Update(None, Fail(ConfigurationError(UnsupportedDbms(ToLower(vendor)))))
      else
        var req := Request(url, user, password, Statement(ParseDbms(ToLower(vendor)).value, user, newPassword, password));
        u == Update(Some(req), if db(req) then Pass else Fail(SqlError))
  {
    DbmsNameOfUrl(scheme, vendor, rest);
  }

  /** A `jdbc:<vendor>:<rest>` URL for a supported vendor: one connection with the old credentials runs that vendor's statement. */
  lemma UpdatePassJdbc(d: Dbms, rest: string, user: string, password: string, newPassword: string, db: Request -> bool)
    requires !OnlyDelimiters(rest, ':')
    ensures var url := "jdbc:" + Name(d) + ":" + rest;
      var req := Request(url, user, password, Statement(d, user, newPassword, password));
      UpdatePass(url, user, password, newPassword, db) == Update(Some(req), if db(req) then Pass else Fail(SqlError))
  {
    var url := "jdbc:" + Name(d) + ":" + rest;
    assert url == "jdbc" + ":" + Name(d) + ":" + rest;
    assert ':' !in Name(d);
    assert EqualsIgnoreCase("jdbc", "jdbc");
    assert ToLower(Name(d)) == Name(d) by {
      ToLowerOfLowerCase(Name(d));
    }
    UpdatePassOnUrl("jdbc", Name(d), rest, user, password, newPassword, db);
  }

  /** `jdbc::x` names the empty vendor, which is unsupported. */
  lemma EmptyVendorUnsupported(user: string, password: string, newPassword: string, db: Request -> bool)
    ensures UpdatePass("jdbc::x", user, password, newPassword, db)
      == Update(None, Fail(ConfigurationError(UnsupportedDbms(""))))
  {
    assert "jdbc::x" == "jdbc" + ":" + "" + ":" + "x";
    DbmsNameOfUrl("jdbc", "", "x");
    assert !OnlyDelimiters("x", ':') by {
      assert "x"[0] != ':';
    }
  }
}
