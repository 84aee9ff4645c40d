/** `HibernateUtils.getDatabaseName`: picks the database product from a JDBC
    URL by looking for a colon-delimited marker such as ":mysql:". */
module HibernateUtils {
  import opened JavaLang
  import opened Text

  /** One recognised database: the marker looked for in the URL and the name returned. */
  datatype Dialect = Dialect(marker: string, name: string)

  /** The recognised databases, in the order the URL is tested against them. */
  const Dialects: seq<Dialect> := [
    Dialect(":h2:", "h2"),
    Dialect(":mysql:", "mysql"),
    Dialect(":oracle:", "oracle"),
    Dialect(":postgresql:", "postgresql"),
    Dialect(":sqlserver:", "sqlserver")
  ]

  /** The only names `GetDatabaseName` ever returns. */
  const DatabaseNames: set<string> := {"h2", "mysql", "oracle", "postgresql", "sqlserver"}

  /** The message of the exception thrown for an unrecognised URL. */
  function UnknownDatabase(jdbcUrl: Nullable<string>): Exception
  {
    IllegalArgumentException("Unknown Database of " + ConcatText(jdbcUrl))
  }

  /** `getDatabaseName(jdbcUrl)`: the first marker found, in the fixed order
      h2, mysql, oracle, postgresql, sqlserver, decides the name; a URL with
      none of them (a null one included) is an IllegalArgumentException. */
  function GetDatabaseName(jdbcUrl: Nullable<string>): (r: Outcome<string>)
    ensures r.Returned? ==> r.value in DatabaseNames
    ensures r.Threw? ==> r.exception == UnknownDatabase(jdbcUrl)
  {
    if Contains(jdbcUrl, ":h2:") then Returned("h2")
    else if Contains(jdbcUrl, ":mysql:") then Returned("mysql")
    else if Contains(jdbcUrl, ":oracle:") then Returned("oracle")
    else if Contains(jdbcUrl, ":postgresql:") then Returned("postgresql")
    else if Contains(jdbcUrl, ":sqlserver:") then Returned("sqlserver")
    else Threw(UnknownDatabase(jdbcUrl))
  }

  /** The index of the first entry of `table` whose marker the URL contains,
      or `|table|` when there is none. */
  function FirstMatch(jdbcUrl: Nullable<string>, table: seq<Dialect>): (k: nat)
    ensures k <= |table|
    ensures forall j :: 0 <= j < k ==> !Contains(jdbcUrl, table[j].marker)
    ensures k < |table| ==> Contains(jdbcUrl, table[k].marker)
  {
    if table == [] then 0
    else if Contains(jdbcUrl, table[0].marker) then 0
    else 1 + FirstMatch(jdbcUrl, table[1..])
  }

  /** A reference classifier that scans the table `Dialects`. */
  function ClassifyByTable(jdbcUrl: Nullable<string>): Outcome<string> {
    var k := FirstMatch(jdbcUrl, Dialects);
    if k < |Dialects| then Returned(Dialects[k].name) else Threw(UnknownDatabase(jdbcUrl))
  }

  /** Scanning a table is testing its first entry, then scanning the rest. */
  lemma FirstMatchStep(jdbcUrl: Nullable<string>, d: Dialect, rest: seq<Dialect>)
    ensures FirstMatch(jdbcUrl, [d] + rest)
         == if Contains(jdbcUrl, d.marker) then 0 else 1 + FirstMatch(jdbcUrl, rest)
  {
    assert ([d] + rest)[1..] == rest;
  }

  /** The if-chain of `getDatabaseName` is a first-match scan over `Dialects`. */
  lemma {:induction false} GetDatabaseNameIsFirstMatch(jdbcUrl: Nullable<string>)
    ensures GetDatabaseName(jdbcUrl) == ClassifyByTable(jdbcUrl)
  {
    var d := Dialects;
    assert d == [d[0]] + ([d[1]] + ([d[2]] + ([d[3]] + ([d[4]] + []))));
    FirstMatchStep(jdbcUrl, d[4], []);
    FirstMatchStep(jdbcUrl, d[3], [d[4]]);
    FirstMatchStep(jdbcUrl, d[2], [d[3], d[4]]);
    FirstMatchStep(jdbcUrl, d[1], [d[2], d[3], d[4]]);
    FirstMatchStep(jdbcUrl, d[0], [d[1], d[2], d[3], d[4]]);
  }

  /** An IllegalArgumentException is thrown exactly when the URL holds none
      of the five markers; there is no default database. */
  lemma ThrowsIffNoMarker(jdbcUrl: Nullable<string>)
    ensures GetDatabaseName(jdbcUrl).Threw?
        <==> forall k :: 0 <= k < |Dialects| ==> !Contains(jdbcUrl, Dialects[k].marker)
  {
    GetDatabaseNameIsFirstMatch(jdbcUrl);
  }

  /** Precedence: the result is the name of entry `k` exactly when the URL
      holds marker `k` and none of the markers tested before it. */
  lemma FirstMarkerDecides(jdbcUrl: Nullable<string>, k: nat)
    requires k < |Dialects|
    ensures GetDatabaseName(jdbcUrl) == Returned(Dialects[k].name)
        <==> Contains(jdbcUrl, Dialects[k].marker)
             && forall j :: 0 <= j < k ==> !Contains(jdbcUrl, Dialects[j].marker)
  {
    GetDatabaseNameIsFirstMatch(jdbcUrl);
    var m := FirstMatch(jdbcUrl, Dialects);
    if GetDatabaseName(jdbcUrl) == Returned(Dialects[k].name) {
      assert m < |Dialects| && Dialects[m].name == Dialects[k].name;
      assert m == k;
    }
  }

  /** A URL holding ":h2:" is h2, whatever else it holds. */
  lemma H2Wins(jdbcUrl: Nullable<string>)
    requires Contains(jdbcUrl, ":h2:")
    ensures GetDatabaseName(jdbcUrl) == Returned("h2")
  {
  }

  /** A URL holding ":mysql:" but not ":h2:" is mysql. */
  lemma MySqlUnlessH2(jdbcUrl: Nullable<string>)
    requires Contains(jdbcUrl, ":mysql:") && !Contains(jdbcUrl, ":h2:")
    ensures GetDatabaseName(jdbcUrl) == Returned("mysql")
  {
  }

  /** Oracle is tested before SQL Server, so a URL holding both markers is oracle. */
  lemma OracleBeforeSqlServer(jdbcUrl: Nullable<string>)
    requires Contains(jdbcUrl, ":oracle:") && Contains(jdbcUrl, ":sqlserver:")
    requires !Contains(jdbcUrl, ":h2:") && !Contains(jdbcUrl, ":mysql:")
    ensures GetDatabaseName(jdbcUrl) == Returned("oracle")
  {
  }

  /** The colons are part of the marker: without ":mysql:" the result is
      never mysql, even when the bare word is present. */
  lemma ColonsRequired(jdbcUrl: Nullable<string>)
    requires !Contains(jdbcUrl, ":mysql:")
    ensures GetDatabaseName(jdbcUrl) != Returned("mysql")
  {
  }

  /** A null URL is not a default: it is an IllegalArgumentException. */
  lemma NullUrlThrows()
    ensures GetDatabaseName(Null) == Threw(IllegalArgumentException("Unknown Database of null"))
  {
  }

  /** "jdbc:mysql://localhost/db" is mysql. */
  lemma MySqlUrlExample()
    ensures GetDatabaseName(NonNull("jdbc:mysql://localhost/db")) == Returned("mysql")
  {
    var url := "jdbc:mysql://localhost/db";
    AbsentByMissingChar(url, ":h2:", '2');
    assert url == "jdbc" + ":mysql:" + "//localhost/db";
    assert OccursAt(url, ":mysql:", 4);
  }

  /** Whatever the URL, the exception thrown is the "Unknown Database of"
      one that quotes it. */
  lemma ThrownMessage(jdbcUrl: Nullable<string>)
    requires GetDatabaseName(jdbcUrl).Threw?
    ensures GetDatabaseName(jdbcUrl)
         == Threw(IllegalArgumentException("Unknown Database of " + ConcatText(jdbcUrl)))
  {
  }

  /** "jdbc:mysql//db" names mysql but lacks the second colon, so
      it is not recognised. */
  lemma BareMySqlExample(url: string)
    requires url == "jdbc:mysql//db"
    ensures GetDatabaseName(NonNull(url))
         == Threw(IllegalArgumentException("Unknown Database of jdbc:mysql//db"))
  {
    BareMySqlHasNoMarker(url);
    ThrownMessage(NonNull(url));
  }

  lemma BareMySqlHasNoMarker(url: string)
    requires url == "jdbc:mysql//db"
    ensures GetDatabaseName(NonNull(url)).Threw?
  {
    AbsentByMissingChar(url, ":h2:", '2');
    BareMySqlLacksMarker(url);
    AbsentByMissingChar(url, ":oracle:", 'r');
    AbsentByMissingChar(url, ":postgresql:", 'p');
    AbsentByMissingChar(url, ":sqlserver:", 'r');
  }

  lemma BareMySqlLacksMarker(url: string)
    requires url == "jdbc:mysql//db"
    ensures !Occurs(url, ":mysql:")
  {
    AbsentBySingleCopy(url, "jdbc", ':', "mysql//db", ":mysql:", 0, 6);
  }

  /** An SQLite URL is not one of the five: IllegalArgumentException. */
  lemma SqliteUrlExample(url: string)
    requires url == "jdbc:sqlite:a.db"
    ensures GetDatabaseName(NonNull(url))
         == Threw(IllegalArgumentException("Unknown Database of jdbc:sqlite:a.db"))
  {
    SqliteHasNoMarker(url);
    ThrownMessage(NonNull(url));
  }

  lemma SqliteHasNoMarker(url: string)
    requires url == "jdbc:sqlite:a.db"
    ensures GetDatabaseName(NonNull(url)).Threw?
  {
    AbsentByMissingChar(url, ":h2:", '2');
    AbsentByMissingChar(url, ":mysql:", 'y');
    AbsentByMissingChar(url, ":oracle:", 'r');
    AbsentByMissingChar(url, ":postgresql:", 'g');
    AbsentByMissingChar(url, ":sqlserver:", 'r');
  }
}
