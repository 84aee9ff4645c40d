# cyfm: database-name and skin classifiers

This project models the two pieces of self-contained string logic in the
cyfm Spring application and proves their properties in Dafny.

- `HibernateUtils.getDatabaseName(jdbcUrl)` picks the database product from
  a JDBC URL. It looks for the markers `:h2:`, `:mysql:`, `:oracle:`,
  `:postgresql:` and `:sqlserver:` in that order. The first marker found
  decides the result. A URL with none of them throws
  `IllegalArgumentException("Unknown Database of " + jdbcUrl)`.
- `PreSiteMeshFilter.doFilter` lower-cases the request's `User-Agent`
  header. It sets the cookie `skin=mobile` when the header contains
  `android`, `phone` or `pad`, and `skin=content` otherwise. Then it passes
  the request down the filter chain.

Both are pure decisions, so they are modelled as functions with lemmas.
Java's nullable references become `JavaLang.Nullable`. A call that returns or
throws becomes a `JavaLang.Outcome`.

The library calls the code relies on are modelled in module `Text`:
`String.indexOf`, Apache Commons' `StringUtils.contains` and
`String.toLowerCase`. The two searches are stated against a declarative
definition of "`t` occurs in `s` at `i`" (`Text.OccursAt`, `Text.Occurs`);
lower-casing is stated character by character (`Text.LowerChar`) and against
case-insensitive equality (`Text.EqualsIgnoreCase`).

The filter's writes to the outside world are recorded as a trace of
`PreSiteMeshFilter.Effect` values: the cookie change, then the call down the
chain. The servlet objects themselves are not modelled.

Every operation is a Dafny function; there are no methods and no mutable
state. So each result depends only on the arguments and nothing else is
changed. This holds by construction and needs no lemma.

The code calls `toLowerCase()` on the header without a null check
(PreSiteMeshFilter.java line 29), so a missing header throws a
`NullPointerException` instead of falling back to `content`. Neither cookie
is written and the chain is not continued.

## Model

| member | source | states |
|---|---|---|
| `Text.IndexOfFrom` | ppcxy-common/src/main/java/com/ppcxy/common/web/filter/PreSiteMeshFilter.java:32 | the result is -1 when there is no occurrence at or after `from`; otherwise it is an occurrence with none before it |
| `Text.IndexOf` | ppcxy-common/src/main/java/com/ppcxy/common/web/filter/PreSiteMeshFilter.java:32 | `indexOf` is -1 exactly when the token is not a substring; otherwise it is the first index where the token occurs |
| `Text.Contains` | ppcxy-common/src/main/java/com/ppcxy/common/repository/jpa/support/hibernate/HibernateUtils.java:116-124 | `StringUtils.contains` is true exactly when the string is non-null and holds the marker as a substring |
| `Text.ToLowerCase` | ppcxy-common/src/main/java/com/ppcxy/common/web/filter/PreSiteMeshFilter.java:29 | lower-casing keeps the length and maps every character through ASCII lower-casing |
| `Text.ToLowerCaseIdempotent` | ppcxy-common/src/main/java/com/ppcxy/common/web/filter/PreSiteMeshFilter.java:29 | the lower-cased header has no upper-case letter, and lower-casing it again changes nothing |
| `Text.ToLowerCaseEqualIff` | ppcxy-common/src/main/java/com/ppcxy/common/web/filter/PreSiteMeshFilter.java:29 | two headers have the same lower-case form exactly when they are equal ignoring case (both directions) |
| `Text.ToLowerCaseKeepsOccurrence` | ppcxy-common/src/main/java/com/ppcxy/common/web/filter/PreSiteMeshFilter.java:29-32 | a substring of the header, lower-cased, occurs at the same index in the lower-cased header |
| `HibernateUtils.GetDatabaseName` | ppcxy-common/src/main/java/com/ppcxy/common/repository/jpa/support/hibernate/HibernateUtils.java:114-129 | every returned name is one of h2, mysql, oracle, postgresql, sqlserver; every exception is the "Unknown Database of" IllegalArgumentException |
| `HibernateUtils.FirstMatch` | ppcxy-common/src/main/java/com/ppcxy/common/repository/jpa/support/hibernate/HibernateUtils.java:116-125 | the reference scan finds a table entry whose marker the URL holds, and no earlier entry's marker occurs; or it finds none |
| `HibernateUtils.GetDatabaseNameIsFirstMatch` | ppcxy-common/src/main/java/com/ppcxy/common/repository/jpa/support/hibernate/HibernateUtils.java:116-128 | the if-chain gives the same outcome as a first-match scan over the ordered marker table |
| `HibernateUtils.ThrowsIffNoMarker` | ppcxy-common/src/main/java/com/ppcxy/common/repository/jpa/support/hibernate/HibernateUtils.java:126-127 | the call throws exactly when the URL holds none of the five markers; there is no default |
| `HibernateUtils.FirstMarkerDecides` | ppcxy-common/src/main/java/com/ppcxy/common/repository/jpa/support/hibernate/HibernateUtils.java:116-125 | the result is database k exactly when the URL holds marker k and none of the markers tested before it |
| `HibernateUtils.H2Wins` | ppcxy-common/src/main/java/com/ppcxy/common/repository/jpa/support/hibernate/HibernateUtils.java:116-117 | a URL holding ":h2:" is h2, whatever else it holds |
| `HibernateUtils.MySqlUnlessH2` | ppcxy-common/src/main/java/com/ppcxy/common/repository/jpa/support/hibernate/HibernateUtils.java:118-119 | a URL holding ":mysql:" but not ":h2:" is mysql |
| `HibernateUtils.OracleBeforeSqlServer` | ppcxy-common/src/main/java/com/ppcxy/common/repository/jpa/support/hibernate/HibernateUtils.java:120-125 | a URL holding both ":oracle:" and ":sqlserver:", and neither earlier marker, is oracle |
| `HibernateUtils.ColonsRequired` | ppcxy-common/src/main/java/com/ppcxy/common/repository/jpa/support/hibernate/HibernateUtils.java:118 | without the colon-delimited ":mysql:" the result is never mysql |
| `HibernateUtils.ThrownMessage` | ppcxy-common/src/main/java/com/ppcxy/common/repository/jpa/support/hibernate/HibernateUtils.java:127 | whenever the call throws, it throws the IllegalArgumentException that quotes the URL, "null" for a null one |
| `HibernateUtils.NullUrlThrows` | ppcxy-common/src/main/java/com/ppcxy/common/repository/jpa/support/hibernate/HibernateUtils.java:116-127 | a null URL throws "Unknown Database of null" rather than getting a default |
| `HibernateUtils.MySqlUrlExample` | ppcxy-common/src/main/java/com/ppcxy/common/repository/jpa/support/hibernate/HibernateUtils.java:118-119 | "jdbc:mysql://localhost/db" is mysql |
| `HibernateUtils.BareMySqlExample` | ppcxy-common/src/main/java/com/ppcxy/common/repository/jpa/support/hibernate/HibernateUtils.java:118-127 | "jdbc:mysql//db" names mysql without the second colon, so it throws |
| `HibernateUtils.SqliteUrlExample` | ppcxy-common/src/main/java/com/ppcxy/common/repository/jpa/support/hibernate/HibernateUtils.java:126-127 | an SQLite URL throws the "Unknown Database of" exception |
| `PreSiteMeshFilter.SkinCookie` | ppcxy-common/src/main/java/com/ppcxy/common/web/filter/PreSiteMeshFilter.java:29-36 | it throws NullPointerException exactly when the header is missing; otherwise the one cookie is named "skin" and is "mobile" or "content" |
| `PreSiteMeshFilter.MobileIffToken` | ppcxy-common/src/main/java/com/ppcxy/common/web/filter/PreSiteMeshFilter.java:29-35 | the skin is "mobile" exactly when the lower-cased header holds "android", "phone" or "pad", and "content" exactly when it holds none |
| `PreSiteMeshFilter.CookiesWrittenAppend` | ppcxy-common/src/main/java/com/ppcxy/common/web/filter/PreSiteMeshFilter.java:33-46 | the cookies written by two traces run one after the other are the first trace's cookies followed by the second's |
| `PreSiteMeshFilter.DoFilter` | ppcxy-common/src/main/java/com/ppcxy/common/web/filter/PreSiteMeshFilter.java:27-47 | it throws NullPointerException exactly when the header is missing, given that the two servlet calls return normally; otherwise it writes exactly the chosen skin cookie and then continues down the chain |
| `PreSiteMeshFilter.OneSkinCookieThenChain` | ppcxy-common/src/main/java/com/ppcxy/common/web/filter/PreSiteMeshFilter.java:32-46 | a request with a header writes exactly one cookie, "skin" = "mobile" or "content", and then always continues down the chain |
| `PreSiteMeshFilter.CaseInsensitive` | ppcxy-common/src/main/java/com/ppcxy/common/web/filter/PreSiteMeshFilter.java:29 | headers that differ only in letter case get the same cookie |
| `PreSiteMeshFilter.TokenInAnyCaseIsMobile` | ppcxy-common/src/main/java/com/ppcxy/common/web/filter/PreSiteMeshFilter.java:29-33 | a token written in any letter case anywhere in the header ("Android", "iPHONE", "PAD") gives "mobile" |
| `PreSiteMeshFilter.WordWithTokenIsMobile` | ppcxy-common/src/main/java/com/ppcxy/common/web/filter/PreSiteMeshFilter.java:31-33 | any word in the lower-cased header that contains one of the tokens gives "mobile": the tokens match inside longer words |
| `PreSiteMeshFilter.IPhoneIsMobile` | ppcxy-common/src/main/java/com/ppcxy/common/web/filter/PreSiteMeshFilter.java:31-33 | "iphone" in the lower-cased header gives "mobile", through the token "phone" |
| `PreSiteMeshFilter.IPadIsMobile` | ppcxy-common/src/main/java/com/ppcxy/common/web/filter/PreSiteMeshFilter.java:31-33 | "ipad" in the lower-cased header gives "mobile", through the token "pad" |
| `PreSiteMeshFilter.NoTokenIsContent` | ppcxy-common/src/main/java/com/ppcxy/common/web/filter/PreSiteMeshFilter.java:34-35 | a header whose lower-cased form holds none of the three tokens gives "content" |
| `PreSiteMeshFilter.NoPOrRIsContent` | ppcxy-common/src/main/java/com/ppcxy/common/web/filter/PreSiteMeshFilter.java:31-35 | every token holds a "p" or an "r", so a header with neither letter in either case gets "content" |
| `PreSiteMeshFilter.MissingHeaderThrows` | ppcxy-common/src/main/java/com/ppcxy/common/web/filter/PreSiteMeshFilter.java:29 | a missing header throws NullPointerException, with no cookie and no call down the chain, not a default |
| `PreSiteMeshFilter.AndroidExample` | ppcxy-common/src/main/java/com/ppcxy/common/web/filter/PreSiteMeshFilter.java:29-33 | "Mozilla/5.0 (Linux; Android 10)" gets the mobile skin, through "Android" matched in any case |
| `PreSiteMeshFilter.DesktopExample` | ppcxy-common/src/main/java/com/ppcxy/common/web/filter/PreSiteMeshFilter.java:34-35 | "Mozilla/5.0 (Windows NT 10.0)" gets the content skin |

## Left out

- The Hibernate helpers `getSession`, `getSessionFactory`, `getCache`, `evictLevel1Cache` and `evictLevel2Cache` (HibernateUtils.java lines 24-107) only cast and call into Hibernate/JPA APIs that are not part of this model. There is no logic in them beyond the order of the calls.
- `Servlets.changeCookie` and `chain.doFilter` are servlet I/O. The model records that they are called and with which cookie, not what they do to the response.
- `DsourceTemplate`, the datasource switch, wraps Spring's `JdbcTemplate` and the Druid pool, which are not part of this model. Its thread-safety and pool lifecycle are concurrency and resource management.
- `UserService`, `UserMybatisDaoTest` and `DynamicSpecificationTest` are dependency-injection wiring and database integration tests with no logic of their own. The last one has every assertion commented out.
- PreSiteMeshFilter.DoFilter: exceptions raised by `Servlets.changeCookie` or `chain.doFilter` (the `IOException` and `ServletException` declared at PreSiteMeshFilter.java line 27) pass through in Java and are not modelled. The trace assumes both calls return normally, so a failing `changeCookie` that skips the chain is not captured. `OneSkinCookieThenChain` rests on the same assumption.
- Text.ToLowerCase: lower-cases ASCII letters only. Java's `toLowerCase()` follows Unicode and the default locale, so in a Turkish locale "I" becomes a dotless "ı". Headers that depend on non-ASCII case mapping or on the locale are not modelled.
- Text.Contains: models `StringUtils.contains` with a non-null search string only, the only way the code calls it.
- Text.IndexOf: counts indices in Unicode scalar values, while Java's `indexOf` counts UTF-16 code units, so the two differ after a character outside the Basic Multilingual Plane. The code only compares the result with -1, so no decision changes.
- Text.IndexOfFrom: takes `from: nat` and requires `from <= |s|`. Java's `indexOf` also accepts larger or negative start indices (a negative one counts as 0), but the code only ever searches from the start.
