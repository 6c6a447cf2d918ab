/**
 * The backend's dork builder: `buildDorkQuery`, the search URL built from its
 * result in `generateDork`, and the fixed catalogue served by `getCategories`.
 *
 * The query starts at `site:<domain>`, then gets ` <keyword>` per keyword and
 * a fixed fragment per recognised token, category by category, in the order
 * fileTypes, vulnerability, cms, auth, errors. A token no `case` label names
 * adds nothing.
 */
module DorkQuery {
  import opened Text

  /** The JSON body of `POST /api/generate`. */
  datatype DorkRequest = DorkRequest(
    domain: string,
    keywords: seq<string>,
    fileTypes: seq<string>,
    vulnerability: seq<string>,
    cms: seq<string>,
    auth: seq<string>,
    errors: seq<string>)

  /** The JSON answer of `POST /api/generate`. */
  datatype DorkResponse = DorkResponse(query: string, url: string)

  /** The five token categories, in the order the builder visits them. */
  datatype Category = FileTypes | Vulnerability | Cms | Auth | Errors

  const SearchPrefix: string := "https://www.google.com/search?q="

  /** The tokens `getCategories` offers for each category, in its order. */
  function Catalogue(c: Category): seq<string> {
    match c
    case FileTypes => FileTypeTokens
    case Vulnerability => VulnerabilityTokens
    case Cms => CmsTokens
    case Auth => AuthTokens
    case Errors => ErrorTokens
  }

  // The lists of the catalogue, one per category.
  const FileTypeTokens: seq<string> := ["pdf", "doc", "xls", "zip", "sql", "php", "asp"]
  const VulnerabilityTokens: seq<string> :=
    ["directory_listing", "exposed_config", "database_exposure", "log_files", "backup_files"]
  const CmsTokens: seq<string> := ["wordpress", "joomla", "drupal", "phpinfo"]
  const AuthTokens: seq<string> := ["login", "admin", "password", "user_list"]
  const ErrorTokens: seq<string> := ["sql_error", "server_error", "stack_trace", "debug_info"]

  // The builder's five `switch` statements as tables: each `case` label, in
  // the order written, with the search operators it appends behind one space.

  const FileTypeSwitch: seq<(string, string)> := [
    ("pdf", "filetype:pdf"),
    ("doc", "filetype:doc OR filetype:docx"),
    ("xls", "filetype:xls OR filetype:xlsx"),
    ("zip", "filetype:zip OR filetype:rar OR filetype:tar.gz"),
    ("sql", "filetype:sql"),
    ("php", "filetype:php"),
    ("asp", "filetype:asp OR filetype:aspx")]

  const VulnerabilitySwitch: seq<(string, string)> := [
    ("directory_listing", "intitle:\"index of\""),
    ("exposed_config", "intext:\"config\" OR intext:\"configuration\""),
    ("database_exposure", "intext:\"mysql\" OR intext:\"database\""),
    ("log_files", "filetype:log OR intext:\"error log\""),
    ("backup_files", "filetype:bak OR filetype:backup OR intext:\"backup\"")]

  const CmsSwitch: seq<(string, string)> := [
    ("wordpress", "intext:\"powered by wordpress\" OR intext:\"wp-content\""),
    ("joomla", "intext:\"powered by joomla\" OR intext:\"joomla\""),
    ("drupal", "intext:\"powered by drupal\" OR intext:\"drupal\""),
    ("phpinfo", "intext:\"phpinfo()\" OR intext:\"php version\"")]

  const AuthSwitch: seq<(string, string)> := [
    ("login", "intext:\"login\" OR intext:\"sign in\""),
    ("admin", "intext:\"admin\" OR intext:\"administrator\""),
    ("password", "intext:\"password\" OR intext:\"passwd\""),
    ("user_list", "intext:\"user\" OR intext:\"username\"")]

  const ErrorSwitch: seq<(string, string)> := [
    ("sql_error", "intext:\"sql error\" OR intext:\"mysql error\""),
    ("server_error", "intext:\"server error\" OR intext:\"500 error\""),
    ("stack_trace", "intext:\"stack trace\" OR intext:\"exception\""),
    ("debug_info", "intext:\"debug\" OR intext:\"development\"")]

  /** The `switch` the builder runs on the tokens of category `c`. */
  function SwitchTable(c: Category): seq<(string, string)> {
    match c
    case FileTypes => FileTypeSwitch
    case Vulnerability => VulnerabilitySwitch
    case Cms => CmsSwitch
    case Auth => AuthSwitch
    case Errors => ErrorSwitch
  }

  /**
   * A `switch` without `default`: a space and the operators of the first
   * matching label, or "" when no label matches.
   */
  function Lookup(table: seq<(string, string)>, token: string): (r: string)
    ensures r == "" || r[0] == ' '
  {
    if table == [] then ""
    else if table[0].0 == token then " " + table[0].1
    else Lookup(table[1..], token)
  }

  /** The text one `switch` appends for `token`; "" where no `case` matches. */
  function Fragment(c: Category, token: string): string {
    Lookup(SwitchTable(c), token)
  }

  /** What the keyword loop appends: ` <keyword>` for each keyword, in order. */
  function Spaced(keywords: seq<string>): string {
    if keywords == [] then ""
    else Spaced(keywords[..|keywords| - 1]) + " " + keywords[|keywords| - 1]
  }

  /** What one category's loop appends under its switch `table`: each token's text, in order. */
  function Fragments(table: seq<(string, string)>, tokens: seq<string>): string {
    if tokens == [] then ""
    else Fragments(table, tokens[..|tokens| - 1]) + Lookup(table, tokens[|tokens| - 1])
  }

  /** The value `buildDorkQuery` returns. */
  function Query(req: DorkRequest): string {
    "site:" + req.domain
      + Spaced(req.keywords)
      + Fragments(FileTypeSwitch, req.fileTypes)
      + Fragments(VulnerabilitySwitch, req.vulnerability)
      + Fragments(CmsSwitch, req.cms)
      + Fragments(AuthSwitch, req.auth)
      + Fragments(ErrorSwitch, req.errors)
  }

  /** The URL `generateDork` pairs with the query: the prefix and the query, unencoded. */
  function SearchURL(query: string): string {
    SearchPrefix + query
  }

  /** The response `generateDork` sends for a request that bound. */
  function Generate(req: DorkRequest): DorkResponse {
    var q := Query(req);
    DorkResponse(q, SearchURL(q))
  }

  /** The tokens of `c` that `req` selects. */
  function Selected(req: DorkRequest, c: Category): seq<string> {
    match c
    case FileTypes => req.fileTypes
    case Vulnerability => req.vulnerability
    case Cms => req.cms
    case Auth => req.auth
    case Errors => req.errors
  }

  // The loops of buildDorkQuery.

  /** The keyword loop: `query += " " + keyword` for each keyword. */
  method AppendKeywords(query: string, keywords: seq<string>) returns (q: string)
    ensures q == query + Spaced(keywords)
  {
    q := query;
    if |keywords| > 0 {
      for i := 0 to |keywords|
        invariant q == query + Spaced(keywords[..i])
      {
        assert keywords[..i + 1][..i] == keywords[..i];
        q := q + " " + keywords[i];
      }
      assert keywords[..|keywords|] == keywords;
    }
  }

  /** One category loop: the `switch` on each token, appending its fragment. */
  method AppendCategory(query: string, table: seq<(string, string)>, tokens: seq<string>) returns (q: string)
    ensures q == query + Fragments(table, tokens)
  {
    q := query;
    if |tokens| > 0 {
      for i := 0 to |tokens|
        invariant q == query + Fragments(table, tokens[..i])
      {
        assert tokens[..i + 1][..i] == tokens[..i];
        q := q + Lookup(table, tokens[i]);
      }
      assert tokens[..|tokens|] == tokens;
    }
  }

  /** `buildDorkQuery`: the query grows step by step, one category after another. */
  method BuildDorkQuery(req: DorkRequest) returns (query: string)
    ensures query == Query(req)
  {
    query := "site:" + req.domain;
    query := AppendKeywords(query, req.keywords);
    query := AppendCategory(query, FileTypeSwitch, req.fileTypes);
    query := AppendCategory(query, VulnerabilitySwitch, req.vulnerability);
    query := AppendCategory(query, CmsSwitch, req.cms);
    query := AppendCategory(query, AuthSwitch, req.auth);
    query := AppendCategory(query, ErrorSwitch, req.errors);
  }

  // Properties of the query.

  /**
   * The query begins with `site:<domain>` followed by the keyword section, so
   * every keyword comes before any category fragment; with every list empty
   * the query is exactly `site:<domain>`.
   */
  lemma QueryStartsWithSite(req: DorkRequest)
    ensures "site:" + req.domain <= "site:" + req.domain + Spaced(req.keywords) <= Query(req)
    ensures req.keywords == req.fileTypes == req.vulnerability == req.cms == req.auth == req.errors == [] ==>
              Query(req) == "site:" + req.domain
  {
    var head := "site:" + req.domain;
    var withKeywords := head + Spaced(req.keywords);
    var rest := Fragments(FileTypeSwitch, req.fileTypes) + Fragments(VulnerabilitySwitch, req.vulnerability)
      + Fragments(CmsSwitch, req.cms) + Fragments(AuthSwitch, req.auth) + Fragments(ErrorSwitch, req.errors);
    assert Query(req) == withKeywords + rest;
    assert withKeywords[..|head|] == head;
    assert Query(req)[..|withKeywords|] == withKeywords;
  }

  /** The keyword section is a space and then the keywords joined by single spaces. */
  lemma {:induction false} SpacedIsSpaceJoin(keywords: seq<string>)
    ensures Spaced(keywords) == if keywords == [] then "" else " " + Join(keywords, " ")
  {
    if |keywords| > 1 {
      var init := keywords[..|keywords| - 1];
      var last := keywords[|keywords| - 1];
      SpacedIsSpaceJoin(init);
      JoinSnoc(init, last, " ");
      assert init + [last] == keywords;
    } else if |keywords| == 1 {
      assert keywords[..0] == [];
    }
  }

  /** The fragments of two lists placed end to end are the two lists' fragments in order. */
  lemma {:induction false} FragmentsConcat(table: seq<(string, string)>, a: seq<string>, b: seq<string>)
    ensures Fragments(table, a + b) == Fragments(table, a) + Fragments(table, b)
  {
    if b == [] {
      assert a + b == a;
    } else {
      var init, last := b[..|b| - 1], b[|b| - 1];
      FragmentsConcat(table, a, init);
      assert (a + b)[..|a + b| - 1] == a + init;
      assert Fragments(table, a + b) == Fragments(table, a + init) + Lookup(table, last);
      assert Fragments(table, b) == Fragments(table, init) + Lookup(table, last);
    }
  }

  /** The `case` labels of a table, in order. */
  function Labels(table: seq<(string, string)>): (r: seq<string>)
    ensures |r| == |table| && forall i :: 0 <= i < |table| ==> r[i] == table[i].0
  {
    if table == [] then [] else [table[0].0] + Labels(table[1..])
  }

  /** A token gets text exactly when it is one of the table's labels. */
  lemma {:induction false} LookupFindsLabels(table: seq<(string, string)>, token: string)
    ensures token in Labels(table) <==> Lookup(table, token) != ""
  {
    if table != [] && table[0].0 != token {
      LookupFindsLabels(table[1..], token);
      assert Labels(table) == [table[0].0] + Labels(table[1..]);
    }
  }

  /** `getCategories` lists exactly the `case` labels of the builder's switches, in order. */
  lemma CatalogueIsSwitchLabels(c: Category)
    ensures Catalogue(c) == Labels(SwitchTable(c))
  {
    match c
    case FileTypes => FileTypeLabels();
    case Vulnerability => VulnerabilityLabels();
    case Cms => CmsLabels();
    case Auth => AuthLabels();
    case Errors => ErrorLabels();
  }

  lemma FileTypeLabels()
    ensures FileTypeTokens == Labels(FileTypeSwitch)
  {
    assert Labels(FileTypeSwitch)[0] == FileTypeSwitch[0].0;
  }

  lemma VulnerabilityLabels()
    ensures VulnerabilityTokens == Labels(VulnerabilitySwitch)
  {
    assert Labels(VulnerabilitySwitch)[0] == VulnerabilitySwitch[0].0;
  }

  lemma CmsLabels()
    ensures CmsTokens == Labels(CmsSwitch)
  {
    assert Labels(CmsSwitch)[0] == CmsSwitch[0].0;
  }

  lemma AuthLabels()
    ensures AuthTokens == Labels(AuthSwitch)
  {
    assert Labels(AuthSwitch)[0] == AuthSwitch[0].0;
  }

  lemma ErrorLabels()
    ensures ErrorTokens == Labels(ErrorSwitch)
  {
    assert Labels(ErrorSwitch)[0] == ErrorSwitch[0].0;
  }

  /**
   * The catalogue lines up with the `case` labels: a token has a non-empty
   * fragment exactly when `getCategories` lists it, and every fragment starts
   * with a single space.
   */
  lemma CatalogueCoverage(c: Category, token: string)
    ensures token in Catalogue(c) <==> Fragment(c, token) != ""
    ensures Fragment(c, token) != "" ==> Fragment(c, token)[0] == ' '
  {
    CatalogueIsSwitchLabels(c);
    LookupFindsLabels(SwitchTable(c), token);
  }

  /** A token the switch does not match contributes nothing, wherever it stands. */
  lemma UnmatchedTokenIgnored(table: seq<(string, string)>, before: seq<string>, token: string, after: seq<string>)
    requires Lookup(table, token) == ""
    ensures Fragments(table, before + [token] + after) == Fragments(table, before + after)
  {
    FragmentsConcat(table, before + [token], after);
    FragmentsConcat(table, before, after);
    assert (before + [token])[..|before|] == before;
  }

  /** A token outside the catalogue contributes nothing to its category, wherever it stands. */
  lemma UnknownTokenIgnored(c: Category, before: seq<string>, token: string, after: seq<string>)
    requires token !in Catalogue(c)
    ensures Fragments(SwitchTable(c), before + [token] + after) == Fragments(SwitchTable(c), before + after)
  {
    CatalogueCoverage(c, token);
    UnmatchedTokenIgnored(SwitchTable(c), before, token, after);
  }

  /** `n` copies of `s`, one after another. */
  function Repeat(s: string, n: nat): string {
    if n == 0 then "" else Repeat(s, n - 1) + s
  }

  /** A token repeated `n` times contributes its text `n` times over. */
  lemma {:induction false} RepeatedToken(table: seq<(string, string)>, token: string, n: nat)
    ensures Fragments(table, seq(n, _ => token)) == Repeat(Lookup(table, token), n)
  {
    if n > 0 {
      RepeatedToken(table, token, n - 1);
      assert seq(n, _ => token)[..n - 1] == seq(n - 1, _ => token);
    }
  }

  /** The request with one more token ticked in category `c`. */
  function WithToken(req: DorkRequest, c: Category, token: string): (r: DorkRequest)
    ensures Selected(r, c) == Selected(req, c) + [token]
    ensures forall d :: d != c ==> Selected(r, d) == Selected(req, d)
    ensures r.domain == req.domain && r.keywords == req.keywords
  {
    match c
    case FileTypes => req.(fileTypes := req.fileTypes + [token])
    case Vulnerability => req.(vulnerability := req.vulnerability + [token])
    case Cms => req.(cms := req.cms + [token])
    case Auth => req.(auth := req.auth + [token])
    case Errors => req.(errors := req.errors + [token])
  }

  /** Selecting one more catalogue token in any category makes the query strictly longer. */
  lemma CatalogueTokenLengthensQuery(req: DorkRequest, c: Category, token: string)
    requires token in Catalogue(c)
    ensures |Query(WithToken(req, c, token))| == |Query(req)| + |Fragment(c, token)| > |Query(req)|
  {
    CatalogueCoverage(c, token);
    var ts := Selected(req, c) + [token];
    assert ts[..|ts| - 1] == Selected(req, c);
  }

  /**
   * The URL is the search prefix followed by the query, character for
   * character: no percent-encoding, so a space in the query is a space in
   * the URL.
   */
  lemma UrlIsUnencoded(req: DorkRequest)
    ensures var r := Generate(req);
            && r.url[..|SearchPrefix|] == SearchPrefix
            && r.url[|SearchPrefix|..] == r.query
            && (' ' in r.query ==> ' ' in r.url)
  {
    var r := Generate(req);
    if ' ' in r.query {
      var k :| 0 <= k < |r.query| && r.query[k] == ' ';
      assert r.url[|SearchPrefix| + k] == ' ';
    }
  }
}
