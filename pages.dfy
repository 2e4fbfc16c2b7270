/** How the pages command shows a page URL: `formatPageURL` for the table and `stripDomain` for
    matching pages against a query. URL parsing itself (`url.Parse`) is not modelled: its outcome, the
    path and raw query string or an error, is a parameter. */
module Pages {
  import opened Common
  import opened Strings
  import Table

  /** The parts of a parsed URL that `formatPageURL` reads. */
  datatype UrlParts = UrlParts(path: string, rawQuery: string)

  /** The widest a page URL is shown. */
  const MaxPageLength: int := 60

  /** The path, "/" for an empty one, followed by `?` and the raw query when there is one. */
  function PathAndQuery(p: UrlParts): string {
    var path := if p.path == "" then "/" else p.path;
    if p.rawQuery != "" then path + "?" + p.rawQuery else path
  }

  /** `formatPageURL`: an unparsable URL is shortened as a whole; otherwise its path and query are
      shown, cut to 57 characters and "..." when longer than 60. */
  function FormatPageURL(fullURL: string, parsed: Result<UrlParts, string>): (r: string)
    ensures parsed.Failure? ==> r == Table.TruncateString(fullURL, MaxPageLength)
    ensures |r| <= MaxPageLength
    ensures parsed.Success? && |PathAndQuery(parsed.value)| <= MaxPageLength ==> r == PathAndQuery(parsed.value)
    ensures parsed.Success? && |PathAndQuery(parsed.value)| > MaxPageLength ==>
              |r| == MaxPageLength && r == PathAndQuery(parsed.value)[..57] + "..."
  {
    match parsed
    case Failure(_) => Table.TruncateString(fullURL, MaxPageLength)
    case Success(p) =>
      var path := PathAndQuery(p);
      if |path| > MaxPageLength then path[..57] + "..." else path
  }

  /** The shown path is never empty, begins with the parsed path ("/" for an empty one), and carries
      `?` and the raw query exactly when the raw query is not empty. */
  lemma PathAndQueryParts(p: UrlParts)
    ensures var base := if p.path == "" then "/" else p.path;
            var c := PathAndQuery(p);
            |c| >= 1 && |base| <= |c| && c[..|base|] == base &&
            (p.rawQuery == "" ==> c == base) &&
            (p.rawQuery != "" ==> c[|base|] == '?' && c[|base| + 1..] == p.rawQuery)
  {
    var base := if p.path == "" then "/" else p.path;
    if p.rawQuery != "" {
      var c := base + "?" + p.rawQuery;
      assert c[..|base|] == base;
      assert c[|base| + 1..] == p.rawQuery;
    }
  }

  /** A parsed URL is shortened exactly as `TruncateString` shortens its path and query to 60. */
  lemma FormatPageURLIsTruncation(fullURL: string, p: UrlParts)
    ensures FormatPageURL(fullURL, Success(p)) == Table.TruncateString(PathAndQuery(p), MaxPageLength)
  {
  }

  /** `stripDomain`: a URL without "://" is kept; otherwise everything up to the first "/" after the
      scheme separator is dropped, and "/" stands for a URL with no path at all. */
  function StripDomain(u: string): (r: string)
    ensures IndexOf(u, "://") == -1 ==> r == u
    ensures IndexOf(u, "://") >= 0 ==> |r| >= 1 && r[0] == '/'
    ensures IndexOf(u, "://") >= 0 ==> r == "/" || (|r| <= |u| && r == u[|u| - |r|..])
  {
    var i := IndexOf(u, "://");
    if i == -1 then u
    else
      var rest := u[i + 3..];
      var j := IndexOf(rest, "/");
      if j == -1 then "/"
      else
        OccursAtChar(rest, '/', j);
        assert rest[j..] == u[i + 3 + j..];
        rest[j..]
  }

  /** For a URL `scheme://host path` in which "://" first occurs after the scheme, whose host has no
      slash and whose path is empty or starts with a slash, the domain is stripped down to exactly the
      path ("/" if empty). */
  lemma StripDomainKeepsPath(scheme: string, host: string, path: string)
    requires forall j :: 0 <= j < |scheme| ==> !OccursAt(scheme + "://" + host + path, "://", j)
    requires '/' !in host
    requires path == [] || path[0] == '/'
    ensures StripDomain(scheme + "://" + host + path) == if path == [] then "/" else path
  {
    var u := scheme + "://" + host + path;
    assert u[|scheme|..|scheme| + 3] == "://";
    IndexOfIsFirst(u, "://", |scheme|);
    var rest := u[|scheme| + 3..];
    assert rest == host + path;
    forall j | 0 <= j < |host| ensures !OccursAt(rest, "/", j) {
      OccursAtChar(rest, '/', j);
      assert rest[j] == host[j];
    }
    if path == [] {
      forall j ensures !OccursAt(rest, "/", j) {
        OccursAtChar(rest, '/', j);
      }
    } else {
      OccursAtChar(rest, '/', |host|);
      IndexOfIsFirst(rest, "/", |host|);
      assert rest[|host|..] == path;
    }
  }
}
