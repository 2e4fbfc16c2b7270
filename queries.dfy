/** The `--filter dimension:expression` option of the queries and pages commands. */
module Queries {
  import opened Common
  import opened Strings
  import SearchAnalytics

  datatype FilterError =
    | InvalidFormat(input: string)        // "invalid filter format: ... (expected dimension:expression)"
    | InvalidDimension(dimension: string) // "invalid dimension: ... (valid: query, page, country, device)"

  /** The dimensions a filter may name. */
  predicate ValidDimension(d: string) {
    d == "query" || d == "page" || d == "country" || d == "device"
  }

  /** Glob to regular expression: every `*` becomes `.*`. */
  function GlobToRegex(e: string): (r: string)
    ensures '*' !in e ==> r == e
    ensures |r| >= |e|
  {
    ReplaceAll(e, '*', ".*")
  }

  /** `parseFilter`: splits at the first colon, lower-cases and validates the dimension, and turns an
      expression holding `*` into an `includingRegex` pattern; any other expression, the empty one
      included, is matched with `equals`. */
  function ParseFilter(s: string): (r: Result<SearchAnalytics.Filter, FilterError>)
    ensures ':' !in s <==> r == Failure(InvalidFormat(s))
    ensures r.Success? ==> ValidDimension(r.value.dimension)
    ensures r.Success? ==> (r.value.operator == "equals" || r.value.operator == "includingRegex")
  {
    var i := IndexOf(s, ":");
    if i < 0 then
      assert ':' !in s by {
        forall j | 0 <= j < |s| ensures s[j] != ':' {
          OccursAtChar(s, ':', j);
        }
      }
      Failure(InvalidFormat(s))
    else
      OccursAtChar(s, ':', i);
      var dimension := ToLower(s[..i]);
      var expression := s[i + 1..];
      if !ValidDimension(dimension) then Failure(InvalidDimension(dimension))
      else if '*' in expression then
        Success(SearchAnalytics.Filter(dimension, "includingRegex", GlobToRegex(expression)))
      else
        Success(SearchAnalytics.Filter(dimension, "equals", expression))
  }

  /** Only the first colon splits: for a dimension part `d` without a colon, whatever the expression
      `e` holds (colons included), the filter is decided by `d` lower-cased and by `e` alone. */
  lemma ParseFilterSplitsAtFirstColon(d: string, e: string)
    requires ':' !in d
    ensures var dim := ToLower(d);
            ParseFilter(d + ":" + e) ==
              if !ValidDimension(dim) then Failure(InvalidDimension(dim))
              else if '*' in e then Success(SearchAnalytics.Filter(dim, "includingRegex", GlobToRegex(e)))
              else Success(SearchAnalytics.Filter(dim, "equals", e))
  {
    var s := d + ":" + e;
    OccursAtChar(s, ':', |d|);
    forall j | 0 <= j < |d| ensures !OccursAt(s, ":", j) {
      OccursAtChar(s, ':', j);
      assert s[j] == d[j];
    }
    IndexOfIsFirst(s, ":", |d|);
    assert s[..|d|] == d;
    assert s[|d| + 1..] == e;
  }

  /** Any spelling of a valid dimension in upper or lower case is accepted and reported lower-cased;
      a spelling of `date`, a dimension of the API, is refused. */
  lemma ParseFilterIgnoresCase(d: string, e: string)
    requires ':' !in d
    ensures ValidDimension(ToLower(d)) ==>
              ParseFilter(d + ":" + e).Success? && ParseFilter(d + ":" + e).value.dimension == ToLower(d)
    ensures ToLower(d) == "date" ==> ParseFilter(d + ":" + e) == Failure(InvalidDimension("date"))
  {
    ParseFilterSplitsAtFirstColon(d, e);
  }

  /** Regular expression back to glob: every `.*` becomes `*`. */
  function RegexToGlob(r: string): string {
    if r == [] then []
    else if |r| >= 2 && r[0] == '.' && r[1] == '*' then "*" + RegexToGlob(r[2..])
    else [r[0]] + RegexToGlob(r[1..])
  }

  /** A converted glob never starts with `*`. */
  lemma {:induction false} GlobToRegexNoLeadingStar(e: string)
    ensures GlobToRegex(e) == [] || GlobToRegex(e)[0] != '*'
  {
  }

  /** The conversion changes nothing but the stars: reading every `.*` back as `*` restores the glob. */
  lemma {:induction false} GlobRoundTrip(e: string)
    ensures RegexToGlob(GlobToRegex(e)) == e
  {
    if e != [] {
      var rest := GlobToRegex(e[1..]);
      assert GlobToRegex(e) == (if e[0] == '*' then ".*" else [e[0]]) + rest;
      GlobRoundTrip(e[1..]);
      if e[0] == '*' {
        assert (".*" + rest)[2..] == rest;
      } else {
        GlobToRegexNoLeadingStar(e[1..]);
        assert ([e[0]] + rest)[1..] == rest;
      }
    }
  }

  /** Every `*` of a converted glob is preceded by a `.`, so the pattern never repeats anything but
      "any character". */
  lemma {:induction false} GlobToRegexStarsFollowDots(e: string)
    ensures var r := GlobToRegex(e);
            forall i :: 0 <= i < |r| && r[i] == '*' ==> i > 0 && r[i - 1] == '.'
  {
    if e != [] {
      GlobToRegexStarsFollowDots(e[1..]);
      GlobToRegexNoLeadingStar(e[1..]);
      var rest := GlobToRegex(e[1..]);
      var head := if e[0] == '*' then ".*" else [e[0]];
      assert GlobToRegex(e) == head + rest;
      forall i | 0 <= i < |head + rest| && (head + rest)[i] == '*' ensures i > 0 && (head + rest)[i - 1] == '.' {
        if i >= |head| {
          assert (head + rest)[i] == rest[i - |head|];
        }
      }
    }
  }
}
