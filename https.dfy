/**
 * The HTTPS-upgrade rule for a rendered service URL. The scheme test uses
 * the parsed scheme (lower-cased, as section 3.1 of RFC 3986 makes schemes
 * case-insensitive); the rewrite is a plain text substitution of the first
 * "http" anywhere in the string.
 */
module Https {
  import opened Wrappers

  /** The URL parser's view of a string: its lower-cased scheme, or None when it does not parse. */
  type SchemeParser = string -> Option<string>

  /** `pat` occurs in `s` starting at index `j`. */
  predicate OccursAt(s: string, pat: string, j: int)
  {
    0 <= j && j + |pat| <= |s| && s[j..j + |pat|] == pat
  }

  /** The first index at or after `from` where `pat` occurs in `s`. */
  function IndexFrom(s: string, pat: string, from: nat): (r: Option<nat>)
    requires from <= |s|
    ensures r.Some? ==> from <= r.value && OccursAt(s, pat, r.value)
                        && forall j :: from <= j < r.value ==> !OccursAt(s, pat, j)
    ensures r.None? ==> forall j :: from <= j <= |s| ==> !OccursAt(s, pat, j)
    decreases |s| - from
  {
    if OccursAt(s, pat, from) then Some(from)
    else if from == |s| then None
    else IndexFrom(s, pat, from + 1)
  }

  /** `strings.Index`: the first occurrence of `pat` in `s`. */
  function Index(s: string, pat: string): Option<nat>
  {
    IndexFrom(s, pat, 0)
  }

  /** `strings.Replace(s, from, to, 1)`: replace the first occurrence of `from`, if any. */
  function ReplaceFirst(s: string, from: string, to: string): string
  {
    match Index(s, from)
    case None => s
    case Some(i) => s[..i] + to + s[i + |from|..]
  }

  /** The URL parses and its scheme is plain HTTP. */
  predicate IsHTTPSchemed(bare: string, schemeOf: SchemeParser)
  {
    schemeOf(bare) == Some("http")
  }

  /**
   * `OptionallyHTTPSFormattedURLString`: the (possibly rewritten) URL, and
   * whether the original URL's scheme is plain HTTP.
   */
  function OptionallyHTTPSFormattedURLString(bare: string, https: bool, schemeOf: SchemeParser): (r: (string, bool))
    ensures r.1 == IsHTTPSchemed(bare, schemeOf)
    ensures !(https && r.1) ==> r.0 == bare
    ensures https && r.1 && Index(bare, "http").None? ==> r.0 == bare
    ensures https && r.1 && Index(bare, "http").Some? ==>
      var i := Index(bare, "http").value;
      && r.0 == bare[..i] + "https" + bare[i + 4..]
      && forall j :: 0 <= j < i ==> !OccursAt(bare, "http", j)
  {
    var isHTTPSchemedURL := IsHTTPSchemed(bare, schemeOf);
    var formatted := if isHTTPSchemedURL && https then ReplaceFirst(bare, "http", "https") else bare;
    (formatted, isHTTPSchemedURL)
  }

  /**
   * The rewrite only inserts an "s" after the first "http": the result is one
   * character longer, reads "https" where the first "http" stood, and
   * dropping that "s" gives back the original URL.
   */
  lemma UpgradeInsertsOneS(bare: string, schemeOf: SchemeParser)
    requires IsHTTPSchemed(bare, schemeOf) && Index(bare, "http").Some?
    ensures var r := OptionallyHTTPSFormattedURLString(bare, true, schemeOf).0;
      var i := Index(bare, "http").value;
      && |r| == |bare| + 1
      && OccursAt(r, "https", i)
      && r[..i + 4] + r[i + 5..] == bare
  {
    var r := OptionallyHTTPSFormattedURLString(bare, true, schemeOf).0;
    var i := Index(bare, "http").value;
    assert bare[i..i + 4] == "http";
    assert r[..i + 4] == bare[..i + 4];
    assert r[i + 5..] == bare[i + 4..];
    assert bare[..i + 4] + bare[i + 4..] == bare;
  }

  /** The documented example: "http://10.0.0.1:3000" upgrades to "https://10.0.0.1:3000". */
  lemma UpgradeExample(schemeOf: SchemeParser)
    requires schemeOf("http://10.0.0.1:3000") == Some("http")
    ensures OptionallyHTTPSFormattedURLString("http://10.0.0.1:3000", true, schemeOf) == ("https://10.0.0.1:3000", true)
    ensures OptionallyHTTPSFormattedURLString("http://10.0.0.1:3000", false, schemeOf) == ("http://10.0.0.1:3000", true)
  {
    var s := "http://10.0.0.1:3000";
    assert OccursAt(s, "http", 0);
    assert Index(s, "http") == Some(0);
    assert s[..0] + "https" + s[4..] == "https://10.0.0.1:3000";
  }

  /**
   * An upper-case scheme is HTTP to the parser, but the literal substitution
   * looks for lower-case "http" and so leaves such a URL as it was.
   */
  lemma UpperCaseSchemeNotRewritten(schemeOf: SchemeParser)
    requires schemeOf("HTTP://x") == Some("http")
    ensures OptionallyHTTPSFormattedURLString("HTTP://x", true, schemeOf) == ("HTTP://x", true)
  {
    var s := "HTTP://x";
    forall j | 0 <= j <= |s| ensures !OccursAt(s, "http", j) {
      if j + 4 <= |s| {
        assert s[j] != 'h';
        assert s[j..j + 4][0] == s[j];
      }
    }
    assert Index(s, "http").None?;
  }

  /**
   * The substitution is textual: with an upper-case scheme, an "http" later
   * in the host name is the one rewritten.
   */
  lemma HostNameRewritten(schemeOf: SchemeParser)
    requires schemeOf("HTTP://http-svc") == Some("http")
    ensures OptionallyHTTPSFormattedURLString("HTTP://http-svc", true, schemeOf).0 == "HTTP://https-svc"
  {
    var s := "HTTP://http-svc";
    assert OccursAt(s, "http", 7);
    forall j | 0 <= j < 7 ensures !OccursAt(s, "http", j) {
      assert s[j] != 'h';
    }
    assert Index(s, "http") == Some(7);
  }
}
