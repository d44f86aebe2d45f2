/**
 * Syntax of URI references (RFC 3986): splitting a string into its five components with the
 * regular expression of Appendix B, recomposing them (section 5.3), and a predicate that stands
 * in for the JDK parser's notion of a syntactically valid reference.
 */
module UriSyntax {

  import opened Wrappers

  /** The five components of a URI reference; an absent component is None, an empty one Some(""). */
  datatype Uri = Uri(scheme: Option<string>, authority: Option<string>, path: string,
                     query: Option<string>, fragment: Option<string>)

  /** True when no character of s is one of stops. */
  predicate Excludes(s: string, stops: set<char>) {
    forall i :: 0 <= i < |s| ==> s[i] !in stops
  }

  /** Position of the first character of s that is in stops, or |s| if there is none. */
  function IndexOfAny(s: string, stops: set<char>): (k: nat)
    ensures k <= |s|
    ensures Excludes(s[..k], stops)
    ensures k < |s| ==> s[k] in stops
  {
    if s == [] || s[0] in stops then 0
    else
      var k := 1 + IndexOfAny(s[1..], stops);
      assert s[..k] == [s[0]] + s[1..][..k - 1];
      k
  }

  /** IndexOfAny is fixed by its two defining properties. */
  lemma IndexOfAnyUnique(s: string, stops: set<char>, k: nat)
    requires k <= |s| && Excludes(s[..k], stops) && (k < |s| ==> s[k] in stops)
    ensures IndexOfAny(s, stops) == k
  {
  }

  const SchemeStops: set<char> := {':', '/', '?', '#'}
  const AuthorityStops: set<char> := {'/', '?', '#'}
  const PathStops: set<char> := {'?', '#'}

  // ---------------------------------------------------------------------------------------
  // Appendix B: ^(([^:/?#]+):)?(//([^/?#]*))?([^?#]*)(\?([^#]*))?(#(.*))?
  // Each stage returns the component it matched and the rest of the string.
  // ---------------------------------------------------------------------------------------

  function SplitScheme(s: string): (r: (Option<string>, string))
    ensures r.0.Some? ==> r.0.value != [] && Excludes(r.0.value, SchemeStops) && s == r.0.value + ":" + r.1
    ensures r.0.None? ==> r.1 == s
  {
    var k := IndexOfAny(s, SchemeStops);
    if 0 < k < |s| && s[k] == ':' then
      assert s == s[..k] + ":" + s[k + 1..];
      (Some(s[..k]), s[k + 1..])
    else (None, s)
  }

  function SplitAuthority(s: string): (r: (Option<string>, string))
    ensures r.0.Some? ==> Excludes(r.0.value, AuthorityStops) && s == "//" + r.0.value + r.1
    ensures r.0.Some? ==> r.1 == [] || r.1[0] in AuthorityStops
    ensures r.0.None? ==> r.1 == s && !("//" <= s)
  {
    if "//" <= s then
      var k := 2 + IndexOfAny(s[2..], AuthorityStops);
      assert s == "//" + s[2..k] + s[k..];
      assert s[2..k] == s[2..][..k - 2];
      (Some(s[2..k]), s[k..])
    else (None, s)
  }

  function SplitPath(s: string): (r: (string, string))
    ensures Excludes(r.0, PathStops) && s == r.0 + r.1
    ensures r.1 == [] || r.1[0] in PathStops
  {
    var k := IndexOfAny(s, PathStops);
    assert s == s[..k] + s[k..];
    (s[..k], s[k..])
  }

  function SplitQuery(s: string): (r: (Option<string>, string))
    ensures r.0.Some? ==> Excludes(r.0.value, {'#'}) && s == "?" + r.0.value + r.1
    ensures r.0.None? ==> r.1 == s
    ensures s == [] || s[0] in PathStops ==> r.1 == [] || r.1[0] == '#'
  {
    if s != [] && s[0] == '?' then
      var k := 1 + IndexOfAny(s[1..], {'#'});
      assert s == "?" + s[1..k] + s[k..];
      assert s[1..k] == s[1..][..k - 1];
      (Some(s[1..k]), s[k..])
    else (None, s)
  }

  function SplitFragment(s: string): Option<string> {
    if s != [] && s[0] == '#' then Some(s[1..]) else None
  }

  /** Splits any string into the components of a URI reference; the regular expression of
      Appendix B matches every string, so this never fails. */
  function Split(s: string): Uri {
    var scheme := SplitScheme(s);
    var authority := SplitAuthority(scheme.1);
    var path := SplitPath(authority.1);
    var query := SplitQuery(path.1);
    Uri(scheme.0, authority.0, path.0, query.0, SplitFragment(query.1))
  }

  function Opt(prefix: string, c: Option<string>): string {
    if c.Some? then prefix + c.value else ""
  }

  /** Section 5.3: component recomposition. */
  function Recompose(u: Uri): string {
    (if u.scheme.Some? then u.scheme.value + ":" else "") + AfterScheme(u)
  }

  function AfterScheme(u: Uri): string {
    Opt("//", u.authority) + AfterAuthority(u)
  }

  function AfterAuthority(u: Uri): string {
    u.path + AfterPath(u)
  }

  function AfterPath(u: Uri): string {
    Opt("?", u.query) + Opt("#", u.fragment)
  }

  /** A reference is absolute when it has a scheme (java.net.URI.isAbsolute). */
  predicate IsAbsolute(s: string) {
    Split(s).scheme.Some?
  }

  /** No path can start with "//" unless an authority precedes it: the string would read the
      rest as an authority. */
  predicate StartsLikeAuthority(p: string) {
    "//" <= p
  }

  /** A scheme-less, authority-less path whose first segment has a colon would read as a scheme. */
  predicate StartsLikeScheme(p: string) {
    var k := IndexOfAny(p, {':', '/'});
    0 < k < |p| && p[k] == ':'
  }

  /** Each component is free of the delimiters that end it, and a path after an authority is
      empty or starts with '/'. */
  predicate ComponentsOk(u: Uri) {
    && (u.scheme.Some? ==> u.scheme.value != [] && Excludes(u.scheme.value, SchemeStops))
    && (u.authority.Some? ==> Excludes(u.authority.value, AuthorityStops))
    && (u.authority.Some? ==> u.path == [] || u.path[0] == '/')
    && Excludes(u.path, PathStops)
    && (u.query.Some? ==> Excludes(u.query.value, {'#'}))
  }

  /** The components Split can produce: exactly the records that recompose and split back. */
  predicate WellFormed(u: Uri) {
    && ComponentsOk(u)
    && (u.authority.None? ==> !StartsLikeAuthority(u.path))
    && (u.scheme.None? && u.authority.None? ==> !StartsLikeScheme(u.path))
  }

  // ---------------------------------------------------------------------------------------
  // Round trips
  // ---------------------------------------------------------------------------------------

  /** The query and fragment stages give back what they consumed. */
  lemma QueryTailRecompose(c: string)
    requires c == [] || c[0] in PathStops
    ensures Opt("?", SplitQuery(c).0) + Opt("#", SplitFragment(SplitQuery(c).1)) == c
  {
    var d := SplitQuery(c);
    if d.0.Some? {
      assert d.1 == [] || d.1[0] == '#';
      assert Opt("#", SplitFragment(d.1)) == d.1;
    } else if c != [] {
      assert c[0] == '#' && d.1 == c;
      assert c == "#" + c[1..];
    }
  }

  /** Splitting loses nothing: recomposing the components gives back the string. */
  lemma {:induction false} RecomposeSplit(s: string)
    ensures Recompose(Split(s)) == s
  {
    var a := SplitScheme(s);
    var b := SplitAuthority(a.1);
    var c := SplitPath(b.1);
    var u := Split(s);
    QueryTailRecompose(c.1);
    assert AfterPath(u) == c.1;
    assert AfterAuthority(u) == b.1;
    assert AfterScheme(u) == a.1;
  }

  /** Everything Split produces is well formed. */
  lemma {:induction false} SplitWellFormed(s: string)
    ensures WellFormed(Split(s))
  {
    var scheme, a := SplitScheme(s).0, SplitScheme(s).1;
    var authority, b := SplitAuthority(a).0, SplitAuthority(a).1;
    var path, c := SplitPath(b).0, SplitPath(b).1;
    if authority.Some? && path != [] {
      assert b[0] == path[0];
    }
    if scheme.None? && authority.None? && StartsLikeScheme(path) {
      var k := IndexOfAny(path, {':', '/'});
      var j := IndexOfAny(s, SchemeStops);
      assert s == path + c;
      assert path[..k] == s[..k];
      IndexOfAnyUnique(s, SchemeStops, k);
    }
  }

  lemma IndexOfAnyConcat(a: string, b: string, stops: set<char>)
    requires Excludes(a, stops)
    ensures IndexOfAny(a + b, stops) == |a| + IndexOfAny(b, stops)
  {
    var k := |a| + IndexOfAny(b, stops);
    var s := a + b;
    assert s[..k] == a + b[..IndexOfAny(b, stops)];
    IndexOfAnyUnique(s, stops, k);
  }

  lemma QueryStageSome(q: string, f: string)
    requires Excludes(q, {'#'}) && (f == [] || f[0] == '#')
    ensures SplitQuery("?" + q + f) == (Some(q), f)
  {
    var c := "?" + q + f;
    assert c[1..] == q + f;
    IndexOfAnyConcat(q, f, {'#'});
    assert c[1..1 + |q|] == q && c[1 + |q|..] == f;
  }

  lemma QueryStage(u: Uri)
    requires u.query.Some? ==> Excludes(u.query.value, {'#'})
    ensures SplitQuery(AfterPath(u)) == (u.query, Opt("#", u.fragment))
  {
    var f := Opt("#", u.fragment);
    if u.query.Some? {
      QueryStageSome(u.query.value, f);
    } else if u.fragment.Some? {
      assert AfterPath(u) == "#" + u.fragment.value;
    }
  }

  lemma PathStage(u: Uri)
    requires Excludes(u.path, PathStops)
    ensures SplitPath(AfterAuthority(u)) == (u.path, AfterPath(u))
  {
    var c := AfterPath(u);
    var b := AfterAuthority(u);
    IndexOfAnyConcat(u.path, c, PathStops);
    assert IndexOfAny(c, PathStops) == 0;
    assert b[..|u.path|] == u.path && b[|u.path|..] == c;
  }

  lemma AuthorityStageSome(auth: string, b: string)
    requires Excludes(auth, AuthorityStops) && (b == [] || b[0] in AuthorityStops)
    ensures SplitAuthority("//" + auth + b) == (Some(auth), b)
  {
    var a := "//" + auth + b;
    assert a[2..] == auth + b;
    IndexOfAnyConcat(auth, b, AuthorityStops);
    assert IndexOfAny(b, AuthorityStops) == 0;
    assert a[2..2 + |auth|] == auth && a[2 + |auth|..] == b;
  }

  /** What follows an authority starts with one of its delimiters, when the path is rooted. */
  lemma AfterAuthorityStart(u: Uri)
    requires u.path == [] || u.path[0] == '/'
    ensures AfterAuthority(u) == [] || AfterAuthority(u)[0] in AuthorityStops
  {
    if u.path == [] && AfterPath(u) != [] {
      assert AfterAuthority(u)[0] == AfterPath(u)[0];
    }
  }

  lemma NoAuthorityStart(u: Uri)
    requires !StartsLikeAuthority(u.path)
    ensures !("//" <= AfterAuthority(u))
  {
    var b := AfterAuthority(u);
    if |u.path| >= 2 {
      assert b[..2] == u.path[..2];
    } else if AfterPath(u) != [] {
      assert b[|u.path|] == AfterPath(u)[0];
    }
  }

  lemma AuthorityStage(u: Uri)
    requires WellFormed(u)
    ensures SplitAuthority(AfterScheme(u)) == (u.authority, AfterAuthority(u))
  {
    if u.authority.Some? {
      AfterAuthorityStart(u);
      AuthorityStageSome(u.authority.value, AfterAuthority(u));
      assert AfterScheme(u) == "//" + u.authority.value + AfterAuthority(u);
    } else {
      assert AfterScheme(u) == AfterAuthority(u);
      NoAuthorityStart(u);
    }
  }

  lemma SchemeStageSome(sch: string, a: string)
    requires sch != [] && Excludes(sch, SchemeStops)
    ensures SplitScheme(sch + ":" + a) == (Some(sch), a)
  {
    var s := sch + ":" + a;
    IndexOfAnyConcat(sch, ":" + a, SchemeStops);
    assert s == sch + (":" + a);
    assert s[..|sch|] == sch && s[|sch| + 1..] == a;
  }

  lemma SchemeStage(u: Uri)
    requires WellFormed(u)
    ensures SplitScheme(Recompose(u)) == (u.scheme, AfterScheme(u))
  {
    if u.scheme.Some? {
      SchemeStageSome(u.scheme.value, AfterScheme(u));
    } else if u.authority.Some? {
      assert Recompose(u)[0] == '/';
    } else {
      assert Recompose(u) == AfterScheme(u) == u.path + AfterPath(u);
      assert AfterPath(u) == [] || AfterPath(u)[0] in PathStops;
      NoSchemeInPath(u.path, AfterPath(u));
    }
  }

  /** A path that does not start like a scheme, followed by a query or fragment, has none. */
  lemma NoSchemeInPath(p: string, rest: string)
    requires !StartsLikeScheme(p) && Excludes(p, PathStops)
    requires rest == [] || rest[0] in PathStops
    ensures SplitScheme(p + rest) == (None, p + rest)
  {
    var s := p + rest;
    var k := IndexOfAny(s, SchemeStops);
    if 0 < k < |s| && s[k] == ':' {
      if k < |p| {
        assert s[..k] == p[..k];
        IndexOfAnyUnique(p, {':', '/'}, k);
      } else {
        assert s[|p|] == rest[0];
      }
    }
  }

  /** A well-formed record survives recomposition: Split is the inverse of Recompose on it. */
  lemma {:induction false} SplitRecompose(u: Uri)
    requires WellFormed(u)
    ensures Split(Recompose(u)) == u
  {
    SchemeStage(u);
    AuthorityStage(u);
    PathStage(u);
    QueryStage(u);
  }

  // ---------------------------------------------------------------------------------------
  // Syntactic validity
  // ---------------------------------------------------------------------------------------

  predicate IsAlpha(c: char) { 'a' <= c <= 'z' || 'A' <= c <= 'Z' }
  predicate IsDigit(c: char) { '0' <= c <= '9' }
  predicate IsHexDigit(c: char) { IsDigit(c) || 'a' <= c <= 'f' || 'A' <= c <= 'F' }

  /** scheme = ALPHA *( ALPHA / DIGIT / "+" / "-" / "." ) (RFC 3986 section 3.1) */
  predicate IsSchemeName(s: string) {
    && s != []
    && IsAlpha(s[0])
    && forall i :: 1 <= i < |s| ==> IsAlpha(s[i]) || IsDigit(s[i]) || s[i] in {'+', '-', '.'}
  }

  /** Characters a reference may never contain: controls, spaces (including the no-break space),
      and the characters RFC 3986 leaves out of every production, among them the backslash. */
  predicate IsIllegalChar(c: char) {
    c <= ' ' || '\U{7F}' <= c <= '\U{A0}' || c in {'"', '<', '>', '\\', '^', '`', '{', '|', '}'}
  }

  /** Every '%' starts an escape of two hexadecimal digits. */
  predicate EscapesWellFormed(s: string) {
    forall i :: 0 <= i < |s| && s[i] == '%' ==> i + 2 < |s| && IsHexDigit(s[i + 1]) && IsHexDigit(s[i + 2])
  }

  /** A colon that ends the leading run of non-delimiters introduces a scheme, which must be a
      scheme name followed by a non-empty scheme-specific part. */
  predicate SchemeWellFormed(s: string) {
    var k := IndexOfAny(s, SchemeStops);
    k < |s| && s[k] == ':' ==> IsSchemeName(s[..k]) && k + 1 < |s| && s[k + 1] != '#'
  }

  /** "//" opens an authority, which may be empty only when a path, a query or a fragment
      follows it: "http://" and "//" alone are rejected. */
  predicate AuthorityWellFormed(s: string) {
    var u := Split(s);
    u.authority == Some("") ==> AfterAuthority(u) != []
  }

  /** Approximates the JDK's URI parser on the grammar modelled here: true when parsing s
      succeeds (no URISyntaxException). */
  predicate IsUriReference(s: string) {
    CharsLegal(s) && EscapesWellFormed(s) && AtMostOneHash(s) && SchemeWellFormed(s)
    && AuthorityWellFormed(s)
  }

  /** The only strings with an empty authority and nothing after it are "//" and "scheme://". */
  lemma EmptyAuthorityAlone(s: string)
    ensures !AuthorityWellFormed(s) && Split(s).scheme.None? ==> s == "//"
    ensures !AuthorityWellFormed(s) && Split(s).scheme.Some? ==> s == Split(s).scheme.value + "://"
  {
    var u := Split(s);
    RecomposeSplit(s);
    if !AuthorityWellFormed(s) {
      assert AfterScheme(u) == "//";
    }
  }

  predicate CharsLegal(s: string) {
    forall i :: 0 <= i < |s| ==> !IsIllegalChar(s[i])
  }

  /** The fragment may not contain a second '#'. */
  predicate AtMostOneHash(s: string) {
    forall i, j :: 0 <= i < j < |s| && s[i] == '#' ==> s[j] != '#'
  }

  /** Dropping leading characters keeps the character-level conditions. */
  lemma SuffixCharLevel(s: string, n: nat)
    requires n <= |s| && CharsLegal(s) && EscapesWellFormed(s) && AtMostOneHash(s)
    ensures CharsLegal(s[n..]) && EscapesWellFormed(s[n..]) && AtMostOneHash(s[n..])
  {
    var t := s[n..];
    assert forall i :: 0 <= i < |t| ==> t[i] == s[i + n];
  }

  /** A valid reference that is absolute has a scheme name and something after the colon. */
  lemma AbsoluteReferenceHasScheme(s: string)
    requires IsUriReference(s) && IsAbsolute(s)
    ensures IsSchemeName(Split(s).scheme.value)
  {
  }

  /** Text with only legal characters and neither '%' nor '#'. */
  predicate Plain(s: string) {
    CharsLegal(s) && Excludes(s, {'%', '#'})
  }

  lemma PlainConcat(a: string, b: string)
    requires Plain(a) && Plain(b)
    ensures Plain(a + b)
  {
    var s := a + b;
    assert forall i :: 0 <= i < |s| ==> s[i] == if i < |a| then a[i] else b[i - |a|];
  }

  lemma PlainCharLevel(s: string)
    requires Plain(s)
    ensures CharsLegal(s) && EscapesWellFormed(s) && AtMostOneHash(s)
  {
  }

  lemma SchemeNamePlain(s: string)
    requires IsSchemeName(s)
    ensures Plain(s) && Excludes(s, SchemeStops)
  {
  }

  /** The part after "scheme:" of a hierarchical reference built from plain components. */
  lemma {:induction false} PlainAfterScheme(u: Uri)
    requires u.authority.Some? && Plain(u.authority.value) && Plain(u.path)
    requires u.query.Some? ==> Plain(u.query.value)
    requires u.fragment.None?
    ensures Plain(AfterScheme(u)) && "//" <= AfterScheme(u)
  {
    var q := if u.query.Some? then "?" + u.query.value else "";
    if u.query.Some? {
      assert Plain("?");
      PlainConcat("?", u.query.value);
    }
    assert Plain("//");
    PlainConcat(u.path, q);
    assert AfterAuthority(u) == u.path + q;
    PlainConcat(u.authority.value, u.path + q);
    PlainConcat("//", u.authority.value + (u.path + q));
    assert AfterScheme(u) == "//" + (u.authority.value + (u.path + q));
  }

  /** "scheme://host" with a non-empty host, followed by a path that starts with '/' or is empty,
      and an optional query, is a valid absolute reference that splits into exactly those components. */
  lemma {:induction false} HierarchicalReference(u: Uri)
    requires u.scheme.Some? && IsSchemeName(u.scheme.value)
    requires u.authority.Some? && u.authority.value != []
    requires Plain(u.authority.value) && Excludes(u.authority.value, AuthorityStops)
    requires Plain(u.path) && Excludes(u.path, PathStops) && (u.path == [] || u.path[0] == '/')
    requires u.query.Some? ==> Plain(u.query.value)
    requires u.fragment.None?
    ensures IsUriReference(Recompose(u)) && IsAbsolute(Recompose(u)) && Split(Recompose(u)) == u
  {
    SchemeNamePlain(u.scheme.value);
    assert WellFormed(u);
    SplitRecompose(u);
    HierarchicalCharLevel(u);
  }

  lemma {:induction false} HierarchicalCharLevel(u: Uri)
    requires u.scheme.Some? && IsSchemeName(u.scheme.value)
    requires u.authority.Some? && Plain(u.authority.value)
    requires Plain(u.path) && (u.query.Some? ==> Plain(u.query.value)) && u.fragment.None?
    ensures var s := Recompose(u);
      CharsLegal(s) && EscapesWellFormed(s) && AtMostOneHash(s) && SchemeWellFormed(s)
  {
    var sch := u.scheme.value;
    var a := AfterScheme(u);
    var s := Recompose(u);
    SchemeNamePlain(sch);
    PlainAfterScheme(u);
    assert Plain(":");
    PlainConcat(":", a);
    PlainConcat(sch, ":" + a);
    assert s == sch + (":" + a);
    PlainCharLevel(s);
    IndexOfAnyConcat(sch, ":" + a, SchemeStops);
    assert s[..|sch|] == sch;
    assert s[|sch| + 1] == a[0] == '/';
  }

  /** A relative reference made of one segment of plain text with no delimiter. */
  lemma {:induction false} SegmentReference(seg: string)
    requires Plain(seg) && Excludes(seg, SchemeStops)
    ensures IsUriReference(seg) && !IsAbsolute(seg)
    ensures Split(seg) == Uri(None, None, seg, None, None)
  {
    var u := Uri(None, None, seg, None, None);
    IndexOfAnyUnique(seg, {':', '/'}, |seg|);
    IndexOfAnyUnique(seg, SchemeStops, |seg|);
    assert Recompose(u) == seg;
    SplitRecompose(u);
  }
}
