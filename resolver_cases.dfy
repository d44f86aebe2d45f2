/**
 * The link shapes met on crawled pages, stated for any scheme, host and segment, and then for
 * the concrete URLs of the joiner's unit tests.
 */
module ResolverCases {

  import opened Wrappers
  import opened UriSyntax
  import opened DotSegments
  import opened UriResolution
  import opened UrlResolver
  import opened JoinerLiterals

  /** A host name: non-empty plain text with none of '/', '?', '#'. */
  predicate Host(host: string) {
    host != [] && Plain(host) && Excludes(host, AuthorityStops)
  }

  /** One path segment that is not a dot segment and holds no delimiter. */
  predicate Segment(seg: string) {
    seg != [] && seg[0] != '.' && Plain(seg) && Excludes(seg, SchemeStops)
  }

  lemma SegmentNormal(seg: string)
    requires Segment(seg)
    ensures DotFree(seg) && DotFree("/" + seg)
  {
    IndexOfAnyUnique(seg, {'/'}, |seg|);
    IndexOfAnyUnique(("/" + seg)[1..], {'/'}, |seg|);
    DotFreeAppend([], seg);
    DotFreeAppend([], "/" + seg);
  }

  /** "scheme://host" + path with no query and no fragment, as a string. */
  lemma SiteRecompose(sch: string, host: string, path: string)
    ensures Recompose(Uri(Some(sch), Some(host), path, None, None)) == sch + "://" + host + path
  {
    var u := Uri(Some(sch), Some(host), path, None, None);
    assert AfterAuthority(u) == path;
    assert AfterScheme(u) == "//" + host + path;
  }

  /** The base "scheme://host" + path, parsed, for the paths "" and "/". */
  lemma SiteBase(sch: string, host: string, path: string)
    requires IsSchemeName(sch) && Host(host)
    requires path == [] || path == "/"
    ensures IsUriReference(sch + "://" + host + path) && IsAbsolute(sch + "://" + host + path)
    ensures BaseUri(sch + "://" + host + path) == Uri(Some(sch), Some(host), path, None, None)
  {
    var u := Uri(Some(sch), Some(host), path, None, None);
    var b := sch + "://" + host + path;
    PathNormal(path);
    SiteRecompose(sch, host, path);
    HierarchicalReference(u);
    assert Split(b) == u;
  }

  lemma PathNormal(path: string)
    requires path == [] || path == "/"
    ensures Plain(path) && Excludes(path, PathStops) && RemoveDotSegments(path) == path
  {
    RootPathNormal();
  }

  /** A segment written bare, rooted or behind "..", joined with a base that has no path,
      lands right under the root of the base's host. */
  lemma {:induction false} SegmentOnSite(sch: string, host: string, seg: string)
    requires IsSchemeName(sch) && Host(host) && Segment(seg)
    ensures GetDestinationUrl(Some(sch + "://" + host), Some(seg)) == Some(sch + "://" + host + "/" + seg)
  {
    var site := sch + "://" + host;
    var b := OnSite(sch, host, seg);
    SegmentReference(seg);
    assert seg[0] != '.' && seg[0] != '#';
    PathBaseResolvesTargetAsIs(site, seg);
    assert ResolvedAgainst(b, seg) == site + "/" + seg;
  }

  lemma {:induction false} RootedSegmentOnSite(sch: string, host: string, seg: string)
    requires IsSchemeName(sch) && Host(host) && Segment(seg)
    ensures GetDestinationUrl(Some(sch + "://" + host), Some("/" + seg)) == Some(sch + "://" + host + "/" + seg)
  {
    var site := sch + "://" + host;
    var b := OnSite(sch, host, seg);
    RootedSegmentReference(seg);
    assert ("/" + seg)[0] == '/';
    PathBaseResolvesTargetAsIs(site, "/" + seg);
    assert ResolvedAgainst(b, "/" + seg) == site + "/" + seg;
  }

  lemma {:induction false} DotDotSegmentOnSite(sch: string, host: string, seg: string)
    requires IsSchemeName(sch) && Host(host) && Segment(seg)
    ensures GetDestinationUrl(Some(sch + "://" + host), Some("../" + seg)) == Some(sch + "://" + host + "/" + seg)
  {
    var site := sch + "://" + host;
    var b := OnSite(sch, host, seg);
    RootedSegmentReference(seg);
    var up := "../" + seg;
    DotDotReference(seg);
    RootlessBaseDropsDotDot(site, up);
    assert ResolvedAgainst(b, "/" + seg) == site + "/" + seg;
  }

  /** "#" on a base with no path is the root page of the host with an empty fragment. */
  lemma HashOnSite(sch: string, host: string)
    requires IsSchemeName(sch) && Host(host)
    ensures GetDestinationUrl(Some(sch + "://" + host), Some("#")) == Some(sch + "://" + host + "/#")
  {
    var site := sch + "://" + host;
    assert site + [] == site;
    SiteBase(sch, host, []);
    HashReference();
    assert "#"[1..] == "";
    RootlessBaseFragment(site, "#");
    RootFragmentRecompose(sch, host);
  }

  lemma RootFragmentRecompose(sch: string, host: string)
    ensures Recompose(Uri(Some(sch), Some(host), "/", None, Some(""))) == sch + "://" + host + "/#"
  {
    var u := Uri(Some(sch), Some(host), "/", None, Some(""));
    assert AfterPath(u) == "#";
    assert AfterScheme(u) == "//" + host + "/#";
  }

  /** The parsed base "scheme://host", and the URL one segment below its root. */
  lemma OnSite(sch: string, host: string, seg: string) returns (b: Uri)
    requires IsSchemeName(sch) && Host(host) && Segment(seg)
    ensures IsUriReference(sch + "://" + host) && IsAbsolute(sch + "://" + host)
    ensures b == BaseUri(sch + "://" + host) && b.path == []
    ensures Recompose(Normalize(Resolve(b, Uri(None, None, "/" + seg, None, None)))) == sch + "://" + host + "/" + seg
    ensures Recompose(Normalize(Resolve(b, Uri(None, None, seg, None, None)))) == sch + "://" + host + "/" + seg
  {
    var site := sch + "://" + host;
    assert site + [] == site;
    SiteBase(sch, host, []);
    b := BaseUri(site);
    SegmentNormal(seg);
    RemoveDotSegmentsFixpoint("/" + seg);
    SiteRecompose(sch, host, "/" + seg);
    RemoveDotSegmentsIdempotent("/" + seg);
  }

  /** "/" + seg is a valid relative reference with that path. */
  lemma RootedSegmentReference(seg: string)
    requires Segment(seg)
    ensures IsUriReference("/" + seg) && !IsAbsolute("/" + seg)
    ensures Split("/" + seg) == Uri(None, None, "/" + seg, None, None)
  {
    var rooted := Uri(None, None, "/" + seg, None, None);
    assert IndexOfAny("/" + seg, {':', '/'}) == 0;
    assert IndexOfAny("/" + seg, SchemeStops) == 0;
    assert Recompose(rooted) == "/" + seg;
    SplitRecompose(rooted);
    PlainConcat("/", seg);
    PlainCharLevel("/" + seg);
  }

  /** "../" + seg is a valid relative reference that becomes "/" + seg once ".." is dropped. */
  lemma DotDotReference(seg: string)
    requires Segment(seg)
    ensures IsUriReference("../" + seg) && !IsAbsolute("../" + seg)
    ensures ".." <= "../" + seg && ("../" + seg)[2..] == "/" + seg
  {
    var up := "../" + seg;
    RootedSegmentReference(seg);
    assert up == ".." + ("/" + seg);
    assert Plain("..");
    PlainConcat("..", "/" + seg);
    PlainCharLevel(up);
    IndexOfAnyConcat("..", "/" + seg, SchemeStops);
  }

  /** "#" is a valid reference holding only an empty fragment. */
  lemma HashReference()
    ensures IsUriReference("#") && Split("#") == Uri(None, None, "", None, Some(""))
  {
    var frag := Uri(None, None, "", None, Some(""));
    assert Recompose(frag) == "#";
    SplitRecompose(frag);
  }

  /** A segment joined with a base whose path is "/" lands under that root. */
  lemma {:induction false} SegmentOnSiteRoot(sch: string, host: string, seg: string)
    requires IsSchemeName(sch) && Host(host) && Segment(seg)
    ensures GetDestinationUrl(Some(sch + "://" + host + "/"), Some(seg)) == Some(sch + "://" + host + "/" + seg)
  {
    var base := sch + "://" + host + "/";
    SiteBase(sch, host, "/");
    SegmentReference(seg);
    UnderSiteRoot(sch, host, seg);
    PathBaseResolvesTargetAsIs(base, seg);
  }

  /** The URL one segment below the root of "scheme://host/". */
  lemma UnderSiteRoot(sch: string, host: string, seg: string)
    requires Segment(seg)
    ensures var b := Uri(Some(sch), Some(host), "/", None, None);
      Recompose(Normalize(Resolve(b, Uri(None, None, seg, None, None)))) == sch + "://" + host + "/" + seg
  {
    SegmentUnderRoot(Uri(Some(sch), Some(host), "/", None, None), seg);
    SiteRecompose(sch, host, "/" + seg);
    assert sch + "://" + host + ("/" + seg) == sch + "://" + host + "/" + seg;
  }

  /** Resolving a segment against a base whose path is "/". */
  lemma SegmentUnderRoot(b: Uri, seg: string)
    requires b.path == "/" && b.query.None? && b.fragment.None? && Segment(seg)
    ensures Normalize(Resolve(b, Uri(None, None, seg, None, None))) == b.(path := "/" + seg)
  {
    assert UpToLastSlash("/") == "/";
    SegmentNormal(seg);
    RemoveDotSegmentsFixpoint("/" + seg);
    RemoveDotSegmentsIdempotent("/" + seg);
  }

  /** A query-only target keeps the page of the base and replaces its query. */
  lemma {:induction false} QueryOnPage(sch: string, host: string, page: string, q: string)
    requires IsSchemeName(sch) && Host(host) && Segment(page) && Plain(q)
    ensures GetDestinationUrl(Some(sch + "://" + host + "/" + page), Some("?" + q))
         == Some(sch + "://" + host + "/" + page + "?" + q)
  {
    var base := sch + "://" + host + "/" + page;
    var u := PageBase(sch, host, page);
    QueryReference(q);
    PathBaseResolvesTargetAsIs(base, "?" + q);
    QueryOnPath(u, q);
    PageQueryRecompose(sch, host, page, q);
  }

  /** Resolving a query-only reference against a base with a dot-free path. */
  lemma QueryOnPath(b: Uri, q: string)
    requires DotFree(b.path) && b.path != [] && Plain(q)
    ensures ResolvedAgainst(b, "?" + q) == Recompose(b.(query := Some(q), fragment := None))
  {
    QueryReference(q);
    RemoveDotSegmentsFixpoint(b.path);
  }

  lemma PageQueryRecompose(sch: string, host: string, page: string, q: string)
    ensures Recompose(Uri(Some(sch), Some(host), "/" + page, Some(q), None))
         == sch + "://" + host + "/" + page + "?" + q
  {
    var u := Uri(Some(sch), Some(host), "/" + page, Some(q), None);
    assert AfterAuthority(u) == "/" + page + "?" + q;
    assert AfterScheme(u) == "//" + host + "/" + page + "?" + q;
  }

  /** The base "scheme://host/page", parsed. */
  lemma PageBase(sch: string, host: string, page: string) returns (u: Uri)
    requires IsSchemeName(sch) && Host(host) && Segment(page)
    ensures var base := sch + "://" + host + "/" + page;
      IsUriReference(base) && IsAbsolute(base) && BaseUri(base) == u
    ensures u == Uri(Some(sch), Some(host), "/" + page, None, None) && DotFree(u.path)
  {
    u := Uri(Some(sch), Some(host), "/" + page, None, None);
    RootedPage(page);
    SiteRecompose(sch, host, "/" + page);
    assert sch + "://" + host + "/" + page == sch + "://" + host + ("/" + page);
    HierarchicalReference(u);
  }

  lemma RootedPage(page: string)
    requires Segment(page)
    ensures Plain("/" + page) && Excludes("/" + page, PathStops) && "/" <= "/" + page
    ensures DotFree("/" + page) && RemoveDotSegments("/" + page) == "/" + page
  {
    PlainConcat("/", page);
    SegmentNormal(page);
    RemoveDotSegmentsFixpoint("/" + page);
  }

  /** "?" + q is a valid reference holding only a query. */
  lemma QueryReference(q: string)
    requires Plain(q)
    ensures IsUriReference("?" + q) && !IsAbsolute("?" + q)
    ensures Split("?" + q) == Uri(None, None, "", Some(q), None)
    ensures "?" + q != []
  {
    QuerySplit(q);
    assert Plain("?");
    PlainConcat("?", q);
    PlainCharLevel("?" + q);
    assert IndexOfAny("?" + q, SchemeStops) == 0;
  }

  lemma QuerySplit(q: string)
    requires Plain(q)
    ensures Split("?" + q) == Uri(None, None, "", Some(q), None)
  {
    var u := Uri(None, None, "", Some(q), None);
    assert Recompose(u) == "?" + q;
    SplitRecompose(u);
  }

  /** An absolute "scheme://host/?query" target comes back unchanged, whatever the base. */
  lemma {:induction false} AbsoluteTargetUnchanged(base: Option<string>, sch: string, host: string, q: string)
    requires IsSchemeName(sch) && Host(host) && Plain(q)
    ensures GetDestinationUrl(base, Some(sch + "://" + host + "/?" + q)) == Some(sch + "://" + host + "/?" + q)
  {
    var t := sch + "://" + host + "/?" + q;
    AbsoluteSiteQuery(sch, host, q);
    AbsoluteTargetIgnoresBase(base, base, t);
  }

  lemma AbsoluteSiteQuery(sch: string, host: string, q: string)
    requires IsSchemeName(sch) && Host(host) && Plain(q)
    ensures var t := sch + "://" + host + "/?" + q;
      IsUriReference(t) && IsAbsolute(t) && NormalizeString(t) == t
  {
    var u := Uri(Some(sch), Some(host), "/", Some(q), None);
    PathNormal("/");
    HierarchicalReference(u);
    SiteQueryRecompose(sch, host, q);
    assert Normalize(u) == u;
  }

  lemma SiteQueryRecompose(sch: string, host: string, q: string)
    ensures Recompose(Uri(Some(sch), Some(host), "/", Some(q), None)) == sch + "://" + host + "/?" + q
  {
    var u := Uri(Some(sch), Some(host), "/", Some(q), None);
    assert AfterPath(u) == "?" + q;
    assert AfterAuthority(u) == "/" + ("?" + q);
    assert AfterScheme(u) == "//" + (host + ("/" + ("?" + q)));
    assert sch + ":" + ("//" + (host + ("/" + ("?" + q)))) == sch + "://" + host + "/?" + q;
  }

  /** "scheme:" with nothing after the colon is not a valid reference. */
  lemma {:induction false} BareSchemeFails(base: Option<string>, sch: string)
    requires IsSchemeName(sch)
    ensures GetDestinationUrl(base, Some(sch + ":")) == None
  {
    SchemeNamePlain(sch);
    IndexOfAnyConcat(sch, ":", SchemeStops);
    assert (sch + ":")[..|sch|] == sch;
  }

  /** A target holding a space, a backslash or another character no reference may contain has no
      destination. */
  lemma IllegalCharFails(base: Option<string>, target: string, i: nat)
    requires i < |target| && IsIllegalChar(target[i])
    ensures GetDestinationUrl(base, Some(target)) == None
  {
  }

  /** "scheme:" followed by one plain segment is an opaque absolute reference: it is kept as is. */
  lemma {:induction false} OpaqueTargetUnchanged(base: Option<string>, sch: string, seg: string)
    requires IsSchemeName(sch) && Segment(seg)
    ensures GetDestinationUrl(base, Some(sch + ":" + seg)) == Some(sch + ":" + seg)
  {
    OpaqueReference(sch, seg);
    AbsoluteTargetIgnoresBase(base, base, sch + ":" + seg);
  }

  lemma OpaqueReference(sch: string, seg: string)
    requires IsSchemeName(sch) && Segment(seg)
    ensures var t := sch + ":" + seg;
      IsUriReference(t) && IsAbsolute(t) && NormalizeString(t) == t
  {
    OpaqueSplit(sch, seg);
    OpaqueCharLevel(sch, seg);
    OpaqueSchemeWellFormed(sch, seg);
    OpaqueNormal(sch, seg);
  }

  lemma OpaqueSplit(sch: string, seg: string)
    requires IsSchemeName(sch) && Segment(seg)
    ensures Split(sch + ":" + seg) == Uri(Some(sch), None, seg, None, None)
  {
    var u := Uri(Some(sch), None, seg, None, None);
    SchemeNamePlain(sch);
    assert Recompose(u) == sch + ":" + seg;
    assert WellFormed(u);
    SplitRecompose(u);
  }

  lemma OpaqueSchemeWellFormed(sch: string, seg: string)
    requires IsSchemeName(sch) && Segment(seg)
    ensures SchemeWellFormed(sch + ":" + seg)
  {
    var t := sch + ":" + seg;
    SchemeNamePlain(sch);
    IndexOfAnyConcat(sch, ":" + seg, SchemeStops);
    assert t == sch + (":" + seg);
    assert t[..|sch|] == sch && t[|sch| + 1] == seg[0];
  }

  lemma OpaqueNormal(sch: string, seg: string)
    requires IsSchemeName(sch) && Segment(seg)
    requires Split(sch + ":" + seg) == Uri(Some(sch), None, seg, None, None)
    ensures NormalizeString(sch + ":" + seg) == sch + ":" + seg
  {
    var u := Uri(Some(sch), None, seg, None, None);
    SegmentNormal(seg);
    RemoveDotSegmentsFixpoint(seg);
    assert Normalize(u) == u;
    assert Recompose(u) == sch + ":" + seg;
  }

  lemma OpaqueCharLevel(sch: string, seg: string)
    requires IsSchemeName(sch) && Segment(seg)
    ensures var t := sch + ":" + seg;
      CharsLegal(t) && EscapesWellFormed(t) && AtMostOneHash(t)
  {
    SchemeNamePlain(sch);
    assert Plain(":");
    PlainConcat(sch, ":");
    PlainConcat(sch + ":", seg);
    PlainCharLevel(sch + ":" + seg);
  }

  // ---------------------------------------------------------------------------------------
  // The two special cases against plain RFC 3986 resolution
  // ---------------------------------------------------------------------------------------

  /** On a base with no path, RFC 3986 resolves ".." + p, for a path p starting with '/', exactly
      as it resolves p: the merged path "/.." + p loses its ".." to rule C of remove_dot_segments.
      So the dropped ".." changes nothing as long as p still parses as a path. */
  lemma DotDotDropAgreesWithRfc(b: Uri, p: string, q: Option<string>, f: Option<string>)
    requires b.authority.Some? && b.path == [] && "/" <= p
    ensures Resolve(b, Uri(None, None, ".." + p, q, f)) == Resolve(b, Uri(None, None, p, q, f))
  {
    var m := Merge(b, ".." + p);
    assert m == "/../" + p[1..];
    assert m[..4] == "/../" && m[2] == '.' && m[3..] == p;
    assert DropLastSegment([]) == [];
    assert RemoveDots(m, []) == RemoveDots(p, []);
  }

  /** "//" + name has no dot segment. */
  lemma DoubleSlashNormal(name: string)
    requires Segment(name)
    ensures RemoveDotSegments("//" + name) == "//" + name
  {
    assert SegmentEnd("/") == 1;
    assert DotFree("/");
    IndexOfAnyUnique(("/" + name)[1..], {'/'}, |name|);
    assert ("/" + name)[1..] == name;
    DotFreeAppend("/", "/" + name);
    assert "/" + ("/" + name) == "//" + name;
    RemoveDotSegmentsFixpoint("//" + name);
  }

  /** "..//" + name on a base with no path: once ".." is dropped, "//name" is a network-path
      reference and the link leaves for the host name; RFC 3986 keeps the base's host and gives
      the path "//name". */
  lemma {:induction false} DotDotSlashSlashChangesHost(sch: string, host: string, name: string)
    requires IsSchemeName(sch) && Host(host) && Segment(name)
    ensures GetDestinationUrl(Some(sch + "://" + host), Some("..//" + name)) == Some(sch + "://" + name)
    ensures ResolvedAgainst(BaseUri(sch + "://" + host), "..//" + name) == sch + "://" + host + "//" + name
  {
    ResolverLeavesForName(sch, host, name);
    RfcStaysOnHost(sch, host, name);
  }

  /** "..//" alone on a base with no path: as written the second parse of "//" throws; the
      corrected resolver gives no destination. */
  lemma {:induction false} DotDotSlashSlashOnSite(sch: string, host: string)
    requires IsSchemeName(sch) && Host(host)
    ensures GetDestinationUrlAsWritten(Some(sch + "://" + host), Some("..//")) == IllegalArgumentException
    ensures GetDestinationUrl(Some(sch + "://" + host), Some("..//")) == None
  {
    var site := sch + "://" + host;
    assert site + [] == site;
    SiteBase(sch, host, []);
    SlashSlashReparseThrows(site);
  }

  lemma {:induction false} ResolverLeavesForName(sch: string, host: string, name: string)
    requires IsSchemeName(sch) && Host(host) && Segment(name)
    ensures GetDestinationUrl(Some(sch + "://" + host), Some("..//" + name)) == Some(sch + "://" + name)
  {
    var site := sch + "://" + host;
    assert site + [] == site;
    SiteBase(sch, host, []);
    var t := "..//" + name;
    NetworkPathValid(name);
    RootlessBaseDropsDotDot(site, t);
    NetworkPathResolution(sch, host, name);
  }

  lemma {:induction false} RfcStaysOnHost(sch: string, host: string, name: string)
    requires IsSchemeName(sch) && Host(host) && Segment(name)
    ensures ResolvedAgainst(BaseUri(sch + "://" + host), "..//" + name) == sch + "://" + host + "//" + name
  {
    var site := sch + "://" + host;
    assert site + [] == site;
    SiteBase(sch, host, []);
    NetworkPathSplits(name);
    UpNetworkPathResolution(sch, host, name);
  }

  /** "..//" + name is a valid relative reference that parses as one path. */
  lemma NetworkPathValid(name: string)
    requires Segment(name)
    ensures IsUriReference("..//" + name) && !IsAbsolute("..//" + name)
    ensures ".." <= "..//" + name && ("..//" + name)[2..] == "//" + name && !("#" <= "//" + name)
  {
    var t := "..//" + name;
    assert t == ".." + ("//" + name);
    assert Plain("..//");
    PlainConcat("..//", name);
    PlainCharLevel(t);
    IndexOfAnyConcat("..", "//" + name, SchemeStops);
  }

  /** Without its "..", the reference is "//" + name: it holds only an authority. */
  lemma NetworkPathSplits(name: string)
    requires Segment(name)
    ensures Split("//" + name) == Uri(None, Some(name), "", None, None)
    ensures Split("..//" + name) == Uri(None, None, "..//" + name, None, None)
  {
    AuthorityOnlySplit(name);
    DotDotPathSplit(name);
  }

  lemma AuthorityOnlySplit(name: string)
    requires Segment(name)
    ensures Split("//" + name) == Uri(None, Some(name), "", None, None)
  {
    var n := Uri(None, Some(name), "", None, None);
    assert Recompose(n) == "//" + name;
    SplitRecompose(n);
  }

  lemma DotDotPathSplit(name: string)
    requires Segment(name)
    ensures Split("..//" + name) == Uri(None, None, "..//" + name, None, None)
  {
    var t := "..//" + name;
    assert t == ".." + ("//" + name);
    IndexOfAnyConcat("..", "//" + name, {':', '/'});
    var u := Uri(None, None, t, None, None);
    assert Recompose(u) == t;
    SplitRecompose(u);
  }

  lemma NetworkPathResolution(sch: string, host: string, name: string)
    requires Segment(name)
    ensures ResolvedAgainst(Uri(Some(sch), Some(host), "", None, None), "//" + name) == sch + "://" + name
  {
    NetworkPathSplits(name);
    var u := Uri(Some(sch), Some(name), "", None, None);
    assert AfterScheme(u) == "//" + name;
  }

  lemma UpNetworkPathResolution(sch: string, host: string, name: string)
    requires Segment(name)
    ensures var b := Uri(Some(sch), Some(host), "", None, None);
      Recompose(Normalize(Resolve(b, Uri(None, None, "..//" + name, None, None))))
        == sch + "://" + host + "//" + name
  {
    var b := Uri(Some(sch), Some(host), "", None, None);
    var u := Uri(Some(sch), Some(host), "//" + name, None, None);
    assert ".." + ("//" + name) == "..//" + name;
    DotDotDropAgreesWithRfc(b, "//" + name, None, None);
    DoubleSlashNormal(name);
    assert Resolve(b, Uri(None, None, "//" + name, None, None)) == u;
    assert Normalize(u) == u;
    SiteRecompose(sch, host, "//" + name);
  }

  // ---------------------------------------------------------------------------------------
  // The joiner's unit tests
  // ---------------------------------------------------------------------------------------

  lemma SchemeLiterals() ensures IsSchemeName("https") && IsSchemeName("javascript") {}
  lemma CnrHost() ensures Host("www.cnr.it") {}
  lemma ParcoAvetoHost() ensures Host("www.parcoaveto.it") {}
  lemma TrasparenzaHost() ensures Host("trasparenza-pa.net") {}
  lemma TransparencySegment() ensures Segment("amministrazione-trasparente") {}
  lemma PhpSegment() ensures Segment("amministrazione-trasparente.php") {
    TransparencySegment();
    assert Plain(".php") && Excludes(".php", SchemeStops);
    SegmentConcat("amministrazione-trasparente", ".php");
    assert "amministrazione-trasparente" + ".php" == "amministrazione-trasparente.php";
  }

  lemma SegmentConcat(a: string, b: string)
    requires Segment(a) && Plain(b) && Excludes(b, SchemeStops)
    ensures Segment(a + b)
  {
    PlainConcat(a, b);
    var s := a + b;
    assert forall i :: 0 <= i < |s| ==> s[i] == if i < |a| then a[i] else b[i - |a|];
  }
  lemma VoidSegment() ensures Segment("void(0);") {}

  /** UrlJoinerTest, lines 31-33. */
  lemma TestSegmentOnRootBase()
    ensures GetDestinationUrl(Some("https://www.cnr.it/"), Some("amministrazione-trasparente"))
         == Some("https://www.cnr.it/amministrazione-trasparente")
  {
    SchemeLiterals();
    CnrHost();
    TransparencySegment();
    CnrSite();
    CnrPage();
    SegmentOnSiteRoot("https", "www.cnr.it", "amministrazione-trasparente");
  }

  /** UrlJoinerTest, lines 35-37. */
  lemma TestSegmentOnSite()
    ensures GetDestinationUrl(Some("https://www.cnr.it"), Some("amministrazione-trasparente"))
         == Some("https://www.cnr.it/amministrazione-trasparente")
  {
    SchemeLiterals();
    CnrHost();
    TransparencySegment();
    CnrSite();
    CnrPage();
    SegmentOnSite("https", "www.cnr.it", "amministrazione-trasparente");
  }

  /** UrlJoinerTest, lines 39-41. */
  lemma TestRootedSegmentOnSite()
    ensures GetDestinationUrl(Some("https://www.cnr.it"), Some("/amministrazione-trasparente"))
         == Some("https://www.cnr.it/amministrazione-trasparente")
  {
    SchemeLiterals();
    CnrHost();
    TransparencySegment();
    CnrSite();
    CnrPage();
    CnrRootedSegment();
    RootedSegmentOnSite("https", "www.cnr.it", "amministrazione-trasparente");
  }

  /** UrlJoinerTest, lines 43-45. */
  lemma TestDotDotSegmentOnSite()
    ensures GetDestinationUrl(Some("https://www.cnr.it"), Some("../amministrazione-trasparente"))
         == Some("https://www.cnr.it/amministrazione-trasparente")
  {
    SchemeLiterals();
    CnrHost();
    TransparencySegment();
    CnrSite();
    CnrPage();
    CnrUpSegment();
    DotDotSegmentOnSite("https", "www.cnr.it", "amministrazione-trasparente");
  }

  /** UrlJoinerTest, lines 47-49. */
  lemma TestHashOnSite()
    ensures GetDestinationUrl(Some("https://www.cnr.it"), Some("#")) == Some("https://www.cnr.it/#")
  {
    SchemeLiterals();
    CnrHost();
    CnrSite();
    HashOnSite("https", "www.cnr.it");
  }

  /** UrlJoinerTest, lines 51-57: without a scheme-specific part a "javascript:" link is not a
      valid reference and has no destination (the test expects the base back; see README). */
  lemma TestBareJavascript()
    ensures GetDestinationUrl(Some("https://www.cnr.it"), Some("javascript:")) == None
  {
    SchemeLiterals();
    assert "javascript" + ":" == "javascript:";
    BareSchemeFails(Some("https://www.cnr.it"), "javascript");
  }

  /** UrlJoinerTest, lines 59-61: a space is not allowed in a reference, so "javascript: void()"
      has no destination (the test expects the base back; see README). */
  lemma TestSpacedJavascript()
    ensures GetDestinationUrl(Some("https://www.cnr.it"), Some("javascript: void()")) == None
  {
    IllegalCharFails(Some("https://www.cnr.it"), "javascript: void()", 11);
  }

  /** UrlJoinerTest, lines 63-65: "javascript:void(0);" is an absolute (opaque) reference and is
      returned as it is (the test expects the base back; see README). */
  lemma TestOpaqueJavascript()
    ensures GetDestinationUrl(Some("https://www.cnr.it/it/amministrazione-trasparente"), Some("javascript:void(0);"))
         == Some("javascript:void(0);")
  {
    SchemeLiterals();
    VoidSegment();
    assert "javascript" + ":" + "void(0);" == "javascript:void(0);";
    OpaqueTargetUnchanged(Some("https://www.cnr.it/it/amministrazione-trasparente"), "javascript", "void(0);");
  }

  /** UrlJoinerTest, lines 67-69. */
  lemma TestQueryOnPage()
    ensures GetDestinationUrl(Some("https://www.parcoaveto.it/amministrazione-trasparente.php"), Some("?l1=1"))
         == Some("https://www.parcoaveto.it/amministrazione-trasparente.php?l1=1")
  {
    SchemeLiterals();
    ParcoAvetoHost();
    PhpSegment();
    assert Plain("l1=1");
    ParcoAvetoPage();
    QueryOnPage("https", "www.parcoaveto.it", "amministrazione-trasparente.php", "l1=1");
  }

  /** UrlJoinerTest, lines 75-78. */
  lemma TestAbsoluteTarget()
    ensures GetDestinationUrl(Some("https://www.cnr.it"), Some("https://trasparenza-pa.net/?codcli=SC26149"))
         == Some("https://trasparenza-pa.net/?codcli=SC26149")
  {
    SchemeLiterals();
    TrasparenzaHost();
    assert Plain("codcli=SC26149");
    TrasparenzaPage();
    AbsoluteTargetUnchanged(Some("https://www.cnr.it"), "https", "trasparenza-pa.net", "codcli=SC26149");
  }

  /** UrlJoinerTest, lines 83-88. */
  lemma TestEmptyUrls()
    ensures GetDestinationUrl(Some("https://www.cnr.it"), None) == None
    ensures GetDestinationUrl(None, Some("/amministrazione-transparente")) == None
    ensures GetDestinationUrl(None, None) == None
  {
  }

  /** UrlJoinerTest, lines 93-95: the target holds a backslash, which no reference may contain, so
      it has no destination (the test expects one; see README). */
  lemma TestBackslashTarget()
    ensures GetDestinationUrl(Some("https://www.cnr.it"),
              Some("https://web.spaggiari.eu/sdg/app/default/trasparenza.php?sede_codice=BAIT0004&amp;referer=http:\\www.itclenoci.it"))
         == None
  {
    IllegalCharFails(Some("https://www.cnr.it"),
      "https://web.spaggiari.eu/sdg/app/default/trasparenza.php?sede_codice=BAIT0004&amp;referer=http:\\www.itclenoci.it", 95);
  }
}
