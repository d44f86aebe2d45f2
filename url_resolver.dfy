/**
 * UrlResolver.getDestinationUrl: the absolute URL a link found on a crawled page leads to.
 * base is the URL of the page (realUrl), target the link as written on it (url); an absent
 * Java string is None.
 */
module UrlResolver {

  import opened Wrappers
  import opened UriSyntax
  import opened DotSegments
  import opened UriResolution

  /** The reference target will be resolved as: a leading ".." is dropped when the base has an
      empty path. */
  function AdjustedTarget(baseUri: Uri, target: string): string {
    if baseUri.path == [] && ".." <= target then target[2..] else target
  }

  /** The base target will be resolved against: a base with an empty path is first resolved
      against "/" when the (adjusted) target is a fragment. */
  function AdjustedBase(baseUri: Uri, target: string): Uri {
    if baseUri.path == [] && "#" <= target then Resolve(baseUri, Root) else baseUri
  }

  /** The join of a relative target with a normalized absolute base, normalized. */
  function Join(baseUri: Uri, target: string): (s: string)
    requires ComponentsOk(baseUri) && baseUri.scheme.Some?
    ensures IsAbsolute(s) && NormalizeString(s) == s
  {
    var target' := AdjustedTarget(baseUri, target);
    var base' := AdjustedBase(baseUri, target');
    var r := Split(target');
    RootSplit();
    ResolveNormalAbsolute(baseUri, Root);
    SplitWellFormed(target');
    ResolveNormalAbsolute(base', r);
    NormalAbsoluteIsNormal(Normalize(Resolve(base', r)));
    Recompose(Normalize(Resolve(base', r)))
  }

  /** The base as parsed and normalized. */
  function BaseUri(base: string): Uri {
    Normalize(Split(base))
  }

  /** getDestinationUrl(base, target), with every failure to parse giving an empty result: the
      target at line 32, the base at line 41, and the target once more at line 53. */
  function GetDestinationUrl(base: Option<string>, target: Option<string>): (r: Option<string>)
    ensures r.None? <==>
      || target.None?
      || !IsUriReference(target.value)
      || (&& !IsAbsolute(target.value)
          && (|| target.value == []
              || base.None? || !IsUriReference(base.value) || !IsAbsolute(base.value)
              || (BaseUri(base.value).path == [] && target.value == "..//")))
    ensures r.Some? ==> IsAbsolute(r.value) && NormalizeString(r.value) == r.value
  {
    if target.None? then None
    else if !IsUriReference(target.value) then None
    else if IsAbsolute(target.value) then
      var u := Split(target.value);
      SplitWellFormed(target.value);
      NormalizeComponents(u);
      NormalAbsoluteIsNormal(Normalize(u));
      Some(NormalizeString(target.value))
    else if target.value == [] then None
    else if base.None? || !IsUriReference(base.value) || !IsAbsolute(base.value) then None
    else
      var baseUri := BaseUri(base.value);
      ReparseCondition(baseUri, target.value);
      if !IsUriReference(AdjustedTarget(baseUri, target.value)) then None
      else
        SplitWellFormed(base.value);
        NormalizeComponents(Split(base.value));
        Some(Join(baseUri, target.value))
  }

  // ---------------------------------------------------------------------------------------
  // Null arguments, as written
  // ---------------------------------------------------------------------------------------

  /** How a call ends: a returned Optional, or an exception that the catch of line 55
      (URISyntaxException only) lets through. */
  datatype Outcome = Returned(value: Option<string>) | NullPointerException | IllegalArgumentException

  /** getDestinationUrl as written. The target, and for a relative target the base, go to
      new URIBuilder(String) before any null check, and the JDK's URI(String) constructor throws
      NullPointerException on null. URI.resolve(String) at line 53 parses the shortened target
      with URI.create, which reports a syntax error as IllegalArgumentException. */
  function GetDestinationUrlAsWritten(base: Option<string>, target: Option<string>): (o: Outcome)
    ensures o.NullPointerException? <==>
      target.None? || (!IsAbsolute(target.value) && IsUriReference(target.value) && target.value != [] && base.None?)
    ensures o.IllegalArgumentException? <==>
      && target == Some("..//")
      && base.Some? && IsUriReference(base.value) && IsAbsolute(base.value) && BaseUri(base.value).path == []
    ensures o.Returned? ==> o.value == GetDestinationUrl(base, target)
  {
    DotDotSlashSlashParses();
    if target.None? then NullPointerException
    else if !IsUriReference(target.value) then Returned(None)
    else if IsAbsolute(target.value) then Returned(GetDestinationUrl(base, target))
    else if target.value == [] then Returned(None)
    else if base.None? then NullPointerException
    else if !IsUriReference(base.value) || !IsAbsolute(base.value) then Returned(None)
    else
      var baseUri := BaseUri(base.value);
      ReparseCondition(baseUri, target.value);
      if !IsUriReference(AdjustedTarget(baseUri, target.value)) then IllegalArgumentException
      else Returned(GetDestinationUrl(base, target))
  }

  /** A null target, or a null base with a relative target, throws as written, where the null
      check of line 36 and the unit tests expect an empty result. */
  lemma NullArgumentsThrow(base: Option<string>, target: string)
    requires IsUriReference(target) && !IsAbsolute(target) && target != []
    ensures GetDestinationUrlAsWritten(base, None) == NullPointerException
    ensures GetDestinationUrl(base, None) == None
    ensures GetDestinationUrlAsWritten(None, Some(target)) == NullPointerException
    ensures GetDestinationUrl(None, Some(target)) == None
  {
  }

  // ---------------------------------------------------------------------------------------
  // The rules of getDestinationUrl, one lemma each
  // ---------------------------------------------------------------------------------------

  /** An absolute target is returned normalized, whatever the base, even an absent one. */
  lemma AbsoluteTargetIgnoresBase(base1: Option<string>, base2: Option<string>, target: string)
    requires IsUriReference(target) && IsAbsolute(target)
    ensures GetDestinationUrl(base1, Some(target)) == GetDestinationUrl(base2, Some(target))
    ensures GetDestinationUrl(base1, Some(target)) == Some(NormalizeString(target))
  {
  }

  /** An absent or empty target has no destination. */
  lemma EmptyTargetFails(base: Option<string>)
    ensures GetDestinationUrl(base, None) == None
    ensures GetDestinationUrl(base, Some("")) == None
  {
  }

  /** The part of a resolution that follows the checks of lines 32-45. */
  function ResolvedAgainst(baseUri: Uri, target: string): string {
    Recompose(Normalize(Resolve(baseUri, Split(target))))
  }

  /** On a base with a non-empty path, or for a target starting with neither ".." nor '#', neither
      special case fires: the target is resolved as is. */
  lemma PathBaseResolvesTargetAsIs(base: string, target: string)
    requires IsUriReference(base) && IsAbsolute(base)
    requires BaseUri(base).path != [] || (!(".." <= target) && !("#" <= target))
    requires IsUriReference(target) && !IsAbsolute(target) && target != []
    ensures GetDestinationUrl(Some(base), Some(target)) == Some(ResolvedAgainst(BaseUri(base), target))
  {
  }

  /** On a base with an empty path, a target starting with ".." loses exactly those two characters;
      for "..//" what is left, "//", does not parse, and a fragment left over ("..#top") is then
      resolved against the base re-rooted at "/". */
  lemma RootlessBaseDropsDotDot(base: string, target: string)
    requires IsUriReference(base) && IsAbsolute(base) && BaseUri(base).path == []
    requires IsUriReference(target) && !IsAbsolute(target) && ".." <= target
    ensures GetDestinationUrl(Some(base), Some(target))
         == if target == "..//" then None
            else if "#" <= target[2..] then
              Some(Recompose(BaseUri(base).(path := "/", query := None, fragment := Some(target[3..]))))
            else Some(ResolvedAgainst(BaseUri(base), target[2..]))
  {
    var b := BaseUri(base);
    var t := target[2..];
    if target == "..//" {
      SlashSlashReparseThrows(base);
    } else if "#" <= t {
      RootlessJoin(base, target);
      ReRootedFragment(b, t);
      assert t[1..] == target[3..];
    } else {
      RootlessJoin(base, target);
      assert AdjustedBase(b, t) == b;
    }
  }

  /** Any other target starting with ".." is joined, without those two characters, with the base
      as line 51 leaves it. */
  lemma RootlessJoin(base: string, target: string)
    requires IsUriReference(base) && IsAbsolute(base) && BaseUri(base).path == []
    requires IsUriReference(target) && !IsAbsolute(target) && ".." <= target && target != "..//"
    ensures GetDestinationUrl(Some(base), Some(target))
         == Some(ResolvedAgainst(AdjustedBase(BaseUri(base), target[2..]), target[2..]))
  {
    var b := BaseUri(base);
    ReparseCondition(b, target);
    assert AdjustedTarget(b, target) == target[2..];
  }

  /** As written, "..//" on a base with an empty path ends in an IllegalArgumentException: the
      second parse at line 53 meets "//", an authority with nothing in it. The corrected resolver
      gives an empty result, as for the other syntax errors. */
  lemma SlashSlashReparseThrows(base: string)
    requires IsUriReference(base) && IsAbsolute(base) && BaseUri(base).path == []
    ensures IsUriReference("..//") && !IsAbsolute("..//") && !IsUriReference("//")
    ensures GetDestinationUrlAsWritten(Some(base), Some("..//")) == IllegalArgumentException
    ensures GetDestinationUrl(Some(base), Some("..//")) == None
  {
    DotDotSlashSlashParses();
  }

  lemma DotDotSlashSlashParses()
    ensures IsUriReference("..//") && !IsAbsolute("..//") && !IsUriReference("//")
  {
    DotDotSlashSlashSplit();
    DotDotSlashSlashChars();
    assert IndexOfAny("..//", SchemeStops) == 2;
    SlashSlashAlone();
  }

  /** "..//" holds only dots and slashes. */
  lemma DotDotSlashSlashChars()
    ensures CharsLegal("..//") && EscapesWellFormed("..//") && AtMostOneHash("..//")
  {
    var s := "..//";
    assert forall i :: 0 <= i < |s| ==> s[i] == '.' || s[i] == '/';
  }

  /** "..//" is a relative path and nothing else. */
  lemma DotDotSlashSlashSplit()
    ensures Split("..//") == Uri(None, None, "..//", None, None)
  {
    var u := Uri(None, None, "..//", None, None);
    assert IndexOfAny("..//", {':', '/'}) == 2;
    assert Recompose(u) == "..//";
    SplitRecompose(u);
  }

  /** "//" holds an empty authority and nothing else. */
  lemma SlashSlashAlone()
    ensures !AuthorityWellFormed("//")
  {
    var n := Uri(None, Some(""), "", None, None);
    assert Recompose(n) == "//";
    SplitRecompose(n);
  }


  /** On a base with an empty path, a fragment target lands on the root path "/" of the base's
      authority, with the target's fragment and no query. */
  lemma RootlessBaseFragment(base: string, target: string)
    requires IsUriReference(base) && IsAbsolute(base) && BaseUri(base).path == []
    requires IsUriReference(target) && "#" <= target
    ensures GetDestinationUrl(Some(base), Some(target))
         == Some(Recompose(BaseUri(base).(path := "/", query := None, fragment := Some(target[1..]))))
  {
    FragmentJoin(base, target);
    ReRootedFragment(BaseUri(base), target);
  }

  /** A fragment target is joined, as it is, with the base as line 51 leaves it. */
  lemma FragmentJoin(base: string, target: string)
    requires IsUriReference(base) && IsAbsolute(base) && BaseUri(base).path == []
    requires IsUriReference(target) && "#" <= target
    ensures GetDestinationUrl(Some(base), Some(target))
         == Some(ResolvedAgainst(AdjustedBase(BaseUri(base), target), target))
  {
    var b := BaseUri(base);
    FragmentAgainst(b, target);
    assert !(".." <= target) && AdjustedTarget(b, target) == target;
  }

  /** Line 51 re-roots a base with an empty path before a fragment target: the fragment then
      lands on the path "/", with no query. */
  lemma ReRootedFragment(b: Uri, t: string)
    requires b.path == [] && "#" <= t
    ensures ResolvedAgainst(AdjustedBase(b, t), t)
         == Recompose(b.(path := "/", query := None, fragment := Some(t[1..])))
  {
    var rooted := b.(path := "/", query := None, fragment := None);
    ResolveAgainstRoot(b);
    assert AdjustedBase(b, t) == rooted;
    RootPathNormal();
    FragmentAgainst(rooted, t);
  }

  /** Plain RFC 3986 resolution of the same fragment target would keep the base's empty path and
      its query: the re-rooting of line 51 is what puts "/" in front of the '#' and drops the
      query. */
  lemma RfcFragmentKeepsRootlessBase(base: string, target: string)
    requires IsUriReference(base) && IsAbsolute(base) && BaseUri(base).path == []
    requires "#" <= target
    ensures ResolvedAgainst(BaseUri(base), target) == Recompose(BaseUri(base).(fragment := Some(target[1..])))
  {
    FragmentAgainst(BaseUri(base), target);
  }

  /** A fragment target resolved against a base whose path is already normalized. */
  lemma FragmentAgainst(b: Uri, target: string)
    requires "#" <= target && RemoveDotSegments(b.path) == b.path
    ensures !IsAbsolute(target) && target != []
    ensures ResolvedAgainst(b, target) == Recompose(b.(fragment := Some(target[1..])))
  {
    assert target == "#" + target[1..];
    ResolveFragmentOnly(b, target[1..]);
  }

  /** The reference resolved at line 53 is parsed a second time (URI.resolve(String)). That parse
      fails exactly when the base has an empty path and the target is "..//"; the reference is
      always still relative. */
  lemma ReparseCondition(baseUri: Uri, target: string)
    requires IsUriReference(target) && !IsAbsolute(target)
    ensures IsUriReference(AdjustedTarget(baseUri, target)) <==> !(baseUri.path == [] && target == "..//")
    ensures !IsAbsolute(AdjustedTarget(baseUri, target))
  {
    if baseUri.path == [] && ".." <= target {
      DropDotDotValid(target);
    }
  }

  lemma DropDotDotValid(target: string)
    requires IsUriReference(target) && !IsAbsolute(target) && ".." <= target
    ensures IsUriReference(target[2..]) <==> target != "..//"
    ensures !IsAbsolute(target[2..])
  {
    var t := target[2..];
    SuffixCharLevel(target, 2);
    DropDotDotNoColon(target);
    assert SplitScheme(t).0.None?;
    if target == "..//" {
      assert t == "//";
      SlashSlashAlone();
    }
    EmptyAuthorityAlone(t);
    assert t == "//" ==> target == "..//";
  }

  /** Without its leading "..", a relative reference still has no colon ending a scheme name. */
  lemma DropDotDotNoColon(target: string)
    requires !IsAbsolute(target) && ".." <= target
    ensures var t := target[2..]; var k := IndexOfAny(t, SchemeStops); !(k < |t| && t[k] == ':')
  {
    var t := target[2..];
    assert target == ".." + t;
    IndexOfAnyConcat("..", t, SchemeStops);
    assert SplitScheme(target).0.None?;
  }


}
