/**
 * Reference resolution of RFC 3986: merging paths (section 5.2.3) and transforming a reference
 * against a base (section 5.2.2), plus the normalization that removes dot segments from a path.
 */
module UriResolution {

  import opened Wrappers
  import opened UriSyntax
  import opened DotSegments

  /** The path up to and including its last '/', or "" when it has none. */
  function UpToLastSlash(s: string): (r: string)
    ensures r <= s
    ensures r == [] || r[|r| - 1] == '/'
  {
    if s == [] then []
    else if s[|s| - 1] == '/' then s
    else UpToLastSlash(s[..|s| - 1])
  }

  /** Section 5.2.3: merge a relative-path reference with the base path. */
  function Merge(base: Uri, refPath: string): string {
    if base.authority.Some? && base.path == [] then "/" + refPath
    else UpToLastSlash(base.path) + refPath
  }

  /** Section 5.2.2: the target URI of reference r resolved against base (strict parser). */
  function Resolve(base: Uri, r: Uri): Uri {
    if r.scheme.Some? then
      r.(path := RemoveDotSegments(r.path))
    else if r.authority.Some? then
      Uri(base.scheme, r.authority, RemoveDotSegments(r.path), r.query, r.fragment)
    else if r.path == [] then
      Uri(base.scheme, base.authority, base.path, if r.query.Some? then r.query else base.query, r.fragment)
    else if r.path[0] == '/' then
      Uri(base.scheme, base.authority, RemoveDotSegments(r.path), r.query, r.fragment)
    else
      Uri(base.scheme, base.authority, RemoveDotSegments(Merge(base, r.path)), r.query, r.fragment)
  }

  /** java.net.URI.normalize(): remove the dot segments of the path, leave the rest alone. */
  function Normalize(u: Uri): Uri {
    u.(path := RemoveDotSegments(u.path))
  }

  /** normalize() on the string form: parse, normalize, recompose. */
  function NormalizeString(s: string): string {
    Recompose(Normalize(Split(s)))
  }

  /** The reference "/", against which a base with an empty path is re-rooted. */
  const Root: Uri := Uri(None, None, "/", None, None)

  lemma RootSplit()
    ensures Recompose(Root) == "/" && Split("/") == Root
  {
    SplitRecompose(Root);
  }

  /** What a normalized absolute URI looks like: a scheme, well-delimited components, and a
      path with no "." or ".." segment. */
  predicate NormalAbsolute(u: Uri) {
    u.scheme.Some? && ComponentsOk(u) && DotFree(u.path)
  }

  // ---------------------------------------------------------------------------------------
  // Normal form
  // ---------------------------------------------------------------------------------------

  lemma NormalizeComponents(u: Uri)
    requires ComponentsOk(u)
    ensures ComponentsOk(Normalize(u)) && DotFree(Normalize(u).path)
  {
    RemoveDotSegmentsFixpoint(u.path);
    RemoveDotsExcludes(u.path, "", PathStops);
    if u.authority.Some? {
      RemoveDotsRooted(u.path, "");
    }
  }

  lemma UpToLastSlashExcludes(s: string, stops: set<char>)
    requires Excludes(s, stops)
    ensures Excludes(UpToLastSlash(s), stops)
  {
    var r := UpToLastSlash(s);
    assert r == s[..|r|];
  }

  /** Resolving a parsed relative reference against a base with a scheme, then normalizing,
      yields a normalized absolute URI. */
  lemma {:induction false} ResolveNormalAbsolute(base: Uri, r: Uri)
    requires ComponentsOk(base) && base.scheme.Some? && WellFormed(r)
    ensures ComponentsOk(Resolve(base, r)) && Resolve(base, r).scheme.Some?
    ensures NormalAbsolute(Normalize(Resolve(base, r)))
  {
    var t := Resolve(base, r);
    if r.scheme.None? && r.authority.None? && r.path != [] && r.path[0] != '/' {
      var m := Merge(base, r.path);
      if base.authority.Some? && base.path == [] {
        assert m == "/" + r.path;
      } else {
        var prefix := UpToLastSlash(base.path);
        UpToLastSlashExcludes(base.path, PathStops);
        if base.authority.Some? {
          assert prefix != [] && prefix[0] == '/' by {
            assert base.path[0] == '/';
            if prefix == [] {
              var k := |base.path| - 1;
              UpToLastSlashNonEmpty(base.path, 0);
            }
          }
        }
        assert m == prefix + r.path;
      }
      RemoveDotsExcludes(m, "", PathStops);
      if base.authority.Some? {
        RemoveDotsRooted(m, "");
      }
    } else if r.path != [] {
      RemoveDotsExcludes(r.path, "", PathStops);
      if t.authority.Some? {
        RemoveDotsRooted(r.path, "");
      }
    }
    assert ComponentsOk(t);
    NormalizeComponents(t);
  }

  /** Any '/' in the path survives into UpToLastSlash. */
  lemma UpToLastSlashNonEmpty(s: string, i: nat)
    requires i < |s| && s[i] == '/'
    ensures |UpToLastSlash(s)| > i
  {
    if s[|s| - 1] != '/' {
      UpToLastSlashNonEmpty(s[..|s| - 1], i);
    }
  }

  /** A normalized absolute URI is a fixpoint of normalize() on strings, and still absolute. */
  lemma {:induction false} NormalAbsoluteIsNormal(u: Uri)
    requires NormalAbsolute(u)
    ensures IsAbsolute(Recompose(u))
    ensures NormalizeString(Recompose(u)) == Recompose(u)
  {
    var v := u;
    if u.authority.None? && StartsLikeAuthority(u.path) {
      // "scheme://..." built from a path: the first segment of the path reads as an authority
      var p := u.path;
      var k := 2 + IndexOfAny(p[2..], AuthorityStops);
      assert p[2..k] == p[2..][..k - 2];
      v := u.(authority := Some(p[2..k]), path := p[k..]);
      assert AfterScheme(v) == AfterScheme(u) by {
        assert p == "//" + p[2..k] + p[k..];
      }
      assert Recompose(v) == Recompose(u);
      assert DotFree(p[k..]) by {
        var q := p[1..];
        assert p[1..][..0] == [];
        IndexOfAnyUnique(p[1..], {'/'}, 0);
        assert SegmentEnd(p) == 1;
        assert DotFree(q);
        assert q[1..] == p[2..];
        if k < |p| {
          assert p[2..][k - 2] == p[k];
          assert p[k] !in PathStops;
        }
        IndexOfAnyUnique(q[1..], {'/'}, k - 2);
        assert SegmentEnd(q) == k - 1;
        assert q[k - 1..] == p[k..];
      }
    }
    assert WellFormed(v);
    SplitRecompose(v);
    RemoveDotSegmentsFixpoint(v.path);
    assert Normalize(v) == v;
  }

  /** "/" has no dot segment, so normalization leaves it alone. */
  lemma RootPathNormal()
    ensures RemoveDotSegments("/") == "/"
  {
    IndexOfAnyUnique("/"[1..], {'/'}, 0);
    assert DotFree("/"[1..]);
    RemoveDotSegmentsFixpoint("/");
  }

  /** Resolving "/" keeps the base's scheme and authority, sets the path to "/" and drops the
      query and the fragment. */
  lemma ResolveAgainstRoot(base: Uri)
    ensures Resolve(base, Root) == base.(path := "/", query := None, fragment := None)
  {
    RootPathNormal();
  }

  /** A fragment-only reference keeps the whole base but its fragment. */
  lemma ResolveFragmentOnly(base: Uri, f: string)
    ensures Split("#" + f) == Uri(None, None, "", None, Some(f))
    ensures Resolve(base, Split("#" + f)) == base.(fragment := Some(f))
  {
    var s := "#" + f;
    IndexOfAnyUnique(s, SchemeStops, 0);
    IndexOfAnyUnique(s, PathStops, 0);
    assert s[1..] == f;
  }
}
