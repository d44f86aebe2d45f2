# result-service: destination URLs, result fan-out, blank strings and entity equality

A model, in Dafny, of the logic core of TrasparenzAI's result-service: the service that stores
what the transparency crawler found on the web sites of Italian public administrations.

- **UrlResolver.getDestinationUrl** computes where a link found on a crawled page leads. The
  base is the page's URL (`realUrl`); the target is the link as written (`url`). It returns an
  absolute, normalized URL, or an empty Optional.
  - An absolute target is returned normalized, whatever the base.
  - An empty target gets no destination; a relative one needs an absolute base.
  - On a base with an empty path (`https://www.cnr.it`), a leading `..` of the target is
    dropped. A `#` target is resolved against the base re-rooted at `/`.
  - Every syntax error yields empty, except one: see "## Findings".

  The model parses, resolves and normalizes with RFC 3986:
  - the regular expression of Appendix B, and recomposition (section 5.3);
  - the strict transformation of references (section 5.2.2);
  - merge (section 5.2.3);
  - remove_dot_segments (section 5.2.4), written as its buffer-to-buffer loop, one rule per
    branch.

  The predicate `UriSyntax.IsUriReference` approximates the Java URI parser's accept/reject
  decision on the grammar modelled here (its finer rules are under "## Left out"):
  - only characters a reference may contain;
  - every `%` starts a two-hex-digit escape;
  - at most one `#`;
  - a scheme is a scheme name followed by a non-empty scheme-specific part;
  - an empty authority must be followed by something: `//` and `http://` alone are rejected.
- **ResultMapper.toResults** turns one bulk request (one page, the outcomes of every rule on
  it) into one `Result` per rule outcome, each completed with the page's fields. The
  `destinationUrl` of the shown and CSV views is `getDestinationUrl(realUrl, url)`.
- **WorkflowMapper.emptyToNull** maps blank strings (in the sense of `String.isBlank`) to null.
- **BaseEntity.equals**: the same object, or a non-null id equal to that of an object whose
  class is the receiver's class or a subclass of it.

A Java reference that may be null is an `Option` (`None` is null, or an empty Optional).

The tests of UrlJoinerTest.java at lines 51-65 and 93-95 need a `sanitize` step that
UrlResolver.java does not have; for them the model follows the code, not the tests:
- `javascript:` and `javascript: void()` get no destination. The first has nothing after the
  colon; the second holds a space. The tests expect the base back.
- `javascript:void(0);` is a valid absolute (opaque) reference and comes back unchanged.
- The target of line 93 holds a backslash, so it gets no destination. The test expects one.

`ResolverCases` proves the outcome of each getDestinationUrl test for the concrete URLs of the
test. Its general
cases take a host that is a non-empty name without `/`, `?` or `#`. The test at lines 67-69
(`?l1=1` on a page) expects the RFC 3986 result, which is what the model gives; java.net.URI
resolves it differently (see "## Left out").

The resolver's two special cases are compared with plain RFC 3986 resolution:
- For `../segment`, dropping `..` changes nothing: `ResolverCases.DotDotDropAgreesWithRfc`.
- For `..//name`, the dropped `..` turns the link into a network-path reference. The link then
  leaves for the host `name`, where RFC 3986 stays on the base's host:
  `ResolverCases.DotDotSlashSlashChangesHost`.
- For `#`, re-rooting gives `https://www.cnr.it/#`, without the base's query. RFC 3986 gives
  `https://www.cnr.it#` with the query: `UrlResolver.RfcFragmentKeepsRootlessBase`.

## Model

| member | source | states |
|---|---|---|
| UrlResolver.GetDestinationUrl | src/main/java/it/cnr/anac/transparency/result/utils/UrlResolver.java:29-59 | empty exactly when the target is null or does not parse, or is relative and either empty, or joined with a null, unparsable or non-absolute base, or is "..//" on a base with an empty path (whose re-parse fails); any result is absolute and already normalized |
| UrlResolver.BaseUri | src/main/java/it/cnr/anac/transparency/result/utils/UrlResolver.java:41-46 | computes the base as parsed and normalized (`build().normalize()`), by RFC 3986 remove_dot_segments; see "## Left out" for where java.net.URI normalizes differently |
| UrlResolver.AdjustedTarget | src/main/java/it/cnr/anac/transparency/result/utils/UrlResolver.java:47-49 | computes the target with its first two characters dropped when the base path is empty and the target starts with "..", the target itself otherwise |
| UrlResolver.AdjustedBase | src/main/java/it/cnr/anac/transparency/result/utils/UrlResolver.java:50-52 | computes the base resolved against "/" when the base path is empty and the (adjusted) target starts with "#", the base itself otherwise |
| UrlResolver.Join | src/main/java/it/cnr/anac/transparency/result/utils/UrlResolver.java:46-54 | joining a relative target with an absolute normalized base, after the two special cases, always gives an absolute URL that normalize() leaves unchanged |
| UrlResolver.GetDestinationUrlAsWritten | src/main/java/it/cnr/anac/transparency/result/utils/UrlResolver.java:32-57 | the call throws NullPointerException exactly for a null target, or a null base with a non-empty relative target; it throws IllegalArgumentException exactly for the target "..//" on a valid absolute base with an empty path; when it returns, it returns what GetDestinationUrl returns |
| UrlResolver.NullArgumentsThrow | src/main/java/it/cnr/anac/transparency/result/utils/UrlResolver.java:32-41 | as written, a null target and a null base (with a relative target) throw, where the corrected resolver returns empty |
| UrlResolver.AbsoluteTargetIgnoresBase | src/main/java/it/cnr/anac/transparency/result/utils/UrlResolver.java:32-35 | a valid absolute target yields its normalization, the same for every base, even a null one |
| UrlResolver.EmptyTargetFails | src/main/java/it/cnr/anac/transparency/result/utils/UrlResolver.java:36-39 | a null or empty target yields empty |
| UrlResolver.PathBaseResolvesTargetAsIs | src/main/java/it/cnr/anac/transparency/result/utils/UrlResolver.java:47-54 | on a base with a non-empty path, or for a target that starts with neither ".." nor "#", the target is resolved unchanged against the base |
| UrlResolver.RootlessBaseDropsDotDot | src/main/java/it/cnr/anac/transparency/result/utils/UrlResolver.java:47-53 | on a base with an empty path, a target starting with ".." is resolved without exactly those two characters; for "..//" the rest, "//", does not parse and there is no destination; a rest that is a fragment ("..#top") lands on the path "/" with no query |
| UrlResolver.RootlessBaseFragment | src/main/java/it/cnr/anac/transparency/result/utils/UrlResolver.java:50-52 | on a base with an empty path, a "#" target gives the base's scheme and host, path "/", no query, and the target's fragment |
| UrlResolver.RfcFragmentKeepsRootlessBase | src/main/java/it/cnr/anac/transparency/result/utils/UrlResolver.java:50-53 | plain RFC 3986 resolution of that "#" target would keep the empty path and the base's query |
| UrlResolver.ReparseCondition | src/main/java/it/cnr/anac/transparency/result/utils/UrlResolver.java:47-53 | the (possibly shortened) target that URI.resolve(String) parses again is still relative, and parses exactly unless the base has an empty path and the target is "..//" |
| UrlResolver.SlashSlashReparseThrows | src/main/java/it/cnr/anac/transparency/result/utils/UrlResolver.java:47-57 | on any valid absolute base with an empty path, "..//" parses but its remainder "//" does not: as written the call throws IllegalArgumentException, the corrected resolver gives empty |
| UriSyntax.Split | src/main/java/it/cnr/anac/transparency/result/utils/UrlResolver.java:32 | computes the five components of a string by the regular expression of RFC 3986 Appendix B; RecomposeSplit and SplitRecompose are its round trips |
| UriSyntax.IsUriReference | src/main/java/it/cnr/anac/transparency/result/utils/UrlResolver.java:32-57 | decides whether parsing (lines 32, 41 and 53) succeeds or throws URISyntaxException: legal characters, well-formed escapes, one "#", a well-formed scheme, no lone empty authority; the finer JDK grammar is under "## Left out" |
| UriSyntax.RecomposeSplit | src/main/java/it/cnr/anac/transparency/result/utils/UrlResolver.java:32 | splitting any string into its five components and recomposing them gives the string back |
| UriSyntax.SplitWellFormed | src/main/java/it/cnr/anac/transparency/result/utils/UrlResolver.java:32 | the components of any string are well delimited: each excludes the delimiters that end it, and a path without an authority cannot be read as an authority or a scheme |
| UriSyntax.SplitRecompose | src/main/java/it/cnr/anac/transparency/result/utils/UrlResolver.java:34 | recomposing well-delimited components and splitting the result gives the same components |
| UriSyntax.IndexOfAny | src/main/java/it/cnr/anac/transparency/result/utils/UrlResolver.java:32 | the first position of a delimiter: none before it, and a delimiter there unless it is the end |
| UriSyntax.AbsoluteReferenceHasScheme | src/main/java/it/cnr/anac/transparency/result/utils/UrlResolver.java:33 | a valid absolute reference has a scheme name as its scheme |
| UriSyntax.HierarchicalReference | src/main/java/it/cnr/anac/transparency/result/utils/UrlResolver.java:41-42 | "scheme://host" with a non-empty host, a rooted plain path and an optional query is a valid absolute reference that parses back into those components |
| DotSegments.RemoveDotSegments | src/main/java/it/cnr/anac/transparency/result/utils/UrlResolver.java:34-54 | computes remove_dot_segments of RFC 3986 section 5.2.4 by its buffer loop, the path part of normalize() at lines 34 and 54; the differences from java.net.URI are under "## Left out" |
| DotSegments.RemoveDotSegmentsFixpoint | src/main/java/it/cnr/anac/transparency/result/utils/UrlResolver.java:54 | the normalized path has no "." or ".." segment, and normalization leaves a path unchanged exactly when it has none |
| DotSegments.RemoveDotSegmentsIdempotent | src/main/java/it/cnr/anac/transparency/result/utils/UrlResolver.java:54 | normalizing twice is normalizing once |
| DotSegments.RemoveDotsCopies | src/main/java/it/cnr/anac/transparency/result/utils/UrlResolver.java:54 | a dot-free input is copied to the output unchanged |
| DotSegments.RemoveDotsDotFree | src/main/java/it/cnr/anac/transparency/result/utils/UrlResolver.java:54 | the loop never outputs a dot segment |
| DotSegments.RemoveDotsRooted | src/main/java/it/cnr/anac/transparency/result/utils/UrlResolver.java:53-54 | a path that starts with "/" still does after dot removal, and is empty afterwards only if it was empty before |
| DotSegments.RemoveDotsExcludes | src/main/java/it/cnr/anac/transparency/result/utils/UrlResolver.java:53-54 | dot removal introduces no character other than "/" |
| DotSegments.DropLastSegment | src/main/java/it/cnr/anac/transparency/result/utils/UrlResolver.java:53 | rule C's removal of the last output segment leaves a prefix of the output that ends before a "/" |
| DotSegments.DotFreeAppend | src/main/java/it/cnr/anac/transparency/result/utils/UrlResolver.java:54 | appending a non-dot segment to a dot-free path keeps it dot-free |
| UriResolution.Resolve | src/main/java/it/cnr/anac/transparency/result/utils/UrlResolver.java:51-53 | computes the strict transformation of references of RFC 3986 section 5.2.2, which stands for URI.resolve at lines 51 and 53; the differences from java.net.URI are under "## Left out" |
| UriResolution.Normalize | src/main/java/it/cnr/anac/transparency/result/utils/UrlResolver.java:34-54 | computes normalize(): the same components with dot segments removed from the path |
| UriResolution.ResolveNormalAbsolute | src/main/java/it/cnr/anac/transparency/result/utils/UrlResolver.java:53-54 | resolving any well-delimited reference against an absolute base gives an absolute URI with well-delimited components, dot-free once normalized |
| UriResolution.NormalAbsoluteIsNormal | src/main/java/it/cnr/anac/transparency/result/utils/UrlResolver.java:54 | the string of a normalized absolute URI is absolute and normalize() leaves it unchanged |
| UriResolution.ResolveAgainstRoot | src/main/java/it/cnr/anac/transparency/result/utils/UrlResolver.java:51 | resolving "/" keeps scheme and authority, sets the path to "/" and drops query and fragment |
| UriResolution.ResolveFragmentOnly | src/main/java/it/cnr/anac/transparency/result/utils/UrlResolver.java:53 | a fragment-only reference keeps everything of the base but the fragment |
| UriResolution.UpToLastSlash | src/main/java/it/cnr/anac/transparency/result/utils/UrlResolver.java:53 | the base path up to its last "/" (section 5.2.3) is a prefix ending in "/", or empty |
| ResolverCases.SegmentOnSite | src/main/java/it/cnr/anac/transparency/result/utils/UrlResolver.java:53-54 | a plain segment on "scheme://host" leads to "scheme://host/segment" |
| ResolverCases.RootedSegmentOnSite | src/main/java/it/cnr/anac/transparency/result/utils/UrlResolver.java:53-54 | "/segment" on "scheme://host" leads to "scheme://host/segment" |
| ResolverCases.DotDotSegmentOnSite | src/main/java/it/cnr/anac/transparency/result/utils/UrlResolver.java:47-54 | "../segment" on "scheme://host" leads to "scheme://host/segment" |
| ResolverCases.HashOnSite | src/main/java/it/cnr/anac/transparency/result/utils/UrlResolver.java:50-54 | "#" on "scheme://host" leads to "scheme://host/#" |
| ResolverCases.SegmentOnSiteRoot | src/main/java/it/cnr/anac/transparency/result/utils/UrlResolver.java:53-54 | a segment on "scheme://host/" leads to "scheme://host/segment" |
| ResolverCases.QueryOnPage | src/main/java/it/cnr/anac/transparency/result/utils/UrlResolver.java:53-54 | "?query" on "scheme://host/page" keeps the page and sets the query |
| ResolverCases.AbsoluteTargetUnchanged | src/main/java/it/cnr/anac/transparency/result/utils/UrlResolver.java:32-35 | "scheme://host/?query" is returned as it is, whatever the base |
| ResolverCases.BareSchemeFails | src/main/java/it/cnr/anac/transparency/result/utils/UrlResolver.java:55-57 | "scheme:" with nothing after the colon does not parse and gets no destination |
| ResolverCases.IllegalCharFails | src/main/java/it/cnr/anac/transparency/result/utils/UrlResolver.java:55-57 | a target holding a space, a backslash or another illegal character gets no destination |
| ResolverCases.OpaqueTargetUnchanged | src/main/java/it/cnr/anac/transparency/result/utils/UrlResolver.java:32-35 | "scheme:segment" is an opaque absolute reference and is returned as it is |
| ResolverCases.DotDotDropAgreesWithRfc | src/main/java/it/cnr/anac/transparency/result/utils/UrlResolver.java:47-49 | on a base with an empty path, RFC 3986 resolves ".." + p (p rooted) exactly as p |
| ResolverCases.DotDotSlashSlashChangesHost | src/main/java/it/cnr/anac/transparency/result/utils/UrlResolver.java:47-53 | "..//name" on "scheme://host" leads to "scheme://name", while RFC 3986 gives "scheme://host//name" |
| ResolverCases.DotDotSlashSlashOnSite | src/main/java/it/cnr/anac/transparency/result/utils/UrlResolver.java:47-57 | "..//" on "scheme://host" throws IllegalArgumentException as written, and gets no destination once corrected |
| ResolverCases.TestSegmentOnRootBase | src/test/java/it/cnr/anac/transparency/result/UrlJoinerTest.java:31-33 | ("https://www.cnr.it/", "amministrazione-trasparente") gives "https://www.cnr.it/amministrazione-trasparente" |
| ResolverCases.TestSegmentOnSite | src/test/java/it/cnr/anac/transparency/result/UrlJoinerTest.java:35-37 | ("https://www.cnr.it", "amministrazione-trasparente") gives the same URL |
| ResolverCases.TestRootedSegmentOnSite | src/test/java/it/cnr/anac/transparency/result/UrlJoinerTest.java:39-41 | ("https://www.cnr.it", "/amministrazione-trasparente") gives the same URL |
| ResolverCases.TestDotDotSegmentOnSite | src/test/java/it/cnr/anac/transparency/result/UrlJoinerTest.java:43-45 | ("https://www.cnr.it", "../amministrazione-trasparente") gives the same URL |
| ResolverCases.TestHashOnSite | src/test/java/it/cnr/anac/transparency/result/UrlJoinerTest.java:47-49 | ("https://www.cnr.it", "#") gives "https://www.cnr.it/#" |
| ResolverCases.TestBareJavascript | src/test/java/it/cnr/anac/transparency/result/UrlJoinerTest.java:51-57 | "javascript:" gets no destination (the tests expect the base) |
| ResolverCases.TestSpacedJavascript | src/test/java/it/cnr/anac/transparency/result/UrlJoinerTest.java:59-61 | "javascript: void()" gets no destination (the test expects the base) |
| ResolverCases.TestOpaqueJavascript | src/test/java/it/cnr/anac/transparency/result/UrlJoinerTest.java:63-65 | "javascript:void(0);" comes back unchanged (the test expects the base) |
| ResolverCases.TestQueryOnPage | src/test/java/it/cnr/anac/transparency/result/UrlJoinerTest.java:67-69 | "?l1=1" on the parcoaveto page gives the page with that query |
| ResolverCases.TestAbsoluteTarget | src/test/java/it/cnr/anac/transparency/result/UrlJoinerTest.java:74-78 | the absolute trasparenza-pa.net target comes back unchanged |
| ResolverCases.TestEmptyUrls | src/test/java/it/cnr/anac/transparency/result/UrlJoinerTest.java:83-88 | null target, null base, or both: empty |
| ResolverCases.TestBackslashTarget | src/test/java/it/cnr/anac/transparency/result/UrlJoinerTest.java:93-95 | the target with a backslash gets no destination (the test expects one) |
| ResultMapper.ToResults | src/main/java/it/cnr/anac/transparency/result/v1/dto/ResultMapper.java:78-99 | a null request gives the empty list; otherwise one Result per rule outcome, in order, holding that outcome's fields and the page's realUrl, company, storage data, workflow ids, error message and length |
| ResultMapper.Convert | src/main/java/it/cnr/anac/transparency/result/v1/dto/ResultMapper.java:76-86 | computes the Result of one rule outcome: its url, rule name, term, content, leaf flag, status, score and where, with every page field still null |
| ResultMapper.FieldsDetermineResult | src/main/java/it/cnr/anac/transparency/result/v1/dto/ResultMapper.java:86-93 | the rule's fields and the page's fields together fix every field of a Result |
| ResultMapper.PageFieldsShared | src/main/java/it/cnr/anac/transparency/result/v1/dto/ResultMapper.java:87-89 | all Results of one request have the same company, storage data and realUrl |
| ResultMapper.Destination | src/main/java/it/cnr/anac/transparency/result/v1/dto/ResultMapper.java:50-51 | a destination exists only for a non-null url and is absolute and normalized; a valid absolute url gives its own normalization |
| ResultMapper.ToShowDto | src/main/java/it/cnr/anac/transparency/result/v1/dto/ResultMapper.java:50-52 | the shown view of a Result keeps the Result and carries Destination(result) as destinationUrl |
| ResultMapper.ToShowDtos | src/main/java/it/cnr/anac/transparency/result/v1/dto/ResultMapper.java:54-56 | the list conversion converts every Result, in order |
| ResultMapper.ToCsvDto | src/main/java/it/cnr/anac/transparency/result/v1/dto/ResultMapper.java:58-61 | the CSV view of a Result keeps the Result and carries Destination(result), null for an empty Optional |
| ResultMapper.CsvAgreesWithShow | src/main/java/it/cnr/anac/transparency/result/v1/dto/ResultMapper.java:59-61 | the CSV destination is the shown one, null exactly when resolution gives empty |
| ResultMapper.DestinationOfCreatedResult | src/main/java/it/cnr/anac/transparency/result/v1/dto/ResultMapper.java:85-93 | a Result created from a request shows its rule's link resolved against the request's page |
| WorkflowMapper.IsBlank | src/main/java/it/cnr/anac/transparency/result/v1/dto/WorkflowMapper.java:42 | computes String.isBlank: every character is whitespace in the sense of Character.isWhitespace (so the empty string is blank) |
| WorkflowMapper.EmptyToNull | src/main/java/it/cnr/anac/transparency/result/v1/dto/WorkflowMapper.java:41-43 | null exactly for null or a blank string; otherwise the value itself, which is then not blank |
| WorkflowMapper.KeepsNonBlank | src/main/java/it/cnr/anac/transparency/result/v1/dto/WorkflowMapper.java:42 | a string with one non-whitespace character is kept |
| WorkflowMapper.EmptyAndNoBreakSpace | src/main/java/it/cnr/anac/transparency/result/v1/dto/WorkflowMapper.java:42 | "" and " \t\n" become null; a no-break space, which isBlank does not count as whitespace, is kept |
| WorkflowMapper.EmptyToNullIdempotent | src/main/java/it/cnr/anac/transparency/result/v1/dto/WorkflowMapper.java:42 | applying it twice is applying it once |
| Models.BaseEntity.Equals | src/main/java/it/cnr/anac/transparency/result/models/BaseEntity.java:61-80 | computes equals: false for null, true for the same object, false without an id or for an object whose class is not the receiver's class or a subclass, otherwise equality of ids; the Models lemmas below state its properties |
| Models.NeverEqualsNull | src/main/java/it/cnr/anac/transparency/result/models/BaseEntity.java:63-65 | no entity equals null |
| Models.EqualsReflexive | src/main/java/it/cnr/anac/transparency/result/models/BaseEntity.java:66-68 | every entity equals itself, even without an id |
| Models.NullIdEqualsOnlyItself | src/main/java/it/cnr/anac/transparency/result/models/BaseEntity.java:70-73 | an entity without an id equals exactly itself |
| Models.IncompatibleClassNeverEqual | src/main/java/it/cnr/anac/transparency/result/models/BaseEntity.java:75-77 | another object that is no entity, or whose class is not the receiver's class or a subclass, is never equal |
| Models.CompatibleEqualsById | src/main/java/it/cnr/anac/transparency/result/models/BaseEntity.java:79 | otherwise, with an id, equality holds exactly when the ids are equal |
| Models.SubclassAsymmetry | src/main/java/it/cnr/anac/transparency/result/models/BaseEntity.java:75 | an entity equals a subclass instance with its id, while the reverse call is false |
| Models.SameClassSymmetric | src/main/java/it/cnr/anac/transparency/result/models/BaseEntity.java:61-80 | between entities of one class, equals is symmetric |
| Models.EqualsTransitive | src/main/java/it/cnr/anac/transparency/result/models/BaseEntity.java:61-80 | equals is transitive |

## Findings

| source | as written | input that shows it | evidently intended | confidence | as-written member | corrected member |
|---|---|---|---|---|---|---|
| src/main/java/it/cnr/anac/transparency/result/utils/UrlResolver.java:32-41 | the target (line 32), and for a relative target the base (line 41), go to `new URIBuilder(String)` before the null check of line 36. The URI constructor throws NullPointerException on null, and line 55 catches only URISyntaxException | `getDestinationUrl("https://www.cnr.it", null)`; `getDestinationUrl(null, "/amministrazione-transparente")` | an empty Optional: line 36 tests the target for null, and UrlJoinerTest.java:83-88 expects empty | medium, not executed | UrlResolver.NullArgumentsThrow | UrlResolver.GetDestinationUrl |
| src/main/java/it/cnr/anac/transparency/result/utils/UrlResolver.java:47-57 | on a base with an empty path, line 48 turns the target "..//" into "//". Line 53's `URI.resolve(String)` parses it with `URI.create`, which rejects an empty authority with nothing after it and throws IllegalArgumentException; line 55 catches only URISyntaxException | `getDestinationUrl("https://www.cnr.it", "..//")` | an empty Optional, like every other target that does not parse | medium, not executed | UrlResolver.SlashSlashReparseThrows | UrlResolver.GetDestinationUrl |

## Left out

- Logging: the `log.warn` calls of UrlResolver.java (lines 37, 43, 56) are side effects only.
- `sanitize`: UrlResolver.java has no such method. The tests of UrlJoinerTest.java at lines
  51-65 and 93-95 are stated as the code behaves; those at lines 98-120 (`encodeUrl`,
  `encodeUrl2`, `saniteUrl`) call `sanitize` itself and are left out.
- UrlResolver.GetDestinationUrl: `URIBuilder.build()` may re-encode characters; the model leaves
  every valid string as parsed.
- UrlResolver.GetDestinationUrl: the JDK parser's finer grammar is not modelled:
  - IPv6 literals in brackets, and the rules for `[` and `]` elsewhere;
  - user info and port syntax;
  - the exact set of non-ASCII characters it accepts.
  A character is legal unless it is a control character, a space up to U+00A0, or one of
  the characters double quote, less-than, greater-than, backslash, caret, backquote, braces
  and vertical bar.
- UrlResolver.GetDestinationUrl: resolution and normalization follow RFC 3986 (section 5.2),
  where java.net.URI implements RFC 2396. The tests of UrlJoinerTest.java expect the RFC 3986
  results. The two differ on:
  - bases with an empty path, which the code's two special cases patch only in part;
  - an empty reference (what line 48 leaves of `..`): java.net.URI's resolve() takes the
    query from the reference, so `..` on `https://www.cnr.it?lang=it` gives
    `https://www.cnr.it`, where RFC 3986 keeps the base's query;
  - a query-only target on a base with a path: java.net.URI keeps the base path only up to its
    last "/" (`?l1=1` on `https://www.parcoaveto.it/amministrazione-trasparente.php` gives
    `https://www.parcoaveto.it/?l1=1`), RFC 3986 keeps the whole path;
  - ".." segments that climb above the root, which java.net.URI's normalize() keeps and
    RFC 3986 drops, and repeated slashes, which normalize() collapses;
  - an empty authority followed by a path, a query or a fragment (`///x`, `//?x`, `//#x`),
    which java.net.URI reads as no authority: `..//?x` on `https://www.cnr.it` gives
    `https://www.cnr.it?x` there, `https://?x` in the model.
- UrlResolver.GetDestinationUrl: an opaque base (`mailto:x`) has a null path in java.net.URI,
  so the code's special cases apply, and resolve() against an opaque URI returns its argument
  unchanged, a relative result; the model resolves the target against it as RFC 3986 does.
- UrlResolver.Join: does not model an opaque base, for the reason given above.
- UrlResolver.PathBaseResolvesTargetAsIs: an opaque base has a null path in java.net.URI and
  takes the special cases; the lemma treats it as a base with a path.
- UrlResolver.GetDestinationUrl: Java's normalize() of an opaque URI and of a relative path whose
  first segment holds a colon is not modelled separately.
- ResultMapper.ToResults: a null `resultRuleCreateDtos` list, or a null element of it, throws
  NullPointerException in the source. The model's sequence of values cannot be null.
- ResultMapper.ToResults: the Result is a record value. Each Result is a fresh object that the
  setters fill before anyone else sees it, so record updates say the same.
- ResultMapper.ToResults: the inherited `id`, `version`, `createdAt` and `updatedAt` stay null
  at this point and are not modelled.
- ResultMapper: the MapStruct-generated copies (`convert`, `convertTerse`, `convertCsvTerse`,
  `update`) are not visible. They are field-by-field copies: the DTO and entity share one
  datatype, and the other fields of ResultShowDto and ResultCsvDto are left out.
- Models.BaseEntity: the `version` field, `getLabel()` and serialization play no part in
  `equals` and are left out. A runtime class is its chain of class names from BaseEntity down.
- Controllers, repositories and queries, caching, MinIO object storage and CSV/JSON
  serialization are request glue or I/O outside the modelled core.
- `Workflow.equals` depends on Hibernate proxy classes and is not modelled.
