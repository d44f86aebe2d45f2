/**
 * Section 5.2.4 of RFC 3986, remove_dot_segments, written as the buffer-to-buffer loop of the
 * standard, one rule per branch. java.net.URI.normalize() differs from it on ".." segments that
 * would climb above the root and on repeated slashes.
 */
module DotSegments {

  import opened UriSyntax

  /** End of the first segment of p: its leading '/' (if any) and what follows up to the next '/'. */
  function SegmentEnd(p: string): (n: nat)
    requires p != []
    ensures 0 < n <= |p|
    ensures n < |p| ==> p[n] == '/'
    ensures forall i :: 0 < i < n ==> p[i] != '/'
  {
    if p[0] == '/' then
      var n := 1 + IndexOfAny(p[1..], {'/'});
      assert forall i :: 0 < i < n ==> p[i] == p[1..][..n - 1][i - 1];
      n
    else
      var n := IndexOfAny(p, {'/'});
      assert forall i :: 0 < i < n ==> p[i] == p[..n][i];
      n
  }

  /** The segments "." and "..", with or without their leading slash. */
  predicate IsDotSegment(seg: string) {
    seg == "." || seg == ".." || seg == "/." || seg == "/.."
  }

  /** No segment of p is "." or "..". */
  predicate DotFree(p: string)
    decreases |p|
  {
    p == [] || (!IsDotSegment(p[..SegmentEnd(p)]) && DotFree(p[SegmentEnd(p)..]))
  }

  /** "removing the last segment and its preceding "/" (if any) from the output buffer" */
  function DropLastSegment(s: string): (r: string)
    ensures r <= s
    ensures r == [] || (|r| < |s| && s[|r|] == '/')
  {
    if s == [] then []
    else if s[|s| - 1] == '/' then s[..|s| - 1]
    else DropLastSegment(s[..|s| - 1])
  }

  /** The loop of section 5.2.4, one step per call: input buffer in, output buffer out. */
  function RemoveDots(input: string, output: string): string
    decreases |input|
  {
    if input == [] then output
    else if "../" <= input then RemoveDots(input[3..], output)                      // rule A
    else if "./" <= input then RemoveDots(input[2..], output)                       // rule A
    else if "/./" <= input then RemoveDots(input[2..], output)                      // rule B
    else if input == "/." then RemoveDots("/", output)                              // rule B
    else if "/../" <= input then RemoveDots(input[3..], DropLastSegment(output))    // rule C
    else if input == "/.." then RemoveDots("/", DropLastSegment(output))            // rule C
    else if input == "." || input == ".." then output                               // rule D
    else
      var n := SegmentEnd(input);                                                   // rule E
      RemoveDots(input[n..], output + input[..n])
  }

  function RemoveDotSegments(path: string): string {
    RemoveDots(path, "")
  }

  // ---------------------------------------------------------------------------------------
  // Segment lemmas
  // ---------------------------------------------------------------------------------------

  /** Cutting a path at a '/' keeps the segments before the cut whole. */
  lemma SegmentEndOfPrefix(p: string, k: nat)
    requires p != [] && SegmentEnd(p) <= k <= |p|
    ensures SegmentEnd(p[..k]) == SegmentEnd(p)
  {
    var q := p[..k];
    var n := SegmentEnd(p);
    if p[0] == '/' {
      assert q[1..] == p[1..][..k - 1];
      IndexOfAnyUnique(q[1..], {'/'}, n - 1);
    } else {
      IndexOfAnyUnique(q, {'/'}, n);
    }
  }

  lemma {:induction false} DotFreePrefix(p: string, k: nat)
    requires DotFree(p) && k < |p| && p[k] == '/'
    ensures DotFree(p[..k])
    decreases |p|
  {
    var n := SegmentEnd(p);
    if n <= k {
      SegmentEndOfPrefix(p, k);
      assert p[..k][..n] == p[..n];
      assert p[..k][n..] == p[n..][..k - n];
      if k > n {
        DotFreePrefix(p[n..], k - n);
      }
    }
  }

  lemma DropLastSegmentDotFree(s: string)
    requires DotFree(s)
    ensures DotFree(DropLastSegment(s))
  {
    var r := DropLastSegment(s);
    if r != [] {
      DotFreePrefix(s, |r|);
      assert s[..|r|] == r;
    }
  }

  /** Appending one more non-dot segment to a dot-free path keeps it dot-free. */
  lemma {:induction false} DotFreeAppend(a: string, seg: string)
    requires DotFree(a) && seg != [] && SegmentEnd(seg) == |seg| && !IsDotSegment(seg)
    requires a == [] || seg[0] == '/'
    ensures DotFree(a + seg)
    decreases |a|
  {
    if a == [] {
      assert a + seg == seg;
      assert seg[SegmentEnd(seg)..] == [];
    } else {
      var n := SegmentEnd(a);
      var s := a + seg;
      SegmentEndAppend(a, seg);
      assert s[..n] == a[..n];
      assert s[n..] == a[n..] + seg;
      DotFreeAppend(a[n..], seg);
    }
  }

  lemma SegmentEndAppend(a: string, seg: string)
    requires a != [] && (seg == [] || seg[0] == '/')
    ensures SegmentEnd(a + seg) == SegmentEnd(a)
  {
    var s := a + seg;
    var n := SegmentEnd(a);
    if s[0] == '/' {
      assert s[1..][..n - 1] == a[1..][..n - 1];
      IndexOfAnyUnique(s[1..], {'/'}, n - 1);
    } else {
      assert s[..n] == a[..n];
      IndexOfAnyUnique(s, {'/'}, n);
    }
  }

  // ---------------------------------------------------------------------------------------
  // What remove_dot_segments computes
  // ---------------------------------------------------------------------------------------

  /** Between steps, the input buffer starts with '/' unless nothing has been output yet. */
  predicate Resumable(input: string, output: string) {
    output == [] || input == [] || input[0] == '/'
  }

  /** Every rule guard describes a path whose first segment is a dot segment. */
  lemma {:induction false} DotRulesNeedDotSegment(input: string)
    requires input != []
    requires || "../" <= input || "./" <= input || "/./" <= input || input == "/."
             || "/../" <= input || input == "/.." || input == "." || input == ".."
    ensures IsDotSegment(input[..SegmentEnd(input)])
  {
    if "../" <= input {
      IndexOfAnyUnique(input, {'/'}, 2);
    } else if "./" <= input {
      IndexOfAnyUnique(input, {'/'}, 1);
    } else if "/./" <= input {
      IndexOfAnyUnique(input[1..], {'/'}, 1);
    } else if "/../" <= input {
      IndexOfAnyUnique(input[1..], {'/'}, 2);
    } else if input == "/." {
      IndexOfAnyUnique(input[1..], {'/'}, 1);
    } else if input == "/.." {
      IndexOfAnyUnique(input[1..], {'/'}, 2);
    } else if input == "." {
      IndexOfAnyUnique(input, {'/'}, 1);
    } else {
      IndexOfAnyUnique(input, {'/'}, 2);
    }
  }

  lemma OnlyRuleEApplies(input: string)
    requires input != [] && !IsDotSegment(input[..SegmentEnd(input)])
    ensures && !("../" <= input) && !("./" <= input) && !("/./" <= input) && input != "/."
            && !("/../" <= input) && input != "/.." && input != "." && input != ".."
  {
    if || "../" <= input || "./" <= input || "/./" <= input || input == "/."
       || "/../" <= input || input == "/.." || input == "." || input == ".." {
      DotRulesNeedDotSegment(input);
    }
  }

  /** The output buffer only ever receives non-dot segments. */
  lemma {:induction false} RemoveDotsDotFree(input: string, output: string)
    requires DotFree(output) && Resumable(input, output)
    ensures DotFree(RemoveDots(input, output))
    decreases |input|
  {
    if input == [] {
    } else if "../" <= input {
      RemoveDotsDotFree(input[3..], output);
    } else if "./" <= input {
      RemoveDotsDotFree(input[2..], output);
    } else if "/./" <= input {
      RemoveDotsDotFree(input[2..], output);
    } else if input == "/." {
      RemoveDotsDotFree("/", output);
    } else if "/../" <= input {
      DropLastSegmentDotFree(output);
      RemoveDotsDotFree(input[3..], DropLastSegment(output));
    } else if input == "/.." {
      DropLastSegmentDotFree(output);
      RemoveDotsDotFree("/", DropLastSegment(output));
    } else if input == "." || input == ".." {
    } else {
      var n := SegmentEnd(input);
      var seg := input[..n];
      SegmentEndOfPrefix(input, n);
      DotFreeAppend(output, seg);
      RemoveDotsDotFree(input[n..], output + seg);
    }
  }

  /** On a dot-free input no rule but E ever fires, so the input is copied unchanged. */
  lemma {:induction false} RemoveDotsCopies(input: string, output: string)
    requires DotFree(input) && Resumable(input, output)
    ensures RemoveDots(input, output) == output + input
    decreases |input|
  {
    if input != [] {
      var n := SegmentEnd(input);
      OnlyRuleEApplies(input);
      assert RemoveDots(input, output) == RemoveDots(input[n..], output + input[..n]);
      RemoveDotsCopies(input[n..], output + input[..n]);
      assert output + input[..n] + input[n..] == output + input;
    }
  }

  /** The fixpoints of remove_dot_segments are exactly the dot-free paths. */
  lemma RemoveDotSegmentsFixpoint(path: string)
    ensures DotFree(RemoveDotSegments(path))
    ensures RemoveDotSegments(path) == path <==> DotFree(path)
  {
    RemoveDotsDotFree(path, "");
    if DotFree(path) {
      RemoveDotsCopies(path, "");
      assert "" + path == path;
    }
  }

  /** Removing dot segments twice is the same as removing them once. */
  lemma RemoveDotSegmentsIdempotent(path: string)
    ensures RemoveDotSegments(RemoveDotSegments(path)) == RemoveDotSegments(path)
  {
    RemoveDotSegmentsFixpoint(path);
    RemoveDotSegmentsFixpoint(RemoveDotSegments(path));
  }

  predicate Rooted(p: string) {
    p == [] || p[0] == '/'
  }

  /** An absolute path stays absolute when its dot segments are removed: the result starts
      with '/', and is empty only when there was nothing to start from. */
  lemma {:induction false} RemoveDotsRooted(input: string, output: string)
    requires Rooted(input) && Rooted(output)
    ensures Rooted(RemoveDots(input, output))
    ensures input != [] || output != [] ==> RemoveDots(input, output) != []
    decreases |input|
  {
    if input == [] {
    } else if "/./" <= input {
      RemoveDotsRooted(input[2..], output);
    } else if input == "/." {
      RemoveDotsRooted("/", output);
    } else if "/../" <= input {
      RemoveDotsRooted(input[3..], DropLastSegment(output));
    } else if input == "/.." {
      RemoveDotsRooted("/", DropLastSegment(output));
    } else {
      var n := SegmentEnd(input);
      RemoveDotsRooted(input[n..], output + input[..n]);
    }
  }

  /** remove_dot_segments introduces no character but '/'. */
  lemma {:induction false} RemoveDotsExcludes(input: string, output: string, stops: set<char>)
    requires '/' !in stops && Excludes(input, stops) && Excludes(output, stops)
    ensures Excludes(RemoveDots(input, output), stops)
    decreases |input|
  {
    if input == [] {
    } else if "../" <= input {
      RemoveDotsExcludes(input[3..], output, stops);
    } else if "./" <= input {
      RemoveDotsExcludes(input[2..], output, stops);
    } else if "/./" <= input {
      RemoveDotsExcludes(input[2..], output, stops);
    } else if input == "/." {
      RemoveDotsExcludes("/", output, stops);
    } else if "/../" <= input {
      RemoveDotsExcludes(input[3..], DropLastSegment(output), stops);
    } else if input == "/.." {
      RemoveDotsExcludes("/", DropLastSegment(output), stops);
    } else if input == "." || input == ".." {
    } else {
      var n := SegmentEnd(input);
      RemoveDotsExcludes(input[n..], output + input[..n], stops);
    }
  }
}
