/** What a browser does with a link: RFC 3986 component splitting (appendix B),
    reference resolution (section 5.2) and recomposition (section 5.3), and the
    proof that an accepted link never leaves the base's scheme and authority. */
module UriResolution {
  import opened Prelude
  import opened RelativeLinks

  datatype Reference = Reference(
    scheme: Option<string>, authority: Option<string>, path: string,
    query: Option<string>, fragment: Option<string>)

  /** Index of the first character of `s` found in `stops`, or `|s|`. */
  function FirstOf(s: string, stops: string): (i: nat)
    ensures i <= |s|
    ensures forall k :: 0 <= k < i ==> s[k] !in stops
    ensures i < |s| ==> s[i] in stops
  {
    if s == "" || s[0] in stops then 0 else 1 + FirstOf(s[1..], stops)
  }

  predicate Free(s: string, stops: string) {
    forall i :: 0 <= i < |s| ==> s[i] !in stops
  }

  // ---- Appendix B -------------------------------------------------------

  function Split(s: string): Reference {
    var colon := FirstOf(s, ":/?#");
    if 0 < colon < |s| && s[colon] == ':'
    then SplitHierarchy(Some(s[..colon]), s[colon + 1..])
    else SplitHierarchy(None, s)
  }

  function SplitHierarchy(scheme: Option<string>, s: string): Reference {
    if StartsWith(s, "//")
    then
      var end := FirstOf(s[2..], "/?#");
      SplitPath(scheme, Some(s[2..][..end]), s[2..][end..])
    else SplitPath(scheme, None, s)
  }

  function SplitPath(scheme: Option<string>, authority: Option<string>, s: string): Reference {
    var end := FirstOf(s, "?#");
    var (query, fragment) := SplitTail(s[end..]);
    Reference(scheme, authority, s[..end], query, fragment)
  }

  function SplitTail(s: string): (Option<string>, Option<string>) {
    if StartsWith(s, "?")
    then
      var end := FirstOf(s[1..], "#");
      (Some(s[1..][..end]), SplitFragment(s[1..][end..]))
    else (None, SplitFragment(s))
  }

  function SplitFragment(s: string): Option<string> {
    if StartsWith(s, "#") then Some(s[1..]) else None
  }

  // ---- Section 5.3 ------------------------------------------------------

  function Tail(r: Reference): string {
    (match r.query case Some(q) => "?" + q case None => "") + FragmentText(r.fragment)
  }

  function Hierarchy(r: Reference): string {
    (match r.authority case Some(a) => "//" + a case None => "") + (r.path + Tail(r))
  }

  function Recompose(r: Reference): string {
    match r.scheme
    case Some(scheme) => (scheme + ":") + Hierarchy(r)
    case None => Hierarchy(r)
  }

  // ---- Section 5.2 ------------------------------------------------------

  /** `s` up to, and without, its last '/'. */
  function BeforeLastSlash(s: string): (r: string)
    ensures r <= s
  {
    if s == "" then "" else if s[|s| - 1] == '/' then s[..|s| - 1] else BeforeLastSlash(s[..|s| - 1])
  }

  /** Section 5.2.4: one turn of the loop over the input and output buffers. */
  function Turn(input: string, output: string): (r: (string, string))
    requires input != ""
    ensures |r.0| < |input|
  {
    if StartsWith(input, "../") then (input[3..], output)
    else if StartsWith(input, "./") then (input[2..], output)
    else if StartsWith(input, "/./") then (input[2..], output)
    else if input == "/." then ("/", output)
    else if StartsWith(input, "/../") then (input[3..], BeforeLastSlash(output))
    else if input == "/.." then ("/", BeforeLastSlash(output))
    else if input == "." || input == ".." then ("", output)
    else
      var end := 1 + FirstOf(input[1..], "/");
      (input[end..], output + input[..end])
  }

  function RemoveDots(input: string, output: string): string
    decreases |input|
  {
    if input == "" then output else
      var (rest, moved) := Turn(input, output);
      RemoveDots(rest, moved)
  }

  function Merge(base: Reference, path: string): string {
    if base.authority.Some? && base.path == "" then "/" + path
    else if '/' in base.path then BeforeLastSlash(base.path) + "/" + path
    else path
  }

  function Resolve(base: Reference, r: Reference): Reference {
    if r.scheme.Some? then r.(path := RemoveDots(r.path, ""))
    else if r.authority.Some? then r.(scheme := base.scheme, path := RemoveDots(r.path, ""))
    else if r.path == "" then
      Reference(base.scheme, base.authority, base.path,
                if r.query.Some? then r.query else base.query, r.fragment)
    else
      var path := if StartsWith(r.path, "/") then r.path else Merge(base, r.path);
      Reference(base.scheme, base.authority, RemoveDots(path, ""), r.query, r.fragment)
  }

  // ---- Splitting undoes recomposition ------------------------------------

  /** The base of a resolution: an absolute URI whose components hold no
      delimiter that would end them early. */
  predicate IsBase(b: Reference) {
    && b.scheme.Some? && b.scheme.value != "" && Free(b.scheme.value, ":/?#")
    && (b.authority.Some? ==> Free(b.authority.value, "/?#"))
  }

  predicate WellFormedTail(r: Reference) {
    Free(r.path, "?#") && (r.query.Some? ==> Free(r.query.value, "#"))
  }

  lemma FirstOfConcat(a: string, b: string, stops: string)
    requires Free(a, stops) && (b == "" || b[0] in stops)
    ensures FirstOf(a + b, stops) == |a|
  {
    assert forall k :: 0 <= k < |a| ==> (a + b)[k] == a[k];
    assert b != "" ==> (a + b)[|a|] == b[0];
  }

  function FragmentText(fragment: Option<string>): string {
    match fragment
    case Some(f) => "#" + f
    case None => ""
  }

  lemma FragmentSplits(fragment: Option<string>)
    ensures SplitFragment(FragmentText(fragment)) == fragment
    ensures FragmentText(fragment) == "" || FragmentText(fragment)[0] == '#'
  {
    if fragment.Some? {
      assert ("#" + fragment.value)[1..] == fragment.value;
    }
  }

  lemma QuerySplits(q: string, f: string)
    requires Free(q, "#") && (f == "" || f[0] == '#')
    ensures SplitTail("?" + q + f) == (Some(q), SplitFragment(f))
  {
    FirstOfConcat(q, f, "#");
    assert ("?" + q + f)[1..] == q + f;
    assert (q + f)[..|q|] == q && (q + f)[|q|..] == f;
  }

  lemma SplitTailOfTail(r: Reference)
    requires WellFormedTail(r)
    ensures SplitTail(Tail(r)) == (r.query, r.fragment)
  {
    var f := FragmentText(r.fragment);
    FragmentSplits(r.fragment);
    match r.query {
      case Some(q) => QuerySplits(q, f);
      case None => assert Tail(r) == f;
    }
  }

  lemma SplitPathOfPath(scheme: Option<string>, r: Reference)
    requires WellFormedTail(r)
    ensures SplitPath(scheme, r.authority, r.path + Tail(r)) == r.(scheme := scheme)
  {
    var s := r.path + Tail(r);
    FirstOfConcat(r.path, Tail(r), "?#");
    assert s[..|r.path|] == r.path && s[|r.path|..] == Tail(r);
    SplitTailOfTail(r);
  }

  lemma SplitScheme(scheme: string, h: string)
    requires scheme != "" && Free(scheme, ":/?#")
    ensures Split((scheme + ":") + h) == SplitHierarchy(Some(scheme), h)
  {
    var s := (scheme + ":") + h;
    assert s == scheme + (":" + h);
    FirstOfConcat(scheme, ":" + h, ":/?#");
    assert s[..|scheme|] == scheme && s[|scheme| + 1..] == h;
  }

  lemma SplitAuthority(scheme: Option<string>, a: string, rest: string)
    requires Free(a, "/?#") && StartsWith(rest, "/")
    ensures SplitHierarchy(scheme, ("//" + a) + rest) == SplitPath(scheme, Some(a), rest)
  {
    var s := ("//" + a) + rest;
    FirstOfConcat(a, rest, "/?#");
    assert s[2..] == a + rest;
    assert (a + rest)[..|a|] == a && (a + rest)[|a|..] == rest;
  }

  lemma TailNeverOpensWithSlash(r: Reference)
    ensures Tail(r) == "" || Tail(r)[0] in "?#"
  {
  }

  /** Recomposing a rooted target and splitting the result gives the target back,
      unless the base had no authority and the path opens with "//". */
  lemma SplitRecompose(r: Reference)
    requires IsBase(r) && WellFormedTail(r) && StartsWith(r.path, "/")
    ensures r.authority.Some? || !StartsWith(r.path, "//") ==> Split(Recompose(r)) == r
    ensures r.authority.None? && StartsWith(r.path, "//") ==> Split(Recompose(r)).authority.Some?
    ensures Split(Recompose(r)).scheme == r.scheme
  {
    var rest := r.path + Tail(r);
    SplitScheme(r.scheme.value, Hierarchy(r));
    SplitPathOfPath(r.scheme, r);
    match r.authority {
      case Some(a) =>
        SplitAuthority(r.scheme, a, rest);
      case None =>
        assert Hierarchy(r) == rest;
        TailNeverOpensWithSlash(r);
        if StartsWith(rest, "//") {
          assert rest[0] == '/' && rest[1] == '/';
          assert |r.path| > 1;
          assert r.path[1] == rest[1];
        }
    }
  }

  // ---- Dot segments -------------------------------------------------------

  /** One turn keeps the buffers rooted and invents no character. */
  lemma TurnKeepsRooted(input: string, output: string, stops: string)
    requires output == "" || StartsWith(output, "/")
    requires StartsWith(input, "/") && Free(input, stops) && Free(output, stops)
    ensures var (rest, moved) := Turn(input, output);
      && (moved == "" || StartsWith(moved, "/"))
      && (StartsWith(rest, "/") || (rest == "" && StartsWith(moved, "/")))
      && Free(rest, stops) && Free(moved, stops)
  {
    assert input[0] == '/';
    assert !StartsWith(input, "../") && !StartsWith(input, "./");
    if !StartsWith(input, "/./") && input != "/." && !StartsWith(input, "/../") && input != "/.." {
      var end := 1 + FirstOf(input[1..], "/");
      assert end < |input| ==> input[end] == input[1..][end - 1];
    }
  }

  /** Removing dot segments keeps a path rooted and invents no character. */
  lemma {:induction false} RemoveDotsRooted(input: string, output: string, stops: string)
    requires output == "" || StartsWith(output, "/")
    requires StartsWith(input, "/") || (input == "" && StartsWith(output, "/"))
    requires Free(input, stops) && Free(output, stops)
    ensures StartsWith(RemoveDots(input, output), "/")
    ensures Free(RemoveDots(input, output), stops)
    decreases |input|
  {
    if input != "" {
      TurnKeepsRooted(input, output, stops);
      var (rest, moved) := Turn(input, output);
      RemoveDotsRooted(rest, moved, stops);
    }
  }

  // ---- The two results ----------------------------------------------------

  /** Section 4.2: a reference that begins with a single slash. */
  predicate IsAbsolutePathReference(r: Reference) {
    r.scheme.None? && r.authority.None? && StartsWith(r.path, "/")
  }

  /** The parser accepts exactly the absolute-path references, never a
      network-path one, over its allowed characters. */
  lemma AcceptsExactlyAbsolutePaths(s: string)
    ensures ParseLink(s).Ok? <==> (forall c :: c in s ==> Allowed(c)) && IsAbsolutePathReference(Split(s))
  {
    if s != "" {
      var colon := FirstOf(s, ":/?#");
      if s[0] == '/' {
        assert colon == 0;
        if !StartsWith(s, "//") {
          var end := FirstOf(s, "?#");
          assert end > 0;
          assert s[..end][0] == '/';
        } else {
          assert Split(s).authority.Some?;
        }
      } else if Split(s).scheme.None? && Split(s).authority.None? {
        var end := FirstOf(s, "?#");
        assert Split(s).path == s[..end];
      }
      assert forall i :: 0 <= i < |s| ==> s[i] in s;
    }
  }

  lemma LinkShape(link: RelativeLink)
    ensures IsAbsolutePathReference(Split(link)) && WellFormedTail(Split(link))
  {
    ParseLinkIsTotalOnLinks(link);
    AcceptsExactlyAbsolutePaths(link);
    var end := FirstOf(link, "?#");
    if StartsWith(link[end..], "?") {
      var tail := link[end..][1..];
      assert Split(link).query == Some(tail[..FirstOf(tail, "#")]);
    }
  }

  /** Whatever the base and however many dot segments the link carries, the
      resolved URI, written out and read again, keeps the base's scheme. It keeps
      the base's authority exactly when the base has one or the link's path,
      dots removed, does not open with "//". */
  lemma ResolutionStaysOnTheBase(base: Reference, link: RelativeLink)
    requires IsBase(base)
    ensures var target := Resolve(base, Split(link));
            var seen := Split(Recompose(target));
            && seen.scheme == base.scheme
            && (seen.authority == base.authority
                <==> base.authority.Some? || !StartsWith(RemoveDots(Split(link).path, ""), "//"))
            && (seen.authority == base.authority ==> seen == target)
  {
    LinkShape(link);
    var path := Split(link).path;
    RemoveDotsRooted(path, "", "?#");
    SplitRecompose(Resolve(base, Split(link)));
  }

  /** A segment that is no dot segment moves to the output whole. */
  lemma MovesOneSegment(segment: string, rest: string, output: string)
    requires StartsWith(segment, "/") && Free(segment[1..], "/.") && (rest == "" || rest[0] == '/')
    ensures Turn(segment + rest, output) == (rest, output + segment)
  {
    var input := segment + rest;
    assert input[1..] == segment[1..] + rest;
    FirstOfConcat(segment[1..], rest, "/");
    assert input[..|segment|] == segment && input[|segment|..] == rest;
    assert input[0] == '/';
    assert |input| > 1 ==> input[1] != '.';
  }

  /** A single dot is nothing. */
  lemma ADotIsNothing(rest: string, output: string)
    requires StartsWith(rest, "/")
    ensures RemoveDots("/." + rest, output) == RemoveDots(rest, output)
  {
    var input := "/." + rest;
    assert input[..3] == "/./" && input[2..] == rest;
    assert input[0] == '/' && input[1] == '.' && input[2] == '/';
  }

  /** Two dots take back the segment before them. */
  lemma TwoDotsTakeBack(segment: string, rest: string, output: string)
    requires StartsWith(rest, "/") && StartsWith(segment, "/") && '/' !in segment[1..]
    ensures RemoveDots("/.." + rest, output + segment) == RemoveDots(rest, output)
  {
    var input := "/.." + rest;
    assert input[..4] == "/../" && input[3..] == rest;
    assert input[0] == '/' && input[1] == '.' && input[2] == '.';
    LastSegmentGoes(output, segment);
  }

  lemma {:induction false} LastSegmentGoes(output: string, segment: string)
    requires StartsWith(segment, "/") && '/' !in segment[1..]
    ensures BeforeLastSlash(output + segment) == output
    decreases |segment|
  {
    var s := output + segment;
    assert s[|s| - 1] == segment[|segment| - 1];
    if |segment| > 1 {
      var shorter := segment[..|segment| - 1];
      assert segment[|segment| - 1] in segment[1..];
      assert s[..|s| - 1] == output + shorter;
      assert forall c :: c in shorter[1..] ==> c in segment[1..];
      LastSegmentGoes(output, shorter);
    } else {
      assert s[..|s| - 1] == output;
    }
  }

  /** Two dots at the front leave what follows them. */
  lemma DropsTheDots(rest: string)
    requires StartsWith(rest, "/")
    ensures Turn("/.." + rest, "") == (rest, "")
  {
    var input := "/.." + rest;
    assert input[..4] == "/../" && input[3..] == rest;
    assert input[0] == '/' && input[1] == '.' && input[2] == '.';
  }

  lemma UncoveredPath()
    ensures RemoveDots("/..//e", "") == "//e"
  {
    DropsTheDots("//e");
    MovesOneSegment("/", "/e", "");
    MovesOneSegment("/e", "", "/");
    assert "/.." + "//e" == "/..//e" && "/" + "/e" == "//e" && "" + "/" == "/" && "/e" + "" == "/e";
    assert RemoveDots("", "//e") == "//e";
    assert RemoveDots("/e", "/") == RemoveDots("", "//e");
    assert RemoveDots("//e", "") == RemoveDots("/e", "/");
  }

  lemma UncoveringLink()
    ensures ParseLink("/..//e").Ok? && Split("/..//e").path == "/..//e"
  {
    var link := "/..//e";
    assert forall i :: 0 <= i < |link| ==> Allowed(link[i]);
    FirstOfConcat(link, "", "?#");
    assert link + "" == link && link[0] == '/' && link[1] == '.';
  }

  /** The excluded family is inhabited: against a base without authority the dot
      segments of an accepted link uncover a network-path reference. */
  lemma DotSegmentsCanUncoverAnAuthority(base: Reference)
    requires IsBase(base) && base.authority.None?
    ensures ParseLink("/..//e").Ok?
    ensures Split(Recompose(Resolve(base, Split("/..//e")))).authority != base.authority
  {
    UncoveringLink();
    UncoveredPath();
    ResolutionStaysOnTheBase(base, "/..//e");
  }
}
