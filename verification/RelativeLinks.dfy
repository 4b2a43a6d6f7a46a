/** The only navigable field of a notification: a link that stays on the domain
    it is rendered on. */
module RelativeLinks {
  import opened Prelude

  datatype LinkError = Empty | ForbiddenCharacter | Backslash | NotRooted | SchemeRelative

  /** Unicode category Cc. */
  predicate IsControl(c: char) {
    c <= '\U{1F}' || '\U{7F}' <= c <= '\U{9F}'
  }

  /** Unicode property White_Space. */
  predicate IsWhitespace(c: char) {
    || '\U{9}' <= c <= '\U{D}' || c == ' ' || c == '\U{85}' || c == '\U{A0}' || c == '\U{1680}'
    || '\U{2000}' <= c <= '\U{200A}' || '\U{2028}' <= c <= '\U{2029}' || c == '\U{202F}'
    || c == '\U{205F}' || c == '\U{3000}'
  }

  /** The 25 White_Space characters of Unicode and its 65 control characters, one
      by one. */
  lemma CharacterClasses(c: char)
    ensures IsWhitespace(c) <==> c in {
      '\U{9}', '\U{A}', '\U{B}', '\U{C}', '\U{D}', '\U{20}', '\U{85}', '\U{A0}', '\U{1680}', '\U{2000}', '\U{2001}',
      '\U{2002}', '\U{2003}', '\U{2004}', '\U{2005}', '\U{2006}', '\U{2007}', '\U{2008}', '\U{2009}', '\U{200A}',
      '\U{2028}', '\U{2029}', '\U{202F}', '\U{205F}', '\U{3000}'}
    ensures IsControl(c) <==> c as int < 32 || 127 <= c as int < 160
  {
  }

  predicate Allowed(c: char) {
    !IsControl(c) && !IsWhitespace(c) && c != '\\'
  }

  predicate StartsWith(s: string, prefix: string) {
    prefix <= s
  }

  type RelativeLink = s: string |
    (forall i :: 0 <= i < |s| ==> Allowed(s[i])) && StartsWith(s, "/") && !StartsWith(s, "//")
    witness "/"

  function ParseLink(candidate: string): (r: Result<RelativeLink, LinkError>)
    ensures r.Ok? ==> r.value == candidate
    ensures r.Ok? <==> (forall i :: 0 <= i < |candidate| ==> Allowed(candidate[i]))
                       && StartsWith(candidate, "/") && !StartsWith(candidate, "//")
    ensures r == Err(Empty) <==> candidate == ""
    ensures r == Err(ForbiddenCharacter) <==> exists c :: c in candidate && (IsControl(c) || IsWhitespace(c))
    ensures r == Err(Backslash)
            <==> '\\' in candidate && forall c :: c in candidate ==> !IsControl(c) && !IsWhitespace(c)
    ensures r == Err(NotRooted)
            <==> candidate != "" && candidate[0] != '/' && forall c :: c in candidate ==> Allowed(c)
    ensures r == Err(SchemeRelative) <==> StartsWith(candidate, "//") && forall c :: c in candidate ==> Allowed(c)
  {
    if candidate == "" then Err(Empty)
    else if exists i :: 0 <= i < |candidate| && (IsControl(candidate[i]) || IsWhitespace(candidate[i]))
    then Err(ForbiddenCharacter)
    else if '\\' in candidate then Err(Backslash)
    else if !StartsWith(candidate, "/") then Err(NotRooted)
    else if StartsWith(candidate, "//") then Err(SchemeRelative)
    else Ok(candidate)
  }

  /** A stored link is read back unchanged: the parser accepts its own output. */
  lemma ParseLinkIsTotalOnLinks(link: RelativeLink)
    ensures ParseLink(link) == Ok(link)
  {
    assert link[0] == '/';
  }
}
