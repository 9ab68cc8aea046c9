/** A simplified model of what `java.net.URI` does with an origin string:
    it rejects illegal characters and a malformed scheme or authority, and
    yields the host of a server-based authority (`scheme://[userinfo@]host[:port]`).
    A hierarchical URI without an authority, an opaque URI and a
    registry-based authority have no host. */
module Uri {
  import opened Wrappers

  datatype ParsedUri = ParsedUri(scheme: Option<string>, host: Option<string>)

  /** Characters `java.net.URI` never accepts unescaped: ISO control characters,
      Unicode space separators (including the line and paragraph separators)
      and the ASCII punctuation outside every URI component. */
  predicate IsIllegalChar(c: char) {
    c <= ' ' || ('\U{7F}' <= c <= '\U{A0}') || c == '\U{1680}' || ('\U{2000}' <= c <= '\U{200A}')
    || c == '\U{2028}' || c == '\U{2029}' || c == '\U{202F}' || c == '\U{205F}' || c == '\U{3000}'
    || c == '"' || c == '<' || c == '>' || c == '\\' || c == '^' || c == '`'
    || c == '{' || c == '|' || c == '}' || c == '[' || c == ']'
  }

  predicate IsAlpha(c: char) {
    ('A' <= c <= 'Z') || ('a' <= c <= 'z')
  }

  predicate IsDigit(c: char) {
    '0' <= c <= '9'
  }

  /** Characters of a host name: letters, digits, '-' and '.'. */
  predicate IsHostChar(c: char) {
    IsAlpha(c) || IsDigit(c) || c == '-' || c == '.'
  }

  /** A scheme is a letter followed by letters, digits, '+', '-' or '.'. */
  predicate IsScheme(s: string) {
    |s| > 0 && IsAlpha(s[0])
    && forall i | 1 <= i < |s| :: IsAlpha(s[i]) || IsDigit(s[i]) || s[i] == '+' || s[i] == '-' || s[i] == '.'
  }

  /** The index of the first character of `s` that is in `stops`, or |s|. */
  function IndexOfAny(s: string, stops: string): (i: nat)
    ensures i <= |s| && (i < |s| ==> s[i] in stops)
    ensures forall j | 0 <= j < i :: s[j] !in stops
  {
    if s == [] then 0
    else if s[0] in stops then 0
    else 1 + IndexOfAny(s[1..], stops)
  }

  /** The first stop is found where the text that holds none ends. */
  lemma IndexOfAnyAfter(pre: string, rest: string, stops: string)
    requires forall i | 0 <= i < |pre| :: pre[i] !in stops
    requires |rest| > 0 && rest[0] in stops
    ensures IndexOfAny(pre + rest, stops) == |pre|
  {
    var s := pre + rest;
    assert s[|pre|] == rest[0];
    forall j | 0 <= j < |pre| ensures s[j] !in stops {
      assert s[j] == pre[j];
    }
  }

  /** The host of a non-empty authority, when it is server-based: after the
      first '@', before the first ':', made of host-name characters, with a
      port of digits only. */
  function ServerHost(authority: string): (h: Option<string>)
    ensures h.Some? ==> |h.value| > 0 && forall i | 0 <= i < |h.value| :: IsHostChar(h.value[i])
  {
    var at := IndexOfAny(authority, "@");
    var hostPort := if at < |authority| then authority[at + 1..] else authority;
    var colon := IndexOfAny(hostPort, ":");
    var host := hostPort[..colon];
    var port := if colon < |hostPort| then hostPort[colon + 1..] else "";
    if |host| > 0 && (forall i | 0 <= i < |host| :: IsHostChar(host[i]))
       && (forall i | 0 <= i < |port| :: IsDigit(port[i]))
    then Some(host)
    else None
  }

  /** An authority that is just a host name is its own host. */
  lemma ServerHostOfHostName(host: string)
    requires |host| > 0 && forall i | 0 <= i < |host| :: IsHostChar(host[i])
    ensures ServerHost(host) == Some(host)
  {
    assert IndexOfAny(host, "@") == |host|;
    assert IndexOfAny(host, ":") == |host|;
    assert host[..|host|] == host;
  }

  /** The hierarchical part: "//" starts an authority that runs to the first
      '/', '?' or '#'; an empty authority is accepted only before a path,
      query or fragment. */
  function ParseHierarchical(scheme: Option<string>, rest: string): Result<ParsedUri, string> {
    if |rest| >= 2 && rest[..2] == "//" then
      var end := 2 + IndexOfAny(rest[2..], "/?#");
      if end > 2 then Success(ParsedUri(scheme, ServerHost(rest[2..end])))
      else if end < |rest| then Success(ParsedUri(scheme, None))
      else Failure("Expected authority")
    else Success(ParsedUri(scheme, None))
  }

  /** `new java.net.URI(s)`; a Failure stands for URISyntaxException. */
  function Parse(s: string): (r: Result<ParsedUri, string>)
    ensures r.Success? ==> forall i | 0 <= i < |s| :: !IsIllegalChar(s[i])
  {
    if exists i | 0 <= i < |s| :: IsIllegalChar(s[i]) then Failure("Illegal character")
    else
      var p := IndexOfAny(s, ":/?#");
      if p < |s| && s[p] == ':' then
        if p == 0 then Failure("Expected scheme name")
        else if !IsScheme(s[..p]) then Failure("Illegal character in scheme name")
        else if p + 1 == |s| then Failure("Expected scheme-specific part")
        else if s[p + 1] == '/' then ParseHierarchical(Some(s[..p]), s[p + 1..])
        else Success(ParsedUri(Some(s[..p]), None))
      else ParseHierarchical(None, s)
  }
}
