/**
 * `extractOrigin` and `absolutifyURLs` of rrweb-snapshot's utils: every `url(...)` reference in a
 * stylesheet text is rewritten against the stylesheet's `href`, keeping its quote character.
 * The global regular expression that finds the references is modelled as a left-to-right scan.
 */
module CssUrls {
  import opened Wrappers
  import opened StringUtils

  function Min(a: int, b: int): int { if a <= b then a else b }

  /** `extractOrigin`: the first three '/'-pieces when the URL holds "//", else the first; then cut at '?'. */
  function ExtractOrigin(url: string): (origin: string)
    ensures IsPrefix(origin, url)
    ensures '?' !in origin
    ensures !Contains(url, "//") ==> '/' !in origin
  {
    var parts := Split(url, '/');
    var o := if Contains(url, "//") then Join(parts[..Min(3, |parts|)], '/') else parts[0];
    assert IsPrefix(o, url) by {
      if Contains(url, "//") { JoinSplitPrefix(url, '/', Min(3, |parts|)); } else { SplitHeadIsPrefix(url, '/'); }
    }
    SplitHeadIsPrefix(o, '?');
    Split(o, '?')[0]
  }

  /** "scheme://host/rest" splits at '/' into "scheme:", "", "host" and the pieces of rest. */
  lemma SchemeHostPieces(scheme: string, host: string, rest: string)
    requires '/' !in scheme && '/' !in host
    ensures Contains(scheme + "://" + host + "/" + rest, "//")
    ensures Split(scheme + "://" + host + "/" + rest, '/') == [scheme + ":", [], host] + Split(rest, '/')
  {
    var url := scheme + "://" + host + "/" + rest;
    assert url == scheme + ":" + "//" + (host + "/" + rest);
    ContainsInfix(scheme + ":", "//", host + "/" + rest);
    assert url == (scheme + ":") + ['/'] + ([] + ['/'] + (host + ['/'] + rest));
    SplitAfterPiece(scheme + ":", [] + ['/'] + (host + ['/'] + rest), '/');
    SplitAfterPiece([], host + ['/'] + rest, '/');
    SplitAfterPiece(host, rest, '/');
  }

  lemma JoinSchemeHost(scheme: string, host: string)
    ensures Join([scheme + ":", [], host], '/') == scheme + "://" + host
  {
    assert Join([[], host], '/') == [] + ['/'] + host;
    assert Join([scheme + ":", [], host], '/') == (scheme + ":") + ['/'] + ([] + ['/'] + host);
  }

  /** The origin of "scheme://host/rest" is "scheme://host" when neither part holds '/' or '?'. */
  lemma OriginOfSchemeAndHost(scheme: string, host: string, rest: string)
    requires '/' !in scheme && '/' !in host && '?' !in scheme && '?' !in host
    ensures ExtractOrigin(scheme + "://" + host + "/" + rest) == scheme + "://" + host
  {
    var url := scheme + "://" + host + "/" + rest;
    SchemeHostPieces(scheme, host, rest);
    var parts := Split(url, '/');
    assert parts[..3] == [scheme + ":", [], host];
    JoinSchemeHost(scheme, host);
    SplitNoSep(scheme + "://" + host, '?');
  }

  // ---- the three tests applied to a file path ----

  predicate IsSchemeChar(c: char) {
    ('a' <= c <= 'z') || ('A' <= c <= 'Z') || c == '+'
  }

  /** The number of leading characters of `s` that may belong to a scheme. */
  function SchemeRun(s: string): (n: nat)
    ensures n <= |s|
  {
    if s != [] && IsSchemeChar(s[0]) then 1 + SchemeRun(s[1..]) else 0
  }

  /** `/^(?:[a-z+]+:)?\/\//i`: an optional scheme with its colon, then "//". */
  predicate ProtocolMatch(p: string) {
    IsPrefix("//", p) || (SchemeRun(p) >= 1 && IsPrefix("://", p[SchemeRun(p)..]))
  }

  /** `/^www\..*\/i` */
  predicate WwwMatch(p: string) {
    |p| >= 4 && ToLower(p[..4]) == "www."
  }

  /** `/^(data:)([^,]*),(.*)/i`: "data:" in any case, then a comma somewhere later. */
  predicate DataUri(p: string) {
    |p| >= 5 && ToLower(p[..5]) == "data:" && ',' in p[5..]
  }

  // ---- the reference pattern /url\((?:(')([^']*)'|(")(.*?)"|([^)]*))\)/gm ----

  /** One match: its quote ('' for the unquoted form), the captured path, and its total length. */
  datatype UrlMatch = UrlMatch(quote: string, path: string, len: nat)

  function IndexOf(s: string, c: char): (i: nat)
    ensures i <= |s|
    ensures i < |s| ==> s[i] == c
    ensures forall k :: 0 <= k < i ==> s[k] != c
  {
    if s == [] || s[0] == c then 0 else 1 + IndexOf(s[1..], c)
  }

  predicate IsLineTerminator(c: char) {
    c == '\n' || c == '\r' || c == '\U{2028}' || c == '\U{2029}'
  }

  /** `(.*?)"\)` on `t`: the shortest run without line terminators that is followed by `")`. */
  function LazyQuoteParen(t: string): (j: Option<nat>)
    ensures j.Some? ==> j.value + 2 <= |t| && t[j.value] == '"' && t[j.value + 1] == ')'
    ensures j.Some? ==> forall k :: 0 <= k < j.value ==> !IsLineTerminator(t[k])
  {
    if |t| >= 2 && t[0] == '"' && t[1] == ')' then Some(0)
    else if t == [] || IsLineTerminator(t[0]) then None
    else match LazyQuoteParen(t[1..])
      case Some(j) => Some(j + 1)
      case None => None
  }

  /** The unquoted alternative `([^)]*)\)` applied after "url(". */
  function UnquotedAlt(r: string): (m: Option<UrlMatch>)
    ensures m.Some? ==> 5 <= m.value.len <= |r| + 4 && m.value.quote == "" && ')' !in m.value.path
  {
    var j := IndexOf(r, ')');
    if j < |r| then Some(UrlMatch("", r[..j], 4 + j + 1)) else None
  }

  /** The match of the reference pattern that starts at the beginning of `s`, if any. */
  function MatchUrlAt(s: string): (m: Option<UrlMatch>)
    ensures m.Some? ==> 5 <= m.value.len <= |s| && IsPrefix("url(", s) && s[m.value.len - 1] == ')'
    ensures m.Some? ==> m.value.quote in {"", "'", "\""}
  {
    if !IsPrefix("url(", s) then None
    else
      var r := s[4..];
      if r != [] && r[0] == '\'' && 1 + IndexOf(r[1..], '\'') + 1 < |r| && r[2 + IndexOf(r[1..], '\'')] == ')' then
        var j := IndexOf(r[1..], '\'');
        Some(UrlMatch("'", r[1..1 + j], 4 + j + 3))
      else if r != [] && r[0] == '"' && LazyQuoteParen(r[1..]).Some? then
        var j := LazyQuoteParen(r[1..]).value;
        Some(UrlMatch("\"", r[1..1 + j], 4 + j + 3))
      else
        UnquotedAlt(r)
  }

  /** The matched text is "url(" + quote + path + quote + ")". */
  lemma MatchedText(s: string)
    requires MatchUrlAt(s).Some?
    ensures var m := MatchUrlAt(s).value;
      s[..m.len] == "url(" + m.quote + m.path + m.quote + ")"
  {
    var r := s[4..];
    if r != [] && r[0] == '\'' && 1 + IndexOf(r[1..], '\'') + 1 < |r| && r[2 + IndexOf(r[1..], '\'')] == ')' {
      var j := IndexOf(r[1..], '\'');
      assert r[1..][j] == r[1 + j];
      QuotedText(s, '\'', j);
    } else if r != [] && r[0] == '"' && LazyQuoteParen(r[1..]).Some? {
      var j := LazyQuoteParen(r[1..]).value;
      assert r[1..][j] == r[1 + j];
      QuotedText(s, '"', j);
    } else {
      UnquotedText(s, IndexOf(r, ')'));
    }
  }

  lemma QuotedText(s: string, q: char, j: nat)
    requires IsPrefix("url(", s) && j + 7 <= |s| && s[4] == q && s[5 + j] == q && s[6 + j] == ')'
    ensures s[..j + 7] == "url(" + [q] + s[4..][1..1 + j] + [q] + ")"
  {
    var a, b := s[..j + 7], "url(" + [q] + s[4..][1..1 + j] + [q] + ")";
    assert |a| == |b|;
    forall k | 0 <= k < |a| ensures a[k] == b[k] {
      if k < 4 { assert a[k] == s[..4][k]; }
    }
  }

  lemma UnquotedText(s: string, j: nat)
    requires IsPrefix("url(", s) && j + 5 <= |s| && s[4 + j] == ')'
    ensures s[..j + 5] == "url(" + s[4..][..j] + ")"
  {
    var a, b := s[..j + 5], "url(" + s[4..][..j] + ")";
    assert |a| == |b|;
    forall k | 0 <= k < |a| ensures a[k] == b[k] {
      if k < 4 { assert a[k] == s[..4][k]; }
    }
  }

  // ---- relative path resolution ----

  /** One step of the resolution loop: skip ".", pop on "..", push anything else. */
  function ResolveStep(stack: seq<string>, part: string): seq<string> {
    if part == "." then stack
    else if part == ".." then (if stack == [] then stack else stack[..|stack| - 1])
    else stack + [part]
  }

  function ResolveParts(stack: seq<string>, parts: seq<string>): seq<string>
    decreases |parts|
  {
    if parts == [] then stack else ResolveParts(ResolveStep(stack, parts[0]), parts[1..])
  }

  lemma ResolvePartsUnfold(stack: seq<string>, parts: seq<string>, i: nat)
    requires i < |parts|
    ensures ResolveParts(stack, parts[i..]) == ResolveParts(ResolveStep(stack, parts[i]), parts[i + 1..])
  {
    assert parts[i..][1..] == parts[i + 1..];
  }

  /** The directory pieces of `href`: its '/'-pieces without the last one. */
  function BaseStack(href: string): seq<string> {
    var stack := Split(href, '/');
    stack[..|stack| - 1]
  }

  /** Pieces that are neither "." nor ".." are appended in order. */
  lemma {:induction false} PlainPartsAppend(stack: seq<string>, parts: seq<string>)
    requires forall k :: 0 <= k < |parts| ==> parts[k] != "." && parts[k] != ".."
    ensures ResolveParts(stack, parts) == stack + parts
    decreases |parts|
  {
    if parts != [] {
      PlainPartsAppend(stack + [parts[0]], parts[1..]);
      assert stack + [parts[0]] + parts[1..] == stack + parts;
    }
  }

  /** A ".." right after a pushed piece cancels it. */
  lemma ParentCancelsPush(stack: seq<string>, x: string, parts: seq<string>)
    requires x != "." && x != ".."
    ensures ResolveParts(stack, [x, ".."] + parts) == ResolveParts(stack, parts)
  {
    assert ([x, ".."] + parts)[1..] == [".."] + parts;
    assert ([".."] + parts)[1..] == parts;
    assert (stack + [x])[..|stack|] == stack;
  }

  /** The resolution loop of `absolutifyURLs`: start from the directory of `href`, walk the path's pieces. */
  method ResolveRelativePath(href: string, filePath: string) returns (resolved: string)
    ensures resolved == Join(ResolveParts(BaseStack(href), Split(filePath, '/')), '/')
  {
    var stack := Split(href, '/');
    var parts := Split(filePath, '/');
    stack := stack[..|stack| - 1];
    ghost var start := stack;
    var i := 0;
    while i < |parts|
      invariant 0 <= i <= |parts|
      invariant ResolveParts(stack, parts[i..]) == ResolveParts(start, parts)
    {
      var part := parts[i];
      ResolvePartsUnfold(stack, parts, i);
      if part == "." {
      } else if part == ".." {
        if stack != [] {
          stack := stack[..|stack| - 1];
        }
      } else {
        stack := stack + [part];
      }
      i := i + 1;
    }
    assert parts[i..] == [];
    resolved := Join(stack, '/');
  }

  /**
   * What one matched reference is replaced with: the match itself when its path is empty, otherwise
   * "url(" and ")" around the (possibly rewritten) path, in the original quotes.
   */
  function Replacement(matched: string, m: UrlMatch, href: string): (r: string)
    ensures m.path == [] ==> r == matched
    ensures m.path != [] ==>
      |r| >= 5 + 2 * |m.quote| && r[..4 + |m.quote|] == "url(" + m.quote && r[|r| - |m.quote| - 1..] == m.quote + ")"
  {
    var q := m.quote;
    if m.path == [] then matched
    else
      var body :=
        if ProtocolMatch(m.path) || WwwMatch(m.path) then m.path
        else if DataUri(m.path) then m.path
        else if m.path[0] == '/' then ExtractOrigin(href) + m.path
        else Join(ResolveParts(BaseStack(href), Split(m.path, '/')), '/');
      Quoted(q, body)
  }

  /** "url(" + q + body + q + ")" */
  function Quoted(q: string, body: string): (r: string)
    ensures |r| == 5 + 2 * |q| + |body|
    ensures r[..4 + |q|] == "url(" + q && r[|r| - |q| - 1..] == q + ")"
  {
    var r := "url(" + q + body + q + ")";
    assert r == ("url(" + q) + (body + (q + ")"));
    r
  }

  /**
   * The references met by the left-to-right scan of `css` all keep their text: each has an empty,
   * absolute, `www.` or `data:` path.
   */
  predicate AbsoluteRefsOnly(css: string)
    decreases |css|
  {
    if css == [] then true
    else match MatchUrlAt(css)
      case Some(m) =>
        (m.path == [] || ProtocolMatch(m.path) || WwwMatch(m.path) || DataUri(m.path)) && AbsoluteRefsOnly(css[m.len..])
      case None => AbsoluteRefsOnly(css[1..])
  }

  /**
   * The string replacement over the whole text, matches taken left to right without overlap. A text
   * whose references all keep their text comes back unchanged.
   */
  function Absolutify(css: string, href: string): (r: string)
    ensures AbsoluteRefsOnly(css) ==> r == css
    decreases |css|
  {
    if css == [] then []
    else match MatchUrlAt(css)
      case Some(m) =>
        var rest := Absolutify(css[m.len..], href);
        if AbsoluteRefsOnly(css) then
          AbsoluteReferenceUnchanged(css, href);
          assert css[..m.len] + css[m.len..] == css;
          Replacement(css[..m.len], m, href) + rest
        else
          Replacement(css[..m.len], m, href) + rest
      case None =>
        assert [css[0]] + css[1..] == css;
        [css[0]] + Absolutify(css[1..], href)
  }

  /** `absolutifyURLs`: a null stylesheet text reads as the empty string. */
  function AbsolutifyURLs(cssText: Option<string>, href: string): (r: string)
    ensures cssText.None? ==> r == ""
    ensures cssText.Some? && AbsoluteRefsOnly(cssText.value) ==> r == cssText.value
  {
    Absolutify(cssText.GetOr(""), href)
  }

  /** A reference whose path is empty, absolute, `www.` or `data:` is left exactly as it was written. */
  lemma AbsoluteReferenceUnchanged(s: string, href: string)
    requires MatchUrlAt(s).Some?
    requires var p := MatchUrlAt(s).value.path;
      p == [] || ProtocolMatch(p) || WwwMatch(p) || DataUri(p)
    ensures var m := MatchUrlAt(s).value; Replacement(s[..m.len], m, href) == s[..m.len]
  {
    MatchedText(s);
  }

  /** Every rewritten reference keeps the form "url(" + quote + ... + quote + ")" with the original quote. */
  lemma QuotePreserved(s: string, href: string)
    requires MatchUrlAt(s).Some?
    ensures var m := MatchUrlAt(s).value;
      exists body :: Replacement(s[..m.len], m, href) == "url(" + m.quote + body + m.quote + ")"
  {
    var m := MatchUrlAt(s).value;
    MatchedText(s);
    var body := ReplacedBody(s[..m.len], m, href);
  }

  /** The text between the quotes of a replacement, for a match whose text is `matched`. */
  lemma ReplacedBody(matched: string, m: UrlMatch, href: string) returns (body: string)
    requires matched == "url(" + m.quote + m.path + m.quote + ")"
    ensures Replacement(matched, m, href) == "url(" + m.quote + body + m.quote + ")"
  {
    if m.path == [] || ProtocolMatch(m.path) || WwwMatch(m.path) || DataUri(m.path) {
      body := m.path;
    } else if m.path[0] == '/' {
      body := ExtractOrigin(href) + m.path;
      assert "url(" + m.quote + ExtractOrigin(href) + m.path + m.quote + ")" == "url(" + m.quote + body + m.quote + ")";
    } else {
      body := Join(ResolveParts(BaseStack(href), Split(m.path, '/')), '/');
    }
  }

  /** A root-relative path is prefixed with the origin of `href`. */
  lemma RootRelativeGetsOrigin(s: string, href: string)
    requires MatchUrlAt(s).Some?
    requires var p := MatchUrlAt(s).value.path;
      p != [] && p[0] == '/' && !ProtocolMatch(p) && !WwwMatch(p) && !DataUri(p)
    ensures var m := MatchUrlAt(s).value;
      Replacement(s[..m.len], m, href) == "url(" + m.quote + ExtractOrigin(href) + m.path + m.quote + ")"
  {
  }

  /** Text without any "url(" comes back unchanged. */
  lemma {:induction false} NoReferenceUnchanged(css: string, href: string)
    requires !Contains(css, "url(")
    ensures Absolutify(css, href) == css
    decreases |css|
  {
    if css != [] {
      assert MatchUrlAt(css).None?;
      NoReferenceUnchanged(css[1..], href);
    }
  }

  /**
   * Under a stylesheet at "dir/file", a relative path without "." or ".." pieces resolves to
   * "dir/path".
   */
  lemma RelativePathJoinsDirectory(dir: string, file: string, path: string)
    requires '/' !in file
    requires forall k :: 0 <= k < |Split(path, '/')| ==> Split(path, '/')[k] != "." && Split(path, '/')[k] != ".."
    ensures Join(ResolveParts(BaseStack(dir + "/" + file), Split(path, '/')), '/') == dir + "/" + path
  {
    SplitBeforePiece(dir, file, '/');
    assert BaseStack(dir + "/" + file) == Split(dir, '/');
    PlainPartsAppend(Split(dir, '/'), Split(path, '/'));
    JoinAppend(Split(dir, '/'), Split(path, '/'), '/');
    JoinSplit(dir, '/');
    JoinSplit(path, '/');
  }
}
