/**
 * URL handling of the crawler: urlsplit, urlunsplit, urljoin and unquote as the
 * crawler uses them, then the crawler's own canonicalisation and internal-link
 * test (src/scraper/crawler.py:63-102).  Reference resolution follows section
 * 5.2 of RFC 3986 in the form Python's urljoin gives it.
 */
module Urls {

  import opened Wrappers
  import opened Text

  /** urlsplit's five components (the ';' params of urlparse are not split off). */
  datatype Url = Url(scheme: string, netloc: string, path: string, query: string, fragment: string)

  /** Schemes for which urljoin resolves relative references. */
  const UsesRelative: seq<string> :=
    ["", "ftp", "http", "gopher", "nntp", "imap", "wais", "file", "https", "shttp", "mms",
     "prospero", "rtsp", "rtsps", "rtspu", "sftp", "svn", "svn+ssh", "ws", "wss"]

  /** Schemes whose URLs carry a network location. */
  const UsesNetloc: seq<string> :=
    ["", "ftp", "http", "gopher", "nntp", "telnet", "imap", "wais", "file", "mms", "https",
     "shttp", "snews", "prospero", "rtsp", "rtsps", "rtspu", "rsync", "svn", "svn+ssh", "sftp",
     "nfs", "git", "git+ssh", "ws", "wss", "itms-services"]

  predicate IsSchemeChar(c: char) { IsAlnum(c) || c == '+' || c == '-' || c == '.' }

  /** Splits a leading `scheme:` off, lowercasing the scheme, when the text before the first ':' is a valid scheme. */
  function SplitScheme(s: string): (r: (string, string))
    ensures '#' !in s ==> '#' !in r.0 && '#' !in r.1
  {
    match Find(s, ":")
    case Some(i) =>
      if i > 0 && (IsLowerLetter(s[0]) || IsUpperLetter(s[0]))
         && forall j :: 0 <= j < i ==> IsSchemeChar(s[j])
      then
        assert forall j :: 0 <= j < i ==> s[..i][j] == s[j];
        (Lower(s[..i]), s[i + 1..])
      else ("", s)
    case None => ("", s)
  }

  /** urlsplit. */
  function Parse(s: string): (u: Url)
    ensures '#' !in u.scheme && '#' !in u.netloc && '#' !in u.path && '#' !in u.query
    ensures u.netloc != [] ==> StartsWith(u.path, "/") || u.path == []
  {
    var noFragment := Before(s, "#");
    var fragment := match After(s, "#") case Some(f) => f case None => "";
    assert '#' !in noFragment by { ContainsChar(noFragment, '#'); BeforeExcludes(s, '#'); }
    var noQuery := Before(noFragment, "?");
    var query := match After(noFragment, "?") case Some(q) => q case None => "";
    assert '#' !in noQuery && '#' !in query by {
      if After(noFragment, "?").Some? {
        assert noFragment == noQuery + "?" + query;
        assert forall c :: c in query ==> c in noFragment;
      }
    }
    var (scheme, rest) := SplitScheme(noQuery);
    if StartsWith(rest, "//") then
      var hostAndPath := rest[2..];
      var netloc := Before(hostAndPath, "/");
      assert netloc == hostAndPath[..|netloc|];
      var path := hostAndPath[|netloc|..];
      assert path != [] ==> path[0] == '/' by {
        if path != [] { BeforeStopsAt(hostAndPath, '/'); }
      }
      Url(scheme, netloc, path, query, fragment)
    else
      Url(scheme, "", rest, query, fragment)
  }

  lemma BeforeExcludes(s: string, c: char)
    ensures c !in Before(s, [c])
  {
    var b := Before(s, [c]);
    FindFirst(s, [c]);
    match Find(s, [c])
    case None =>
      forall j | 0 <= j < |s| ensures s[j] != c {
        assert !OccursAt(s, [c], j);
        assert s[j..j + 1] == [s[j]];
      }
    case Some(i) =>
      forall j | 0 <= j < i ensures s[j] != c {
        assert !OccursAt(s, [c], j);
        assert s[j..j + 1] == [s[j]];
      }
  }

  lemma BeforeStopsAt(s: string, c: char)
    ensures |Before(s, [c])| < |s| ==> s[|Before(s, [c])|] == c
  {
    match Find(s, [c])
    case None =>
    case Some(i) =>
      assert OccursAt(s, [c], i);
      assert s[i..i + 1] == [c];
  }

  /** urlunsplit. */
  function Unparse(u: Url): string {
    var withNet :=
      if u.netloc != [] || (u.scheme != [] && u.scheme in UsesNetloc && !StartsWith(u.path, "//")) then
        "//" + u.netloc + (if u.path != [] && u.path[0] != '/' then "/" + u.path else u.path)
      else u.path;
    var withScheme := if u.scheme != [] then u.scheme + ":" + withNet else withNet;
    var withQuery := if u.query != [] then withScheme + "?" + u.query else withScheme;
    if u.fragment != [] then withQuery + "#" + u.fragment else withQuery
  }

  /** A URL whose fragment is empty unparses without any '#'. */
  lemma UnparseWithoutFragment(u: Url)
    requires u.fragment == []
    requires '#' !in u.scheme && '#' !in u.netloc && '#' !in u.path && '#' !in u.query
    ensures '#' !in Unparse(u)
  {
  }

  /** Removal of '.' and '..' segments and of empty inner segments, as urljoin does it. */
  function ResolveDots(segments: seq<string>, acc: seq<string>): seq<string>
    decreases |segments|
  {
    if segments == [] then acc
    else if segments[0] == ".." then ResolveDots(segments[1..], if acc == [] then [] else acc[..|acc| - 1])
    else if segments[0] == "." then ResolveDots(segments[1..], acc)
    else ResolveDots(segments[1..], acc + [segments[0]])
  }

  function DropEmpty(parts: seq<string>): (r: seq<string>)
    ensures forall k :: 0 <= k < |r| ==> r[k] != []
  {
    if parts == [] then [] else (if parts[0] == [] then [] else [parts[0]]) + DropEmpty(parts[1..])
  }

  /** The merged and dot-resolved path of a reference with a non-empty path. */
  function MergePath(basePath: string, refPath: string): string {
    var baseParts := SplitChar(basePath, '/');
    var baseDir := if baseParts[|baseParts| - 1] != [] then baseParts[..|baseParts| - 1] else baseParts;
    var segments :=
      if StartsWith(refPath, "/") then SplitChar(refPath, '/')
      else
        var all := baseDir + SplitChar(refPath, '/');
        if |all| <= 2 then all else [all[0]] + DropEmpty(all[1..|all| - 1]) + [all[|all| - 1]];
    var resolved := ResolveDots(segments, []);
    var resolved' := if segments[|segments| - 1] == "." || segments[|segments| - 1] == ".." then resolved + [""] else resolved;
    var joined := JoinWith(resolved', "/");
    if joined == [] then "/" else joined
  }

  /** urljoin(base, ref). */
  function Join(base: string, ref: string): string {
    if base == [] then ref
    else if ref == [] then base
    else
      var b := Parse(base);
      var r0 := Parse(ref);
      var scheme := if r0.scheme == [] then b.scheme else r0.scheme;
      var r := r0.(scheme := scheme);
      if scheme != b.scheme || scheme !in UsesRelative then ref
      else if scheme in UsesNetloc && r.netloc != [] then Unparse(r)
      else
        var netloc := if scheme in UsesNetloc then b.netloc else r.netloc;
        if r.path == [] then
          Unparse(Url(scheme, netloc, b.path, if r.query == [] then b.query else r.query, r.fragment))
        else
          Unparse(Url(scheme, netloc, MergePath(b.path, r.path), r.query, r.fragment))
  }

  function HexValue(c: char): nat
    requires IsHex(c)
  {
    if IsDigit(c) then c as nat - '0' as nat
    else if 'a' <= c <= 'f' then c as nat - 'a' as nat + 10
    else c as nat - 'A' as nat + 10
  }

  /** unquote, for escapes of ASCII characters; other text is copied. */
  function Unquote(s: string): (r: string)
    ensures '%' !in s ==> r == s
    decreases |s|
  {
    if |s| >= 3 && s[0] == '%' && IsHex(s[1]) && IsHex(s[2]) && HexValue(s[1]) < 8 then
      [(HexValue(s[1]) * 16 + HexValue(s[2])) as char] + Unquote(s[3..])
    else if s == [] then []
    else [s[0]] + Unquote(s[1..])
  }

  /**
   * _normalize_url: resolve against the page URL, drop the fragment, percent-decode,
   * and strip trailing slashes unless the parsed path is the root.
   */
  function NormalizeUrl(link: string, baseUrl: string): (r: string)
    ensures EndsWith(r, "/") ==> Parse(Join(baseUrl, Strip(link))).path == "/"
  {
    var parsed := Parse(Join(baseUrl, Strip(link)));
    TrimTrailingSlashes(Unquote(Unparse(parsed.(fragment := ""))), parsed.path == "/")
  }

  /** rstrip('/') of the decoded URL unless its path is the root. */
  function TrimTrailingSlashes(decoded: string, atRoot: bool): (r: string)
    ensures |r| <= |decoded| && r == decoded[..|r|]
    ensures EndsWith(r, "/") ==> atRoot
  {
    if EndsWith(decoded, "/") && !atRoot then RStripChar(decoded, '/') else decoded
  }

  /** Every component of a parsed URL is made of characters of the input (the scheme lowercased). */
  lemma ParseKeepsOut(s: string, c: char)
    requires c !in s && !IsLowerLetter(c)
    ensures var u := Parse(s); c !in u.scheme && c !in u.netloc && c !in u.path && c !in u.query && c !in u.fragment
  {
    var noFragment := Before(s, "#");
    AfterKeepsOut(s, "#", c);
    var noQuery := Before(noFragment, "?");
    AfterKeepsOut(noFragment, "?", c);
    SplitSchemeKeepsOut(noQuery, c);
    var rest := SplitScheme(noQuery).1;
    if StartsWith(rest, "//") {
      var hostAndPath := rest[2..];
      var netloc := Before(hostAndPath, "/");
      assert c !in hostAndPath[|netloc|..];
    }
  }

  lemma AfterKeepsOut(s: string, sep: string, c: char)
    requires sep != [] && c !in s
    ensures c !in Before(s, sep)
    ensures After(s, sep).Some? ==> c !in After(s, sep).value
  {
    if After(s, sep).Some? {
      var v := After(s, sep).value;
      assert s == Before(s, sep) + sep + v;
      assert s[|s| - |v|..] == v;
    }
  }

  lemma SplitSchemeKeepsOut(s: string, c: char)
    requires c !in s && !IsLowerLetter(c)
    ensures c !in SplitScheme(s).0 && c !in SplitScheme(s).1
  {
    match Find(s, ":")
    case Some(i) =>
      var low := Lower(s[..i]);
      forall j | 0 <= j < |low| ensures low[j] != c {
        assert s[..i][j] == s[j];
      }
    case None =>
  }

  /** Unparsing adds only separators. */
  lemma UnparseKeepsOut(u: Url, c: char)
    requires c !in u.scheme && c !in u.netloc && c !in u.path && c !in u.query && c !in u.fragment
    requires c != '/' && c != ':' && c != '?' && c != '#'
    ensures c !in Unparse(u)
  {
  }

  /** The canonical form carries no fragment: without percent-escapes in the resolved URL, it has no '#'. */
  lemma NormalizeDropsFragment(link: string, baseUrl: string)
    requires '%' !in Join(baseUrl, Strip(link))
    ensures '#' !in NormalizeUrl(link, baseUrl)
  {
    var absolute := Join(baseUrl, Strip(link));
    var parsed := Parse(absolute);
    var u := parsed.(fragment := "");
    UnparseWithoutFragment(u);
    ParseKeepsOut(absolute, '%');
    UnparseKeepsOut(u, '%');
    var clean := Unparse(u);
    assert Unquote(clean) == clean;
    var r := NormalizeUrl(link, baseUrl);
    assert r == clean[..|r|];
  }

  // ---------------------------------------------------------------------------
  // The network location in one pass
  // ---------------------------------------------------------------------------

  /**
   * The index of the ':' that closes a scheme, scanning from i over scheme
   * characters; None when another character comes first.
   */
  function SchemeColon(s: string, i: nat): (r: Option<nat>)
    ensures r.Some? ==> i <= r.value < |s| && s[r.value] == ':'
    decreases |s| - i
  {
    if i >= |s| then None
    else if s[i] == ':' then Some(i)
    else if IsSchemeChar(s[i]) then SchemeColon(s, i + 1)
    else None
  }

  /** Where the text after a valid `scheme:` starts (0 when there is none). */
  function SchemeEnd(url: string): (r: nat)
    ensures r <= |url|
    ensures r > 0 ==> url[r - 1] == ':'
  {
    if url != [] && (IsLowerLetter(url[0]) || IsUpperLetter(url[0])) && SchemeColon(url, 1).Some? then
      SchemeColon(url, 1).value + 1
    else 0
  }

  /** The characters up to the first '/', '?' or '#'. */
  function HostPart(s: string): (r: string)
    ensures |r| <= |s|
  {
    if s == [] || s[0] == '/' || s[0] == '?' || s[0] == '#' then [] else [s[0]] + HostPart(s[1..])
  }

  /**
   * urlsplit(url).netloc read in one pass: after a valid `scheme:`, if any,
   * a leading "//" opens the network location and the first '/', '?' or
   * '#' closes it.  HostIsNetloc proves it equal to Parse(url).netloc.
   */
  function Host(url: string): string {
    var rest := url[SchemeEnd(url)..];
    if |rest| >= 2 && rest[0] == '/' && rest[1] == '/' then HostPart(rest[2..]) else []
  }

  /** The scan passes over scheme characters only. */
  lemma {:induction false} SchemeColonFound(s: string, j: nat)
    ensures SchemeColon(s, j).Some? ==> forall k :: j <= k < SchemeColon(s, j).value ==> IsSchemeChar(s[k])
    decreases |s| - j
  {
    if j < |s| && s[j] != ':' && IsSchemeChar(s[j]) {
      SchemeColonFound(s, j + 1);
    }
  }

  /** A ':' preceded by scheme characters only is where the scan stops. */
  lemma {:induction false} SchemeColonAt(s: string, j: nat, i: nat)
    requires j <= i < |s| && s[i] == ':'
    requires forall k :: j <= k < i ==> IsSchemeChar(s[k])
    ensures SchemeColon(s, j) == Some(i)
    decreases i - j
  {
    if j < i {
      assert IsSchemeChar(s[j]);
      SchemeColonAt(s, j + 1, i);
    }
  }

  /** A '?' or '#' stops the scan, so it reads the same on the text before the first of them. */
  lemma {:induction false} SchemeColonPrefix(s: string, n: nat, j: nat)
    requires n <= |s| && (n == |s| || s[n] == '?' || s[n] == '#') && j <= n
    ensures SchemeColon(s, j) == SchemeColon(s[..n], j)
    decreases n - j
  {
    if j < n && s[j] != ':' && IsSchemeChar(s[j]) {
      SchemeColonPrefix(s, n, j + 1);
    }
  }

  /** Cutting the text at its first '?' or '#' keeps the scheme. */
  lemma SchemeEndPrefix(s: string, n: nat)
    requires n <= |s| && (n == |s| || s[n] == '?' || s[n] == '#')
    ensures SchemeEnd(s[..n]) == SchemeEnd(s)
  {
    if n > 0 {
      SchemeColonPrefix(s, n, 1);
    }
  }

  /** HostPart of text whose first '/', '?' or '#' is at n. */
  lemma {:induction false} HostPartIs(t: string, n: nat)
    requires n <= |t| && (n == |t| || t[n] == '/' || t[n] == '?' || t[n] == '#')
    requires forall k :: 0 <= k < n ==> t[k] != '/' && t[k] != '?' && t[k] != '#'
    ensures HostPart(t) == t[..n]
  {
    if n > 0 {
      HostPartIs(t[1..], n - 1);
      assert t[..n] == [t[0]] + t[1..][..n - 1];
    }
  }

  /** SplitScheme read through the scan. */
  lemma SplitSchemeScan(p: string)
    ensures SplitScheme(p).1 == p[SchemeEnd(p)..]
  {
    SchemeColonFound(p, 1);
    FindFirst(p, ":");
    match Find(p, ":")
    case Some(i) =>
      assert p[i..i + 1] == ":";
      if i > 0 && (IsLowerLetter(p[0]) || IsUpperLetter(p[0])) && forall j :: 0 <= j < i ==> IsSchemeChar(p[j]) {
        SchemeColonAt(p, 1, i);
      } else if SchemeEnd(p) > 0 {
        var i' := SchemeColon(p, 1).value;
        assert p[i'..i' + 1] == ":";
        assert OccursAt(p, ":", i');
      }
    case None =>
      if SchemeEnd(p) > 0 {
        var i' := SchemeColon(p, 1).value;
        assert p[i'..i' + 1] == ":";
        assert OccursAt(p, ":", i');
      }
  }

  /** What urlsplit keeps before the query and the fragment is the text before the first '?' or '#'. */
  lemma NoQueryPrefix(url: string)
    ensures var n := |Before(Before(url, "#"), "?")|;
              Before(Before(url, "#"), "?") == url[..n]
              && (n == |url| || url[n] == '?' || url[n] == '#')
              && forall k :: 0 <= k < n ==> url[k] != '?' && url[k] != '#'
  {
    var noFragment := Before(url, "#");
    BeforeExcludes(url, '#');
    BeforeStopsAt(url, '#');
    var noQuery := Before(noFragment, "?");
    BeforeExcludes(noFragment, '?');
    BeforeStopsAt(noFragment, '?');
    var n := |noQuery|;
    forall k | 0 <= k < n ensures url[k] != '?' && url[k] != '#' {
      assert url[k] == noQuery[k];
      assert noQuery[k] in noQuery;
      assert noFragment[k] in noFragment;
    }
  }

  /** urlsplit's netloc in terms of its steps. */
  lemma ParseNetloc(url: string)
    ensures var rest := SplitScheme(Before(Before(url, "#"), "?")).1;
            Parse(url).netloc == if StartsWith(rest, "//") then Before(rest[2..], "/") else []
  {
  }

  /** HostPart stops where Before(_, "/") does, on text cut at its first '?' or '#'. */
  lemma HostPartBefore(t: string, m: nat)
    requires m <= |t| && (m == |t| || t[m] == '?' || t[m] == '#')
    requires forall k :: 0 <= k < m ==> t[k] != '?' && t[k] != '#'
    ensures HostPart(t) == Before(t[..m], "/")
  {
    var cut := t[..m];
    var netloc := Before(cut, "/");
    BeforeExcludes(cut, '/');
    BeforeStopsAt(cut, '/');
    forall k | 0 <= k < |netloc| ensures t[k] != '/' && t[k] != '?' && t[k] != '#' {
      assert t[k] == netloc[k] && netloc[k] in netloc;
    }
    HostPartIs(t, |netloc|);
  }

  /** The host read from the text after the scheme, when urlsplit sees that text cut at n. */
  lemma HostOfRest(url: string, start: nat, n: nat)
    requires start <= n <= |url| && (n == |url| || url[n] == '?' || url[n] == '#')
    requires forall k :: 0 <= k < n ==> url[k] != '?' && url[k] != '#'
    ensures var rest := url[start..n]; var full := url[start..];
            (if |full| >= 2 && full[0] == '/' && full[1] == '/' then HostPart(full[2..]) else [])
            == if StartsWith(rest, "//") then Before(rest[2..], "/") else []
  {
    var rest := url[start..n];
    var full := url[start..];
    if |full| >= 2 && full[0] == '/' && full[1] == '/' {
      assert StartsWith(rest, "//") by { assert rest[..2] == "//"; }
      var t := full[2..];
      assert rest[2..] == t[..n - start - 2];
      forall k | 0 <= k < n - start - 2 ensures t[k] != '?' && t[k] != '#' {
        assert t[k] == url[start + 2 + k];
      }
      HostPartBefore(t, n - start - 2);
    } else if |rest| >= 2 {
      assert rest[0] == full[0] && rest[1] == full[1];
    }
  }

  /** Host follows urlsplit's steps. */
  lemma HostSplits(url: string)
    ensures var rest := SplitScheme(Before(Before(url, "#"), "?")).1;
            Host(url) == if StartsWith(rest, "//") then Before(rest[2..], "/") else []
  {
    var noQuery := Before(Before(url, "#"), "?");
    var n := |noQuery|;
    NoQueryPrefix(url);
    SplitSchemeScan(noQuery);
    SchemeEndPrefix(url, n);
    HostOfRest(url, SchemeEnd(url), n);
  }

  /** The one-pass scan agrees with urlsplit: Host(url) is Parse(url).netloc. */
  lemma HostIsNetloc(url: string)
    ensures Host(url) == Parse(url).netloc
  {
    ParseNetloc(url);
    HostSplits(url);
  }

  /** _is_internal_url: the host equals the crawl's base domain, exactly. */
  function IsInternalUrl(baseDomain: string, url: string): bool {
    baseDomain != [] && Host(url) == baseDomain
  }

  /** A URL is internal exactly when the base domain is set and is urlsplit's netloc of the URL. */
  lemma InternalIffNetloc(baseDomain: string, url: string)
    ensures IsInternalUrl(baseDomain, url) <==> baseDomain != [] && Parse(url).netloc == baseDomain
  {
    HostIsNetloc(url);
  }
}
