/**
 * The pure decisions of the crawler (src/scraper/crawler.py): where a fetched
 * page is saved, whether robots.txt lets a URL through, which politeness
 * delay applies, which disallowed paths the "ignore robots.txt" choice seeds
 * into the queue, and the brand name searched on social sites.
 */
module CrawlRules {

  import opened Wrappers
  import opened Text
  import opened Urls
  import opened Robots

  // ---------------------------------------------------------------------------
  // _get_file_path_for_url
  // ---------------------------------------------------------------------------

  /** The four sub-directories of a site's download tree. */
  datatype Bucket = Html | Images | Documents | Other

  const ImageMarks: seq<string> := ["jpg", "jpeg", "png", "gif", "bmp", "svg", "webp", "ico"]
  const DocumentMarks: seq<string> :=
    ["pdf", "doc", "docx", "xls", "xlsx", "ppt", "pptx", "txt", "rtf", "csv", "xml", "json"]

  /** Some mark of the list occurs in the content type. */
  predicate AnyIn(marks: seq<string>, contentType: string) {
    exists i :: 0 <= i < |marks| && Contains(contentType, marks[i])
  }

  predicate IsHtmlType(contentType: string) {
    Contains(contentType, "html") || contentType == []
  }

  /** The first bucket, in the order html, images, documents, other, whose test the content type passes. */
  function BucketFor(contentType: string): (b: Bucket)
    ensures b == Html <==> IsHtmlType(contentType)
    ensures b == Images <==> !IsHtmlType(contentType) && AnyIn(ImageMarks, contentType)
    ensures b == Documents <==>
      !IsHtmlType(contentType) && !AnyIn(ImageMarks, contentType) && AnyIn(DocumentMarks, contentType)
  {
    if IsHtmlType(contentType) then Html
    else if AnyIn(ImageMarks, contentType) then Images
    else if AnyIn(DocumentMarks, contentType) then Documents
    else Other
  }

  /** Where a page is written: its bucket, the sub-directories from the URL path, and the file name. */
  datatype SavePath =
    | InSiteDir(bucket: Bucket, dirs: seq<string>, fileName: string)
    | Fallback(fileName: string)   // ("." , "error.html") when no site directory was set up

  predicate IsSafeChar(c: char) { IsAlnum(c) || c == '.' || c == '-' || c == '_' }

  function SafeChar(c: char): char {
    if IsSafeChar(c) then c else '_'
  }

  /** Characters other than alphanumerics, '.', '-' and '_' become '_', then the name is cut to 100 characters. */
  function Sanitize(name: string): (r: string)
    ensures |r| == if |name| < 100 then |name| else 100
    ensures forall i :: 0 <= i < |r| ==> IsSafeChar(r[i])
    ensures forall i :: 0 <= i < |r| ==> r[i] == name[i] || (!IsSafeChar(name[i]) && r[i] == '_')
  {
    var mapped := seq(|name|, i requires 0 <= i < |name| => SafeChar(name[i]));
    if |mapped| <= 100 then mapped else mapped[..100]
  }

  /** Sanitising a sanitised name changes nothing. */
  lemma SanitizeIdempotent(name: string)
    ensures Sanitize(Sanitize(name)) == Sanitize(name)
  {
    var once := Sanitize(name);
    var twice := Sanitize(once);
    assert |twice| == |once|;
    forall i | 0 <= i < |once| ensures twice[i] == once[i] {
      assert IsSafeChar(once[i]);
    }
  }

  /** A name already made of safe characters and at most 100 long is kept as it is. */
  lemma SanitizeOfSafe(name: string)
    requires |name| <= 100 && forall i :: 0 <= i < |name| ==> IsSafeChar(name[i])
    ensures Sanitize(name) == name
  {
  }

  /** The extension added to a last path segment that has no '.'. */
  function ExtensionFor(contentType: string): (ext: string)
    ensures ext in [".html", ".xml", ".json"]
    ensures ext == ".xml" ==> Contains(contentType, "xml") && !Contains(contentType, "html")
    ensures ext == ".json" ==> Contains(contentType, "json")
  {
    if Contains(contentType, "html") then ".html"
    else if Contains(contentType, "xml") then ".xml"
    else if Contains(contentType, "json") then ".json"
    else ".html"
  }

  function WithExtension(name: string, contentType: string): (r: string)
    ensures '.' in name ==> r == name
    ensures '.' !in name ==> r == name + ExtensionFor(contentType)
  {
    if '.' in name then name else name + ExtensionFor(contentType)
  }

  /** The bucket, directories and file name for a URL path, once the site directory exists. */
  function FileTarget(path: string, contentType: string): (t: SavePath)
    ensures t.InSiteDir? && t.bucket == BucketFor(contentType)
    ensures |t.fileName| <= 100 && forall i :: 0 <= i < |t.fileName| ==> IsSafeChar(t.fileName[i])
    ensures forall k :: 0 <= k < |t.dirs| ==> '/' !in t.dirs[k]
  {
    var components := SplitChar(StripChar(path, '/'), '/');
    var last := components[|components| - 1];
    var dirs := if components[0] != [] then components[..|components| - 1] else [];
    var name := if components[0] != [] && last != [] then WithExtension(last, contentType) else "index.html";
    InSiteDir(BucketFor(contentType), dirs, Sanitize(name))
  }

  /** _get_file_path_for_url: the fallback when no site directory is set, else the target of the URL's path. */
  function FilePathForUrl(url: string, contentType: string, siteDirReady: bool): (t: SavePath)
    ensures !siteDirReady ==> t == Fallback("error.html")
    ensures siteDirReady ==> t == FileTarget(Urls.Parse(url).path, contentType)
  {
    if !siteDirReady then Fallback("error.html") else FileTarget(Urls.Parse(url).path, contentType)
  }

  /** A path with nothing but slashes is saved as index.html at the top of its bucket. */
  lemma RootIsIndex(path: string, contentType: string)
    requires forall i :: 0 <= i < |path| ==> path[i] == '/'
    ensures FileTarget(path, contentType) == InSiteDir(BucketFor(contentType), [], "index.html")
  {
    OnlySlashesStripToEmpty(path);
    assert SplitChar([], '/') == [[]];
    NoSegmentTarget(path, contentType);
    SanitizeIndex();
  }

  lemma NoSegmentTarget(path: string, contentType: string)
    requires SplitChar(StripChar(path, '/'), '/') == [[]]
    ensures FileTarget(path, contentType) == InSiteDir(BucketFor(contentType), [], Sanitize("index.html"))
  {
  }

  lemma SanitizeIndex()
    ensures Sanitize("index.html") == "index.html"
  {
    var name := "index.html";
    forall i | 0 <= i < |name| ensures IsSafeChar(name[i]) {
    }
    SanitizeOfSafe(name);
  }

  lemma OnlySlashesStripToEmpty(path: string)
    requires forall i :: 0 <= i < |path| ==> path[i] == '/'
    ensures StripChar(path, '/') == []
  {
    var l := LStripChar(path, '/');
    assert l == [];
  }

  /**
   * A path that ends in a slash is named after its last segment, not
   * index.html: "/docs/" served as HTML is saved as "docs.html".
   */
  lemma TrailingSlashNamesLastSegment(seg: string, contentType: string)
    requires seg != [] && |seg| <= 95
    requires forall i :: 0 <= i < |seg| ==> IsAlnum(seg[i])
    ensures FileTarget("/" + seg + "/", contentType) ==
            InSiteDir(BucketFor(contentType), [], seg + ExtensionFor(contentType))
  {
    SlashSegmentSplit(seg);
    ExtendedNameIsSafe(seg, contentType);
    OneSegmentTarget("/" + seg + "/", seg, contentType);
  }

  lemma SlashSegmentSplit(seg: string)
    requires seg != [] && forall i :: 0 <= i < |seg| ==> IsAlnum(seg[i])
    ensures SplitChar(StripChar("/" + seg + "/", '/'), '/') == [seg]
  {
    SlashesAround(seg);
    assert '/' !in seg;
    FindCharAbsent(seg, '/');
  }

  /** A path whose only segment is seg is saved under seg's extended, sanitised name. */
  lemma OneSegmentTarget(path: string, seg: string, contentType: string)
    requires seg != [] && SplitChar(StripChar(path, '/'), '/') == [seg]
    ensures FileTarget(path, contentType) ==
            InSiteDir(BucketFor(contentType), [], Sanitize(WithExtension(seg, contentType)))
  {
  }

  lemma ExtendedNameIsSafe(seg: string, contentType: string)
    requires |seg| <= 95
    requires forall i :: 0 <= i < |seg| ==> IsAlnum(seg[i])
    ensures Sanitize(WithExtension(seg, contentType)) == seg + ExtensionFor(contentType)
  {
    var ext := ExtensionFor(contentType);
    var name := seg + ext;
    assert '.' !in seg;
    assert forall i :: 0 <= i < |ext| ==> IsSafeChar(ext[i]);
    forall i | 0 <= i < |name| ensures IsSafeChar(name[i]) {
      if i >= |seg| {
        assert name[i] == ext[i - |seg|];
      }
    }
    SanitizeOfSafe(name);
  }

  lemma SlashesAround(seg: string)
    requires seg != [] && seg[0] != '/' && seg[|seg| - 1] != '/'
    ensures StripChar("/" + seg + "/", '/') == seg
  {
    var path := "/" + seg + "/";
    assert path == ['/'] + (seg + ['/']);
    LStripOnce('/', seg + ['/']);
    RStripOnce(seg, '/');
  }

  lemma LStripOnce(c: char, t: string)
    requires t == [] || t[0] != c
    ensures LStripChar([c] + t, c) == t
  {
    assert ([c] + t)[1..] == t;
  }

  lemma RStripOnce(t: string, c: char)
    requires t == [] || t[|t| - 1] != c
    ensures RStripChar(t + [c], c) == t
  {
    assert (t + [c])[..|t|] == t;
  }

  // ---------------------------------------------------------------------------
  // _should_crawl_url and the politeness delay
  // ---------------------------------------------------------------------------

  /** _should_crawl_url: robots.txt is consulted only when it was loaded and the user chose to respect it. */
  function ShouldCrawl(respectRobots: bool, robots: Option<RobotsData>, url: string): (r: bool)
    ensures !respectRobots || robots.None? ==> r
    ensures respectRobots && robots.Some? ==> (r <==> PathAllowed(RequestPath(url), robots.value.rules))
  {
    !respectRobots || robots.None? || IsAllowed(url, robots.value.rules)
  }

  /** The delay used between requests: robots.txt's crawl-delay when it is longer than the requested one. */
  function EffectiveDelay(politeness: real, robots: Option<RobotsData>): (d: real)
    ensures d >= politeness
    ensures robots.Some? ==> d >= robots.value.crawlDelay
    ensures d == politeness || (robots.Some? && d == robots.value.crawlDelay)
  {
    if robots.Some? && robots.value.crawlDelay > politeness then robots.value.crawlDelay else politeness
  }

  // ---------------------------------------------------------------------------
  // Override seeding in _fetch_and_parse_robots
  // ---------------------------------------------------------------------------

  /** A disallow rule whose path is concrete: neither '*' nor '?' in it. */
  predicate IsConcreteDisallow(r: Rule) {
    !r.allow && '*' !in r.path && '?' !in r.path
  }

  /** The paths of the concrete disallow rules, in rule order. */
  function ConcreteDisallowed(rules: seq<Rule>): (paths: seq<string>)
    ensures |paths| <= |rules|
    ensures forall p :: p in paths <==> exists r :: r in rules && IsConcreteDisallow(r) && r.path == p
  {
    if rules == [] then []
    else
      var rest := ConcreteDisallowed(rules[1..]);
      assert forall r :: r in rules <==> r == rules[0] || r in rules[1..];
      if IsConcreteDisallow(rules[0]) then [rules[0].path] + rest else rest
  }

  /** ConcreteDisallowed keeps the order of the rules: it distributes over concatenation. */
  lemma {:induction false} ConcreteDisallowedAppend(a: seq<Rule>, b: seq<Rule>)
    ensures ConcreteDisallowed(a + b) == ConcreteDisallowed(a) + ConcreteDisallowed(b)
  {
    if a != [] {
      assert (a + b)[0] == a[0];
      assert (a + b)[1..] == a[1..] + b;
      ConcreteDisallowedAppend(a[1..], b);
    } else {
      assert a + b == b;
    }
  }

  /** The queue entries added by the override: each concrete path resolved against the start URL, at depth 0. */
  function OverrideSeeds(baseUrl: string, rules: seq<Rule>): (seeds: seq<(string, nat)>)
    ensures |seeds| == |ConcreteDisallowed(rules)|
    ensures forall i :: 0 <= i < |seeds| ==>
      seeds[i] == (Join(baseUrl, ConcreteDisallowed(rules)[i]), 0)
  {
    var paths := ConcreteDisallowed(rules);
    seq(|paths|, i requires 0 <= i < |paths| => (Join(baseUrl, paths[i]), 0 as nat))
  }

  // ---------------------------------------------------------------------------
  // Brand name for the social-profile search
  // ---------------------------------------------------------------------------

  const CommonTlds: seq<string> :=
    [".com", ".it", ".org", ".net", ".edu", ".gov", ".io", ".co.uk", ".eu", ".info", ".biz"]

  /** str.replace(pat, ""): every non-overlapping occurrence, scanning left to right, is removed. */
  function RemoveAll(s: string, pat: string): (r: string)
    requires pat != []
    ensures |r| <= |s|
    ensures forall c :: c in r ==> c in s
    decreases |s|
  {
    if |s| < |pat| then s
    else if s[..|pat|] == pat then RemoveAll(s[|pat|..], pat)
    else
      var rest := RemoveAll(s[1..], pat);
      assert forall c :: c in rest ==> c in s[1..];
      [s[0]] + rest
  }

  /** Text without an occurrence is left as it is. */
  lemma {:induction false} RemoveAbsent(s: string, pat: string)
    requires pat != [] && !Contains(s, pat)
    ensures RemoveAll(s, pat) == s
    decreases |s|
  {
    if |s| >= |pat| {
      assert !OccursAt(s, pat, 0);
      assert s[..|pat|] != pat;
      assert !Contains(s[1..], pat) by {
        if Contains(s[1..], pat) {
          var j := Find(s[1..], pat).value;
          assert s[1..][j..j + |pat|] == s[j + 1..j + 1 + |pat|];
          ContainsAt(s, pat, j + 1);
        }
      }
      RemoveAbsent(s[1..], pat);
    }
  }

  /** The first of `tlds`, from index k on, that ends the name is cut off; at most one is. */
  function CutTld(s: string, tlds: seq<string>, k: nat): (r: string)
    ensures |r| <= |s| && r == s[..|r|]
    ensures r == s || exists j :: k <= j < |tlds| && EndsWith(s, tlds[j]) && |r| == |s| - |tlds[j]|
    decreases |tlds| - k
  {
    if k >= |tlds| then s
    else if EndsWith(s, tlds[k]) then s[..|s| - |tlds[k]|]
    else CutTld(s, tlds, k + 1)
  }

  /** When tlds[j] is the first from k on that ends the name, exactly that TLD is cut. */
  lemma {:induction false} CutTldFirst(s: string, tlds: seq<string>, k: nat, j: nat)
    requires k <= j < |tlds| && EndsWith(s, tlds[j])
    requires forall i :: k <= i < j ==> !EndsWith(s, tlds[i])
    ensures CutTld(s, tlds, k) == s[..|s| - |tlds[j]|]
    decreases j - k
  {
    if k < j {
      CutTldFirst(s, tlds, k + 1, j);
    }
  }

  /** A name that ends with none of `tlds` from k on is left as it is. */
  lemma CutTldNone(s: string, tlds: seq<string>, k: nat)
    requires forall j :: k <= j < |tlds| ==> !EndsWith(s, tlds[j])
    ensures CutTld(s, tlds, k) == s
  {
  }

  /** The brand: lowercase, "www." removed, one common TLD cut, then the text before the first '.'. */
  function BrandOf(domain: string): (brand: string)
    ensures '.' !in brand
    ensures IsLowercase(brand)
    ensures var cut := CutTld(RemoveAll(Lower(domain), "www."), CommonTlds, 0);
            StartsWith(cut, brand) && (|brand| == |cut| || cut[|brand|] == '.')
  {
    var low := Lower(domain);
    LowerIsLowercase(domain);
    var cleaned := RemoveAll(low, "www.");
    var cut := CutTld(cleaned, CommonTlds, 0);
    var brand := Before(cut, ".");
    BeforeExcludes(cut, '.');
    BeforeStopsAt(cut, '.');
    assert forall i :: 0 <= i < |brand| ==> brand[i] in low by {
      forall i | 0 <= i < |brand| ensures brand[i] in low {
        assert brand[i] == cut[i] && cut[i] in cleaned;
      }
    }
    brand
  }

  /** A ".com" name with one leading "www." gives the name itself, with or without the "www.". */
  lemma BrandOfDotCom(name: string)
    requires IsLowercase(name) && '.' !in name
    requires !Contains(name + ".com", "www.")
    ensures BrandOf(name + ".com") == name
    ensures BrandOf("www." + name + ".com") == name
  {
    var plain := name + ".com";
    assert IsLowercase(plain) by {
      forall i | 0 <= i < |plain| ensures !IsUpperLetter(plain[i]) {
        if i >= |name| { assert plain[i] in ".com"; }
      }
    }
    LowerOfLowercase(plain);
    RemoveAbsent(plain, "www.");
    var www := "www." + plain;
    assert www == "www." + name + ".com";
    assert IsLowercase(www) by {
      forall i | 0 <= i < |www| ensures !IsUpperLetter(www[i]) {
        if i >= 4 { assert www[i] == plain[i - 4]; }
      }
    }
    LowerOfLowercase(www);
    assert www[..4] == "www." && www[4..] == plain;
    assert RemoveAll(www, "www.") == plain;
    assert CutTld(plain, CommonTlds, 0) == name by {
      assert EndsWith(plain, ".com");
      assert plain[..|name|] == name;
    }
    BeforeAbsent(name, '.');
  }
}
