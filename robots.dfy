/**
 * The robots.txt reader of the crawler (src/scraper/utils/robots_parser.py):
 * a line-oriented parser that keeps the rules of the `*` user agent, flags
 * sensitive paths, and a literal longest-prefix allow/deny decision in the
 * spirit of section 2.2.2 of RFC 9309 (no `*` or `$` wildcards; ties go to the
 * earlier rule, not to Allow).
 */
module Robots {

  import opened Wrappers
  import opened Text
  import opened Json
  import Urls

  datatype Rule = Rule(path: string, allow: bool, isSensitive: bool)

  datatype RobotsData = RobotsData(rules: seq<Rule>, sitemaps: seq<string>, sensitivePaths: set<string>, crawlDelay: real)

  // ---------------------------------------------------------------------------
  // Sensitive paths
  // ---------------------------------------------------------------------------

  /**
   * The patterns that are plain words.  `api/v\d+/admin` is not listed: every
   * text it matches contains "admin", which is.
   */
  const SensitiveWords: seq<string> :=
    ["admin", "backup", "staging", "dev", "test", "beta", "wp-admin", "administrator", "login",
     "user", "console", "dashboard", "private", "secret", "internal", "config", "setup", "install",
     "phpmy", "sql", "database", "db", "temp", "tmp", "old", "bak", "api/internal", "api/private"]

  /** `.git`, `.svn` and `.env`: the regex dot matches any character but a newline. */
  const DotWords: seq<string> := ["git", "svn", "env"]

  predicate DotWordAt(p: string, w: string, i: int) {
    1 <= i && OccursAt(p, w, i) && p[i - 1] != '\n'
  }

  /** _is_sensitive_path: some pattern is found anywhere in the path, ignoring case. */
  predicate IsSensitivePath(path: string) {
    var p := Lower(path);
    (exists k :: 0 <= k < |SensitiveWords| && Contains(p, SensitiveWords[k]))
    || (exists k, i :: 0 <= k < |DotWords| && 0 <= i <= |p| && DotWordAt(p, DotWords[k], i))
  }

  /** Any path containing "admin" is sensitive, whatever precedes or follows it. */
  lemma AdminIsSensitive(pre: string, post: string)
    ensures IsSensitivePath(pre + "admin" + post)
  {
    var p := Lower(pre + "admin" + post);
    var i := |pre|;
    assert p[i..i + 5] == "admin";
    assert OccursAt(p, SensitiveWords[0], i);
    ContainsAt(p, SensitiveWords[0], i);
  }

  /** Any path with a ".git" directory in it is sensitive. */
  lemma GitDirIsSensitive(pre: string, post: string)
    ensures IsSensitivePath(pre + "/.git" + post)
  {
    var s := pre + "/.git" + post;
    var p := Lower(s);
    var i := |pre| + 2;
    assert s[i - 1] == '.' && s[i] == 'g' && s[i + 1] == 'i' && s[i + 2] == 't';
    assert p[i - 1] == '.' && p[i..i + 3] == "git";
    assert DotWordAt(p, DotWords[0], i);
  }

  // ---------------------------------------------------------------------------
  // Parsing
  // ---------------------------------------------------------------------------

  /** What one line of the file says, after strip() and lower(). */
  datatype Directive =
    | Skip                       // blank line or comment
    | UserAgent(agent: string)
    | AllowLine(path: string)
    | DisallowLine(path: string)
    | SitemapLine(url: string)
    | DelayLine(text: string)
    | Unknown

  /** `line.split(':', 1)[1].strip()`; every caller's line contains ':'. */
  function ValueOf(line: string): string {
    match After(line, ":")
    case Some(v) => Strip(v)
    case None => []
  }

  function Classify(raw: string): Directive {
    ClassifyLine(Lower(Strip(raw)))
  }


  /** The keyword a stripped, lower-cased line starts with. */
  datatype Keyword = Blank | AgentKey | AllowKey | DisallowKey | SitemapKey | DelayKey | OtherKey

  function KeywordOf(line: string): Keyword {
    if line == [] || StartsWith(line, "#") then Blank
    else if StartsWith(line, "user-agent:") then AgentKey
    else if StartsWith(line, "allow:") then AllowKey
    else if StartsWith(line, "disallow:") then DisallowKey
    else if StartsWith(line, "sitemap:") then SitemapKey
    else if StartsWith(line, "crawl-delay:") then DelayKey
    else OtherKey
  }

  function ClassifyLine(line: string): Directive {
    WithValue(KeywordOf(line), ValueOf(line))
  }

  /** The directive a keyword names, carrying the text after the first ':'. */
  function WithValue(k: Keyword, value: string): (d: Directive)
    ensures d.AllowLine? || d.DisallowLine? ==> d.path == value
  {
    match k
    case Blank => Skip
    case AgentKey => UserAgent(value)
    case AllowKey => AllowLine(value)
    case DisallowKey => DisallowLine(value)
    case SitemapKey => SitemapLine(value)
    case DelayKey => DelayLine(value)
    case OtherKey => Unknown
  }

  function Directives(content: string): (ds: seq<Directive>)
    ensures |ds| == |SplitLines(content)|
    ensures forall i :: 0 <= i < |ds| ==> ds[i] == Classify(SplitLines(content)[i])
  {
    var lines := SplitLines(content);
    seq(|lines|, i requires 0 <= i < |lines| => Classify(lines[i]))
  }

  /** The user agent in force after some lines: the last `user-agent` value, "*" before any. */
  function AgentAfter(ds: seq<Directive>): string {
    if ds == [] then "*"
    else match ds[|ds| - 1]
      case UserAgent(a) => a
      case _ => AgentAfter(ds[..|ds| - 1])
  }

  predicate IsRuleLine(d: Directive) { d.AllowLine? || d.DisallowLine? }

  function RuleFor(d: Directive): (r: Rule)
    requires IsRuleLine(d)
    ensures r.path == d.path && r.allow == d.AllowLine?
  {
    Rule(d.path, d.AllowLine?, IsSensitivePath(d.path))
  }

  /** The rules kept from some lines: rule lines met while the agent in force is "*", in file order. */
  function KeptRules(ds: seq<Directive>): seq<Rule> {
    if ds == [] then []
    else
      var pre, d := ds[..|ds| - 1], ds[|ds| - 1];
      KeptRules(pre) + (if AgentAfter(pre) == "*" && IsRuleLine(d) then [RuleFor(d)] else [])
  }

  function KeptSitemaps(ds: seq<Directive>): seq<string> {
    if ds == [] then []
    else
      var pre, d := ds[..|ds| - 1], ds[|ds| - 1];
      KeptSitemaps(pre) + (if AgentAfter(pre) == "*" && d.SitemapLine? then [d.url] else [])
  }

  /** The crawl delay after some lines: the last in-scope value `float()` accepts, 0.0 before any. */
  function DelayAfter(ds: seq<Directive>, toFloat: string -> Option<real>): real {
    if ds == [] then 0.0
    else
      var pre, d := ds[..|ds| - 1], ds[|ds| - 1];
      if AgentAfter(pre) == "*" && d.DelayLine? && toFloat(d.text).Some? then toFloat(d.text).value
      else DelayAfter(pre, toFloat)
  }

  function SensitiveOf(rules: seq<Rule>): set<string> {
    set r | r in rules && r.isSensitive :: r.path
  }

  /**
   * RobotsParser.parse.  `toFloat` stands for Python's float(), None where it
   * raises ValueError.
   */
  method Parse(content: string, toFloat: string -> Option<real>) returns (data: RobotsData)
    ensures data.rules == KeptRules(Directives(content))
    ensures data.sitemaps == KeptSitemaps(Directives(content))
    ensures data.crawlDelay == DelayAfter(Directives(content), toFloat)
    ensures forall p :: p in data.sensitivePaths <==> exists r :: r in data.rules && r.path == p && r.isSensitive
  {
    var lines := SplitLines(content);
    ghost var ds := Directives(content);
    var rules: seq<Rule> := [];
    var sitemaps: seq<string> := [];
    var sensitive: set<string> := {};
    var delay := 0.0;
    var currentAgent := "*";
    var inRelevantAgent := false;
    for i := 0 to |lines|
      invariant currentAgent == AgentAfter(ds[..i])
      invariant inRelevantAgent ==> currentAgent == "*"
      invariant rules == KeptRules(ds[..i])
      invariant sitemaps == KeptSitemaps(ds[..i])
      invariant sensitive == SensitiveOf(rules)
      invariant delay == DelayAfter(ds[..i], toFloat)
    {
      StepSpec(ds, i, toFloat);
      var d := Classify(lines[i]);
      assert d == ds[i];
      if d.UserAgent? {
        inRelevantAgent := d.agent == "*";
        currentAgent := d.agent;
      } else if currentAgent != "*" && !inRelevantAgent {
        // lines for another user agent are ignored
      } else {
        match d {
          case AllowLine(_) | DisallowLine(_) =>
            // the allow: and disallow: branches differ only in the flag
            var rule := Rule(d.path, d.AllowLine?, IsSensitivePath(d.path));
            SensitiveOfAppend(rules, rule);
            rules := rules + [rule];
            sensitive := sensitive + (if rule.isSensitive then {d.path} else {});
          case SitemapLine(url) =>
            sitemaps := sitemaps + [url];
          case DelayLine(text) =>
            // float() raising ValueError leaves the delay as it was
            delay := match toFloat(text) case Some(v) => v case None => delay;
          case _ =>
        }
      }
    }
    assert ds[..|lines|] == ds;
    data := RobotsData(rules, sitemaps, sensitive, delay);
  }

  /** How one more line extends each specification function. */
  lemma StepSpec(ds: seq<Directive>, i: nat, toFloat: string -> Option<real>)
    requires i < |ds|
    ensures var pre, d := ds[..i], ds[i];
      && AgentAfter(ds[..i + 1]) == (if d.UserAgent? then d.agent else AgentAfter(pre))
      && KeptRules(ds[..i + 1]) == KeptRules(pre) + (if AgentAfter(pre) == "*" && IsRuleLine(d) then [RuleFor(d)] else [])
      && KeptSitemaps(ds[..i + 1]) == KeptSitemaps(pre) + (if AgentAfter(pre) == "*" && d.SitemapLine? then [d.url] else [])
      && DelayAfter(ds[..i + 1], toFloat) ==
           (if AgentAfter(pre) == "*" && d.DelayLine? && toFloat(d.text).Some? then toFloat(d.text).value
            else DelayAfter(pre, toFloat))
  {
    assert ds[..i + 1][..i] == ds[..i];
  }

  lemma SensitiveOfAppend(rules: seq<Rule>, r: Rule)
    ensures SensitiveOf(rules + [r]) == SensitiveOf(rules) + (if r.isSensitive then {r.path} else {})
  {
    var s := rules + [r];
    forall q | q in s ensures q in rules || q == r {}
  }

  /** Every kept rule comes from a rule line: its path is lower-case and its flag is the sensitivity of that path. */
  lemma {:induction false} KeptRulesWellFormed(content: string)
    ensures forall r :: r in KeptRules(Directives(content)) ==>
              IsLowercase(r.path) && r.isSensitive == IsSensitivePath(r.path)
  {
    var lines := SplitLines(content);
    var ds := Directives(content);
    forall i | 0 <= i < |ds| && IsRuleLine(ds[i]) ensures IsLowercase(ds[i].path) {
      ClassifyLowercase(lines[i]);
    }
    RulesFromLines(ds);
  }

  lemma ClassifyLowercase(raw: string)
    ensures IsRuleLine(Classify(raw)) ==> IsLowercase(Classify(raw).path)
  {
    var line := Lower(Strip(raw));
    LowerIsLowercase(Strip(raw));
    ClassifyLineLowercase(line);
    assert Classify(raw) == ClassifyLine(line);
  }

  lemma ClassifyLineLowercase(line: string)
    requires IsLowercase(line)
    ensures IsRuleLine(ClassifyLine(line)) ==> IsLowercase(ClassifyLine(line).path)
  {
    ValueOfLowercase(line);
  }

  lemma ValueOfLowercase(line: string)
    requires IsLowercase(line)
    ensures IsLowercase(ValueOf(line))
  {
    match After(line, ":")
    case Some(v) =>
      assert line[|line| - |v|..] == v;
      StripSub(v);
    case None =>
  }

  lemma {:induction false} RulesFromLines(ds: seq<Directive>)
    requires forall i :: 0 <= i < |ds| && IsRuleLine(ds[i]) ==> IsLowercase(ds[i].path)
    ensures forall r :: r in KeptRules(ds) ==> IsLowercase(r.path) && r.isSensitive == IsSensitivePath(r.path)
  {
    if ds != [] {
      RulesFromLines(ds[..|ds| - 1]);
    }
  }

  /** Rules before any user-agent line are all kept. */
  lemma {:induction false} NoAgentKeepsAll(ds: seq<Directive>)
    requires forall i :: 0 <= i < |ds| ==> !ds[i].UserAgent?
    ensures AgentAfter(ds) == "*"
    ensures |KeptRules(ds)| == |RuleLines(ds)|
    ensures KeptRules(ds) == RuleLines(ds)
  {
    if ds != [] {
      NoAgentKeepsAll(ds[..|ds| - 1]);
    }
  }

  /** All rule lines, regardless of user agent. */
  function RuleLines(ds: seq<Directive>): seq<Rule> {
    if ds == [] then []
    else RuleLines(ds[..|ds| - 1]) + (if IsRuleLine(ds[|ds| - 1]) then [RuleFor(ds[|ds| - 1])] else [])
  }

  /** After a user-agent other than "*", nothing is kept until the next user-agent line. */
  lemma {:induction false} ForeignAgentIgnored(ds: seq<Directive>, agent: string, rest: seq<Directive>, toFloat: string -> Option<real>)
    requires agent != "*"
    requires forall i :: 0 <= i < |rest| ==> !rest[i].UserAgent?
    ensures AgentAfter(ds + [UserAgent(agent)] + rest) == agent
    ensures KeptRules(ds + [UserAgent(agent)] + rest) == KeptRules(ds)
    ensures KeptSitemaps(ds + [UserAgent(agent)] + rest) == KeptSitemaps(ds)
    ensures DelayAfter(ds + [UserAgent(agent)] + rest, toFloat) == DelayAfter(ds, toFloat)
  {
    var all := ds + [UserAgent(agent)] + rest;
    if rest == [] {
      assert all[..|all| - 1] == ds;
    } else {
      var shorter := rest[..|rest| - 1];
      ForeignAgentIgnored(ds, agent, shorter, toFloat);
      assert all[..|all| - 1] == ds + [UserAgent(agent)] + shorter;
    }
  }

  /** A crawl-delay value float() rejects leaves the delay as it was. */
  lemma UnparsableDelayKept(ds: seq<Directive>, text: string, toFloat: string -> Option<real>)
    requires toFloat(text).None?
    ensures DelayAfter(ds + [DelayLine(text)], toFloat) == DelayAfter(ds, toFloat)
  {
    assert (ds + [DelayLine(text)])[..|ds|] == ds;
  }

  /** Blank lines and comments change nothing. */
  lemma CommentIgnored(raw: string)
    requires StartsWith(Lower(Strip(raw)), "#")
    ensures Classify(raw) == Skip
  {
  }

  // ---------------------------------------------------------------------------
  // Allow / deny decision
  // ---------------------------------------------------------------------------

  predicate Matches(path: string, r: Rule) { StartsWith(path, r.path) }

  predicate SortedByLength(s: seq<Rule>) {
    forall i, j :: 0 <= i < j < |s| ==> |s[i].path| >= |s[j].path|
  }

  /** Inserts `x` after every rule at least as long: the step of a stable sort by descending length. */
  function Insert(x: Rule, s: seq<Rule>): (r: seq<Rule>)
    ensures multiset(r) == multiset(s) + multiset{x}
  {
    if s == [] then [x]
    else if |s[0].path| >= |x.path| then
      assert s == [s[0]] + s[1..];
      [s[0]] + Insert(x, s[1..])
    else [x] + s
  }

  lemma {:induction false} InsertSorted(x: Rule, s: seq<Rule>)
    requires SortedByLength(s)
    ensures SortedByLength(Insert(x, s))
  {
    if s != [] && |s[0].path| >= |x.path| {
      var rest := Insert(x, s[1..]);
      InsertSorted(x, s[1..]);
      forall y | y in rest ensures |y.path| <= |s[0].path| {
        assert y in multiset(rest);
        if y != x {
          assert y in multiset(s[1..]);
        }
      }
    }
  }

  /** sorted(rules, key=len(path), reverse=True): Python's sort is stable, also in reverse. */
  function SortByLength(rules: seq<Rule>): (r: seq<Rule>)
    ensures multiset(r) == multiset(rules)
    ensures SortedByLength(r)
  {
    if rules == [] then []
    else
      assert rules == rules[..|rules| - 1] + [rules[|rules| - 1]];
      InsertSorted(rules[|rules| - 1], SortByLength(rules[..|rules| - 1]));
      Insert(rules[|rules| - 1], SortByLength(rules[..|rules| - 1]))
  }

  /** The first rule of a list that matches. */
  function FirstMatch(path: string, s: seq<Rule>): (r: Option<Rule>)
    ensures r.Some? ==> r.value in s && Matches(path, r.value)
    ensures r.None? ==> forall k :: 0 <= k < |s| ==> !Matches(path, s[k])
  {
    if s == [] then None
    else if Matches(path, s[0]) then Some(s[0])
    else FirstMatch(path, s[1..])
  }

  /** The path is_allowed tests: urlparse(url).path, "/" when empty. */
  function RequestPath(url: string): string {
    var p := Urls.Parse(url).path;
    if p == [] then "/" else p
  }

  /** is_allowed. */
  function IsAllowed(url: string, rules: seq<Rule>): bool {
    PathAllowed(RequestPath(url), rules)
  }

  function PathAllowed(path: string, rules: seq<Rule>): bool {
    match FirstMatch(path, SortByLength(rules))
    case Some(r) => r.allow
    case None => true
  }

  /**
   * The rule that decides, defined directly: the longest matching rule, and
   * among matching rules of that length the earliest.
   */
  function Decider(path: string, rules: seq<Rule>): (r: Option<nat>)
    ensures r.None? <==> forall j :: 0 <= j < |rules| ==> !Matches(path, rules[j])
    ensures r.Some? ==> r.value < |rules| && Matches(path, rules[r.value])
    ensures r.Some? ==> forall j :: 0 <= j < |rules| && Matches(path, rules[j]) ==>
              |rules[j].path| < |rules[r.value].path| || (|rules[j].path| == |rules[r.value].path| && r.value <= j)
  {
    if rules == [] then None
    else
      var n := |rules| - 1;
      var prev := Decider(path, rules[..n]);
      if Matches(path, rules[n]) && (prev.None? || |rules[prev.value].path| < |rules[n].path|) then Some(n)
      else prev
  }

  /** Inserting into a sorted list: the new rule is found first exactly when it matches and beats the old first match. */
  lemma {:induction false} InsertMatch(path: string, x: Rule, s: seq<Rule>)
    requires SortedByLength(s)
    ensures FirstMatch(path, Insert(x, s)) ==
      if Matches(path, x) && (FirstMatch(path, s).None? || |FirstMatch(path, s).value.path| < |x.path|)
      then Some(x) else FirstMatch(path, s)
  {
    if s != [] && |s[0].path| >= |x.path| {
      InsertMatch(path, x, s[1..]);
    }
  }

  /** The stable sort followed by the first-match scan picks exactly the deciding rule. */
  lemma {:induction false} SortedScanIsDecider(path: string, rules: seq<Rule>)
    ensures FirstMatch(path, SortByLength(rules)) ==
      match Decider(path, rules) case Some(i) => Some(rules[i]) case None => None
  {
    if rules != [] {
      var n := |rules| - 1;
      SortedScanIsDecider(path, rules[..n]);
      InsertMatch(path, rules[n], SortByLength(rules[..n]));
    }
  }

  /** is_allowed follows the deciding rule, and allows when no rule matches. */
  lemma AllowedIffDeciderAllows(url: string, rules: seq<Rule>)
    ensures IsAllowed(url, rules) ==
      match Decider(RequestPath(url), rules) case Some(i) => rules[i].allow case None => true
  {
    SortedScanIsDecider(RequestPath(url), rules);
  }

  /** Equal-length matches go to the earlier rule, even when the later one allows. */
  lemma TieGoesToEarlierRule()
    ensures !PathAllowed("/private", [Rule("/private", false, true), Rule("/private", true, true)])
    ensures PathAllowed("/private", [Rule("/private", true, true), Rule("/private", false, true)])
  {
    var deny, allow := Rule("/private", false, true), Rule("/private", true, true);
    assert Matches("/private", deny) && Matches("/private", allow);
    assert [deny, allow][..1] == [deny] && [allow, deny][..1] == [allow];
    assert Decider("/private", [deny]) == Some(0);
    assert Decider("/private", [allow]) == Some(0);
    SortedScanIsDecider("/private", [deny, allow]);
    SortedScanIsDecider("/private", [allow, deny]);
  }

  /** An empty Disallow value matches every path, so on its own it blocks every URL. */
  lemma EmptyDisallowBlocksAll(url: string, sensitive: bool)
    ensures !IsAllowed(url, [Rule("", false, sensitive)])
  {
    SortedScanIsDecider(RequestPath(url), [Rule("", false, sensitive)]);
  }

  /** With no rules everything is allowed. */
  lemma NoRulesAllowAll(url: string)
    ensures IsAllowed(url, [])
  {
  }

  // ---------------------------------------------------------------------------
  // Serialisation
  // ---------------------------------------------------------------------------

  function RuleToDict(r: Rule): Value {
    Dict([("path", Str(r.path)), ("allow", Bool(r.allow)), ("is_sensitive", Bool(r.isSensitive))])
  }

  /** list(s) for a set of strings: every element once, in an order the set chooses. */
  method ListOfSet(s: set<string>) returns (items: seq<Value>)
    ensures |items| == |s|
    ensures forall p :: p in s <==> Str(p) in items
  {
    var rest := s;
    items := [];
    while rest != {}
      invariant rest <= s
      invariant |items| + |rest| == |s|
      invariant forall p :: p in s <==> p in rest || Str(p) in items
      invariant forall p :: Str(p) in items ==> p !in rest
      decreases |rest|
    {
      var p :| p in rest;
      items := items + [Str(p)];
      rest := rest - {p};
    }
  }

  /** RobotsData.to_dict. */
  method ToDict(data: RobotsData) returns (v: Value)
    ensures v.Dict? && Keys(v.entries) == ["rules", "sitemaps", "sensitive_paths", "crawl_delay"]
    ensures Get(v.entries, "rules") == Some(List(seq(|data.rules|, i requires 0 <= i < |data.rules| => RuleToDict(data.rules[i]))))
    ensures Get(v.entries, "sitemaps") == Some(List(seq(|data.sitemaps|, i requires 0 <= i < |data.sitemaps| => Str(data.sitemaps[i]))))
    ensures Get(v.entries, "crawl_delay") == Some(Real(data.crawlDelay))
    ensures Get(v.entries, "sensitive_paths").Some? && Get(v.entries, "sensitive_paths").value.List?
    ensures var ps := Get(v.entries, "sensitive_paths").value.items;
            |ps| == |data.sensitivePaths| && forall p :: p in data.sensitivePaths <==> Str(p) in ps
  {
    var paths := ListOfSet(data.sensitivePaths);
    var rules := seq(|data.rules|, i requires 0 <= i < |data.rules| => RuleToDict(data.rules[i]));
    var sitemaps := seq(|data.sitemaps|, i requires 0 <= i < |data.sitemaps| => Str(data.sitemaps[i]));
    v := Dict(DictEntries(List(rules), List(sitemaps), List(paths), Real(data.crawlDelay)));
    DictEntriesGet(List(rules), List(sitemaps), List(paths), Real(data.crawlDelay));
  }

  /** The four entries of to_dict(), in their order. */
  function DictEntries(rules: Value, sitemaps: Value, paths: Value, delay: Value): seq<(string, Value)> {
    [("rules", rules), ("sitemaps", sitemaps), ("sensitive_paths", paths), ("crawl_delay", delay)]
  }

  lemma DictEntriesGet(rules: Value, sitemaps: Value, paths: Value, delay: Value)
    ensures var e := DictEntries(rules, sitemaps, paths, delay);
            Keys(e) == ["rules", "sitemaps", "sensitive_paths", "crawl_delay"] &&
            Get(e, "rules") == Some(rules) && Get(e, "sitemaps") == Some(sitemaps) &&
            Get(e, "sensitive_paths") == Some(paths) && Get(e, "crawl_delay") == Some(delay)
  {
    var e := DictEntries(rules, sitemaps, paths, delay);
    assert e[1..][1..][1..] == [("crawl_delay", delay)];
  }
}
