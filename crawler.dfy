/**
 * The crawl engine of src/scraper/crawler.py: the Crawler object with its
 * visited set and session state, start_crawl's breadth-first loop over a
 * queue of (url, depth) tasks, the robots.txt fetch with its override
 * seeding, the per-page work and the OSINT bookkeeping. The network, the
 * HTML parser, the file system, the robots prompt and the OSINT profilers
 * are the oracles of an Env value.
 */
module Crawler {

  import opened Wrappers
  import opened Text
  import opened Json
  import Urls
  import Robots
  import CrawlRules
  import SiteGraph
  import ContactFilters

  // ---------------------------------------------------------------------------
  // Oracles and records
  // ---------------------------------------------------------------------------

  /** A queue task: a URL and its depth (0 for the start URL and the robots seeds). */
  datatype Task = Task(url: string, depth: nat)

  /** fetch_full_response: the status, the body length, the Content-Type header and the decoded body (None when decoding raised). */
  datatype Response = Response(statusCode: int, contentLength: nat, contentType: Option<string>, text: Option<string>)

  /** One entry of the parser's "links" list: its "url" (possibly missing) and its "text". */
  datatype LinkInfo = LinkInfo(url: Option<string>, text: string)

  /** The parser's result: the title, the links in document order and the metadata in insertion order. */
  datatype Parsed = Parsed(title: string, links: seq<LinkInfo>, metadata: seq<(string, Value)>)

  /** A match of the e-mail regular expression, which always holds an '@'. */
  type EmailMatch = s: string | '@' in s witness "@"

  /** One profile of the brand search: the platform, and the username and url it reported, if any. */
  datatype SocialHit = SocialHit(platform: string, username: Option<string>, url: Option<string>)

  /** An entry of osint_findings_summary["entities_profiled"]. */
  datatype Finding =
    | EmailProfile(pageUrl: string, email: string, details: Value)
    | PhonesFound(pageUrl: string, phones: set<string>)
    | SocialProfile(pageUrl: string, platform: string, entity: string, profileUrl: Option<string>)

  datatype Env = Env(
    fetch: string -> Option<string>,                 // fetcher.fetch (robots.txt)
    fetchFullResponse: string -> Option<Response>,   // fetcher.fetch_full_response
    parse: (string, string) -> Option<Parsed>,       // parser.parse(text, url); None when it raised
    toFloat: string -> Option<real>,                 // float() on a crawl-delay value
    respectChoice: bool,                             // the y/n answer to the robots prompt
    treeConfigured: bool,                            // base_dirs has "downloaded_tree"
    makeSiteDir: string -> Option<string>,           // creating <domain>_<timestamp> and its subdirectories
    writeFile: CrawlRules.SavePath -> bool,          // writing the body to the computed path
    emailMatches: string -> seq<EmailMatch>,         // the e-mail regex's findall
    phoneMatches: string -> set<string>,             // extract_phone_numbers
    profileEmail: string -> Value,                   // osint_extractor.profile_email
    dumps: Value -> string,                          // json.dumps
    str: Value -> string,                            // str()
    socialProfiles: string -> Option<seq<SocialHit>> // find_brand_social_profiles; None on error
  )

  /** The stats dictionary start_crawl returns. */
  datatype Stats = Stats(urlsVisited: nat, pagesSaved: nat, downloadPath: Option<string>, errors: nat,
                         robotsTxt: Option<Value>, restrictedPathsCrawled: nat, osintSummary: Option<seq<Finding>>)

  // ---------------------------------------------------------------------------
  // Links and the enqueue rule
  // ---------------------------------------------------------------------------

  /** headers.get('Content-Type', '').lower() */
  function ContentType(r: Response): string {
    match r.contentType
    case None => ""
    case Some(ct) => Lower(ct)
  }

  /** The content types whose body is decoded and parsed. */
  predicate IsParsedType(contentType: string) {
    CrawlRules.AnyIn(["html", "xml", "text", "json"], contentType)
  }

  /** (url, depth) pairs as queue tasks. */
  function AsTasks(pairs: seq<(string, nat)>): (tasks: seq<Task>)
    ensures |tasks| == |pairs| && forall i :: 0 <= i < |pairs| ==> tasks[i] == Task(pairs[i].0, pairs[i].1)
  {
    seq(|pairs|, i requires 0 <= i < |pairs| => Task(pairs[i].0, pairs[i].1))
  }

  /** The override seeds queued at depth 0: robots.txt's concrete disallowed paths, when it was loaded but not respected. */
  function Seeds(startUrl: string, robots: Option<Robots.RobotsData>, respectRobots: bool): (seeds: seq<Task>)
    ensures forall i :: 0 <= i < |seeds| ==> seeds[i].depth == 0
  {
    if robots.Some? && !respectRobots then AsTasks(CrawlRules.OverrideSeeds(startUrl, robots.value.rules)) else []
  }

  /** The normalised target of a link, or None when it has no URL or normalises to nothing. */
  function LinkTarget(link: LinkInfo, pageUrl: string): (r: Option<string>)
    ensures r.Some? ==> r.value != []
  {
    match link.url
    case None => None
    case Some(u) =>
      if u == [] then None
      else
        var n := Urls.NormalizeUrl(u, pageUrl);
        if n == [] then None else Some(n)
  }

  /** The normalised targets of the page's links, in order. */
  function Targets(links: seq<LinkInfo>, pageUrl: string): (r: seq<string>)
    ensures |r| <= |links|
  {
    if links == [] then []
    else
      var t := LinkTarget(links[|links| - 1], pageUrl);
      Targets(links[..|links| - 1], pageUrl) + (if t.Some? then [t.value] else [])
  }

  /** The page's links that have a target, each paired with it, in order; their targets are Targets. */
  function Resolved(links: seq<LinkInfo>, pageUrl: string): (r: seq<(LinkInfo, string)>)
    ensures |r| == |Targets(links, pageUrl)|
    ensures forall i :: 0 <= i < |r| ==> r[i].1 == Targets(links, pageUrl)[i]
  {
    if links == [] then []
    else
      var t := LinkTarget(links[|links| - 1], pageUrl);
      Resolved(links[..|links| - 1], pageUrl) + (if t.Some? then [(links[|links| - 1], t.value)] else [])
  }

  /** The pairs of the first i+1 links, from the pairs of the first i. */
  lemma ResolvedStep(links: seq<LinkInfo>, i: nat, pageUrl: string)
    requires i < |links|
    ensures Resolved(links[..i + 1], pageUrl) ==
            match LinkTarget(links[i], pageUrl)
            case None => Resolved(links[..i], pageUrl)
            case Some(t) => Resolved(links[..i], pageUrl) + [(links[i], t)]
  {
    assert links[..i + 1][..i] == links[..i];
  }

  function Max(a: nat, b: nat): nat { if a < b then b else a }

  /** The hard bound on the queue length below which a link is still enqueued. */
  const QueueBound: nat := 2000

  /**
   * The queue after the page's targets are offered in order: a target is
   * appended at the given depth when it is internal, not visited and the
   * queue is shorter than 2000.
   */
  function Enqueue(queue: seq<Task>, targets: seq<string>, depth: nat, visited: set<string>, baseDomain: string)
    : (r: seq<Task>)
    ensures |queue| <= |r| <= Max(QueueBound, |queue|) && r[..|queue|] == queue
    ensures forall i :: |queue| <= i < |r| ==>
              r[i].depth == depth && r[i].url in targets && Urls.IsInternalUrl(baseDomain, r[i].url) && r[i].url !in visited
  {
    if targets == [] then queue
    else Offer(Enqueue(queue, targets[..|targets| - 1], depth, visited, baseDomain), targets[|targets| - 1], depth, visited, baseDomain)
  }

  /** One target offered to the queue. */
  function Offer(q: seq<Task>, t: string, depth: nat, visited: set<string>, baseDomain: string): seq<Task> {
    if Urls.IsInternalUrl(baseDomain, t) && t !in visited && |q| < QueueBound then q + [Task(t, depth)] else q
  }

  /** The queue after the first i+1 links, from the queue after the first i. */
  lemma EnqueueStep(queue: seq<Task>, links: seq<LinkInfo>, i: nat, pageUrl: string, depth: nat, visited: set<string>,
                    baseDomain: string)
    requires i < |links|
    ensures Enqueue(queue, Targets(links[..i + 1], pageUrl), depth, visited, baseDomain) ==
            match LinkTarget(links[i], pageUrl)
            case None => Enqueue(queue, Targets(links[..i], pageUrl), depth, visited, baseDomain)
            case Some(t) => Offer(Enqueue(queue, Targets(links[..i], pageUrl), depth, visited, baseDomain), t, depth, visited, baseDomain)
  {
    assert links[..i + 1][..i] == links[..i];
    var ts := Targets(links[..i], pageUrl);
    match LinkTarget(links[i], pageUrl) {
      case None => assert ts + [] == ts;
      case Some(t) => assert (ts + [t])[..|ts|] == ts;
    }
  }

  /** A target that is internal and not visited is enqueued while the queue stays below the bound. */
  lemma {:induction false} EnqueueTakesRoom(queue: seq<Task>, targets: seq<string>, depth: nat, visited: set<string>,
                                            baseDomain: string, k: nat)
    requires k < |targets| && Urls.IsInternalUrl(baseDomain, targets[k]) && targets[k] !in visited
    requires |queue| + |targets| <= QueueBound
    ensures Task(targets[k], depth) in Enqueue(queue, targets, depth, visited, baseDomain)
  {
    var front := targets[..|targets| - 1];
    var q := Enqueue(queue, front, depth, visited, baseDomain);
    assert Enqueue(queue, targets, depth, visited, baseDomain) == Offer(q, targets[|targets| - 1], depth, visited, baseDomain);
    if k < |front| {
      assert front[k] == targets[k];
      EnqueueTakesRoom(queue, front, depth, visited, baseDomain, k);
      OfferKeeps(q, targets[|targets| - 1], depth, visited, baseDomain, Task(targets[k], depth));
    } else {
      EnqueueLength(queue, front, depth, visited, baseDomain);
      assert k == |targets| - 1;
      assert Offer(q, targets[k], depth, visited, baseDomain) == q + [Task(targets[k], depth)];
      assert (q + [Task(targets[k], depth)])[|q|] == Task(targets[k], depth);
    }
  }

  lemma OfferKeeps(q: seq<Task>, t: string, depth: nat, visited: set<string>, baseDomain: string, task: Task)
    requires task in q
    ensures task in Offer(q, t, depth, visited, baseDomain)
  {
  }

  lemma {:induction false} EnqueueLength(queue: seq<Task>, targets: seq<string>, depth: nat, visited: set<string>,
                                         baseDomain: string)
    ensures |Enqueue(queue, targets, depth, visited, baseDomain)| <= |queue| + |targets|
  {
    if targets != [] {
      EnqueueLength(queue, targets[..|targets| - 1], depth, visited, baseDomain);
    }
  }

  /** The links table after _save_link_info for each link with a target, in order. */
  function LinkRows(links: map<(nat, string), SiteGraph.Link>, pageId: nat, pairs: seq<(LinkInfo, string)>,
                    baseDomain: string): (r: map<(nat, string), SiteGraph.Link>)
    ensures forall k :: k in links ==> k in r && r[k] == links[k]
  {
    if pairs == [] then links
    else
      var last := pairs[|pairs| - 1];
      AddLink(LinkRows(links, pageId, pairs[..|pairs| - 1], baseDomain), pageId, last.0, last.1, baseDomain)
  }

  /** One _save_link_info: the row is inserted, followed, unless the page already links to t. */
  function AddLink(links: map<(nat, string), SiteGraph.Link>, pageId: nat, info: LinkInfo, t: string, baseDomain: string)
    : map<(nat, string), SiteGraph.Link>
  {
    if (pageId, t) in links then links
    else links[(pageId, t) := SiteGraph.Link(info.text, Urls.IsInternalUrl(baseDomain, t), true)]
  }

  lemma LinkRowsSnoc(links: map<(nat, string), SiteGraph.Link>, pageId: nat, pairs: seq<(LinkInfo, string)>,
                     info: LinkInfo, t: string, baseDomain: string)
    ensures LinkRows(links, pageId, pairs + [(info, t)], baseDomain) ==
            AddLink(LinkRows(links, pageId, pairs, baseDomain), pageId, info, t, baseDomain)
  {
    assert (pairs + [(info, t)])[..|pairs|] == pairs;
  }

  /** Only this page's rows are added, and only for targets it links to. */
  lemma {:induction false} LinkRowsOnlyTargets(links: map<(nat, string), SiteGraph.Link>, pageId: nat,
                                               pairs: seq<(LinkInfo, string)>, baseDomain: string)
    ensures forall k :: k in LinkRows(links, pageId, pairs, baseDomain) ==>
              k in links || (k.0 == pageId && exists i :: 0 <= i < |pairs| && pairs[i].1 == k.1)
  {
    if pairs != [] {
      var front := pairs[..|pairs| - 1];
      LinkRowsOnlyTargets(links, pageId, front, baseDomain);
      forall k | k in LinkRows(links, pageId, pairs, baseDomain) && k !in links && k != (pageId, pairs[|pairs| - 1].1)
        ensures k.0 == pageId && exists i :: 0 <= i < |pairs| && pairs[i].1 == k.1
      {
        var i :| 0 <= i < |front| && front[i].1 == k.1;
        assert pairs[i] == front[i];
      }
    }
  }

  /** Every target of the page ends up with a row. */
  lemma {:induction false} LinkRowsCoverTargets(links: map<(nat, string), SiteGraph.Link>, pageId: nat,
                                                pairs: seq<(LinkInfo, string)>, baseDomain: string)
    ensures forall i :: 0 <= i < |pairs| ==> (pageId, pairs[i].1) in LinkRows(links, pageId, pairs, baseDomain)
  {
    if pairs != [] {
      var front := pairs[..|pairs| - 1];
      LinkRowsCoverTargets(links, pageId, front, baseDomain);
      forall i | 0 <= i < |front| ensures (pageId, pairs[i].1) in LinkRows(links, pageId, pairs, baseDomain) {
        assert pairs[i] == front[i];
      }
    }
  }

  /** A new row is followed and records whether its target is internal. */
  lemma {:induction false} LinkRowsFields(links: map<(nat, string), SiteGraph.Link>, pageId: nat,
                                          pairs: seq<(LinkInfo, string)>, baseDomain: string, k: (nat, string))
    requires k in LinkRows(links, pageId, pairs, baseDomain) && k !in links
    ensures var row := LinkRows(links, pageId, pairs, baseDomain)[k];
            row.isFollowed && row.isInternal == Urls.IsInternalUrl(baseDomain, k.1)
  {
    if pairs != [] && k in LinkRows(links, pageId, pairs[..|pairs| - 1], baseDomain) {
      LinkRowsFields(links, pageId, pairs[..|pairs| - 1], baseDomain, k);
    }
  }

  // ---------------------------------------------------------------------------
  // Termination of the crawl loop
  // ---------------------------------------------------------------------------

  /** Larger than the number of tasks one page can add. */
  const Fanout: nat := 2001

  function Pow(b: nat, e: nat): (r: nat)
    ensures b > 0 ==> r > 0
  {
    if e == 0 then 1 else b * Pow(b, e - 1)
  }

  /** A task at depth d below the limit stands for all the tasks its page may still add. */
  function Weight(depth: nat, limit: int): (w: nat)
    ensures w > 0
  {
    if depth <= limit then Pow(Fanout, limit - depth) else 1
  }

  /** The measure that every iteration of the crawl loop decreases. */
  function Pending(queue: seq<Task>, limit: int): nat {
    if queue == [] then 0 else Weight(queue[0].depth, limit) + Pending(queue[1..], limit)
  }

  lemma {:induction false} PendingConcat(a: seq<Task>, b: seq<Task>, limit: int)
    ensures Pending(a + b, limit) == Pending(a, limit) + Pending(b, limit)
  {
    if a == [] {
      assert a + b == b;
    } else {
      assert (a + b)[1..] == a[1..] + b;
      PendingConcat(a[1..], b, limit);
    }
  }

  lemma {:induction false} PendingUniform(added: seq<Task>, depth: nat, limit: int)
    requires depth <= limit
    requires forall i :: 0 <= i < |added| ==> added[i].depth == depth
    ensures Pending(added, limit) == |added| * Pow(Fanout, limit - depth)
  {
    if added != [] {
      PendingUniform(added[1..], depth, limit);
    }
  }

  lemma MulAtMost(a: nat, b: nat, p: nat)
    requires a <= b
    ensures a * p <= b * p
  {
  }

  /** Replacing a popped task by at most 2000 tasks one level deeper lowers the measure. */
  lemma PendingDrops(rest: seq<Task>, added: seq<Task>, depth: nat, limit: int)
    requires |added| <= QueueBound
    requires forall i :: 0 <= i < |added| ==> added[i].depth == depth + 1 && depth < limit
    ensures Pending(rest + added, limit) < Weight(depth, limit) + Pending(rest, limit)
  {
    PendingConcat(rest, added, limit);
    if added != [] {
      PendingUniform(added, depth + 1, limit);
      var p := Pow(Fanout, limit - depth - 1);
      assert Weight(depth, limit) == Fanout * p;
      MulAtMost(|added|, QueueBound, p);
    }
  }

  // ---------------------------------------------------------------------------
  // Findings
  // ---------------------------------------------------------------------------

  /** The e-mails profiled in a list of findings, in order. */
  function ProfiledEmails(found: seq<Finding>): (r: seq<string>)
    ensures |r| <= |found|
  {
    if found == [] then []
    else ProfiledEmails(found[..|found| - 1]) +
         (if found[|found| - 1].EmailProfile? then [found[|found| - 1].email] else [])
  }

  /** An entry that is not an e-mail profile adds no profiled e-mail. */
  lemma PhonesEntryAdds(found: seq<Finding>, entry: Finding)
    requires !entry.EmailProfile?
    ensures ProfiledEmails(found + [entry]) == ProfiledEmails(found)
  {
    assert (found + [entry])[..|found|] == found;
  }

  lemma {:induction false} ProfiledEmailsConcat(a: seq<Finding>, b: seq<Finding>)
    ensures ProfiledEmails(a + b) == ProfiledEmails(a) + ProfiledEmails(b)
  {
    if b == [] {
      assert a + b == a;
    } else {
      assert (a + b)[..|a + b| - 1] == a + b[..|b| - 1];
      ProfiledEmailsConcat(a, b[..|b| - 1]);
    }
  }

  lemma {:induction false} NoEmailProfiles(found: seq<Finding>)
    requires forall i :: 0 <= i < |found| ==> !found[i].EmailProfile?
    ensures ProfiledEmails(found) == []
  {
    if found != [] {
      NoEmailProfiles(found[..|found| - 1]);
    }
  }

  predicate Distinct(s: seq<string>) {
    s == [] || (s[|s| - 1] !in s[..|s| - 1] && Distinct(s[..|s| - 1]))
  }

  function Elems(s: seq<string>): set<string> {
    set x | x in s
  }

  lemma {:induction false} DistinctConcat(a: seq<string>, b: seq<string>)
    requires Distinct(a) && Distinct(b) && Elems(a) !! Elems(b)
    ensures Distinct(a + b) && Elems(a + b) == Elems(a) + Elems(b)
  {
    if b == [] {
      assert a + b == a;
    } else {
      var front := b[..|b| - 1];
      var last := b[|b| - 1];
      assert Elems(front) <= Elems(b) by {
        forall x | x in front ensures x in b { }
      }
      DistinctConcat(a, front);
      assert (a + b)[..|a + b| - 1] == a + front;
      assert last in Elems(b);
    }
  }

  /** The entity of a brand-search profile: its username, else the brand. */
  function SocialEntity(hit: SocialHit, brand: string): string {
    match hit.username
    case Some(u) => u
    case None => brand
  }

  /** The brand search's entries: one social-profile finding per profile, all at the start URL. */
  function SocialFindings(startUrl: string, brand: string, hits: seq<SocialHit>): seq<Finding> {
    seq(|hits|, i requires 0 <= i < |hits| => SocialProfile(startUrl, hits[i].platform, SocialEntity(hits[i], brand), hits[i].url))
  }

  /** The brand-search entries profile no e-mail, so the session's profiled e-mails are those of the pages. */
  lemma SocialFindingsProfileNothing(summary: seq<Finding>, startUrl: string, brand: string, hits: seq<SocialHit>)
    ensures ProfiledEmails(summary + SocialFindings(startUrl, brand, hits)) == ProfiledEmails(summary)
  {
    var socials := SocialFindings(startUrl, brand, hits);
    NoEmailProfiles(socials);
    ProfiledEmailsConcat(summary, socials);
    assert ProfiledEmails(summary) + [] == ProfiledEmails(summary);
  }

  /** The entries the brand search adds for a domain: none when the search reports an error. */
  function BrandFindings(env: Env, startUrl: string, domain: string): seq<Finding> {
    match env.socialProfiles(CrawlRules.BrandOf(domain))
    case None => []
    case Some(hits) => SocialFindings(startUrl, CrawlRules.BrandOf(domain), hits)
  }

  // ---------------------------------------------------------------------------
  // The site graph after robots.txt is saved
  // ---------------------------------------------------------------------------

  /** The domain's robots_txt row holds this content and delay, its rules in order and its sitemaps. */
  ghost predicate RobotsSaved(db: SiteGraph.Db, domain: string, content: string, data: Robots.RobotsData) {
    domain in db.websites && db.websites[domain] in db.robotsTxt &&
    var row := db.robotsTxt[db.websites[domain]];
    row.content == content && row.crawlDelay == data.crawlDelay &&
    SiteGraph.RulesOf(db.rules, row.id) == SiteGraph.RuleRows(row.id, data.rules) &&
    forall u :: (row.id, u) in db.sitemaps <==> u in data.sitemaps
  }

  /** Websites are only added, and the robots tables are untouched. */
  predicate KeepsRobots(before: SiteGraph.Db, after: SiteGraph.Db) {
    (forall d :: d in before.websites ==> d in after.websites && after.websites[d] == before.websites[d]) &&
    after.robotsTxt == before.robotsTxt && after.rules == before.rules && after.sitemaps == before.sitemaps
  }

  /** What a crawl does to the database: it stays valid, keeps pages at their host and robots rows, and is untouched in OSINT mode. */
  predicate DbEvolves(before: SiteGraph.Db, after: SiteGraph.Db, osint: bool) {
    SiteGraph.Valid(after) && (SiteGraph.PagesAtTheirHost(before) ==> SiteGraph.PagesAtTheirHost(after)) &&
    KeepsRobots(before, after) && (osint ==> after == before)
  }

  lemma DbEvolvesTrans(db0: SiteGraph.Db, db1: SiteGraph.Db, db2: SiteGraph.Db, osint: bool)
    requires DbEvolves(db0, db1, osint) && DbEvolves(db1, db2, osint)
    ensures DbEvolves(db0, db2, osint)
  {
  }

  lemma RobotsSavedKept(before: SiteGraph.Db, after: SiteGraph.Db, domain: string, content: string,
                        data: Robots.RobotsData)
    requires RobotsSaved(before, domain, content, data) && KeepsRobots(before, after)
    ensures RobotsSaved(after, domain, content, data)
  {
  }

  /** `found` profiles each e-mail of `seen` exactly once. */
  predicate ProfilesOnce(found: seq<Finding>, seen: set<string>) {
    Distinct(ProfiledEmails(found)) && Elems(ProfiledEmails(found)) == seen
  }

  /** Every finding is the profile of its e-mail, found on this page. */
  predicate ProfilesOf(found: seq<Finding>, pageUrl: string, profileEmail: string -> Value) {
    forall i :: 0 <= i < |found| ==>
      found[i].EmailProfile? && found[i] == EmailProfile(pageUrl, found[i].email, profileEmail(found[i].email))
  }

  lemma ProfileStep(found: seq<Finding>, pageUrl: string, email: string, profileEmail: string -> Value, seen: set<string>)
    requires email !in seen && ProfilesOnce(found, seen) && ProfilesOf(found, pageUrl, profileEmail)
    ensures var found' := found + [EmailProfile(pageUrl, email, profileEmail(email))];
      ProfilesOnce(found', seen + {email}) && ProfilesOf(found', pageUrl, profileEmail)
  {
    var profile := EmailProfile(pageUrl, email, profileEmail(email));
    assert (found + [profile])[..|found|] == found;
    assert ProfiledEmails(found + [profile]) == ProfiledEmails(found) + [email];
    DistinctConcat(ProfiledEmails(found), [email]);
  }

  /** One e-mail of the profiling loop: profiled when the session has not profiled it yet. */
  lemma ProfileNewStep(found: seq<Finding>, pageUrl: string, email: string, profileEmail: string -> Value,
                       done: set<string>, profiled: set<string>)
    requires email !in done && ProfilesOnce(found, done - profiled) && ProfilesOf(found, pageUrl, profileEmail)
    ensures var found' := if email !in profiled then found + [EmailProfile(pageUrl, email, profileEmail(email))] else found;
            ProfilesOnce(found', done + {email} - profiled) && ProfilesOf(found', pageUrl, profileEmail)
  {
    if email !in profiled {
      ProfileStep(found, pageUrl, email, profileEmail, done - profiled);
      assert done + {email} - profiled == (done - profiled) + {email};
    } else {
      assert done + {email} - profiled == done - profiled;
    }
  }

  /** The profiling loop over a set of e-mails, given the e-mails profiled so far in the session. */
  method ProfileNew(pageUrl: string, emails: set<string>, profiled: set<string>, profileEmail: string -> Value)
    returns (found: seq<Finding>, after: set<string>)
    ensures after == profiled + emails
    ensures Distinct(ProfiledEmails(found)) && Elems(ProfiledEmails(found)) == emails - profiled
    ensures forall i :: 0 <= i < |found| ==> found[i].EmailProfile? && found[i] == EmailProfile(pageUrl, found[i].email, profileEmail(found[i].email))
  {
    found := [];
    var done: set<string> := {};
    // `profiled + done` is the session's set at each step; `email !in done` holds for the next e-mail.
    while done != emails
      invariant done <= emails
      invariant ProfilesOnce(found, done - profiled) && ProfilesOf(found, pageUrl, profileEmail)
      decreases |emails - done|
    {
      var email :| email in emails - done;
      ProfileNewStep(found, pageUrl, email, profileEmail, done, profiled);
      if email !in profiled {
        found := found + [EmailProfile(pageUrl, email, profileEmail(email))];
      }
      done := done + {email};
    }
    after := profiled + emails;
  }

  // ---------------------------------------------------------------------------
  // One page
  // ---------------------------------------------------------------------------

  /** The response holds a body: a response was returned and its content is not empty. */
  predicate HasBody(r: Option<Response>) {
    r.Some? && r.value.contentLength > 0
  }

  /** page_content_text: the decoded body, kept only for the content types that are parsed. */
  function PageText(r: Option<Response>): (text: Option<string>)
    ensures text.Some? ==> HasBody(r) && IsParsedType(ContentType(r.value)) && r.value.text == text
  {
    if HasBody(r) && IsParsedType(ContentType(r.value)) then r.value.text else None
  }

  /** parsed_data: the parser's result on the page text, None when there is no text or parsing raised. */
  function PageParse(env: Env, url: string): (p: Option<Parsed>)
    ensures p.Some? ==> PageText(env.fetchFullResponse(url)).Some?
  {
    match PageText(env.fetchFullResponse(url))
    case None => None
    case Some(text) => env.parse(text, url)
  }

  /** The findings of one page: its e-mail profiles, then one entry for its phone numbers when there are any. */
  predicate PageFindings(found: seq<Finding>, url: string, phones: set<string>, env: Env) {
    (forall i :: 0 <= i < |found| ==>
      found[i].pageUrl == url && !found[i].SocialProfile? &&
      (found[i].EmailProfile? ==> found[i].details == env.profileEmail(found[i].email)) &&
      (found[i].PhonesFound? ==> i == |found| - 1 && found[i].phones == phones)) &&
    (phones != {} <==> |found| > 0 && found[|found| - 1].PhonesFound?)
  }

  /** Findings that are all e-mail profiles of one page, each carrying the profile of its e-mail. */
  predicate EmailFindings(found: seq<Finding>, url: string, env: Env) {
    forall i :: 0 <= i < |found| ==>
      found[i].EmailProfile? && found[i] == EmailProfile(url, found[i].email, env.profileEmail(found[i].email))
  }

  /** A page's e-mail profiles followed by its phone entry, when there are phone numbers, are the page's findings. */
  lemma PhonesEntry(found: seq<Finding>, url: string, phones: set<string>, env: Env)
    requires EmailFindings(found, url, env)
    ensures var all := if phones == {} then found else found + [PhonesFound(url, phones)];
            PageFindings(all, url, phones, env) && ProfiledEmails(all) == ProfiledEmails(found)
  {
    if phones != {} {
      PhonesEntryAdds(found, PhonesFound(url, phones));
    }
  }

  /**
   * The OSINT step of one page whose text is `text`, run when `active` (OSINT
   * mode with an extractor attached) and the text is not empty: the kept
   * e-mails join the profiled set, each new one profiled once, and the
   * findings are the page's; otherwise nothing is found or profiled.
   */
  predicate OsintStep(env: Env, url: string, text: Option<string>, active: bool, baseDomain: string,
                      before: set<string>, after: set<string>, found: seq<Finding>) {
    if active && text.Some? && text.value != [] then
      var kept := ContactFilters.EmailsKept(ContactFilters.Extracted(env.emailMatches(text.value)), baseDomain, false);
      after == before + kept &&
      Distinct(ProfiledEmails(found)) && Elems(ProfiledEmails(found)) == kept - before &&
      PageFindings(found, url, ContactFilters.PhonesKept(env.phoneMatches(text.value)), env)
    else
      found == [] && after == before
  }

  /** A page's OSINT step keeps the session's findings summarised. */
  lemma OsintStepSummarised(env: Env, url: string, text: Option<string>, active: bool, baseDomain: string,
                            before: set<string>, after: set<string>, found: seq<Finding>,
                            summary: seq<Finding>, profiled0: set<string>, visited: set<string>)
    requires OsintStep(env, url, text, active, baseDomain, before, after, found)
    requires profiled0 <= before && Summarised(summary, profiled0, before, visited) && url in visited
    ensures profiled0 <= after && Summarised(summary + found, profiled0, after, visited)
    ensures !active ==> found == [] && after == before
  {
    if active && text.Some? && text.value != [] {
      var kept := ContactFilters.EmailsKept(ContactFilters.Extracted(env.emailMatches(text.value)), baseDomain, false);
      SummarisedStep(summary, found, profiled0, before, kept, visited, url);
    } else {
      assert summary + found == summary;
    }
  }

  // ---------------------------------------------------------------------------
  // The crawl loop's invariants
  // ---------------------------------------------------------------------------

  /** The queue after one page: the old queue, then at most 2000 tasks one level deeper than the page, below the limit. */
  lemma EnqueueAdds(queue: seq<Task>, targets: seq<string>, depth: nat, visited: set<string>, baseDomain: string, limit: int)
    requires depth < limit
    ensures var r := Enqueue(queue, targets, depth + 1, visited, baseDomain);
            Pending(r, limit) < Weight(depth, limit) + Pending(queue, limit)
  {
    var r := Enqueue(queue, targets, depth + 1, visited, baseDomain);
    var added := r[|queue|..];
    assert r == r[..|queue|] + added;
    forall i | 0 <= i < |added| ensures added[i].depth == depth + 1 && depth < limit {
      assert added[i] == r[|queue| + i];
    }
    PendingDrops(queue, added, depth, limit);
  }

  /** The queue after a page visit: the page's links are enqueued one level deeper when it was parsed below the limit. */
  predicate NextQueue(env: Env, url: string, depth: nat, depthLimit: int, queue: seq<Task>, q: seq<Task>,
                      visited: set<string>, baseDomain: string) {
    q == if HasBody(env.fetchFullResponse(url)) && PageParse(env, url).Some? && depth < depthLimit
         then Enqueue(queue, Targets(PageParse(env, url).value.links, url), depth + 1, visited, baseDomain)
         else queue
  }

  /** After a visit the queue is still made of queued tasks, no longer than the bound, and the measure has dropped. */
  lemma NextQueueDrops(env: Env, url: string, depth: nat, depthLimit: int, queue: seq<Task>, q: seq<Task>,
                       initial: seq<Task>, visited: set<string>, baseDomain: string)
    requires NextQueue(env, url, depth, depthLimit, queue, q, visited, baseDomain)
    requires AllQueued(queue, initial, depthLimit, baseDomain)
    ensures Pending(q, depthLimit) < Weight(depth, depthLimit) + Pending(queue, depthLimit)
    ensures AllQueued(q, initial, depthLimit, baseDomain) && |q| <= Max(QueueBound, |queue|)
  {
    if HasBody(env.fetchFullResponse(url)) && PageParse(env, url).Some? && depth < depthLimit {
      EnqueueAdds(queue, Targets(PageParse(env, url).value.links, url), depth, visited, baseDomain, depthLimit);
      forall i | 0 <= i < |q| ensures Queued(q[i], initial, depthLimit, baseDomain) {
        if i < |queue| {
          assert q[i] == q[..|queue|][i];
        }
      }
    }
  }

  predicate AllQueued(queue: seq<Task>, initial: seq<Task>, limit: int, baseDomain: string) {
    forall i :: 0 <= i < |queue| ==> Queued(queue[i], initial, limit, baseDomain)
  }

  /** Popping the head of a queue of queued tasks. */
  lemma PopQueued(queue: seq<Task>, initial: seq<Task>, limit: int, baseDomain: string)
    requires queue != [] && AllQueued(queue, initial, limit, baseDomain)
    ensures Queued(queue[0], initial, limit, baseDomain) && AllQueued(queue[1..], initial, limit, baseDomain)
    ensures Pending(queue[1..], limit) < Pending(queue, limit)
  {
    assert forall i :: 0 <= i < |queue[1..]| ==> queue[1..][i] == queue[i + 1];
  }

  /** A queued task: a depth-0 task is one of the initial tasks, a deeper one is internal and within the limit. */
  predicate Queued(task: Task, initial: seq<Task>, limit: int, baseDomain: string) {
    if task.depth == 0 then task in initial else task.depth <= limit && Urls.IsInternalUrl(baseDomain, task.url)
  }

  /** The URLs of a list of tasks. */
  function UrlsOf(tasks: seq<Task>): set<string>
    decreases |tasks|
  {
    if tasks == [] then {} else UrlsOf(tasks[..|tasks| - 1]) + {tasks[|tasks| - 1].url}
  }

  /** A URL is among the tasks' URLs exactly when some task has it. */
  lemma {:induction false} UrlsOfMembers(tasks: seq<Task>, u: string)
    ensures u in UrlsOf(tasks) <==> exists i :: 0 <= i < |tasks| && tasks[i].url == u
    decreases |tasks|
  {
    if tasks != [] {
      var front := tasks[..|tasks| - 1];
      UrlsOfMembers(front, u);
      if exists i :: 0 <= i < |tasks| && tasks[i].url == u {
        var i :| 0 <= i < |tasks| && tasks[i].url == u;
        if i < |front| { assert front[i] == tasks[i]; }
      }
      if exists i :: 0 <= i < |front| && front[i].url == u {
        var i :| 0 <= i < |front| && front[i].url == u;
        assert tasks[i] == front[i];
      }
    }
  }

  /**
   * The tasks whose pages were fetched, in order: each within the depth
   * limit, allowed by robots.txt and queued by the rules.
   */
  predicate Crawled(fetched: seq<Task>, initial: seq<Task>, limit: int, respectRobots: bool,
                    robots: Option<Robots.RobotsData>, baseDomain: string) {
    forall i :: 0 <= i < |fetched| ==>
      fetched[i].depth <= limit && CrawlRules.ShouldCrawl(respectRobots, robots, fetched[i].url) &&
      Queued(fetched[i], initial, limit, baseDomain)
  }

  lemma {:induction false} UrlsOfSize(tasks: seq<Task>)
    ensures |UrlsOf(tasks)| <= |tasks|
    decreases |tasks|
  {
    if tasks != [] {
      UrlsOfSize(tasks[..|tasks| - 1]);
    }
  }

  lemma SubsetSize<T>(a: set<T>, b: set<T>)
    requires a <= b
    ensures |a| <= |b|
  {
    assert b == a + (b - a);
  }

  /** As many URLs as tasks: no URL was fetched twice. */
  lemma {:induction false} FetchedOnce(fetched: seq<Task>)
    requires |UrlsOf(fetched)| == |fetched|
    ensures forall i, j :: 0 <= i < j < |fetched| ==> fetched[i].url != fetched[j].url
    decreases |fetched|
  {
    if fetched != [] {
      var front := fetched[..|fetched| - 1];
      UrlsOfSize(front);
      FetchedOnce(front);
      forall i, j | 0 <= i < j < |fetched| ensures fetched[i].url != fetched[j].url {
        assert fetched[i] == front[i];
        if j < |front| {
          assert fetched[j] == front[j];
        } else {
          UrlsOfMembers(front, fetched[i].url);
        }
      }
    }
  }

  /** The crawl so far: `count` distinct URLs fetched, the visited set being exactly their URLs. */
  predicate Fetched(count: nat, visited: set<string>, fetched: seq<Task>, initial: seq<Task>, limit: int,
                    respectRobots: bool, robots: Option<Robots.RobotsData>, baseDomain: string) {
    count == |visited| == |fetched| && visited == UrlsOf(fetched) &&
    Crawled(fetched, initial, limit, respectRobots, robots, baseDomain)
  }

  lemma FetchedStep(count: nat, visited: set<string>, fetched: seq<Task>, task: Task, initial: seq<Task>, limit: int,
                    respectRobots: bool, robots: Option<Robots.RobotsData>, baseDomain: string)
    requires Fetched(count, visited, fetched, initial, limit, respectRobots, robots, baseDomain)
    requires task.url !in visited && task.depth <= limit && CrawlRules.ShouldCrawl(respectRobots, robots, task.url)
    requires Queued(task, initial, limit, baseDomain)
    ensures Fetched(count + 1, visited + {task.url}, fetched + [task], initial, limit, respectRobots, robots, baseDomain)
  {
    CrawledStep(fetched, task, initial, limit, respectRobots, robots, baseDomain);
    UrlsOfSnoc(fetched, task);
  }

  lemma UrlsOfSnoc(fetched: seq<Task>, task: Task)
    ensures UrlsOf(fetched + [task]) == UrlsOf(fetched) + {task.url}
  {
    assert (fetched + [task])[..|fetched|] == fetched;
  }

  lemma CrawledStep(fetched: seq<Task>, task: Task, initial: seq<Task>, limit: int, respectRobots: bool,
                    robots: Option<Robots.RobotsData>, baseDomain: string)
    requires Crawled(fetched, initial, limit, respectRobots, robots, baseDomain)
    requires task.depth <= limit && CrawlRules.ShouldCrawl(respectRobots, robots, task.url)
    requires Queued(task, initial, limit, baseDomain)
    ensures Crawled(fetched + [task], initial, limit, respectRobots, robots, baseDomain)
  {
  }

  /** Every finding comes from a crawled page and none is a brand-search profile. */
  predicate FromPages(found: seq<Finding>, visited: set<string>) {
    forall i :: 0 <= i < |found| ==> found[i].pageUrl in visited && !found[i].SocialProfile?
  }

  /**
   * What a crawl that got past the setup reports, given the crawler's
   * settings and state at its end: the queue started with the start URL
   * and the override seeds; robots_txt is present exactly when robots.txt
   * was loaded; the delay is the politeness delay raised to robots.txt's
   * crawl-delay; and the crawl loop's outcome.
   */
  ghost predicate CrawlOutcome(startUrl: string, depthLimit: int, politeness: real, osint: bool, saveToDisk: bool, env: Env,
                               baseDomain: string, respectRobots: bool, robots: Option<Robots.RobotsData>,
                               profiled0: set<string>, visited: set<string>, profiled: set<string>,
                               stats: Stats, delay: real, initial: seq<Task>, fetched: seq<Task>, pageFindings: seq<Finding>)
  {
    initial == [Task(startUrl, 0)] + Seeds(startUrl, robots, respectRobots) &&
    (stats.robotsTxt.Some? <==> robots.Some?) && stats.restrictedPathsCrawled == 0 &&
    delay == CrawlRules.EffectiveDelay(politeness, robots) &&
    LoopOutcome(startUrl, initial, depthLimit, osint, saveToDisk, env, baseDomain, respectRobots, robots,
                profiled0, visited, profiled, stats, fetched, pageFindings)
  }

  /**
   * The crawl loop's outcome: the fetched tasks and the visited set their
   * URLs; pages saved and errors bounded by the URLs visited; and in OSINT
   * mode the findings are the pages' findings followed by the brand
   * search's, each e-mail profiled once.
   */
  ghost predicate LoopOutcome(startUrl: string, initial: seq<Task>, depthLimit: int, osint: bool, saveToDisk: bool, env: Env,
                              baseDomain: string, respectRobots: bool, robots: Option<Robots.RobotsData>,
                              profiled0: set<string>, visited: set<string>, profiled: set<string>,
                              stats: Stats, fetched: seq<Task>, pageFindings: seq<Finding>)
  {
    stats.urlsVisited == |visited| == |fetched| && visited == UrlsOf(fetched) &&
    Crawled(fetched, initial, depthLimit, respectRobots, robots, baseDomain) &&
    stats.pagesSaved + stats.errors <= stats.urlsVisited &&
    (osint || !saveToDisk ==> stats.pagesSaved == 0) &&
    profiled0 <= profiled && Summarised(pageFindings, profiled0, profiled, visited) &&
    stats.osintSummary == (if osint then Some(pageFindings + BrandFindings(env, startUrl, baseDomain)) else None) &&
    (!osint ==> pageFindings == [] && profiled == profiled0)
  }

  /** The session's findings: e-mails profiled once each since `profiled0`, every finding from a crawled page. */
  predicate Summarised(summary: seq<Finding>, profiled0: set<string>, profiled: set<string>, visited: set<string>) {
    Distinct(ProfiledEmails(summary)) && Elems(ProfiledEmails(summary)) == profiled - profiled0 &&
    FromPages(summary, visited)
  }

  lemma FromPagesConcat(a: seq<Finding>, b: seq<Finding>, visited: set<string>)
    requires FromPages(a, visited) && FromPages(b, visited)
    ensures FromPages(a + b, visited)
  {
    forall i | 0 <= i < |a + b| ensures (a + b)[i].pageUrl in visited && !(a + b)[i].SocialProfile? {
      if i >= |a| {
        assert (a + b)[i] == b[i - |a|];
      }
    }
  }

  lemma ProfiledOnceConcat(summary: seq<Finding>, found: seq<Finding>, profiled0: set<string>, profiled: set<string>,
                           kept: set<string>)
    requires Distinct(ProfiledEmails(summary)) && Elems(ProfiledEmails(summary)) == profiled - profiled0
    requires Distinct(ProfiledEmails(found)) && Elems(ProfiledEmails(found)) == kept - profiled
    requires profiled0 <= profiled
    ensures Distinct(ProfiledEmails(summary + found)) && Elems(ProfiledEmails(summary + found)) == (profiled + kept) - profiled0
  {
    ProfiledEmailsConcat(summary, found);
    DistinctConcat(ProfiledEmails(summary), ProfiledEmails(found));
    assert (profiled + kept) - profiled0 == (profiled - profiled0) + (kept - profiled);
  }

  lemma SummarisedStep(summary: seq<Finding>, found: seq<Finding>, profiled0: set<string>, profiled: set<string>,
                       kept: set<string>, visited: set<string>, url: string)
    requires Summarised(summary, profiled0, profiled, visited) && profiled0 <= profiled && url in visited
    requires Distinct(ProfiledEmails(found)) && Elems(ProfiledEmails(found)) == kept - profiled
    requires forall i :: 0 <= i < |found| ==> found[i].pageUrl == url && !found[i].SocialProfile?
    ensures Summarised(summary + found, profiled0, profiled + kept, visited)
  {
    ProfiledOnceConcat(summary, found, profiled0, profiled, kept);
    FromPagesConcat(summary, found, visited);
  }

  lemma SummarisedGrows(summary: seq<Finding>, profiled0: set<string>, profiled: set<string>, visited: set<string>,
                        url: string)
    requires Summarised(summary, profiled0, profiled, visited)
    ensures Summarised(summary, profiled0, profiled, visited + {url})
  {
  }

  // ---------------------------------------------------------------------------
  // The crawler
  // ---------------------------------------------------------------------------

  class Crawler {
    var visited: set<string>
    var baseDomain: string
    var alreadyProfiled: set<string>
    var respectRobots: bool
    var robotsData: Option<Robots.RobotsData>
    var siteDir: Option<string>       // current_site_dir
    var osintEnabled: bool            // an OSINT extractor is attached
    const store: SiteGraph.SiteDatabase

    constructor (store: SiteGraph.SiteDatabase, osintEnabled: bool)
      ensures this.store == store && this.osintEnabled == osintEnabled
      ensures visited == {} && baseDomain == "" && alreadyProfiled == {}
      ensures respectRobots && robotsData.None? && siteDir.None?
    {
      this.store := store;
      this.osintEnabled := osintEnabled;
      visited := {};
      baseDomain := "";
      alreadyProfiled := {};
      respectRobots := true;
      robotsData := None;
      siteDir := None;
    }

    /** set_osint_extractor: attaching an extractor starts a new profiling session. */
    method SetOsintExtractor(present: bool)
      modifies this`osintEnabled, this`alreadyProfiled
      ensures osintEnabled == present
      ensures alreadyProfiled == if present then {} else old(alreadyProfiled)
    {
      osintEnabled := present;
      if present {
        alreadyProfiled := {};
      }
    }

    /**
     * _setup_site_directories: without a configured download tree nothing
     * changes; otherwise the site directory is the one created for the
     * domain without "www.", or None when creating it failed.
     */
    method SetupSiteDirectories(domain: string, env: Env)
      modifies this`siteDir
      ensures siteDir == if env.treeConfigured then env.makeSiteDir(CrawlRules.RemoveAll(domain, "www.")) else old(siteDir)
    {
      if !env.treeConfigured {
        return;
      }
      var cleanDomain := CrawlRules.RemoveAll(domain, "www.");
      siteDir := env.makeSiteDir(cleanDomain);
    }

    /**
     * _fetch_and_parse_robots: no robots.txt (or an empty one) changes
     * nothing. Otherwise the parsed data is returned, the prompt's answer
     * becomes respect_robots, a refusal seeds the concrete disallowed paths
     * at depth 0, and the robots data is saved under the base domain's
     * website row in every crawl mode.
     */
    method FetchAndParseRobots(startUrl: string, env: Env) returns (robots: Option<Robots.RobotsData>, seeds: seq<Task>)
      requires SiteGraph.Valid(store.db)
      modifies this`respectRobots, store
      ensures SiteGraph.Valid(store.db) && (SiteGraph.PagesAtTheirHost(old(store.db)) ==> SiteGraph.PagesAtTheirHost(store.db))
      ensures var content := env.fetch(Urls.Join(startUrl, "/robots.txt"));
              if content.None? || content.value == [] then
                robots.None? && seeds == [] && respectRobots == old(respectRobots) && store.db == old(store.db)
              else
                robots.Some? &&
                robots.value.rules == Robots.KeptRules(Robots.Directives(content.value)) &&
                robots.value.sitemaps == Robots.KeptSitemaps(Robots.Directives(content.value)) &&
                robots.value.crawlDelay == Robots.DelayAfter(Robots.Directives(content.value), env.toFloat) &&
                respectRobots == env.respectChoice &&
                seeds == (if env.respectChoice then [] else AsTasks(CrawlRules.OverrideSeeds(startUrl, robots.value.rules))) &&
                RobotsSaved(store.db, baseDomain, content.value, robots.value)
      ensures seeds == Seeds(startUrl, robots, respectRobots)
    {
      var content := env.fetch(Urls.Join(startUrl, "/robots.txt"));
      if content.None? || content.value == [] {
        return None, [];
      }
      var data := Robots.Parse(content.value, env.toFloat);
      respectRobots := env.respectChoice;
      seeds := [];
      if !respectRobots {
        seeds := AsTasks(CrawlRules.OverrideSeeds(startUrl, data.rules));
      }
      SaveRobotsFor(baseDomain, data, content.value);
      robots := Some(data);
    }

    /** The website row of the domain (created when absent), then _save_robots_data under its id. */
    method SaveRobotsFor(domain: string, data: Robots.RobotsData, content: string)
      requires SiteGraph.Valid(store.db)
      modifies store
      ensures SiteGraph.Valid(store.db) && (SiteGraph.PagesAtTheirHost(old(store.db)) ==> SiteGraph.PagesAtTheirHost(store.db))
      ensures RobotsSaved(store.db, domain, content, data)
    {
      var websiteId := store.GetOrCreateWebsite(domain);
      ghost var mid := store.db;
      assert mid.websites[domain] in mid.websites.Values;
      var rid := store.SaveRobots(websiteId, data, content);
      ghost var row := SiteGraph.RobotsTxt(rid.value, content, data.crawlDelay);
      SiteGraph.SavedRobotsRules(mid, websiteId, row, data.rules, 0);
      SiteGraph.SavedRobotsSitemaps(mid, websiteId, row, data.sitemaps);
    }

    /**
     * The link loop of start_crawl for one page: in download mode with a
     * page id each target is recorded as a link row; a target is enqueued
     * one level deeper when internal, unvisited and the queue is below 2000.
     */
    method ProcessLinks(pageUrl: string, depth: nat, links: seq<LinkInfo>, pageId: Option<nat>, osint: bool,
                        queue: seq<Task>) returns (q: seq<Task>)
      requires SiteGraph.Valid(store.db)
      modifies store
      ensures SiteGraph.Valid(store.db) && (SiteGraph.PagesAtTheirHost(old(store.db)) ==> SiteGraph.PagesAtTheirHost(store.db))
      ensures KeepsRobots(old(store.db), store.db) && (osint ==> store.db == old(store.db))
      ensures q == Enqueue(queue, Targets(links, pageUrl), depth + 1, visited, baseDomain)
      ensures store.db == if osint || pageId.None? || pageId.value !in SiteGraph.PageIds(old(store.db).pages) then old(store.db)
                          else old(store.db).(links := LinkRows(old(store.db).links, pageId.value, Resolved(links, pageUrl), baseDomain))
    {
      q := queue;
      ghost var db0 := store.db;
      ghost var recording := !osint && pageId.Some? && pageId.value in SiteGraph.PageIds(db0.pages);
      for i := 0 to |links|
        invariant SiteGraph.Valid(store.db) && (SiteGraph.PagesAtTheirHost(db0) ==> SiteGraph.PagesAtTheirHost(store.db))
        invariant q == Enqueue(queue, Targets(links[..i], pageUrl), depth + 1, visited, baseDomain)
        invariant store.db == db0.(links := if recording then LinkRows(db0.links, pageId.value, Resolved(links[..i], pageUrl), baseDomain)
                                            else db0.links)
      {
        EnqueueStep(queue, links, i, pageUrl, depth + 1, visited, baseDomain);
        if recording {
          ResolvedStep(links, i, pageUrl);
          if LinkTarget(links[i], pageUrl).Some? {
            LinkRowsSnoc(db0.links, pageId.value, Resolved(links[..i], pageUrl), links[i], LinkTarget(links[i], pageUrl).value, baseDomain);
          }
        }
        q := VisitLink(pageUrl, depth, links[i], pageId, osint, q);
      }
      assert links[..|links|] == links;
    }

    /** One link of the page: its row is saved unless in OSINT mode, and its target offered to the queue. */
    method VisitLink(pageUrl: string, depth: nat, link: LinkInfo, pageId: Option<nat>, osint: bool, queue: seq<Task>)
      returns (q: seq<Task>)
      requires SiteGraph.Valid(store.db)
      modifies store
      ensures SiteGraph.Valid(store.db) && (SiteGraph.PagesAtTheirHost(old(store.db)) ==> SiteGraph.PagesAtTheirHost(store.db))
      ensures q == match LinkTarget(link, pageUrl)
                   case None => queue
                   case Some(t) => Offer(queue, t, depth + 1, visited, baseDomain)
      ensures store.db == if osint || pageId.None? || pageId.value !in SiteGraph.PageIds(old(store.db).pages)
                             || LinkTarget(link, pageUrl).None? then old(store.db)
                          else old(store.db).(links := AddLink(old(store.db).links, pageId.value, link,
                                                               LinkTarget(link, pageUrl).value, baseDomain))
    {
      q := queue;
      match LinkTarget(link, pageUrl) {
        case None =>
        case Some(target) =>
          var isInternal := Urls.IsInternalUrl(baseDomain, target);
          if !osint && pageId.Some? {
            store.SaveLink(pageId.value, target, link.text, isInternal);
          }
          if isInternal && target !in visited && |q| < QueueBound {
            q := q + [Task(target, depth + 1)];
          }
      }
    }

    /** The e-mail loop of the OSINT step: each e-mail not yet profiled in this session is profiled once. */
    method ProfileEmails(pageUrl: string, emails: set<string>, env: Env) returns (found: seq<Finding>)
      modifies this`alreadyProfiled
      ensures alreadyProfiled == old(alreadyProfiled) + emails
      ensures Distinct(ProfiledEmails(found)) && Elems(ProfiledEmails(found)) == emails - old(alreadyProfiled)
      ensures EmailFindings(found, pageUrl, env)
    {
      var profiled;
      found, profiled := ProfileNew(pageUrl, emails, alreadyProfiled, env.profileEmail);
      alreadyProfiled := profiled;
    }

    /**
     * The OSINT step for one page, run in OSINT mode with an extractor on a
     * non-empty page text: the extracted e-mails filtered for the base
     * domain are profiled (each at most once per session), then the
     * filtered phone numbers, when there are any, form one more finding.
     */
    method OsintPage(pageUrl: string, text: Option<string>, osint: bool, env: Env) returns (found: seq<Finding>)
      modifies this`alreadyProfiled
      ensures OsintStep(env, pageUrl, text, osint && osintEnabled, baseDomain, old(alreadyProfiled), alreadyProfiled, found)
    {
      found := [];
      if !(osint && osintEnabled && text.Some? && text.value != []) {
        return;
      }
      var emails := ContactFilters.ExtractEmails(env.emailMatches(text.value));
      var filtered := ContactFilters.FilterEmails(emails, baseDomain, false);
      var phones := ContactFilters.FilterPhoneNumbers(env.phoneMatches(text.value));
      found := ProfileEmails(pageUrl, filtered, env);
      PhonesEntry(found, pageUrl, phones, env);
      if phones != {} {
        found := found + [PhonesFound(pageUrl, phones)];
      }
    }

    /**
     * Saving a parsed page in download mode: the page row (its id, or None
     * when the url is held by another website) and, for a saved page with
     * metadata, its metadata rows.
     */
    method StorePage(url: string, parsed: Parsed, response: Response, env: Env) returns (pageId: Option<nat>)
      requires SiteGraph.Valid(store.db)
      modifies store
      ensures SiteGraph.Valid(store.db) && (SiteGraph.PagesAtTheirHost(old(store.db)) ==> SiteGraph.PagesAtTheirHost(store.db))
      ensures KeepsRobots(old(store.db), store.db)
      ensures pageId.Some? ==> pageId.value in SiteGraph.PageIds(store.db.pages) && url in store.db.pages &&
                               store.db.pages[url].id == pageId.value &&
                               store.db.pages[url].statusCode == response.statusCode &&
                               store.db.pages[url].contentLength == response.contentLength &&
                               store.db.pages[url].contentType == ContentType(response)
      ensures SiteGraph.PagesAtTheirHost(old(store.db)) ==> pageId.Some?
    {
      pageId := store.SavePage(url, parsed.title, response.statusCode, response.contentLength, ContentType(response));
      if pageId.Some? && parsed.metadata != [] {
        store.SaveMetadata(pageId.value, parsed.metadata, env.dumps, env.str);
      }
    }

    /**
     * The parsing step of one page: the page text is parsed and, in
     * download mode, the page and its metadata are stored.
     */
    method ParsePage(url: string, response: Response, osint: bool, env: Env) returns (parsed: Option<Parsed>, pageId: Option<nat>)
      requires SiteGraph.Valid(store.db) && env.fetchFullResponse(url) == Some(response)
      modifies store
      ensures SiteGraph.Valid(store.db) && (SiteGraph.PagesAtTheirHost(old(store.db)) ==> SiteGraph.PagesAtTheirHost(store.db))
      ensures KeepsRobots(old(store.db), store.db) && (osint ==> store.db == old(store.db))
      ensures parsed == PageParse(env, url)
      ensures pageId.Some? ==> !osint && pageId.value in SiteGraph.PageIds(store.db.pages)
    {
      parsed, pageId := None, None;
      var text := PageText(Some(response));
      if text.Some? {
        parsed := env.parse(text.value, url);
        if parsed.Some? && !osint {
          pageId := StorePage(url, parsed.value, response, env);
        }
      }
    }

    /**
     * One iteration of start_crawl's loop after the URL is marked visited:
     * fetch, save to disk (download mode), parse and store the page
     * (download mode), enqueue its links below the depth limit, and the
     * OSINT step. `saved` and `failed` are the increments of pages_saved and
     * errors.
     */
    method VisitPage(url: string, depth: nat, depthLimit: int, osint: bool, saveToDisk: bool, env: Env,
                     queue: seq<Task>) returns (saved: bool, failed: bool, q: seq<Task>, found: seq<Finding>)
      requires SiteGraph.Valid(store.db)
      modifies this`alreadyProfiled, store
      ensures SiteGraph.Valid(store.db) && (SiteGraph.PagesAtTheirHost(old(store.db)) ==> SiteGraph.PagesAtTheirHost(store.db))
      ensures KeepsRobots(old(store.db), store.db) && (osint ==> store.db == old(store.db))
      ensures var r := env.fetchFullResponse(url);
              if !HasBody(r) then !saved && failed && q == queue
              else
                var path := CrawlRules.FilePathForUrl(url, ContentType(r.value), old(siteDir).Some?);
                saved == (saveToDisk && !osint && env.writeFile(path)) &&
                failed == (saveToDisk && !osint && !env.writeFile(path))
      ensures NextQueue(env, url, depth, depthLimit, queue, q, old(visited), old(baseDomain))
      ensures OsintStep(env, url, PageText(env.fetchFullResponse(url)), osint && osintEnabled, baseDomain,
                        old(alreadyProfiled), alreadyProfiled, found)
    {
      q, found := queue, [];
      var response := env.fetchFullResponse(url);
      if !HasBody(response) {
        saved, failed := false, true;
        return;
      }
      var writing := saveToDisk && !osint;
      var written := writing && env.writeFile(CrawlRules.FilePathForUrl(url, ContentType(response.value), siteDir.Some?));
      saved, failed := written, writing && !written;
      var parsed, pageId := ParsePage(url, response.value, osint, env);
      if parsed.Some? && depth < depthLimit {
        q := ProcessLinks(url, depth, parsed.value.links, pageId, osint, queue);
      }
      found := OsintPage(url, PageText(response), osint, env);
    }

    /**
     * One crawled page as the loop sees it: the page is visited, and the
     * queue, the counters and the findings keep the loop's invariants.
     */

    method CrawlPage(task: Task, rest: seq<Task>, initial: seq<Task>, depthLimit: int, osint: bool, saveToDisk: bool,
                     env: Env, ghost summary: seq<Finding>, ghost profiled0: set<string>)
      returns (saved: bool, failed: bool, q: seq<Task>, found: seq<Finding>)
      requires SiteGraph.Valid(store.db) && task.depth <= depthLimit && task.url in visited
      requires AllQueued(rest, initial, depthLimit, baseDomain)
      requires profiled0 <= alreadyProfiled && Summarised(summary, profiled0, alreadyProfiled, visited)
      requires !osint ==> summary == [] && alreadyProfiled == profiled0
      modifies this`alreadyProfiled, store
      ensures SiteGraph.Valid(store.db) && (SiteGraph.PagesAtTheirHost(old(store.db)) ==> SiteGraph.PagesAtTheirHost(store.db))
      ensures KeepsRobots(old(store.db), store.db) && (osint ==> store.db == old(store.db))
      ensures Pending(q, depthLimit) < Weight(task.depth, depthLimit) + Pending(rest, depthLimit)
      ensures baseDomain == old(baseDomain) && visited == old(visited)
      ensures respectRobots == old(respectRobots) && robotsData == old(robotsData)
      ensures AllQueued(q, initial, depthLimit, baseDomain)
      ensures |q| <= Max(QueueBound, |rest|)
      ensures !(saved && failed) && (saved ==> saveToDisk && !osint)
      ensures profiled0 <= alreadyProfiled && Summarised(summary + found, profiled0, alreadyProfiled, visited)
      ensures !osint ==> summary + found == [] && alreadyProfiled == profiled0
    {
      ghost var profiledBefore := alreadyProfiled;
      saved, failed, q, found := VisitPage(task.url, task.depth, depthLimit, osint, saveToDisk, env, rest);
      NextQueueDrops(env, task.url, task.depth, depthLimit, rest, q, initial, visited, baseDomain);
      OsintStepSummarised(env, task.url, PageText(env.fetchFullResponse(task.url)), osint && osintEnabled, baseDomain,
                          profiledBefore, alreadyProfiled, found, summary, profiled0, visited);
    }

    /** One task taken from the queue: its URL is marked visited and its page crawled. */
    method CrawlTask(task: Task, rest: seq<Task>, initial: seq<Task>, depthLimit: int, osint: bool, saveToDisk: bool,
                     env: Env, respect: bool, robots: Option<Robots.RobotsData>, ghost count: nat,
                     ghost fetched: seq<Task>, ghost summary: seq<Finding>, ghost profiled0: set<string>)
      returns (saved: bool, failed: bool, q: seq<Task>, found: seq<Finding>)
      requires SiteGraph.Valid(store.db) && task.url !in visited && task.depth <= depthLimit
      requires CrawlRules.ShouldCrawl(respect, robots, task.url) && Queued(task, initial, depthLimit, baseDomain)
      requires AllQueued(rest, initial, depthLimit, baseDomain)
      requires Fetched(count, visited, fetched, initial, depthLimit, respect, robots, baseDomain)
      requires profiled0 <= alreadyProfiled && Summarised(summary, profiled0, alreadyProfiled, visited)
      requires !osint ==> summary == [] && alreadyProfiled == profiled0
      modifies this`visited, this`alreadyProfiled, store
      ensures DbEvolves(old(store.db), store.db, osint)
      ensures baseDomain == old(baseDomain) && respectRobots == old(respectRobots) && robotsData == old(robotsData)
      ensures Fetched(count + 1, visited, fetched + [task], initial, depthLimit, respect, robots, baseDomain)
      ensures Pending(q, depthLimit) < Weight(task.depth, depthLimit) + Pending(rest, depthLimit)
      ensures AllQueued(q, initial, depthLimit, baseDomain)
      ensures |q| <= Max(QueueBound, |rest|)
      ensures !(saved && failed) && (saved ==> saveToDisk && !osint)
      ensures profiled0 <= alreadyProfiled && Summarised(summary + found, profiled0, alreadyProfiled, visited)
      ensures !osint ==> summary + found == [] && alreadyProfiled == profiled0
    {
      FetchedStep(count, visited, fetched, task, initial, depthLimit, respect, robots, baseDomain);
      SummarisedGrows(summary, profiled0, alreadyProfiled, visited, task.url);
      visited := visited + {task.url};
      saved, failed, q, found := CrawlPage(task, rest, initial, depthLimit, osint, saveToDisk, env, summary, profiled0);
    }

    /**
     * The while loop of start_crawl: tasks are popped in order; a visited
     * URL, a task beyond the depth limit or a URL robots.txt forbids is
     * skipped; any other URL is marked visited and its page visited. Returns
     * urls_visited, pages_saved, errors and the OSINT findings.
     */
    method CrawlLoop(initial: seq<Task>, depthLimit: int, osint: bool, saveToDisk: bool, env: Env)
      returns (urlsVisited: nat, pagesSaved: nat, errors: nat, summary: seq<Finding>, ghost fetched: seq<Task>)
      requires SiteGraph.Valid(store.db) && visited == {}
      requires forall i :: 0 <= i < |initial| ==> initial[i].depth == 0
      modifies this`visited, this`alreadyProfiled, store
      ensures SiteGraph.Valid(store.db) && (SiteGraph.PagesAtTheirHost(old(store.db)) ==> SiteGraph.PagesAtTheirHost(store.db))
      ensures KeepsRobots(old(store.db), store.db) && (osint ==> store.db == old(store.db))
      ensures urlsVisited == |visited| == |fetched| && visited == UrlsOf(fetched)
      ensures Crawled(fetched, initial, depthLimit, respectRobots, robotsData, baseDomain)
      ensures pagesSaved + errors <= urlsVisited && (osint || !saveToDisk ==> pagesSaved == 0)
      ensures old(alreadyProfiled) <= alreadyProfiled
      ensures Summarised(summary, old(alreadyProfiled), alreadyProfiled, visited)
      ensures !osint ==> summary == [] && alreadyProfiled == old(alreadyProfiled)
      ensures respectRobots == old(respectRobots) && robotsData == old(robotsData) && baseDomain == old(baseDomain)
    {
      urlsVisited, pagesSaved, errors, summary, fetched := 0, 0, 0, [], [];
      var queue := initial;
      ghost var db0 := store.db;
      ghost var profiled0 := alreadyProfiled;
      var respect, robots, base := respectRobots, robotsData, baseDomain;
      while queue != []
        invariant DbEvolves(db0, store.db, osint)
        invariant base == baseDomain && respect == respectRobots && robots == robotsData
        invariant AllQueued(queue, initial, depthLimit, base)
        invariant |queue| <= Max(QueueBound, |initial|)
        invariant Fetched(urlsVisited, visited, fetched, initial, depthLimit, respect, robots, base)
        invariant pagesSaved + errors <= urlsVisited && (osint || !saveToDisk ==> pagesSaved == 0)
        invariant profiled0 <= alreadyProfiled && Summarised(summary, profiled0, alreadyProfiled, visited)
        invariant !osint ==> summary == [] && alreadyProfiled == profiled0
        decreases Pending(queue, depthLimit)
      {
        var task := queue[0];
        var rest := queue[1..];
        PopQueued(queue, initial, depthLimit, base);
        queue := rest;
        if task.url in visited || task.depth > depthLimit || !CrawlRules.ShouldCrawl(respect, robots, task.url) {
          continue;
        }
        ghost var db1 := store.db;
        var saved, failed, q, found := CrawlTask(task, rest, initial, depthLimit, osint, saveToDisk, env, respect, robots,
                                                 urlsVisited, fetched, summary, profiled0);
        urlsVisited := urlsVisited + 1;
        fetched := fetched + [task];
        queue := q;
        DbEvolvesTrans(db0, db1, store.db, osint);
        if saved {
          pagesSaved := pagesSaved + 1;
        }
        if failed {
          errors := errors + 1;
        }
        summary := summary + found;
      }
    }

    /** The loop over the brand search's profiles: each becomes one social-profile finding, in order. */
    method BrandProfiles(startUrl: string, brand: string, hits: seq<SocialHit>) returns (found: seq<Finding>)
      ensures found == SocialFindings(startUrl, brand, hits)
    {
      found := [];
      for i := 0 to |hits|
        invariant found == SocialFindings(startUrl, brand, hits[..i])
      {
        found := found + [SocialProfile(startUrl, hits[i].platform, SocialEntity(hits[i], brand), hits[i].url)];
      }
      assert hits[..|hits|] == hits;
    }

    /**
     * start_crawl: the base domain is the start URL's host, and a URL
     * without one ends the crawl with one error. Saving to disk needs the
     * site directory, whose absence also ends it with one error. Otherwise
     * the crawl proper runs.
     */
    method StartCrawl(startUrl: string, depthLimit: int, politeness: real, osint: bool, saveToDisk: bool, env: Env)
      returns (stats: Stats, delay: real, ghost initial: seq<Task>, ghost fetched: seq<Task>, ghost pageFindings: seq<Finding>)
      requires SiteGraph.Valid(store.db)
      modifies this`baseDomain, this`siteDir, this`visited, this`robotsData, this`respectRobots, this`alreadyProfiled, store
      ensures SiteGraph.Valid(store.db) && (SiteGraph.PagesAtTheirHost(old(store.db)) ==> SiteGraph.PagesAtTheirHost(store.db))
      ensures baseDomain == Urls.Host(startUrl)
      ensures baseDomain == [] ==> stats == Stats(0, 0, None, 1, None, 0, None) && store.db == old(store.db)
      ensures baseDomain != [] && saveToDisk ==>
                siteDir == if env.treeConfigured then env.makeSiteDir(CrawlRules.RemoveAll(baseDomain, "www.")) else old(siteDir)
      ensures baseDomain != [] && saveToDisk && siteDir.None? ==> stats == Stats(0, 0, None, 1, None, 0, None)
      ensures baseDomain != [] && (saveToDisk ==> siteDir.Some?) ==>
                stats.downloadPath == (if saveToDisk then siteDir else None) &&
                CrawlOutcome(startUrl, depthLimit, politeness, osint, saveToDisk, env, baseDomain, respectRobots, robotsData,
                             old(alreadyProfiled), visited, alreadyProfiled, stats, delay, initial, fetched, pageFindings)
    {
      stats := Stats(0, 0, None, 1, None, 0, None);
      delay, initial, fetched, pageFindings := politeness, [], [], [];
      baseDomain := Urls.Host(startUrl);
      if baseDomain == [] {
        return;
      }
      var downloadPath := None;
      if saveToDisk {
        SetupSiteDirectories(baseDomain, env);
        if siteDir.None? {
          return;
        }
        downloadPath := siteDir;
      }
      stats, delay, initial, fetched, pageFindings := Crawl(startUrl, depthLimit, politeness, osint, saveToDisk, env, downloadPath);
    }

    /** stats["robots_txt"]: robots_data.to_dict() when robots.txt was loaded. */
    method RobotsTxtStat(robots: Option<Robots.RobotsData>) returns (r: Option<Value>)
      ensures r.Some? <==> robots.Some?
      ensures r.Some? ==> r.value.Dict? && Keys(r.value.entries) == ["rules", "sitemaps", "sensitive_paths", "crawl_delay"] &&
                          Get(r.value.entries, "crawl_delay") == Some(Real(robots.value.crawlDelay))
    {
      r := None;
      if robots.Some? {
        var v := Robots.ToDict(robots.value);
        r := Some(v);
      }
    }

    /** The robots.txt step of start_crawl: the queue starts with the start URL at depth 0, then the override seeds. */
    method LoadRobots(startUrl: string, env: Env) returns (robots: Option<Robots.RobotsData>, queue: seq<Task>)
      requires SiteGraph.Valid(store.db)
      modifies this`respectRobots, store
      ensures SiteGraph.Valid(store.db) && (SiteGraph.PagesAtTheirHost(old(store.db)) ==> SiteGraph.PagesAtTheirHost(store.db))
      ensures queue == [Task(startUrl, 0)] + Seeds(startUrl, robots, respectRobots)
    {
      var seeds;
      robots, seeds := FetchAndParseRobots(startUrl, env);
      queue := [Task(startUrl, 0)] + seeds;
    }

    /**
     * The crawl after the setup: robots.txt is fetched, the queue starts
     * with the start URL and the override seeds, the crawl loop runs from
     * an empty visited set, and in OSINT mode the brand search's profiles
     * close the findings.
     */
    method Crawl(startUrl: string, depthLimit: int, politeness: real, osint: bool, saveToDisk: bool, env: Env,
                 downloadPath: Option<string>)
      returns (stats: Stats, delay: real, ghost initial: seq<Task>, ghost fetched: seq<Task>, ghost pageFindings: seq<Finding>)
      requires SiteGraph.Valid(store.db)
      modifies this`visited, this`robotsData, this`respectRobots, this`alreadyProfiled, store
      ensures SiteGraph.Valid(store.db) && (SiteGraph.PagesAtTheirHost(old(store.db)) ==> SiteGraph.PagesAtTheirHost(store.db))
      ensures stats.downloadPath == downloadPath
      ensures CrawlOutcome(startUrl, depthLimit, politeness, osint, saveToDisk, env, baseDomain, respectRobots, robotsData,
                           old(alreadyProfiled), visited, alreadyProfiled, stats, delay, initial, fetched, pageFindings)
    {
      visited := {};
      var robots, queue := LoadRobots(startUrl, env);
      robotsData := robots;
      initial := queue;
      var robotsTxt := RobotsTxtStat(robots);
      delay := CrawlRules.EffectiveDelay(politeness, robots);
      stats, fetched, pageFindings := RunLoop(startUrl, queue, depthLimit, osint, saveToDisk, env, downloadPath, robotsTxt);
    }

    /** The crawl loop from the initial queue, then in OSINT mode the brand search; the stats gathered. */
    method RunLoop(startUrl: string, initial: seq<Task>, depthLimit: int, osint: bool, saveToDisk: bool, env: Env,
                   downloadPath: Option<string>, robotsTxt: Option<Value>)
      returns (stats: Stats, ghost fetched: seq<Task>, ghost pageFindings: seq<Finding>)
      requires SiteGraph.Valid(store.db) && visited == {}
      requires forall i :: 0 <= i < |initial| ==> initial[i].depth == 0
      modifies this`visited, this`alreadyProfiled, store
      ensures SiteGraph.Valid(store.db) && (SiteGraph.PagesAtTheirHost(old(store.db)) ==> SiteGraph.PagesAtTheirHost(store.db))
      ensures respectRobots == old(respectRobots) && robotsData == old(robotsData)
      ensures stats.downloadPath == downloadPath && stats.robotsTxt == robotsTxt && stats.restrictedPathsCrawled == 0
      ensures LoopOutcome(startUrl, initial, depthLimit, osint, saveToDisk, env, baseDomain, respectRobots, robotsData,
                          old(alreadyProfiled), visited, alreadyProfiled, stats, fetched, pageFindings)
    {
      var urlsVisited, pagesSaved, errors, summary;
      urlsVisited, pagesSaved, errors, summary, fetched := CrawlLoop(initial, depthLimit, osint, saveToDisk, env);
      pageFindings := summary;
      var osintSummary := None;
      if osint {
        var socials := BrandSearch(startUrl, env);
        osintSummary := Some(summary + socials);
      }
      stats := Stats(urlsVisited, pagesSaved, downloadPath, errors, robotsTxt, 0, osintSummary);
    }

    /** The brand search closing an OSINT crawl: one finding per profile found for the base domain's brand. */
    method BrandSearch(startUrl: string, env: Env) returns (socials: seq<Finding>)
      ensures socials == BrandFindings(env, startUrl, baseDomain)
    {
      var brand := CrawlRules.BrandOf(baseDomain);
      socials := [];
      match env.socialProfiles(brand) {
        case None =>
        case Some(hits) => socials := BrandProfiles(startUrl, brand, hits);
      }
    }
  }
}
