# Web scraper and OSINT profiler: a Dafny model

This project models the core of a website scraper and OSINT profiler.

- **The crawler** (`src/scraper/crawler.py`). A crawler object does a
  breadth-first crawl of one site from a start URL. It keeps a FIFO queue of
  `(url, depth)` tasks and a set of visited URLs. The rules that govern it are
  a depth limit, a robots.txt gate, a hard 2000-task enqueue bound and an
  "ignore robots.txt" mode that seeds the disallowed concrete paths. It saves
  the site graph (websites, pages, links, metadata, robots.txt with its rules
  and sitemaps) into a database. In OSINT mode it profiles each e-mail address
  it finds, at most once per session, and then searches social sites for the
  site's brand name.
- **The robots.txt reader** (`src/scraper/utils/robots_parser.py`). A
  line-oriented parser keeps the rules of the `*` user agent and flags
  sensitive paths. A literal longest-prefix decision then allows or denies a
  path.
- **The contact filters** (`src/scraper/utils/extractors.py`). These filter
  the addresses and phone numbers that the regular expressions and the phone
  library find.
- **The domain validator** (`src/scraper/utils/validators.py`).
- **The record normalisers** (`src/scraper/utils/data_processing.py`). One
  converts datetimes to text for JSON. The other projects each OSINT source's
  raw data onto the profile fields.
- **The header and analytics classifiers**
  (`src/scraper/utils/web_analysis.py`).
- **The Sherlock output parser, the brand-name rule and the key selection of
  the e-mail OSINT record** (`src/scraper/utils/osint_sources.py`).
- **The small classifiers of the OSINT extractor**
  (`src/scraper/extractors/osint_extractor.py`). These are the risk and
  footprint levels, the identifier guess, the entity rows, the dispatch of
  `entity`, the `profile_email` guard, the platform categories, and the
  extraction and de-duplicated saving of contacts.

Where the code works by changing state, the model is imperative.

- `Crawler.Crawler` is a class with its visited set and session set. Its
  `CrawlLoop` drains the queue in a `while` loop whose invariants carry the
  crawl's promises.
- `SiteGraph.SiteDatabase` holds the database tables as maps keyed by their
  UNIQUE columns.
- `OsintContacts.ContactTable` holds the contacts table.
- The filter and parser loops are methods proved against the functions that
  specify them.

Pure rules are functions, with lemmas relating them:

- the URL canonicalisation;
- the file-name mapping;
- the longest-match robots decision, proved equal to an independent
  definition of the deciding rule;
- the validator;
- the thresholds.

Everything the code gets from outside is a parameter:

- the network, the HTML parser and the file system;
- the regular-expression matchers, the phone-number library and `float()`;
- `str()` and `json.dumps`;
- the answer to the robots.txt prompt;
- the OSINT profilers, and the output Sherlock printed.

Python's integers, strings, dictionaries (in insertion order) and sets are
Dafny's `int`, `seq<char>`, sequences of pairs and `set`.

## Model

| member | source | states |
|---|---|---|
| Crawler.Seeds | src/scraper/crawler.py:396-412 | the tasks added by the robots.txt override are all at depth 0 |
| Crawler.LinkTarget | src/scraper/crawler.py:573-577 | a link without a URL, or whose URL normalises to nothing, has no target; a target is never empty |
| Crawler.Resolved | src/scraper/crawler.py:572-577 | the links kept by the loop, each paired with its target, are exactly as many as the targets and carry them in order |
| Crawler.Enqueue | src/scraper/crawler.py:579-590 | the queue grows only at its end, never past 2000 tasks through this loop, and every task added is internal, not yet visited and one level deeper |
| Crawler.EnqueueStep | src/scraper/crawler.py:572-590 | one more link adds its target exactly when it is internal, unvisited and the queue is below 2000 |
| Crawler.EnqueueTakesRoom | src/scraper/crawler.py:586-588 | while the queue has room, every internal unvisited target is enqueued |
| Crawler.EnqueueLength | src/scraper/crawler.py:586-588 | a page adds at most one task per link |
| Crawler.LinkRows | src/scraper/crawler.py:582-583 | saving a page's links never changes an existing link row |
| Crawler.LinkRowsOnlyTargets | src/scraper/crawler.py:582-583 | the only link rows added belong to this page and to targets of its links |
| Crawler.LinkRowsCoverTargets | src/scraper/crawler.py:582-583 | every target of the page has a link row afterwards |
| Crawler.LinkRowsFields | src/scraper/crawler.py:579-583 | a new link row is followed and records whether its target is internal to the base domain |
| Crawler.PendingDrops | src/scraper/crawler.py:498-590 | replacing a popped task by at most 2000 tasks one level deeper lowers the crawl's termination measure |
| Crawler.ProfiledEmailsConcat | src/scraper/crawler.py:602-612 | the e-mails profiled by consecutive findings are those of each part, in order |
| Crawler.SocialFindingsProfileNothing | src/scraper/crawler.py:670-680 | the brand search's entries profile no e-mail |
| Crawler.ProfileNewStep | src/scraper/crawler.py:602-614 | one e-mail of the loop is profiled exactly when the session has not profiled it, keeping each e-mail profiled once |
| Crawler.ProfileNew | src/scraper/crawler.py:602-614 | the e-mails of the page join the session's set; exactly the new ones are profiled, each once, each finding carrying its e-mail's profile |
| Crawler.PageText | src/scraper/crawler.py:520-551 | page text exists only for a response with content whose content type mentions html, xml, text or json, and is its decoded body |
| Crawler.PageParse | src/scraper/crawler.py:545-552 | the page is parsed only when it has text |
| Crawler.PhonesEntry | src/scraper/crawler.py:616-622 | the page's phone numbers add one entry when there are any, and no profiled e-mail |
| Crawler.OsintStepSummarised | src/scraper/crawler.py:592-640 | after a page's OSINT step every e-mail profiled in the session is profiled exactly once, by a finding of a crawled page; outside OSINT mode nothing is found |
| Crawler.EnqueueAdds | src/scraper/crawler.py:571-590 | enqueueing a page's links one level deeper, below the depth limit, lowers the crawl's termination measure |
| Crawler.NextQueueDrops | src/scraper/crawler.py:498-590 | after a visit the queue holds only tasks the rules allow, its length stays bounded, and the termination measure has dropped |
| Crawler.PopQueued | src/scraper/crawler.py:499 | popping the head of a queue of allowed tasks gives an allowed task and a smaller measure |
| Crawler.UrlsOfMembers | src/scraper/crawler.py:514 | a URL is in the visited set built from the fetched tasks iff some fetched task has it |
| Crawler.FetchedOnce | src/scraper/crawler.py:501-514 | when there are as many visited URLs as fetched tasks, no URL was fetched twice |
| Crawler.FetchedStep | src/scraper/crawler.py:501-515 | fetching a task whose URL is unvisited, within depth and allowed by robots.txt keeps the visited set equal to the fetched URLs, one per fetch |
| Crawler.CrawledStep | src/scraper/crawler.py:501-515 | every fetched task was within the depth limit, allowed by robots.txt and queued by the rules |
| Crawler.SummarisedStep | src/scraper/crawler.py:602-622 | a page's findings appended to the session's keep every profiled e-mail profiled exactly once |
| Crawler.Crawler.constructor | src/scraper/crawler.py:34-46 | a new crawler has no visited URLs, an empty base domain, no profiled e-mails, no robots data or site directory, and respects robots.txt |
| Crawler.Crawler.SetOsintExtractor | src/scraper/crawler.py:48-60 | attaching an extractor clears the session's profiled e-mails; detaching keeps them |
| Crawler.Crawler.SetupSiteDirectories | src/scraper/crawler.py:236-281 | without a configured download tree nothing changes; otherwise the site directory is the one made for the domain without `www.`, or none when making it failed |
| Crawler.Crawler.FetchAndParseRobots | src/scraper/crawler.py:371-427 | no or empty robots.txt changes nothing; otherwise the parsed data is returned, the user's choice becomes respect_robots, a refusal seeds the concrete disallowed paths at depth 0, and the data is saved under the base domain |
| Crawler.Crawler.SaveRobotsFor | src/scraper/crawler.py:422-425 | afterwards the domain's website row has a robots_txt row with this content and delay, the parsed rules in order and the sitemaps |
| Crawler.Crawler.ProcessLinks | src/scraper/crawler.py:571-590 | the queue is the enqueue rule applied to the page's targets one level deeper; in download mode with a page id each target is saved as a link row, in OSINT mode the database is untouched |
| Crawler.Crawler.VisitLink | src/scraper/crawler.py:572-590 | one link: its target is offered to the queue and, in download mode with a page id, saved as a link row |
| Crawler.Crawler.ProfileEmails | src/scraper/crawler.py:602-614 | the page's e-mails join the session's set and exactly the new ones are profiled once each |
| Crawler.Crawler.OsintPage | src/scraper/crawler.py:592-640 | in OSINT mode with an extractor and page text, the filtered e-mails are profiled once per session and the filtered phones form one entry; otherwise nothing is found |
| Crawler.Crawler.StorePage | src/scraper/crawler.py:554-565 | a stored page's row has its status code, body length and content type; with pages at their host the page is always stored |
| Crawler.Crawler.ParsePage | src/scraper/crawler.py:545-568 | the parse result is that of the page text; a page id exists only in download mode and names a stored page |
| Crawler.Crawler.VisitPage | src/scraper/crawler.py:517-640 | a response without content counts one error; otherwise in download mode with saving the file write counts a saved page or an error; links are enqueued below the depth limit; the OSINT step runs |
| Crawler.Crawler.CrawlPage | src/scraper/crawler.py:517-640 | one visited page keeps the loop's invariants: queue tasks allowed, measure dropped, counters consistent, findings summarised |
| Crawler.Crawler.CrawlTask | src/scraper/crawler.py:499-640 | a popped task that is unvisited, within depth and allowed is fetched once and recorded as visited; the queue grows to at most max(2000, its length before the task) |
| Crawler.Crawler.CrawlLoop | src/scraper/crawler.py:498-640 | the loop ends; urls_visited equals the number of distinct URLs fetched, each within the depth limit, allowed by robots.txt and reached by the rules; saved pages plus errors never exceed it; in OSINT mode each e-mail is profiled once; the queue never holds more than max(2000, its initial length) tasks |
| Crawler.Crawler.BrandProfiles | src/scraper/crawler.py:670-680 | one social-profile finding per profile, in order, at the start URL, with its platform, its username or the brand, and its profile URL |
| Crawler.Crawler.StartCrawl | src/scraper/crawler.py:436-688 | a start URL without a host, or a missing site directory when saving, ends with one error; otherwise the queue starts with the start URL and the override seeds, the delay is raised to robots.txt's crawl-delay, and the loop's outcome is reported |
| Crawler.Crawler.RobotsTxtStat | src/scraper/crawler.py:486-487 | the stats carry robots.txt's dictionary exactly when it was loaded, with its crawl delay |
| Crawler.Crawler.LoadRobots | src/scraper/crawler.py:481-485 | the queue is the start URL at depth 0 followed by the override seeds |
| Crawler.Crawler.Crawl | src/scraper/crawler.py:481-688 | the crawl after the setup reports the crawl outcome: the initial queue, robots_txt present iff loaded, the effective delay and the loop's outcome |
| Crawler.Crawler.RunLoop | src/scraper/crawler.py:498-688 | the stats hold the loop's counters and, in OSINT mode, the pages' findings followed by the brand search's |
| Crawler.Crawler.BrandSearch | src/scraper/crawler.py:642-684 | the brand search's findings are those of the profiles found for the base domain's brand (platform, entity and profile URL each), none on an error |
| CrawlRules.BucketFor | src/scraper/crawler.py:301-309 | a page goes to html exactly when the content type mentions html or is empty; to images, documents or other exactly when the earlier tests fail and its own passes (other when none does) |
| CrawlRules.Sanitize | src/scraper/crawler.py:336 | the file name is cut to 100 characters, each kept if alphanumeric, `.`, `-` or `_` and replaced by `_` otherwise |
| CrawlRules.SanitizeIdempotent | src/scraper/crawler.py:336 | sanitising twice gives the same name as sanitising once |
| CrawlRules.SanitizeOfSafe | src/scraper/crawler.py:336 | a name of at most 100 safe characters is kept as it is |
| CrawlRules.ExtensionFor | src/scraper/crawler.py:318-325 | a segment without a dot gets `.html`, `.xml` or `.json`; `.xml` only when the content type mentions xml and not html, `.json` only when it mentions json |
| CrawlRules.WithExtension | src/scraper/crawler.py:316-325 | a last segment that has a dot keeps its name; otherwise the extension for the content type is appended |
| CrawlRules.FileTarget | src/scraper/crawler.py:297-338 | a page is saved in its content-type bucket under directories without `/`, with a safe file name of at most 100 characters |
| CrawlRules.FilePathForUrl | src/scraper/crawler.py:283-338 | without a site directory the target is `error.html` in the current directory; otherwise it is the target of the URL's path |
| CrawlRules.RootIsIndex | src/scraper/crawler.py:328-333 | a path made only of slashes is saved as `index.html` at the top of its bucket |
| CrawlRules.TrailingSlashNamesLastSegment | src/scraper/crawler.py:311-327 | `/seg/` is saved as `seg` plus the content type's extension, not as `index.html`, because strip('/') removes the trailing slash |
| CrawlRules.OneSegmentTarget | src/scraper/crawler.py:311-327 | a path with one segment is saved at the top of its bucket under the sanitised, extended segment name |
| CrawlRules.ShouldCrawl | src/scraper/crawler.py:429-434 | every URL may be crawled unless robots.txt was loaded and is respected; then exactly the URLs its rules allow |
| CrawlRules.EffectiveDelay | src/scraper/crawler.py:486-490 | the delay is the requested one or robots.txt's crawl-delay, whichever is larger |
| CrawlRules.ConcreteDisallowed | src/scraper/crawler.py:402-403 | a path is listed iff it is the path of a disallow rule without `*` or `?` |
| CrawlRules.ConcreteDisallowedAppend | src/scraper/crawler.py:402-403 | the listed paths keep the order of the rules |
| CrawlRules.OverrideSeeds | src/scraper/crawler.py:405-412 | ignoring robots.txt queues each concrete disallowed path, resolved against the start URL, at depth 0, in rule order |
| CrawlRules.RemoveAll | src/scraper/crawler.py:649 | removing `www.` never lengthens the name nor adds characters |
| CrawlRules.RemoveAbsent | src/scraper/crawler.py:649 | a name without `www.` is left unchanged |
| CrawlRules.CutTld | src/scraper/crawler.py:652-656 | the result is the name itself or the name minus a listed TLD that it ends with |
| CrawlRules.CutTldFirst | src/scraper/crawler.py:652-656 | when the j-th listed TLD is the first that ends the name, exactly that TLD is cut off |
| CrawlRules.CutTldNone | src/scraper/crawler.py:652-656 | a name that ends with no listed TLD is left unchanged |
| CrawlRules.BrandOf | src/scraper/crawler.py:648-659 | the brand is lower case, has no dot, and is the part of the lower-cased, `www.`-less, TLD-cut domain before its first `.` (all of it when there is none) |
| CrawlRules.BrandOfDotCom | src/scraper/crawler.py:648-659 | `name.com` and `www.name.com` both give the brand `name` |
| Urls.Parse | src/scraper/crawler.py:76-77 | urlsplit's components contain no `#` except the fragment, and a URL with a network location has an empty path or one starting with `/` |
| Urls.UnparseWithoutFragment | src/scraper/crawler.py:77 | replacing the fragment by `""` and unparsing yields a URL without any `#` |
| Urls.NormalizeUrl | src/scraper/crawler.py:63-84 | the normalised link ends with `/` only when the path of the resolved URL is exactly `/` |
| Urls.TrimTrailingSlashes | src/scraper/crawler.py:79-80 | the result is a prefix of the decoded URL, and it keeps a trailing `/` only for the root path |
| Urls.Unquote | src/scraper/crawler.py:78 | text without `%` is left unchanged by percent-decoding |
| Urls.NormalizeDropsFragment | src/scraper/crawler.py:75-78 | when the resolved URL has no percent-escapes, the normalised link has no `#`, so no fragment |
| Urls.HostIsNetloc | src/scraper/crawler.py:99-100 | the one-pass host scan equals urlsplit's netloc on every input |
| Urls.InternalIffNetloc | src/scraper/crawler.py:86-102 | a URL is internal iff the base domain is non-empty and equals the URL's netloc exactly |
| SiteGraph.EmptyDb | src/db/schema.py:12-85 | the empty websites database satisfies every foreign-key and id-counter invariant |
| SiteGraph.MetaText | src/scraper/crawler.py:222-227 | a string is stored as is, lists and dicts as their `json.dumps` text, other values as `str()` |
| SiteGraph.MetaAfterKeepsOld | src/scraper/crawler.py:224-227 | INSERT OR IGNORE never overwrites an existing meta row, and the only rows added belong to this page and to names of the metadata |
| SiteGraph.MetaAfterEntry | src/scraper/crawler.py:222-227 | after saving, every metadata name of the page has a row: its old content if it had one, otherwise the text of the new value |
| SiteGraph.RulesOf | src/db/schema.py:67-75 | the rules listed for a robots_txt row all point at that row |
| SiteGraph.DropRules | src/db/schema.py:74 | ON DELETE CASCADE keeps only rule rows that pointed elsewhere |
| SiteGraph.RuleRows | src/scraper/crawler.py:352-357 | one rule row per parsed rule, in file order, copying path, allow and is_sensitive |
| SiteGraph.RulesOfAppend | src/scraper/crawler.py:352-357 | the rules of a robots_txt row in appended rows are the rules in each part, in order |
| SiteGraph.RulesOfDropped | src/db/schema.py:74 | after the cascade the deleted row has no rules and every other row keeps its rules |
| SiteGraph.SitemapPairs | src/scraper/crawler.py:359-364 | the sitemap rows of a robots_txt row are exactly the URLs listed, duplicates collapsed by UNIQUE(robots_txt_id, url) |
| SiteGraph.Cascade | src/db/schema.py:55-84 | deleting a website's robots_txt row leaves no row for that website and changes nothing when there was none |
| SiteGraph.AddWebsiteKeepsValid | src/scraper/crawler.py:167-171 | inserting a new domain keeps the database valid |
| SiteGraph.UpdatePageKeepsValid | src/scraper/crawler.py:134-140 | refreshing an existing page row keeps the database valid and every page under the website of its host |
| SiteGraph.InsertPageKeepsValid | src/scraper/crawler.py:141-146 | inserting a new page under an existing website keeps the database valid |
| SiteGraph.WithRobotsKeepsValid | src/scraper/crawler.py:344-349 | INSERT OR REPLACE of a website's robots_txt row, with its cascade, keeps the database valid and records the new id |
| SiteGraph.SavedRobotsRules | src/scraper/crawler.py:340-357 | after saving robots.txt the new row's rules are exactly the parsed rules in order, the replaced row has none, every other row keeps its rules |
| SiteGraph.SavedRobotsSitemaps | src/scraper/crawler.py:359-364 | after saving robots.txt the new row lists exactly the parsed sitemap URLs |
| SiteGraph.InsertRuleRows | src/scraper/crawler.py:352-357 | the insert loop appends one row per rule, in order, to the table |
| SiteGraph.InsertSitemapRows | src/scraper/crawler.py:359-364 | the insert loop adds exactly the pairs of the new row and each listed URL |
| SiteGraph.SiteDatabase.constructor | src/db/schema.py:12-85 | a fresh database is empty |
| SiteGraph.SiteDatabase.GetOrCreateWebsite | src/scraper/crawler.py:153-176 | returns the domain's existing id with the database unchanged, or inserts the domain under the next id |
| SiteGraph.SiteDatabase.SavePage | src/scraper/crawler.py:105-151 | files the page under its host's website; an existing row is refreshed (status, length, type) and keeps its title; a new row gets the next id and the title; a URL held by another website is rejected (None) and nothing else changes |
| SiteGraph.SiteDatabase.SaveLink | src/scraper/crawler.py:178-207 | inserts the link as followed exactly when its page exists and has no link with this href; otherwise nothing changes |
| SiteGraph.SiteDatabase.SaveMetadata | src/scraper/crawler.py:209-234 | empty metadata or an unknown page change nothing; otherwise each entry is INSERT OR IGNORE'd in order |
| SiteGraph.SiteDatabase.SaveRobots | src/scraper/crawler.py:340-369 | an unknown website changes nothing and gives None; otherwise the website's previous robots.txt data is replaced by the new row (next id), its rules in order and its sitemap URLs |
| Robots.AdminIsSensitive | src/scraper/utils/robots_parser.py:56-78 | any path containing `admin`, wherever it occurs, is sensitive |
| Robots.GitDirIsSensitive | src/scraper/utils/robots_parser.py:56-78 | a path containing `/.git` is sensitive (the pattern `.git` matches it) |
| Robots.WithValue | src/scraper/utils/robots_parser.py:109-123 | an `allow:`/`disallow:` line's rule path is exactly the text after the first colon, stripped |
| Robots.Directives | src/scraper/utils/robots_parser.py:95-96 | the directive list has one entry per line of `splitlines()`, each classified from its stripped, lower-cased line |
| Robots.RuleFor | src/scraper/utils/robots_parser.py:109-123 | the rule built from an allow/disallow line keeps its path and is an allow rule exactly for `allow:` |
| Robots.Parse | src/scraper/utils/robots_parser.py:80-135 | rules, sitemaps and crawl-delay are those of the lines that apply to `*`; a path is in `sensitive_paths` iff some kept rule with that path is sensitive |
| Robots.StepSpec | src/scraper/utils/robots_parser.py:95-133 | one more line either switches the current agent, or appends one rule/sitemap or replaces the delay when the agent is `*`, and changes nothing else |
| Robots.SensitiveOfAppend | src/scraper/utils/robots_parser.py:112-123 | appending a rule adds its path to the sensitive set exactly when the rule is sensitive |
| Robots.KeptRulesWellFormed | src/scraper/utils/robots_parser.py:96-123 | every kept rule's path is lower case and its sensitivity flag equals the sensitive-pattern test of its path |
| Robots.ClassifyLowercase | src/scraper/utils/robots_parser.py:96 | a rule read from any raw line has a lower-case path |
| Robots.RulesFromLines | src/scraper/utils/robots_parser.py:106-123 | rules kept from lower-case directive lines are lower case and carry the sensitivity of their path |
| Robots.NoAgentKeepsAll | src/scraper/utils/robots_parser.py:92-107 | a file with no `User-agent:` line keeps every allow/disallow rule, in order |
| Robots.ForeignAgentIgnored | src/scraper/utils/robots_parser.py:100-107 | after `User-agent:` naming another robot, no further rule, sitemap or delay is taken |
| Robots.UnparsableDelayKept | src/scraper/utils/robots_parser.py:129-133 | a `crawl-delay:` whose value does not parse as a float leaves the previous delay |
| Robots.CommentIgnored | src/scraper/utils/robots_parser.py:97-98 | a line starting with `#` after stripping is skipped |
| Robots.Insert | src/scraper/utils/robots_parser.py:144 | inserting a rule into the sorted list adds exactly that rule (multiset) |
| Robots.InsertSorted | src/scraper/utils/robots_parser.py:144 | insertion keeps the list sorted by decreasing path length, equal lengths in original order |
| Robots.SortByLength | src/scraper/utils/robots_parser.py:144 | the stable sort by decreasing path length is a permutation of the rules and is sorted |
| Robots.FirstMatch | src/scraper/utils/robots_parser.py:146-150 | the scan returns a rule of the list whose path prefixes the request path, or none when no rule matches |
| Robots.Decider | src/scraper/utils/robots_parser.py:143-150 | the independent definition of the deciding rule: none iff no rule matches, otherwise a matching rule of greatest path length, earliest among equals |
| Robots.InsertMatch | src/scraper/utils/robots_parser.py:144-148 | the first match in a sorted list after an insertion is the new rule exactly when it matches and is strictly longer than the old first match |
| Robots.SortedScanIsDecider | src/scraper/utils/robots_parser.py:143-150 | scanning the sorted rules finds exactly the rule the independent decider picks |
| Robots.AllowedIffDeciderAllows | src/scraper/utils/robots_parser.py:137-150 | `is_allowed` is true iff no rule matches the path (empty path read as `/`) or the longest matching rule is an allow rule |
| Robots.TieGoesToEarlierRule | src/scraper/utils/robots_parser.py:144-148 | between an allow and a disallow rule of the same path, the one listed first decides (the sort is stable) |
| Robots.EmptyDisallowBlocksAll | src/scraper/utils/robots_parser.py:146-148 | a lone `Disallow:` with an empty path blocks every URL |
| Robots.NoRulesAllowAll | src/scraper/utils/robots_parser.py:150 | with no rules every URL is allowed |
| Robots.ListOfSet | src/scraper/utils/robots_parser.py:44 | `list(sensitive_paths)` holds each path of the set exactly once |
| Robots.ToDict | src/scraper/utils/robots_parser.py:32-46 | `to_dict()` has exactly the keys rules, sitemaps, sensitive_paths, crawl_delay, in that order, holding each rule, sitemap, sensitive path and the delay |
| ContactFilters.ExtractedAppend | src/scraper/utils/extractors.py:35-58 | one more regex match adds its lower-cased form exactly when it survives every exclusion |
| ContactFilters.ExtractEmails | src/scraper/utils/extractors.py:10-60 | the result is the set of lower-cased matches that contain no excluded extension, are not a 32-hex-digit token address, are not at an excluded domain and whose local part is not a long run of at most two distinct characters |
| ContactFilters.EmailsKeptAdd | src/scraper/utils/extractors.py:111-166 | the filter decides each address on its own: adding an address adds it to the result exactly when it is kept |
| ContactFilters.FilterEmails | src/scraper/utils/extractors.py:62-177 | the result is the subset of addresses with an `@`, not at a service domain (unless asked), whose local part is neither UUID-like nor long hex, and that are at the site's domain (plain, `mail.` or without `www.`) or whose local part holds a meaningful term |
| ContactFilters.SiteAddressKept | src/scraper/utils/extractors.py:148-155 | any address at the site's own domain whose local part is not hash-like is kept |
| ContactFilters.ServiceAddressDropped | src/scraper/utils/extractors.py:126-130 | an address at a service domain is dropped unless service e-mails are kept |
| ContactFilters.DigitsOf | src/scraper/utils/extractors.py:266-270 | keeping the digits of a text yields only digits and never lengthens it |
| ContactFilters.CleanPhone | src/scraper/utils/extractors.py:264-270 | a number starting with `+` (or `++`) is cleaned to one `+` then digits; any other to digits only |
| ContactFilters.PhonesKeptAdd | src/scraper/utils/extractors.py:263-297 | each number is judged on its own: adding a number adds its cleaned form exactly when it passes every test |
| ContactFilters.FilterPhoneNumbers | src/scraper/utils/extractors.py:239-299 | the result is the set of cleaned numbers that are not date-like, IP-like, ascending runs or timestamp-like and have 8 to 15 digits; each is an optional `+` then digits |
| ContactFilters.ShortDigitRunsDropped | src/scraper/utils/extractors.py:250-256 | every all-digit number of 6 or 8 digits is dropped |
| ContactFilters.DigitsOfDigits | src/scraper/utils/extractors.py:270 | cleaning an all-digit number leaves it as it is |
| ContactFilters.RunsAndTimestampsDropped | src/scraper/utils/extractors.py:261-291 | an ascending digit run and a 10-digit number starting with 1 or 2 are dropped |
| Validators.ValidateDomain | src/scraper/utils/validators.py:6-38 | the input is accepted exactly when it is not blank and its cleaned host matches the domain pattern, and then that host is returned; an accepted domain matches the domain pattern, is lower case, has a dot, and holds no `/`, `?`, `:` or whitespace |
| Validators.CheckHost | src/scraper/utils/validators.py:32-38 | the cleaned host is accepted, unchanged, exactly when it matches the domain pattern |
| Validators.DomainChars | src/scraper/utils/validators.py:32 | a name matching the pattern is made of lower-case letters, digits, `-` and dots, with at least one dot |
| Validators.RevalidateIsIdentity | src/scraper/utils/validators.py:16-38 | validating an accepted domain again gives it back unchanged (unless it still starts with `www.`) |
| Validators.WwwFormOfADomain | src/scraper/utils/validators.py:29-30 | `www.` followed by a domain name validates to the name |
| Validators.UrlFormOfADomain | src/scraper/utils/validators.py:22-27 | an https URL with a path validates to its host |
| Validators.NewlineSlipsThrough | src/scraper/utils/validators.py:25-38 | as written, `d\n/path` is accepted as `d\n` because `$` matches before a final newline; with the pattern anchored at the very end it is rejected |
| Validators.NewlineCheckedAsWritten | src/scraper/utils/validators.py:32-34 | a domain name followed by one newline passes the pattern as written |
| Validators.NewlineNotDomain | src/scraper/utils/validators.py:32 | a name ending in a newline is not a domain name |
| Validators.CorrectedDiffersOnNewline | src/scraper/utils/validators.py:16-38 | whatever the end-anchored validator accepts, the validator as written accepts identically; where they differ, only the one as written accepts, and its host ends in a newline |
| DataProcessing.Standardize | src/scraper/utils/data_processing.py:6-14 | a datetime becomes its ISO text; a dict keeps its size and keys with each value standardised; a list keeps its length with each item standardised; anything else is returned as is |
| DataProcessing.StandardizeKeys | src/scraper/utils/data_processing.py:10-11 | a standardised dict has the original keys in the original order |
| DataProcessing.StandardizeRemovesDateTimes | src/scraper/utils/data_processing.py:6-14 | no datetime is left outside tuples |
| DataProcessing.StandardizeKeepsClean | src/scraper/utils/data_processing.py:6-14 | a value without datetimes comes back unchanged |
| DataProcessing.StandardizeIdempotent | src/scraper/utils/data_processing.py:6-14 | standardising twice is standardising once |
| DataProcessing.StandardizeGet | src/scraper/utils/data_processing.py:10-11 | a key of a standardised dict reads the standardised value it had |
| DataProcessing.TupleUntouched | src/scraper/utils/data_processing.py:8-14 | a datetime inside a tuple is not converted, while one inside a list is |
| DataProcessing.UpdateLast | src/scraper/utils/data_processing.py:30-49 | after `dict.update` the last field written reads its value |
| DataProcessing.UpdateOthers | src/scraper/utils/data_processing.py:30-49 | `dict.update` leaves keys it does not write as they were |
| DataProcessing.DomainFields | src/scraper/utils/data_processing.py:28-51 | a truthy whois or shodan value that is not a dict raises; otherwise dns_records is present iff DNS data is, Shodan's org wins over WHOIS's, and WHOIS's org (as str) is used without Shodan |
| DataProcessing.WhoisNoDns | src/scraper/utils/data_processing.py:31-38 | the WHOIS fields never write dns_records |
| DataProcessing.ShodanNoDns | src/scraper/utils/data_processing.py:42-48 | the Shodan fields never write dns_records |
| DataProcessing.WhoisOrg | src/scraper/utils/data_processing.py:36 | without Shodan the org field is `str` of WHOIS's org, `""` by default |
| DataProcessing.UpdateSplit | src/scraper/utils/data_processing.py:30-49 | updating with two field lists in turn is updating with their concatenation |
| DataProcessing.ZipUpdateGet | src/scraper/utils/data_processing.py:30-49 | a key of a dict literal reads its value after the update when no later key repeats it |
| DataProcessing.ZipUpdateOthers | src/scraper/utils/data_processing.py:30-49 | a key the literal does not name keeps its value |
| DataProcessing.HunterKeysDistinct | src/scraper/utils/data_processing.py:56-59 | the four Hunter.io keys are distinct and differ from the breach keys |
| DataProcessing.FirstFive | src/scraper/utils/data_processing.py:64 | the slice `[:5]` is the first five items, or all of them when there are fewer |
| DataProcessing.BreachNames | src/scraper/utils/data_processing.py:64 | one name per breach, `str` of its Name, `""` by default |
| DataProcessing.EmailFields | src/scraper/utils/data_processing.py:53-64 | a malformed Hunter.io or breach value raises; otherwise the four Hunter.io fields are present iff Hunter.io data is, read with their defaults, and breach_count and the first five breach names are present iff breaches are |
| DataProcessing.ZipReads | src/scraper/utils/data_processing.py:54-59 | a dict literal with distinct keys reads back as written |
| DataProcessing.TwoWrites | src/scraper/utils/data_processing.py:63-64 | two writes to different keys read back as written and keep every other key |
| DataProcessing.FoundProfiles | src/scraper/utils/data_processing.py:68-72 | the comprehension keeps at most one entry per profile |
| DataProcessing.FoundProfilesSound | src/scraper/utils/data_processing.py:68-72 | every kept entry is an existing profile with its url |
| DataProcessing.FoundProfilesComplete | src/scraper/utils/data_processing.py:68-72 | every profile whose details say it exists is kept with its url |
| DataProcessing.SocialFields | src/scraper/utils/data_processing.py:66-74 | malformed profile data raises; otherwise social_media_presence holds exactly the existing profiles and platform_count their number; no profiles gives an empty result |
| DataProcessing.ExtractStructuredFields | src/scraper/utils/data_processing.py:16-77 | an unknown source type gives `{}`; each known type gives its branch's fields or its exception |
| WebAnalysis.LastValue | src/scraper/utils/web_analysis.py:121 | a name has a value iff some header has that name once lower-cased |
| WebAnalysis.LowerHeadersGet | src/scraper/utils/web_analysis.py:121 | the lower-cased dictionary maps each name to the value of the last header of that name in any case |
| WebAnalysis.LastValueIgnoresCase | src/scraper/utils/web_analysis.py:121 | renaming headers case-wise changes no lookup |
| WebAnalysis.DisplayNamesDistinct | src/scraper/utils/web_analysis.py:123-131 | the seven reported names are pairwise different |
| WebAnalysis.CheckSecurityHeaders | src/scraper/utils/web_analysis.py:110-136 | each common security header present in any case is reported under its display name with the value of its last occurrence, absent ones are not reported, and nothing else is |
| WebAnalysis.DetectAnalytics | src/scraper/utils/web_analysis.py:139-170 | the services reported are exactly those one of whose tell-tale texts occurs in the page |
| WebAnalysis.DetectedByService | src/scraper/utils/web_analysis.py:150-168 | each of the six services is reported iff one of its listed texts occurs, the regex alternatives read as literal texts |
| WebAnalysis.DetectedGrows | src/scraper/utils/web_analysis.py:139-170 | appending text to a page never removes a detected service |
| WebAnalysis.NothingDetected | src/scraper/utils/web_analysis.py:139-170 | a page with none of the tell-tale texts reveals no service |
| OsintSources.SiteOf | src/scraper/utils/osint_sources.py:231 | the site read from a found-profile line never contains `:` |
| OsintSources.ParseLineFound | src/scraper/utils/osint_sources.py:227-241 | a line reports a profile iff it holds `[+]` and a `:`; its url is the text after the first `:`, stripped |
| OsintSources.ParseLines | src/scraper/utils/osint_sources.py:227 | one report per line of `splitlines()` |
| OsintSources.ParseSherlockOutput | src/scraper/utils/osint_sources.py:226-241 | the loop builds the profiles dictionary that the reports of the lines give, in order |
| OsintSources.CollectStep | src/scraper/utils/osint_sources.py:233-238 | one more report changes only the record of the site it names |
| OsintSources.CollectSites | src/scraper/utils/osint_sources.py:226-241 | a site has a record iff some line reports it |
| OsintSources.CollectLastWins | src/scraper/utils/osint_sources.py:233-238 | a site's record holds the url of the last line that reports it |
| OsintSources.CollectUnique | src/scraper/utils/osint_sources.py:226-238 | every site appears once in the profiles dictionary |
| OsintSources.CollectBound | src/scraper/utils/osint_sources.py:244-252 | profiles_found never exceeds the number of reporting lines, which never exceeds platforms_checked |
| OsintSources.FetchSocialOsint | src/scraper/utils/osint_sources.py:173-263 | a blank username is an error; a failed Sherlock run reports its output as the error; otherwise the profiles of the output, the stripped username, the line count and the profile count |
| OsintSources.BrandNamePrefix | src/scraper/utils/osint_sources.py:291 | the brand is the longest dot-free prefix of the name |
| OsintSources.FindBrandSocialProfiles | src/scraper/utils/osint_sources.py:272-361 | an empty or blank name is an error; a failed run reports its output; otherwise the profiles of the output, each recording the brand as username, and the summary |
| OsintSources.EmailOsint | src/scraper/utils/osint_sources.py:129-169 | hunterio is present iff Hunter.io answered with a non-empty dict without a truthy error; breaches iff the breach check returned something truthy; no other key |
| OsintExtractor.ReachedMonotone | src/scraper/extractors/osint_extractor.py:912-942 | a larger total reaches at least as many of the ascending level thresholds |
| OsintExtractor.RiskLevelBands | src/scraper/extractors/osint_extractor.py:912-921 | for non-negative counts the risk level is the number of thresholds 1, 3 and 6 that breaches plus pastes reach: 0 is LOW, 1-2 MEDIUM, 3-5 HIGH, more CRITICAL |
| OsintExtractor.RiskMonotone | src/scraper/extractors/osint_extractor.py:912-921 | more exposures never lower the risk level |
| OsintExtractor.FootprintBands | src/scraper/extractors/osint_extractor.py:933-942 | the footprint is the number of thresholds 1, 4, 8 and 13 the profile count reaches: Minimal, Low, Moderate, High, Extensive |
| OsintExtractor.FootprintMonotone | src/scraper/extractors/osint_extractor.py:933-942 | more profiles never lower the footprint |
| OsintExtractor.ParseEntityType | src/scraper/extractors/osint_extractor.py:69-86 | a recognised entity_type string is exactly the name of its kind; an unrecognised one names no kind |
| OsintExtractor.ParseTypeName | src/scraper/extractors/osint_extractor.py:69-86 | every kind's name is read back as that kind |
| OsintExtractor.NewEntityRow | src/scraper/extractors/osint_extractor.py:116-117 | the new row is named by the identifier; it is a company iff the type is "domain", and carries a domain (the identifier) iff it is a company, otherwise a person with none |
| OsintExtractor.LookupFindsCreated | src/scraper/extractors/osint_extractor.py:496-510 | an identifier shaped like its kind is guessed as that kind and looked up under the row type it was created with |
| OsintExtractor.DottedUsernameLookup | src/scraper/extractors/osint_extractor.py:496-510 | a username containing '.' (and no '@') is created as a person but looked up as a company, so the lookup misses it |
| OsintExtractor.LookupKinds | src/scraper/extractors/osint_extractor.py:496-510 | the corrected lookup searches the guessed row type and, for a domain-shaped identifier, also `person`; it then finds every entity created for the identifier, whatever type it was profiled as |
| OsintExtractor.CreatedKindsFound | src/scraper/extractors/osint_extractor.py:116-117 | an entity profiled as a domain is filed as a company, one profiled as an email or a username as a person |
| OsintExtractor.SourceFor | src/scraper/extractors/osint_extractor.py:69-86 | `entity` accepts exactly the three known entity types; any other is answered with "Unknown entity type: " followed by the type |
| OsintExtractor.SourcesKnown | src/scraper/extractors/osint_extractor.py:69-86 | each accepted type is saved under a source the structured-field extractor knows, distinct types under distinct sources |
| OsintExtractor.ProfileEmail | src/scraper/extractors/osint_extractor.py:632-636 | the input is profiled as an email entity iff it contains '@'; otherwise the error dictionary carries the message and the original input |
| OsintExtractor.ProfiledEmailFound | src/scraper/extractors/osint_extractor.py:496-510 | an address that passes the guard is guessed as an email, looked up as the person it was created as, and saved under source "email" |
| OsintExtractor.CategoriesPartition | src/scraper/extractors/osint_extractor.py:844-858 | the four category lists together hold every found platform exactly as often as it was found |
| OsintExtractor.CategoryExclusive | src/scraper/extractors/osint_extractor.py:849-858 | a platform is in category c's list iff it was found and its lowercased name falls in c |
| OsintExtractor.CategorisePlatforms | src/scraper/extractors/osint_extractor.py:844-858 | the loop builds, per category, the found platforms of that category in the order found |
| OsintContacts.UnionMembers | src/scraper/extractors/osint_extractor.py:304-321 | an address or number is gathered from several parts iff some part yields it |
| OsintContacts.LowerKeepsAt | src/scraper/extractors/osint_extractor.py:311 | lowercasing a value that holds '@' keeps the '@' |
| OsintContacts.FoundEmailsHaveAt | src/scraper/extractors/osint_extractor.py:307-324 | when every regex match holds an '@', every address gathered from nested dictionaries and lists holds one |
| OsintContacts.NamedFieldFound | src/scraper/extractors/osint_extractor.py:309-313 | a string field contributes its regex matches, and its lowercased value when the key contains "email" and the value an '@' |
| OsintContacts.DigitsAndPlus | src/scraper/extractors/osint_extractor.py:328 | the cleaned number is no longer than the raw one and holds only digits and '+' |
| OsintContacts.DigitsAndPlusIdempotent | src/scraper/extractors/osint_extractor.py:328 | cleaning a cleaned number changes nothing |
| OsintContacts.CountedDigits | src/scraper/extractors/osint_extractor.py:328-329 | the length bound is checked on exactly the digits of the raw number |
| OsintContacts.CleanPhones | src/scraper/extractors/osint_extractor.py:326-330 | the loop keeps the cleaned form of each gathered number with more than 7 and fewer than 16 digits; every kept number is already clean and has 8 to 15 digits |
| OsintContacts.EndsWithAnyListed | src/scraper/extractors/osint_extractor.py:336 | `any(... endswith(ext))` holds iff the address ends with some listed extension |
| OsintContacts.KeptEmailsAdd | src/scraper/extractors/osint_extractor.py:334-337 | one more gathered address is kept, lowercased, iff it has none of the eight asset extensions |
| OsintContacts.FromSourceSnoc | src/scraper/extractors/osint_extractor.py:337-340 | appending an entry from `source` keeps every pending entry from `source` |
| OsintContacts.EmailEntries | src/scraper/extractors/osint_extractor.py:333-337 | the first loop lists exactly the kept addresses, no numbers, all from `source` |
| OsintContacts.ValuesAppend | src/scraper/extractors/osint_extractor.py:333-340 | the values of a kind in two lists put together are those of each |
| OsintContacts.NoneOfKind | src/scraper/extractors/osint_extractor.py:339-340 | a list of phone entries lists no address |
| OsintContacts.PhoneLoopStep | src/scraper/extractors/osint_extractor.py:339-340 | listing one more cleaned number keeps the loop's state |
| OsintContacts.PhoneLoopDone | src/scraper/extractors/osint_extractor.py:339-340 | when the loop ends the list holds the earlier addresses and every cleaned number, all from `source` |
| OsintContacts.AddPhoneEntries | src/scraper/extractors/osint_extractor.py:339-340 | the second loop adds one phone entry per cleaned number and leaves the listed addresses unchanged |
| OsintContacts.ValuesSnoc | src/scraper/extractors/osint_extractor.py:337-340 | appending an entry adds its value to its own kind only |
| OsintContacts.RowsListed | src/scraper/extractors/osint_extractor.py:354-367 | every stored row's address and number are among its entity's, so the SELECT finds them |
| OsintContacts.RowsSnoc | src/scraper/extractors/osint_extractor.py:356-375 | an inserted row adds its address or number to its own entity and to no other |
| OsintContacts.InsertContents | src/scraper/extractors/osint_extractor.py:351-375 | saving one pending contact adds its non-empty value to its entity's addresses or numbers and changes nothing else |
| OsintContacts.SavedEmails | src/scraper/extractors/osint_extractor.py:350-364 | saving a list adds its non-empty addresses to the entity's addresses and leaves other entities alone |
| OsintContacts.SavedPhones | src/scraper/extractors/osint_extractor.py:350-377 | saving a list adds its non-empty numbers to the entity's numbers and leaves other entities alone |
| OsintContacts.SavedExtends | src/scraper/extractors/osint_extractor.py:350-377 | saving only appends rows: the earlier rows are kept unchanged |
| OsintContacts.InsertKeepsUnique | src/scraper/extractors/osint_extractor.py:353-375 | the existence check before each INSERT keeps every entity free of two rows with the same address or number |
| OsintContacts.SavedRowsInserted | src/scraper/extractors/osint_extractor.py:350-377 | every row that saving appends belongs to the entity, carries the list's source, holds exactly one non-empty address or number, and that value was not yet stored for the entity |
| OsintContacts.SavedKeepsUnique | src/scraper/extractors/osint_extractor.py:350-377 | saving a whole list keeps the table free of duplicates |
| OsintContacts.SaveOutcome | src/scraper/extractors/osint_extractor.py:348-380 | saving a list of addresses and numbers adds exactly them to the entity, only appends, touches no other entity and keeps the table free of duplicates |
| OsintContacts.ContactTable.constructor | src/scraper/extractors/osint_extractor.py:349 | the contacts table starts empty |
| OsintContacts.ContactTable.SaveContacts | src/scraper/extractors/osint_extractor.py:349-380 | the saving loop leaves the table as the pending contacts, inserted in order, make it |
| OsintContacts.ContactTable.ExtractAndSaveContacts | src/scraper/extractors/osint_extractor.py:287-380 | the entity gains exactly the kept, lowercased addresses and the cleaned, bounded numbers found in the data; earlier rows and other entities are untouched; each new row belongs to the entity, carries the source, holds one address or one number, and that value was absent for the entity before; no duplicates appear |

## Left out

- Network access is outside the model. The pages, robots.txt, Hunter.io, HIBP, WHOIS, Shodan and DNS answers arrive as parameters. `fetch_domain_osint` and `fetch_website_contacts` are not part of this model, because they only call these services.
- The HTML parser is an oracle.
- The `page_technologies` part of the OSINT summary (crawler.py:624-637) is not modelled. Framework and JavaScript-library detection need a BeautifulSoup parse, and the analytics detection result is only filed there.
- Crawler.Crawler.BrandSearch: the `confidence` percentage text of each profile (crawler.py:678) is not modelled, because it is float formatting. The platform, the entity and the profile URL are modelled.
- Urls.Unquote: only single-byte escapes (`%00` to `%7F`) are decoded. A UTF-8 multi-byte sequence such as `%C3%A9` is kept as written, where Python decodes it to one character.
- Urls.NormalizeUrl: always returns a URL. The source's `except` (crawler.py:82-84) returns None when `urljoin` or `urlparse` raise, e.g. ValueError on the unbalanced bracket in `http://[::1`; the simplified parser never fails.
- Sherlock runs as a subprocess. Only its printed output, or the message of a failed run, is modelled. The outer `except` of the scans is not modelled.
- The regex `findall` candidate generation is a parameter, and so is the `phonenumbers` matching of `extract_phone_numbers`. Only the filters applied to their results are modelled.
- File system effects are parameters: `mkdir`, the "latest" symlink and the file writes. Only the bucket, directories and file name of a page are computed.
- Timestamps, `time.sleep` politeness waits, logging, colours and all printing are left out. This covers the report display functions; their platform grouping is modelled as `CategorisePlatforms`.
- The interactive robots.txt prompt loop is the boolean parameter `respectChoice`.
- `urljoin` and `urlsplit` are simplified. The `;` params of `urlparse` are not split off. IDNA and case folding of hosts are not applied.
- `float()` on a crawl-delay value is an oracle, and delays are `real`.
- Python's Unicode `str.isalnum` and `\d` are read as their ASCII parts. `str.lower` lowercases ASCII letters only.
- Set iteration order is not modelled. Results built by iterating a set are sets, or lists whose order is left open.
- The SQLite plumbing is left out (connections, transactions, `lastrowid`). Columns that are never read back are not modelled: timestamps, and the ids of link and metadata rows.
- `init_schema`, the CLI, the web interface and the tests are left out.
- OsintExtractor.NewEntityRow: `_get_or_create_entity`'s INSERT OR IGNORE and its read-back are not modelled, only the row it files. The extractor's database readers are not part of this model either: `_save_osint_profile`, `_build_full_profile`, `get_all_osint_profiles_summary` and `get_osint_profile_by_id`.
- OsintExtractor.SourceFor: `entity` is modelled as its dispatch only. The fetch and save it then performs happen outside the model.
- The fixed fields of a Sherlock profile record ("exists", "confidence", "status") are constants. The float formatting of percentages is left out.
- DataProcessing.StandardizeRemovesDateTimes: holds only outside tuples, as in the code, which does not descend into tuples.

## Findings

| source | as written | input that shows it | evidently intended | confidence | as-written member | corrected member |
|---|---|---|---|---|---|---|
| src/scraper/utils/validators.py:32-34 | `re.match` with a pattern ending in `$` accepts a host followed by one final newline | `"example.com\n/x"` validates to `"example.com\n"` | reject a host with a trailing newline (anchor at the very end) | not executed | Validators.NewlineSlipsThrough | Validators.ValidateDomain |
| src/scraper/extractors/osint_extractor.py:496-510 | the identifier lookup guesses the entity type from the identifier's shape and searches only the matching row type | a username profiled as `john.doe` is filed as a person, but `john.doe` is guessed to be a domain and searched among companies | also search persons when the identifier looks like a domain | not executed | OsintExtractor.DottedUsernameLookup | OsintExtractor.LookupKinds |
