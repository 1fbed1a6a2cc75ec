/**
 * The "websites" database as the crawler writes it (src/scraper/crawler.py,
 * tables from src/db/schema.py). Each table is a map keyed by its UNIQUE
 * columns, so the schema's uniqueness constraints hold by construction:
 * websites by domain, pages by url, links by (page_id, href), metadata by
 * (page_id, meta_name), robots_txt by website_id and sitemaps by
 * (robots_txt_id, url). Robots rules have no unique key and are kept in
 * insertion order. The ids a later statement reads back (website, page and
 * robots_txt ids) come from one counter per table, like AUTOINCREMENT.
 */
module SiteGraph {

  import opened Wrappers
  import opened Json
  import Urls
  import Robots

  datatype Page = Page(id: nat, websiteId: nat, title: string, statusCode: int, contentLength: nat, contentType: string)
  datatype Link = Link(anchorText: string, isInternal: bool, isFollowed: bool)
  datatype RobotsTxt = RobotsTxt(id: nat, content: string, crawlDelay: real)
  datatype RuleRow = RuleRow(robotsId: nat, path: string, allow: bool, isSensitive: bool)

  datatype Db = Db(
    websites: map<string, nat>,           // domain -> id
    pages: map<string, Page>,             // url -> row
    links: map<(nat, string), Link>,      // (page_id, href) -> row
    meta: map<(nat, string), string>,     // (page_id, meta_name) -> meta_content
    robotsTxt: map<nat, RobotsTxt>,       // website_id -> row
    rules: seq<RuleRow>,                  // robots_rules, in insertion order
    sitemaps: set<(nat, string)>,         // (robots_txt_id, url)
    nextWebsiteId: nat, nextPageId: nat, nextRobotsId: nat)

  function PageIds(pages: map<string, Page>): set<nat> {
    set u | u in pages :: pages[u].id
  }

  function RobotsIds(robotsTxt: map<nat, RobotsTxt>): set<nat> {
    set w | w in robotsTxt :: robotsTxt[w].id
  }

  predicate IdsBelow(m: map<string, nat>, next: nat) {
    0 < next && forall d :: d in m ==> 0 < m[d] < next
  }

  predicate PagesOn(pages: map<string, Page>, next: nat, websiteIds: set<nat>) {
    0 < next && forall u :: u in pages ==> 0 < pages[u].id < next && pages[u].websiteId in websiteIds
  }

  predicate KeysOn<V>(m: map<(nat, string), V>, ids: set<nat>) {
    forall k :: k in m ==> k.0 in ids
  }

  predicate RobotsOn(robotsTxt: map<nat, RobotsTxt>, next: nat, websiteIds: set<nat>) {
    0 < next && forall w :: w in robotsTxt ==> 0 < robotsTxt[w].id < next && w in websiteIds
  }

  predicate RulesOn(rules: seq<RuleRow>, ids: set<nat>) {
    forall i :: 0 <= i < |rules| ==> rules[i].robotsId in ids
  }

  predicate SitemapsOn(sitemaps: set<(nat, string)>, ids: set<nat>) {
    forall s :: s in sitemaps ==> s.0 in ids
  }

  /** Ids were handed out by the counters, and every FOREIGN KEY column points at an existing row. */
  predicate Valid(db: Db) {
    IdsBelow(db.websites, db.nextWebsiteId) &&
    PagesOn(db.pages, db.nextPageId, db.websites.Values) &&
    KeysOn(db.links, PageIds(db.pages)) && KeysOn(db.meta, PageIds(db.pages)) &&
    RobotsOn(db.robotsTxt, db.nextRobotsId, db.websites.Values) &&
    RulesOn(db.rules, RobotsIds(db.robotsTxt)) && SitemapsOn(db.sitemaps, RobotsIds(db.robotsTxt))
  }

  /** Every page sits under the website of its URL's host, as _save_page_info files it. */
  predicate PagesAtTheirHost(db: Db) {
    forall u :: u in db.pages ==> Urls.Host(u) in db.websites && db.websites[Urls.Host(u)] == db.pages[u].websiteId
  }

  function EmptyDb(): (db: Db)
    ensures Valid(db) && PagesAtTheirHost(db)
    ensures db.websites == map[] && db.pages == map[] && db.robotsTxt == map[]
  {
    Db(map[], map[], map[], map[], map[], [], {}, 1, 1, 1)
  }

  // ---------------------------------------------------------------------------
  // Metadata
  // ---------------------------------------------------------------------------

  /** The text stored for a metadata value: json.dumps for lists and dicts, str() otherwise. */
  function MetaText(v: Value, dumps: Value -> string, str: Value -> string): (t: string)
    ensures v.Str? ==> t == v.s
    ensures v.List? || v.Dict? ==> t == dumps(v)
    ensures !(v.Str? || v.List? || v.Dict?) ==> t == str(v)
  {
    match v
    case List(_) => dumps(v)
    case Dict(_) => dumps(v)
    case Str(s) => s
    case _ => str(v)
  }

  /** The metadata table after one INSERT OR IGNORE per entry, in order. */
  function MetaAfter(meta: map<(nat, string), string>, pageId: nat, entries: seq<(string, Value)>,
                     dumps: Value -> string, str: Value -> string): map<(nat, string), string>
  {
    if entries == [] then meta
    else
      var before := MetaAfter(meta, pageId, entries[..|entries| - 1], dumps, str);
      var (name, v) := entries[|entries| - 1];
      if (pageId, name) in before then before else before[(pageId, name) := MetaText(v, dumps, str)]
  }

  /** Rows already present are never overwritten, and only this page's rows, for names of the entries, are added. */
  lemma {:induction false} MetaAfterKeepsOld(meta: map<(nat, string), string>, pageId: nat, entries: seq<(string, Value)>,
                                             dumps: Value -> string, str: Value -> string)
    ensures forall k :: k in meta ==> k in MetaAfter(meta, pageId, entries, dumps, str) &&
                                      MetaAfter(meta, pageId, entries, dumps, str)[k] == meta[k]
    ensures forall k :: k in MetaAfter(meta, pageId, entries, dumps, str) && k !in meta ==>
                          k.0 == pageId && k.1 in Keys(entries)
  {
    if entries != [] {
      var init := entries[..|entries| - 1];
      MetaAfterKeepsOld(meta, pageId, init, dumps, str);
      assert Keys(entries) == Keys(init) + [entries[|entries| - 1].0];
    }
  }

  /**
   * For a dictionary (unique names), a name the page did not have gets the
   * text of its value; a name it had keeps its old content.
   */
  lemma {:induction false} MetaAfterEntry(meta: map<(nat, string), string>, pageId: nat, entries: seq<(string, Value)>,
                                          dumps: Value -> string, str: Value -> string, i: nat)
    requires UniqueKeys(entries) && i < |entries|
    ensures (pageId, entries[i].0) in MetaAfter(meta, pageId, entries, dumps, str)
    ensures MetaAfter(meta, pageId, entries, dumps, str)[(pageId, entries[i].0)] ==
            if (pageId, entries[i].0) in meta then meta[(pageId, entries[i].0)] else MetaText(entries[i].1, dumps, str)
  {
    var init := entries[..|entries| - 1];
    if i == |entries| - 1 {
      MetaAfterKeepsOld(meta, pageId, init, dumps, str);
      forall j | 0 <= j < |init| ensures Keys(init)[j] != entries[i].0 {
        assert Keys(init)[j] == entries[j].0;
      }
    } else {
      assert UniqueKeys(init);
      MetaAfterEntry(meta, pageId, init, dumps, str, i);
    }
  }

  // ---------------------------------------------------------------------------
  // Robots rows
  // ---------------------------------------------------------------------------

  /** The robots_rules rows of one robots_txt row, in id order. */
  function RulesOf(rules: seq<RuleRow>, rid: nat): (r: seq<RuleRow>)
    ensures forall i :: 0 <= i < |r| ==> r[i].robotsId == rid
  {
    if rules == [] then []
    else (if rules[0].robotsId == rid then [rules[0]] else []) + RulesOf(rules[1..], rid)
  }

  /** The rows ON DELETE CASCADE leaves when robots_txt row rid goes. */
  function DropRules(rules: seq<RuleRow>, rid: nat): (r: seq<RuleRow>)
    ensures forall i :: 0 <= i < |r| ==> r[i].robotsId != rid && r[i] in rules
  {
    if rules == [] then []
    else (if rules[0].robotsId != rid then [rules[0]] else []) + DropRules(rules[1..], rid)
  }

  /** The rows inserted for a parsed robots.txt, one per rule and in its order. */
  function RuleRows(rid: nat, rules: seq<Robots.Rule>): (r: seq<RuleRow>)
    ensures |r| == |rules|
    ensures forall i :: 0 <= i < |rules| ==> r[i] == RuleRow(rid, rules[i].path, rules[i].allow, rules[i].isSensitive)
  {
    if rules == [] then []
    else
      var last := rules[|rules| - 1];
      RuleRows(rid, rules[..|rules| - 1]) + [RuleRow(rid, last.path, last.allow, last.isSensitive)]
  }

  lemma {:induction false} RulesOfAppend(a: seq<RuleRow>, b: seq<RuleRow>, rid: nat)
    ensures RulesOf(a + b, rid) == RulesOf(a, rid) + RulesOf(b, rid)
  {
    if a != [] {
      assert (a + b)[1..] == a[1..] + b;
      RulesOfAppend(a[1..], b, rid);
    } else {
      assert a + b == b;
    }
  }

  lemma {:induction false} RulesOfDropped(rules: seq<RuleRow>, rid: nat, other: nat)
    ensures RulesOf(DropRules(rules, rid), rid) == []
    ensures other != rid ==> RulesOf(DropRules(rules, rid), other) == RulesOf(rules, other)
  {
    if rules != [] {
      RulesOfDropped(rules[1..], rid, other);
      var head := if rules[0].robotsId != rid then [rules[0]] else [];
      RulesOfAppend(head, DropRules(rules[1..], rid), rid);
      RulesOfAppend(head, DropRules(rules[1..], rid), other);
    }
  }

  lemma {:induction false} RulesOfRows(rid: nat, rules: seq<Robots.Rule>, other: nat)
    ensures RulesOf(RuleRows(rid, rules), rid) == RuleRows(rid, rules)
    ensures other != rid ==> RulesOf(RuleRows(rid, rules), other) == []
  {
    if rules != [] {
      var last := rules[|rules| - 1];
      var row := RuleRow(rid, last.path, last.allow, last.isSensitive);
      RulesOfRows(rid, rules[..|rules| - 1], other);
      RulesOfAppend(RuleRows(rid, rules[..|rules| - 1]), [row], rid);
      RulesOfAppend(RuleRows(rid, rules[..|rules| - 1]), [row], other);
    }
  }

  lemma {:induction false} RulesOfAbsent(rules: seq<RuleRow>, rid: nat)
    requires forall i :: 0 <= i < |rules| ==> rules[i].robotsId != rid
    ensures RulesOf(rules, rid) == []
  {
    if rules != [] {
      RulesOfAbsent(rules[1..], rid);
    }
  }

  // ---------------------------------------------------------------------------
  // The id sets behind the FOREIGN KEY checks, across single-row inserts
  // ---------------------------------------------------------------------------

  lemma ValuesInsert<K, V>(m: map<K, V>, k: K, v: V)
    requires k !in m
    ensures m[k := v].Values == m.Values + {v}
  {
    forall x | x in m.Values ensures x in m[k := v].Values {
      var k' :| k' in m && m[k'] == x;
      assert m[k := v][k'] == x;
    }
    assert m[k := v][k] == v;
  }

  lemma UpdateOutside<K, V>(m: map<K, V>, k: K, v: V)
    ensures m[k := v] - {k} == m - {k}
  {
    assert (m[k := v] - {k}).Keys == (m - {k}).Keys;
  }

  lemma PageIdsInsert(pages: map<string, Page>, url: string, p: Page)
    requires url !in pages || pages[url].id == p.id
    ensures PageIds(pages[url := p]) == PageIds(pages) + {p.id}
  {
    forall x | x in PageIds(pages) ensures x in PageIds(pages[url := p]) {
      var u :| u in pages && pages[u].id == x;
      if u != url { assert pages[url := p][u].id == x; } else { assert pages[url := p][url].id == x; }
    }
    assert pages[url := p][url].id == p.id;
  }

  lemma RobotsIdsInsert(robotsTxt: map<nat, RobotsTxt>, w: nat, row: RobotsTxt)
    requires w !in robotsTxt
    ensures RobotsIds(robotsTxt[w := row]) == RobotsIds(robotsTxt) + {row.id}
  {
    forall x | x in RobotsIds(robotsTxt) ensures x in RobotsIds(robotsTxt[w := row]) {
      var w' :| w' in robotsTxt && robotsTxt[w'].id == x;
      assert robotsTxt[w := row][w'].id == x;
    }
    assert robotsTxt[w := row][w].id == row.id;
  }

  // ---------------------------------------------------------------------------
  // Cascading delete of a website's robots_txt row
  // ---------------------------------------------------------------------------

  function SitemapPairs(rid: nat, urls: seq<string>): (r: set<(nat, string)>)
    ensures forall p :: p in r <==> p.0 == rid && p.1 in urls
  {
    if urls == [] then {} else SitemapPairs(rid, urls[..|urls| - 1]) + {(rid, urls[|urls| - 1])}
  }

  /**
   * The database once the robots_txt row of website w (if any) is deleted
   * together with its rules and sitemaps (ON DELETE CASCADE).
   */
  function Cascade(db: Db, w: nat): (r: Db)
    ensures w !in db.robotsTxt ==> r == db
    ensures w !in r.robotsTxt
  {
    if w !in db.robotsTxt then db
    else
      var rid := db.robotsTxt[w].id;
      db.(robotsTxt := db.robotsTxt - {w},
          rules := DropRules(db.rules, rid),
          sitemaps := set s | s in db.sitemaps && s.0 != rid)
  }

  /** The database after INSERT OR REPLACE of website w's robots_txt row. */
  function WithRobots(db: Db, w: nat, row: RobotsTxt): Db {
    Cascade(db, w).(robotsTxt := db.robotsTxt[w := row], nextRobotsId := row.id + 1)
  }

  lemma AddWebsiteKeepsValid(db: Db, domain: string)
    requires Valid(db) && domain !in db.websites
    ensures var r := db.(websites := db.websites[domain := db.nextWebsiteId], nextWebsiteId := db.nextWebsiteId + 1);
            Valid(r) && (PagesAtTheirHost(db) ==> PagesAtTheirHost(r))
  {
    ValuesInsert(db.websites, domain, db.nextWebsiteId);
  }

  lemma UpdatePageKeepsValid(db: Db, url: string, p: Page)
    requires Valid(db) && url in db.pages && db.pages[url].id == p.id && p.websiteId == db.pages[url].websiteId
    ensures Valid(db.(pages := db.pages[url := p]))
    ensures PagesAtTheirHost(db) ==> PagesAtTheirHost(db.(pages := db.pages[url := p]))
  {
    var pages := db.pages[url := p];
    PageIdsInsert(db.pages, url, p);
    assert PagesOn(pages, db.nextPageId, db.websites.Values);
    if PagesAtTheirHost(db) {
      UpdatePageKeepsHost(db, url, p);
    }
  }

  lemma UpdatePageKeepsHost(db: Db, url: string, p: Page)
    requires url in db.pages && p.websiteId == db.pages[url].websiteId && PagesAtTheirHost(db)
    ensures PagesAtTheirHost(db.(pages := db.pages[url := p]))
  {
    var pages := db.pages[url := p];
    forall u | u in pages ensures Urls.Host(u) in db.websites && db.websites[Urls.Host(u)] == pages[u].websiteId {
      assert u in db.pages && pages[u].websiteId == db.pages[u].websiteId;
    }
  }

  lemma InsertPageKeepsValid(db: Db, url: string, p: Page)
    requires Valid(db) && url !in db.pages && p.id == db.nextPageId && p.websiteId in db.websites.Values
    ensures var r := db.(pages := db.pages[url := p], nextPageId := p.id + 1);
            Valid(r) && (PagesAtTheirHost(db) && Urls.Host(url) in db.websites && db.websites[Urls.Host(url)] == p.websiteId ==>
                         PagesAtTheirHost(r))
  {
    var pages := db.pages[url := p];
    PageIdsInsert(db.pages, url, p);
    assert PagesOn(pages, p.id + 1, db.websites.Values);
  }

  lemma WithRobotsKeepsValid(db: Db, w: nat, row: RobotsTxt)
    requires Valid(db) && w in db.websites.Values && row.id == db.nextRobotsId
    ensures Valid(WithRobots(db, w, row)) && PagesAtTheirHost(db) == PagesAtTheirHost(WithRobots(db, w, row))
    ensures row.id in RobotsIds(WithRobots(db, w, row).robotsTxt)
  {
    var c := Cascade(db, w);
    var r := WithRobots(db, w, row);
    assert r.robotsTxt == c.robotsTxt[w := row];
    RobotsIdsInsert(c.robotsTxt, w, row);
    if w in db.robotsTxt {
      var rid := db.robotsTxt[w].id;
      forall x | x != rid && x in RobotsIds(db.robotsTxt) ensures x in RobotsIds(c.robotsTxt) {
        var w' :| w' in db.robotsTxt && db.robotsTxt[w'].id == x;
        assert w' in c.robotsTxt && c.robotsTxt[w'].id == x;
      }
      forall i | 0 <= i < |c.rules| ensures c.rules[i].robotsId in RobotsIds(c.robotsTxt) {
        assert c.rules[i] in db.rules;
      }
    }
  }

  lemma RobotsIdsBelow(db: Db, x: nat)
    requires Valid(db) && x in RobotsIds(db.robotsTxt)
    ensures x < db.nextRobotsId
  {
    var w :| w in db.robotsTxt && db.robotsTxt[w].id == x;
  }

  /**
   * After _save_robots_data the new robots_txt row's rules are exactly the
   * parsed rules in file order; the website's previous row has no rules left;
   * every other robots_txt row keeps its rules.
   */
  lemma SavedRobotsRules(db: Db, w: nat, row: RobotsTxt, parsed: seq<Robots.Rule>, other: nat)
    requires Valid(db) && row.id == db.nextRobotsId
    ensures var saved := WithRobots(db, w, row).rules + RuleRows(row.id, parsed);
            RulesOf(saved, row.id) == RuleRows(row.id, parsed) &&
            (w in db.robotsTxt ==> RulesOf(saved, db.robotsTxt[w].id) == []) &&
            (other != row.id && (w in db.robotsTxt ==> other != db.robotsTxt[w].id) ==> RulesOf(saved, other) == RulesOf(db.rules, other))
  {
    var c := WithRobots(db, w, row).rules;
    forall i | 0 <= i < |db.rules| ensures db.rules[i].robotsId != row.id {
      RobotsIdsBelow(db, db.rules[i].robotsId);
    }
    RulesOfAppend(c, RuleRows(row.id, parsed), row.id);
    RulesOfAppend(c, RuleRows(row.id, parsed), other);
    RulesOfRows(row.id, parsed, other);
    if w in db.robotsTxt {
      var old_rid := db.robotsTxt[w].id;
      RulesOfDropped(db.rules, old_rid, other);
      RulesOfDropped(db.rules, old_rid, row.id);
      RulesOfAbsent(db.rules, row.id);
      RulesOfAppend(c, RuleRows(row.id, parsed), old_rid);
      RulesOfRows(row.id, parsed, old_rid);
    } else {
      RulesOfAbsent(db.rules, row.id);
    }
  }

  /** After _save_robots_data the new row lists exactly the parsed sitemap URLs. */
  lemma SavedRobotsSitemaps(db: Db, w: nat, row: RobotsTxt, urls: seq<string>)
    requires Valid(db) && row.id == db.nextRobotsId
    ensures forall u :: (row.id, u) in WithRobots(db, w, row).sitemaps + SitemapPairs(row.id, urls) <==> u in urls
  {
    forall u | (row.id, u) in db.sitemaps ensures false {
      RobotsIdsBelow(db, row.id);
    }
  }

  /** The INSERT loop over the parsed rules: one row each, appended in order. */
  method InsertRuleRows(table: seq<RuleRow>, rid: nat, rules: seq<Robots.Rule>) returns (r: seq<RuleRow>)
    ensures r == table + RuleRows(rid, rules)
  {
    r := table;
    for i := 0 to |rules|
      invariant r == table + RuleRows(rid, rules[..i])
    {
      assert rules[..i + 1][..i] == rules[..i];
      r := r + [RuleRow(rid, rules[i].path, rules[i].allow, rules[i].isSensitive)];
    }
    assert rules[..|rules|] == rules;
  }

  /** The INSERT OR REPLACE loop over the sitemap URLs: a URL listed twice leaves one row. */
  method InsertSitemapRows(table: set<(nat, string)>, rid: nat, urls: seq<string>) returns (r: set<(nat, string)>)
    ensures r == table + SitemapPairs(rid, urls)
  {
    r := table;
    for i := 0 to |urls|
      invariant r == table + SitemapPairs(rid, urls[..i])
    {
      assert urls[..i + 1][..i] == urls[..i];
      r := r + {(rid, urls[i])};
    }
    assert urls[..|urls|] == urls;
  }

  class SiteDatabase {
    var db: Db

    constructor ()
      ensures db == EmptyDb()
    {
      db := EmptyDb();
    }

    /** _get_or_create_website: the id of the domain's row, inserting one only when the domain is absent. */
    method GetOrCreateWebsite(domain: string) returns (id: nat)
      requires Valid(db)
      modifies this
      ensures Valid(db) && (PagesAtTheirHost(old(db)) ==> PagesAtTheirHost(db))
      ensures 0 < id && domain in db.websites && db.websites[domain] == id
      ensures domain in old(db).websites ==> db == old(db)
      ensures domain !in old(db).websites ==>
                id == old(db).nextWebsiteId &&
                db == old(db).(websites := old(db).websites[domain := id], nextWebsiteId := id + 1)
    {
      if domain in db.websites {
        id := db.websites[domain];
      } else {
        id := db.nextWebsiteId;
        AddWebsiteKeepsValid(db, domain);
        db := db.(websites := db.websites[domain := id], nextWebsiteId := id + 1);
      }
    }

    /**
     * _save_page_info: files the page under the website of its host. An
     * existing row for the same URL and website gets its status, length and
     * type refreshed and keeps its title; otherwise a row is inserted, which
     * the UNIQUE url column rejects (None) when another website holds the URL.
     */
    method SavePage(url: string, title: string, statusCode: int, contentLength: nat, contentType: string)
      returns (id: Option<nat>)
      requires Valid(db)
      modifies this
      ensures Valid(db)
      ensures Urls.Host(url) in db.websites
      ensures db.websites == old(db).websites ||
              (Urls.Host(url) !in old(db).websites && db.websites == old(db).websites[Urls.Host(url) := old(db).nextWebsiteId])
      ensures db.pages - {url} == old(db).pages - {url}
      ensures db.links == old(db).links && db.meta == old(db).meta && db.robotsTxt == old(db).robotsTxt
      ensures db.rules == old(db).rules && db.sitemaps == old(db).sitemaps
      ensures id.Some? ==> url in db.pages && db.pages[url].id == id.value &&
                           db.pages[url].websiteId == db.websites[Urls.Host(url)] &&
                           db.pages[url].statusCode == statusCode && db.pages[url].contentLength == contentLength &&
                           db.pages[url].contentType == contentType
      ensures id.Some? && url in old(db).pages ==>
                id.value == old(db).pages[url].id && db.pages[url].title == old(db).pages[url].title
      ensures id.Some? && url !in old(db).pages ==> id.value == old(db).nextPageId && db.pages[url].title == title
      ensures id.None? ==> db.pages == old(db).pages && url in db.pages && db.pages[url].websiteId != db.websites[Urls.Host(url)]
      ensures PagesAtTheirHost(old(db)) ==> PagesAtTheirHost(db) && id.Some?
    {
      var websiteId := GetOrCreateWebsite(Urls.Host(url));
      if url in db.pages && db.pages[url].websiteId == websiteId {
        var p := db.pages[url].(statusCode := statusCode, contentLength := contentLength, contentType := contentType);
        UpdatePageKeepsValid(db, url, p);
        UpdateOutside(db.pages, url, p);
        db := db.(pages := db.pages[url := p]);
        id := Some(p.id);
      } else if url in db.pages {
        id := None;
      } else {
        var p := Page(db.nextPageId, websiteId, title, statusCode, contentLength, contentType);
        assert db.websites[Urls.Host(url)] == websiteId;
        InsertPageKeepsValid(db, url, p);
        UpdateOutside(db.pages, url, p);
        db := db.(pages := db.pages[url := p], nextPageId := p.id + 1);
        id := Some(p.id);
      }
    }

    /** _save_link_info: inserts the link, followed, unless the page already has a link with this href. */
    method SaveLink(pageId: nat, href: string, anchorText: string, isInternal: bool)
      requires Valid(db)
      modifies this
      ensures Valid(db) && (PagesAtTheirHost(old(db)) ==> PagesAtTheirHost(db))
      ensures pageId in PageIds(db.pages) ==> (pageId, href) in db.links
      ensures db == if pageId in PageIds(old(db).pages) && (pageId, href) !in old(db).links
                    then old(db).(links := old(db).links[(pageId, href) := Link(anchorText, isInternal, true)])
                    else old(db)
    {
      if pageId in PageIds(db.pages) && (pageId, href) !in db.links {
        db := db.(links := db.links[(pageId, href) := Link(anchorText, isInternal, true)]);
      }
    }

    /**
     * _save_metadata_info: nothing for empty metadata; otherwise one INSERT
     * OR IGNORE per entry. A page id that does not exist makes the first
     * insert fail and the transaction roll back.
     */
    method SaveMetadata(pageId: nat, metadata: seq<(string, Value)>, dumps: Value -> string, str: Value -> string)
      requires Valid(db)
      modifies this
      ensures Valid(db) && (PagesAtTheirHost(old(db)) ==> PagesAtTheirHost(db))
      ensures db == if metadata == [] || pageId !in PageIds(old(db).pages) then old(db)
                    else old(db).(meta := MetaAfter(old(db).meta, pageId, metadata, dumps, str))
    {
      if metadata == [] || pageId !in PageIds(db.pages) {
        return;
      }
      ghost var ids := PageIds(db.pages);
      var meta := db.meta;
      for i := 0 to |metadata|
        invariant KeysOn(meta, ids)
        invariant meta == MetaAfter(db.meta, pageId, metadata[..i], dumps, str)
      {
        var (name, content) := metadata[i];
        assert metadata[..i + 1][..i] == metadata[..i];
        if (pageId, name) !in meta {
          meta := meta[(pageId, name) := MetaText(content, dumps, str)];
        }
      }
      assert metadata[..|metadata|] == metadata;
      db := db.(meta := meta);
    }

    /**
     * _save_robots_data: INSERT OR REPLACE on robots_txt, whose UNIQUE
     * website_id deletes the website's previous row together with its rules
     * and sitemaps; then one rule row per parsed rule, in order, and one
     * INSERT OR REPLACE per sitemap URL. A website id that does not exist
     * makes the insert fail and nothing changes.
     */
    method SaveRobots(websiteId: nat, data: Robots.RobotsData, content: string) returns (id: Option<nat>)
      requires Valid(db)
      modifies this
      ensures Valid(db) && (PagesAtTheirHost(old(db)) ==> PagesAtTheirHost(db))
      ensures websiteId !in old(db).websites.Values ==> id.None? && db == old(db)
      ensures websiteId in old(db).websites.Values ==>
                id == Some(old(db).nextRobotsId) &&
                var replaced := WithRobots(old(db), websiteId, RobotsTxt(id.value, content, data.crawlDelay));
                db == replaced.(rules := replaced.rules + RuleRows(id.value, data.rules),
                                sitemaps := replaced.sitemaps + SitemapPairs(id.value, data.sitemaps))
    {
      if websiteId !in db.websites.Values {
        return None;
      }
      var rid := db.nextRobotsId;
      WithRobotsKeepsValid(db, websiteId, RobotsTxt(rid, content, data.crawlDelay));
      var replaced := WithRobots(db, websiteId, RobotsTxt(rid, content, data.crawlDelay));
      var rules := InsertRuleRows(replaced.rules, rid, data.rules);
      var sitemaps := InsertSitemapRows(replaced.sitemaps, rid, data.sitemaps);
      db := replaced.(rules := rules, sitemaps := sitemaps);
      id := Some(rid);
    }
  }
}
