/**
 * The header and analytics classifiers of the web analysis utilities:
 * check_security_headers looks the seven common security headers up, ignoring
 * the case of header names, and detect_analytics names the analytics services
 * whose tell-tale text occurs in a page.
 */
module WebAnalysis {

  import opened Wrappers
  import opened Text
  import opened Json

  // ---------------------------------------------------------------------------
  // check_security_headers
  // ---------------------------------------------------------------------------

  /**
   * {k.lower(): v for k, v in headers.items()}: a later header whose name
   * lowercases alike overwrites the value, keeping the first one's place.
   */
  function LowerHeaders(headers: seq<(string, string)>): (r: seq<(string, string)>)
    decreases |headers|
  {
    if headers == [] then []
    else
      var last := headers[|headers| - 1];
      Put(LowerHeaders(headers[..|headers| - 1]), Lower(last.0), last.1)
  }

  /** The value of the last header whose name equals `name` once lowercased. */
  function LastValue(headers: seq<(string, string)>, name: string): (r: Option<string>)
    ensures r.Some? <==> exists i :: 0 <= i < |headers| && Lower(headers[i].0) == name
    decreases |headers|
  {
    if headers == [] then None
    else if Lower(headers[|headers| - 1].0) == name then Some(headers[|headers| - 1].1)
    else
      var front := headers[..|headers| - 1];
      assert forall i :: 0 <= i < |front| ==> front[i] == headers[i];
      LastValue(front, name)
  }

  /** The lowercased dictionary holds, for each name, the value of the last header with that name in any case. */
  lemma {:induction false} LowerHeadersGet(headers: seq<(string, string)>, name: string)
    ensures Get(LowerHeaders(headers), name) == LastValue(headers, name)
    decreases |headers|
  {
    if headers != [] {
      var front := headers[..|headers| - 1];
      var last := headers[|headers| - 1];
      LowerHeadersGet(front, name);
      if Lower(last.0) == name {
        PutKeys(LowerHeaders(front), name, last.1);
        PutGet(LowerHeaders(front), name, last.1);
      } else {
        PutOthers(LowerHeaders(front), Lower(last.0), last.1, name);
      }
    }
  }

  /** The names looked up depend only on their lower case: renaming headers case-wise changes nothing. */
  lemma {:induction false} LastValueIgnoresCase(a: seq<(string, string)>, b: seq<(string, string)>, name: string)
    requires |a| == |b|
    requires forall i :: 0 <= i < |a| ==> Lower(a[i].0) == Lower(b[i].0) && a[i].1 == b[i].1
    ensures LastValue(a, name) == LastValue(b, name)
    decreases |a|
  {
    if a != [] {
      LastValueIgnoresCase(a[..|a| - 1], b[..|b| - 1], name);
    }
  }

  /** The common security headers, each with the name it is reported under. */
  const SecurityHeaders: seq<(string, string)> := [
    ("Strict-Transport-Security", "HSTS"),
    ("Content-Security-Policy", "CSP"),
    ("X-Frame-Options", "X-Frame-Options"),
    ("X-Content-Type-Options", "X-Content-Type-Options"),
    ("Referrer-Policy", "Referrer-Policy"),
    ("Permissions-Policy", "Permissions-Policy"),
    ("X-XSS-Protection", "X-XSS-Protection")
  ]

  /** The reported names are pairwise different. */
  lemma DisplayNamesDistinct()
    ensures forall i, j :: 0 <= i < j < |SecurityHeaders| ==> SecurityHeaders[i].1 != SecurityHeaders[j].1
  {
    var d := seq(|SecurityHeaders|, i requires 0 <= i < |SecurityHeaders| => SecurityHeaders[i].1);
    assert |d[0]| == 4 && |d[1]| == 3 && |d[2]| == 15 && |d[3]| == 22 && |d[4]| == 15 && |d[5]| == 18 && |d[6]| == 16;
    assert d[2][0] != d[4][0];
  }

  /**
   * check_security_headers: for each common header present under any case,
   * its value (the last one given) under the header's reported name.
   */
  method CheckSecurityHeaders(headers: seq<(string, string)>) returns (found: seq<(string, string)>)
    ensures forall i :: 0 <= i < |SecurityHeaders| ==>
              Get(found, SecurityHeaders[i].1) == LastValue(headers, Lower(SecurityHeaders[i].0))
    ensures forall k :: k in Keys(found) ==> exists i :: 0 <= i < |SecurityHeaders| && SecurityHeaders[i].1 == k
  {
    DisplayNamesDistinct();
    var lower := LowerHeaders(headers);
    found := [];
    for n := 0 to |SecurityHeaders|
      invariant forall i :: 0 <= i < n ==> Get(found, SecurityHeaders[i].1) == LastValue(headers, Lower(SecurityHeaders[i].0))
      invariant forall i :: n <= i < |SecurityHeaders| ==> Get(found, SecurityHeaders[i].1) == None
      invariant forall k :: k in Keys(found) ==> exists i :: 0 <= i < n && SecurityHeaders[i].1 == k
    {
      var (name, display) := SecurityHeaders[n];
      LowerHeadersGet(headers, Lower(name));
      if Lower(name) in Keys(lower) {
        FoundStep(found, n, Get(lower, Lower(name)).value);
        found := Put(found, display, Get(lower, Lower(name)).value);
      }
    }
  }

  /** Writing the n-th reported name touches no other reported name and adds only that key. */
  lemma FoundStep(found: seq<(string, string)>, n: nat, v: string)
    requires n < |SecurityHeaders|
    requires forall i, j :: 0 <= i < j < |SecurityHeaders| ==> SecurityHeaders[i].1 != SecurityHeaders[j].1
    ensures var after := Put(found, SecurityHeaders[n].1, v);
            Get(after, SecurityHeaders[n].1) == Some(v) &&
            (forall i :: 0 <= i < |SecurityHeaders| && i != n ==> Get(after, SecurityHeaders[i].1) == Get(found, SecurityHeaders[i].1)) &&
            (forall k :: k in Keys(after) ==> k in Keys(found) || k == SecurityHeaders[n].1)
  {
    var d := SecurityHeaders[n].1;
    PutKeys(found, d, v);
    PutGet(found, d, v);
    forall i | 0 <= i < |SecurityHeaders| && i != n
      ensures Get(Put(found, d, v), SecurityHeaders[i].1) == Get(found, SecurityHeaders[i].1)
    {
      PutOthers(found, d, v, SecurityHeaders[i].1);
    }
  }

  // ---------------------------------------------------------------------------
  // detect_analytics
  // ---------------------------------------------------------------------------

  /** Each analytics service with the literal texts that reveal it. */
  const Analytics: seq<(string, seq<string>)> := [
    ("Google Analytics (Universal or GA4)",
     ["www.google-analytics.com/analytics.js", "gtag('config', 'UA-", "gtag('config', 'G-"]),
    ("Google Tag Manager", ["googletagmanager.com/gtm.js"]),
    ("Facebook Pixel", ["connect.facebook.net/en_US/fbevents.js", "fbq('init'"]),
    ("Matomo (Piwik)", ["matomo.js", "piwik.js", "_paq.push"]),
    ("Hotjar", ["static.hotjar.com/c/hotjar-", "hj('event'"]),
    ("HubSpot Analytics", ["js.hs-scripts.com/", "track HubSpot analytics"])
  ]

  /** Some tell-tale text of a service occurs in the page. */
  predicate Reveals(html: string, patterns: seq<string>) {
    exists k :: 0 <= k < |patterns| && Contains(html, patterns[k])
  }

  /** The services a page reveals. */
  function Detected(html: string): set<string> {
    set i | 0 <= i < |Analytics| && Reveals(html, Analytics[i].1) :: Analytics[i].0
  }

  /**
   * detect_analytics: the set of services whose tell-tale text occurs. The
   * source returns the set as a list, in no particular order.
   */
  method DetectAnalytics(html: string) returns (services: set<string>)
    ensures services == Detected(html)
  {
    DetectedByService(html);
    services := {};
    if Contains(html, "www.google-analytics.com/analytics.js") || Contains(html, "gtag('config', 'UA-") ||
       Contains(html, "gtag('config', 'G-") {
      services := services + {"Google Analytics (Universal or GA4)"};
    }
    if Contains(html, "googletagmanager.com/gtm.js") {
      services := services + {"Google Tag Manager"};
    }
    if Contains(html, "connect.facebook.net/en_US/fbevents.js") || Contains(html, "fbq('init'") {
      services := services + {"Facebook Pixel"};
    }
    if Contains(html, "matomo.js") || Contains(html, "piwik.js") || Contains(html, "_paq.push") {
      services := services + {"Matomo (Piwik)"};
    }
    if Contains(html, "static.hotjar.com/c/hotjar-") || Contains(html, "hj('event'") {
      services := services + {"Hotjar"};
    }
    if Contains(html, "js.hs-scripts.com/") || Contains(html, "track HubSpot analytics") {
      services := services + {"HubSpot Analytics"};
    }
  }

  /** One `if ...: analytics_services.add(service)`. */
  function AddIf(acc: set<string>, hit: bool, service: string): set<string> {
    if hit then acc + {service} else acc
  }

  /** The detected set, built service by service, with each service's condition written out. */
  lemma DetectedByService(html: string)
    ensures Detected(html) ==
      AddIf(AddIf(AddIf(AddIf(AddIf(AddIf({},
        Contains(html, "www.google-analytics.com/analytics.js") || Contains(html, "gtag('config', 'UA-") ||
        Contains(html, "gtag('config', 'G-"), "Google Analytics (Universal or GA4)"),
        Contains(html, "googletagmanager.com/gtm.js"), "Google Tag Manager"),
        Contains(html, "connect.facebook.net/en_US/fbevents.js") || Contains(html, "fbq('init'"), "Facebook Pixel"),
        Contains(html, "matomo.js") || Contains(html, "piwik.js") || Contains(html, "_paq.push"), "Matomo (Piwik)"),
        Contains(html, "static.hotjar.com/c/hotjar-") || Contains(html, "hj('event'"), "Hotjar"),
        Contains(html, "js.hs-scripts.com/") || Contains(html, "track HubSpot analytics"), "HubSpot Analytics")
  {
    DetectedSplit(html);
    var t := Analytics;
    assert t[0].0 == "Google Analytics (Universal or GA4)" && t[1].0 == "Google Tag Manager" && t[2].0 == "Facebook Pixel";
    assert t[3].0 == "Matomo (Piwik)" && t[4].0 == "Hotjar" && t[5].0 == "HubSpot Analytics";
    assert Reveals(html, t[0].1) <==>
      Contains(html, "www.google-analytics.com/analytics.js") || Contains(html, "gtag('config', 'UA-") ||
      Contains(html, "gtag('config', 'G-") by { Reveals3(html, t[0].1); }
    assert Reveals(html, t[1].1) <==> Contains(html, "googletagmanager.com/gtm.js") by {
      assert t[1].1[0] == "googletagmanager.com/gtm.js";
    }
    assert Reveals(html, t[2].1) <==>
      Contains(html, "connect.facebook.net/en_US/fbevents.js") || Contains(html, "fbq('init'") by { Reveals2(html, t[2].1); }
    assert Reveals(html, t[3].1) <==>
      Contains(html, "matomo.js") || Contains(html, "piwik.js") || Contains(html, "_paq.push") by { Reveals3(html, t[3].1); }
    assert Reveals(html, t[4].1) <==>
      Contains(html, "static.hotjar.com/c/hotjar-") || Contains(html, "hj('event'") by { Reveals2(html, t[4].1); }
    assert Reveals(html, t[5].1) <==>
      Contains(html, "js.hs-scripts.com/") || Contains(html, "track HubSpot analytics") by { Reveals2(html, t[5].1); }
  }

  lemma Reveals3(html: string, p: seq<string>)
    requires |p| == 3
    ensures Reveals(html, p) <==> Contains(html, p[0]) || Contains(html, p[1]) || Contains(html, p[2])
  {
  }

  lemma Reveals2(html: string, p: seq<string>)
    requires |p| == 2
    ensures Reveals(html, p) <==> Contains(html, p[0]) || Contains(html, p[1])
  {
  }

  /** The detected set is the union of one part per service. */
  lemma DetectedSplit(html: string)
    ensures var t := Analytics;
      Detected(html) ==
      AddIf(AddIf(AddIf(AddIf(AddIf(AddIf({}, Reveals(html, t[0].1), t[0].0), Reveals(html, t[1].1), t[1].0),
        Reveals(html, t[2].1), t[2].0), Reveals(html, t[3].1), t[3].0), Reveals(html, t[4].1), t[4].0),
        Reveals(html, t[5].1), t[5].0)
  {
  }

  /** Appending text never removes a detected service. */
  lemma DetectedGrows(html: string, more: string)
    ensures Detected(html) <= Detected(html + more)
  {
    forall i, k | 0 <= i < |Analytics| && 0 <= k < |Analytics[i].1| && Contains(html, Analytics[i].1[k])
      ensures Contains(html + more, Analytics[i].1[k])
    {
      ContainsAppend(html, more, Analytics[i].1[k]);
    }
  }

  /** A page containing none of the tell-tale texts reveals no service. */
  lemma NothingDetected(html: string)
    requires forall i, k :: 0 <= i < |Analytics| && 0 <= k < |Analytics[i].1| ==> !Contains(html, Analytics[i].1[k])
    ensures Detected(html) == {}
  {
  }
}
