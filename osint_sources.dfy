/**
 * The Sherlock-based username scans and the email OSINT key selection
 * of scraper/utils/osint_sources.py. Running Sherlock is outside the
 * model: its outcome arrives as a parameter, either the text it printed
 * or the message of a failed run.
 */
module OsintSources {
  import opened Wrappers
  import opened Text
  import opened Json

  /** What Sherlock prints in front of every profile it found. */
  const Marker: string := "[+]"

  /** The text between the first marker and the next one: `line.split("[+]")[1]`. */
  function MarkedField(line: string): string
    requires Contains(line, Marker)
  {
    Before(After(line, Marker).value, Marker)
  }

  /** The site named on a found-profile line: the marked field, stripped, up to its first ':', stripped. */
  function SiteOf(line: string): (site: string)
    requires Contains(line, Marker)
    ensures ':' !in site
  {
    var head := SplitChar(Strip(MarkedField(line)), ':')[0];
    StripSub(head);
    Strip(head)
  }

  /** The separator between a site and its url. */
  const Colon: string := [':']

  /**
   * One output line: the site and the url of a found profile, or None for a
   * line without the marker and for one without ':' (whose url lookup raises
   * and is skipped).
   */
  function ParseLine(line: string): Option<(string, string)> {
    if !Contains(line, Marker) then None
    else match After(line, Colon)
      case None => None
      case Some(rest) => Some((SiteOf(line), Strip(rest)))
  }

  /** A line reports a profile exactly when it has the marker and a ':'; the site has no ':' and the url is what follows the first ':', stripped. */
  lemma ParseLineFound(line: string)
    ensures ParseLine(line).Some? <==> Contains(line, Marker) && ':' in line
    ensures ParseLine(line).Some? ==>
      ParseLine(line).value.0 == SiteOf(line) && ':' !in Before(line, Colon) &&
      line == Before(line, Colon) + Colon + After(line, Colon).value &&
      ParseLine(line).value.1 == Strip(After(line, Colon).value)
  {
    ContainsChar(line, ':');
    if ParseLine(line).Some? {
      assert SplitChar(line, ':')[0] == Before(line, Colon);
    }
  }

  /** What every line of the output reports. */
  function ParseLines(lines: seq<string>): (found: seq<Option<(string, string)>>)
    ensures |found| == |lines|
  {
    seq(|lines|, i requires 0 <= i < |lines| => ParseLine(lines[i]))
  }

  /**
   * The record kept for a profile: its url, one scan-specific field
   * ("status": "Claimed" for a username scan, "username": brand for a brand
   * scan), "exists" and "confidence".
   */
  function Record(url: string, extra: (string, Value)): Value {
    Dict([("url", Str(url)), extra, ("exists", Bool(true)), ("confidence", Real(1.0))])
  }

  /** The profiles dictionary after the reported profiles in order: a later report overwrites a site's record. */
  function Collect(found: seq<Option<(string, string)>>, extra: (string, Value)): seq<(string, Value)>
    decreases |found|
  {
    if found == [] then []
    else
      var acc := Collect(found[..|found| - 1], extra);
      match found[|found| - 1]
      case None => acc
      case Some(p) => Put(acc, p.0, Record(p.1, extra))
  }

  /** Reads Sherlock's output line by line into the profiles dictionary. */
  method ParseSherlockOutput(stdout: string, extra: (string, Value)) returns (profiles: seq<(string, Value)>)
    ensures profiles == Collect(ParseLines(SplitLines(stdout)), extra)
  {
    var lines := SplitLines(stdout);
    ghost var found := ParseLines(lines);
    profiles := [];
    for i := 0 to |lines|
      invariant profiles == Collect(found[..i], extra)
    {
      CollectPrefix(found, i, extra);
      match ParseLine(lines[i]) {
        case Some((site, url)) =>
          profiles := Put(profiles, site, Record(url, extra));
        case None =>
      }
    }
    assert found[..|lines|] == found;
  }

  /** One report more: its site's record is written, when it reports one. */
  lemma CollectPrefix(found: seq<Option<(string, string)>>, i: nat, extra: (string, Value))
    requires i < |found|
    ensures Collect(found[..i + 1], extra) ==
              match found[i]
              case None => Collect(found[..i], extra)
              case Some(p) => Put(Collect(found[..i], extra), p.0, Record(p.1, extra))
  {
    assert found[..i + 1][..i] == found[..i];
  }

  /** `report` names `site`. */
  predicate Names(report: Option<(string, string)>, site: string) {
    report.Some? && report.value.0 == site
  }

  /** One more report changes only the record of the site it names. */
  lemma CollectStep(found: seq<Option<(string, string)>>, extra: (string, Value), site: string)
    requires found != []
    ensures var last := found[|found| - 1];
            Get(Collect(found, extra), site) ==
              if Names(last, site) then Some(Record(last.value.1, extra))
              else Get(Collect(found[..|found| - 1], extra), site)
  {
    var last := found[|found| - 1];
    if last.Some? {
      GetPut(Collect(found[..|found| - 1], extra), last.value.0, Record(last.value.1, extra), site);
    }
  }

  /** A site has a record exactly when some report names it. */
  lemma {:induction false} CollectSites(found: seq<Option<(string, string)>>, extra: (string, Value), site: string)
    ensures Get(Collect(found, extra), site).Some? <==> exists i :: 0 <= i < |found| && Names(found[i], site)
    decreases |found|
  {
    if found != [] {
      var init := found[..|found| - 1];
      CollectSites(init, extra, site);
      CollectStep(found, extra, site);
      if Get(Collect(init, extra), site).Some? {
        var i :| 0 <= i < |init| && Names(init[i], site);
        assert found[i] == init[i];
      }
      if exists i :: 0 <= i < |found| && Names(found[i], site) {
        var i :| 0 <= i < |found| && Names(found[i], site);
        if i < |init| {
          assert init[i] == found[i];
        }
      }
    }
  }

  /** The record of a site is the one of the last report that names it. */
  lemma {:induction false} CollectLastWins(found: seq<Option<(string, string)>>, extra: (string, Value), i: nat, site: string, url: string)
    requires i < |found| && found[i] == Some((site, url))
    requires forall j :: i < j < |found| ==> !Names(found[j], site)
    ensures Get(Collect(found, extra), site) == Some(Record(url, extra))
    decreases |found|
  {
    CollectStep(found, extra, site);
    if i < |found| - 1 {
      var init := found[..|found| - 1];
      forall j | i < j < |init| ensures !Names(init[j], site) {
        assert init[j] == found[j];
      }
      CollectLastWins(init, extra, i, site, url);
    }
  }

  /** Every site appears once in the profiles dictionary. */
  lemma {:induction false} CollectUnique(found: seq<Option<(string, string)>>, extra: (string, Value))
    ensures UniqueKeys(Collect(found, extra))
    decreases |found|
  {
    if found != [] {
      var init := found[..|found| - 1];
      CollectUnique(init, extra);
      match found[|found| - 1] {
        case None =>
        case Some(p) => PutUnique(Collect(init, extra), p.0, Record(p.1, extra));
      }
    }
  }

  /** Number of reports that name a profile. */
  function Reported(found: seq<Option<(string, string)>>): nat
    decreases |found|
  {
    if found == [] then 0
    else Reported(found[..|found| - 1]) + if found[|found| - 1].Some? then 1 else 0
  }

  /** profiles_found never exceeds the number of reporting lines, nor platforms_checked. */
  lemma {:induction false} CollectBound(found: seq<Option<(string, string)>>, extra: (string, Value))
    ensures |Collect(found, extra)| <= Reported(found) <= |found|
    decreases |found|
  {
    if found != [] {
      CollectBound(found[..|found| - 1], extra);
    }
  }

  /** The outcome of a scan: the profiles found and the summary, or an error message. */
  datatype Scan =
    | Scan(profiles: seq<(string, Value)>, username: string, platformsChecked: nat, profilesFound: nat)
    | ScanFailed(error: string)

  const EmptyUsername: string := "Username cannot be empty"
  const EmptyBrand: string := "Domain or brand name cannot be empty"
  const SherlockFailed: string := "Sherlock execution failed: "
  /** The scan-specific field of a username scan's records. */
  const Claimed: (string, Value) := ("status", Str("Claimed"))

  /**
   * fetch_social_osint: scans the stripped username. `run` is what Sherlock
   * printed, or the error output of a run that exited with failure.
   */
  method FetchSocialOsint(username: string, run: Result<string, string>) returns (r: Scan)
    ensures Strip(username) == [] ==> r == ScanFailed(EmptyUsername)
    ensures Strip(username) != [] && run.Err? ==> r == ScanFailed(SherlockFailed + run.error)
    ensures Strip(username) != [] && run.Ok? ==>
      var lines := SplitLines(run.value);
      var profiles := Collect(ParseLines(lines), Claimed);
      r == Scan(profiles, Strip(username), |lines|, |profiles|)
  {
    var name := Strip(username);
    if name == [] {
      return ScanFailed(EmptyUsername);
    }
    match run {
      case Err(e) =>
        r := ScanFailed(SherlockFailed + e);
      case Ok(stdout) =>
        var profiles := ParseSherlockOutput(stdout, Claimed);
        r := Scan(profiles, name, |SplitLines(stdout)|, |profiles|);
    }
  }

  /** The brand searched for a domain or brand name: the text before its first '.', or all of it. */
  function BrandName(name: string): string {
    if '.' in name then SplitChar(name, '.')[0] else name
  }

  /** The brand is the longest prefix of the name without a '.'. */
  lemma BrandNamePrefix(name: string)
    ensures var b := BrandName(name);
            b == name[..|b|] && '.' !in b &&
            ('.' in name ==> |b| < |name| && name[|b|] == '.')
  {
    var b := BrandName(name);
    if '.' in name {
      ContainsChar(name, '.');
      var i := Find(name, ['.']).value;
      assert name[i..i + 1] == ['.'];
    }
  }

  /** find_brand_social_profiles: scans the brand of a non-blank domain or brand name. */
  method FindBrandSocialProfiles(name: string, run: Result<string, string>) returns (r: Scan)
    ensures name == [] || Strip(name) == [] ==> r == ScanFailed(EmptyBrand)
    ensures Strip(name) != [] && run.Err? ==> r == ScanFailed(SherlockFailed + run.error)
    ensures Strip(name) != [] && run.Ok? ==>
      var lines := SplitLines(run.value);
      var profiles := Collect(ParseLines(lines), ("username", Str(BrandName(name))));
      r == Scan(profiles, BrandName(name), |lines|, |profiles|)
  {
    if name == [] || Strip(name) == [] {
      return ScanFailed(EmptyBrand);
    }
    var brand := BrandName(name);
    match run {
      case Err(e) =>
        r := ScanFailed(SherlockFailed + e);
      case Ok(stdout) =>
        var profiles := ParseSherlockOutput(stdout, ("username", Str(brand)));
        r := Scan(profiles, brand, |SplitLines(stdout)|, |profiles|);
    }
  }

  /** Hunter.io data is kept when it is a non-empty dictionary without a truthy "error". */
  predicate HunterUsable(hunter: Option<seq<(string, Value)>>) {
    hunter.Some? && hunter.value != [] && !Truthy(Lookup(hunter.value, "error", Null))
  }

  /**
   * fetch_email_osint: the result holds "hunterio" when Hunter.io answered
   * without error and "breaches" when the breach check returned something
   * truthy. `hunter` is Hunter.io's answer (None when it gave nothing).
   */
  function EmailOsint(hunter: Option<seq<(string, Value)>>, breaches: Value): (r: seq<(string, Value)>)
    ensures Get(r, "hunterio") == if HunterUsable(hunter) then Some(Dict(hunter.value)) else None
    ensures Get(r, "breaches") == if Truthy(breaches) then Some(breaches) else None
    ensures forall k :: k in Keys(r) ==> k == "hunterio" || k == "breaches"
  {
    var withHunter: seq<(string, Value)> := if HunterUsable(hunter) then [("hunterio", Dict(hunter.value))] else [];
    if Truthy(breaches) then
      PutKeys(withHunter, "breaches", breaches);
      PutGet(withHunter, "breaches", breaches);
      GetPut(withHunter, "breaches", breaches, "hunterio");
      Put(withHunter, "breaches", breaches)
    else withHunter
  }
}
