/**
 * The record normalisers: standardize_for_json, which turns every datetime
 * reachable through dictionaries and lists into its ISO text, and
 * extract_structured_fields, which projects the raw data of one OSINT source
 * onto the fields stored with a profile.
 */
module DataProcessing {

  import opened Wrappers
  import opened Json

  // ---------------------------------------------------------------------------
  // standardize_for_json
  // ---------------------------------------------------------------------------

  /**
   * standardize_for_json: a datetime becomes the text isoformat() gives, a
   * dictionary and a list are rebuilt from their standardised members, and
   * anything else (a tuple included) is returned as it is.
   */
  function Standardize(v: Value): (r: Value)
    ensures v.DateTime? ==> r == Str(v.iso)
    ensures v.Dict? ==> r.Dict? && |r.entries| == |v.entries| &&
                        forall i :: 0 <= i < |v.entries| ==> r.entries[i] == (v.entries[i].0, Standardize(v.entries[i].1))
    ensures v.List? ==> r.List? && |r.items| == |v.items| &&
                        forall i :: 0 <= i < |v.items| ==> r.items[i] == Standardize(v.items[i])
    ensures !v.DateTime? && !v.Dict? && !v.List? ==> r == v
  {
    match v
    case DateTime(iso) => Str(iso)
    case Dict(entries) =>
      Dict(seq(|entries|, i requires 0 <= i < |entries| => (entries[i].0, Standardize(entries[i].1))))
    case List(items) => List(seq(|items|, i requires 0 <= i < |items| => Standardize(items[i])))
    case _ => v
  }

  /** A standardised dictionary has the keys of the original, in the same order. */
  lemma StandardizeKeys(entries: seq<(string, Value)>)
    ensures Keys(Standardize(Dict(entries)).entries) == Keys(entries)
  {
    var r := Standardize(Dict(entries)).entries;
    assert forall k :: 0 <= k < |r| ==> Keys(r)[k] == Keys(entries)[k];
  }

  /**
   * No datetime is reachable through dictionaries and lists. Tuples are not
   * looked into: standardize_for_json does not descend into them either.
   */
  predicate NoDateTime(v: Value) {
    match v
    case DateTime(_) => false
    case Dict(entries) => forall i :: 0 <= i < |entries| ==> NoDateTime(entries[i].1)
    case List(items) => forall i :: 0 <= i < |items| ==> NoDateTime(items[i])
    case _ => true
  }

  /** The output of standardize_for_json holds no datetime outside tuples. */
  lemma {:induction false} StandardizeRemovesDateTimes(v: Value)
    ensures NoDateTime(Standardize(v))
    decreases v
  {
    match v
    case Dict(entries) =>
      var r := Standardize(v).entries;
      forall i | 0 <= i < |r| ensures NoDateTime(r[i].1) {
        StandardizeRemovesDateTimes(entries[i].1);
      }
    case List(items) =>
      var r := Standardize(v).items;
      forall i | 0 <= i < |r| ensures NoDateTime(r[i]) {
        StandardizeRemovesDateTimes(items[i]);
      }
    case _ =>
  }

  /** A value with no datetime left comes back unchanged. */
  lemma {:induction false} StandardizeKeepsClean(v: Value)
    requires NoDateTime(v)
    ensures Standardize(v) == v
    decreases v
  {
    match v
    case Dict(entries) =>
      var r := Standardize(v).entries;
      forall i | 0 <= i < |entries| ensures r[i] == entries[i] {
        StandardizeKeepsClean(entries[i].1);
      }
      assert r == entries;
    case List(items) =>
      var r := Standardize(v).items;
      forall i | 0 <= i < |items| ensures r[i] == items[i] {
        StandardizeKeepsClean(items[i]);
      }
      assert r == items;
    case _ =>
  }

  /** standardize_for_json is idempotent. */
  lemma StandardizeIdempotent(v: Value)
    ensures Standardize(Standardize(v)) == Standardize(v)
  {
    StandardizeRemovesDateTimes(v);
    StandardizeKeepsClean(Standardize(v));
  }

  /** Looking a key up in a standardised dictionary gives the standardised value the key had. */
  lemma {:induction false} StandardizeGet(entries: seq<(string, Value)>, key: string)
    ensures Get(Standardize(Dict(entries)).entries, key) ==
            match Get(entries, key) case None => None case Some(v) => Some(Standardize(v))
  {
    if entries != [] {
      var r := Standardize(Dict(entries)).entries;
      StandardizeGet(entries[1..], key);
      assert Standardize(Dict(entries[1..])).entries == r[1..];
      GetCons(r[0], r[1..], key);
      GetCons(entries[0], entries[1..], key);
      assert [r[0]] + r[1..] == r;
      assert [entries[0]] + entries[1..] == entries;
    }
  }

  /** A tuple is not looked into, so a datetime inside a tuple survives. */
  lemma TupleUntouched(iso: string)
    ensures Standardize(Tuple([DateTime(iso)])) == Tuple([DateTime(iso)])
    ensures !NoDateTime(List([DateTime(iso)])) && NoDateTime(Standardize(List([DateTime(iso)])))
  {
    assert Standardize(List([DateTime(iso)])).items == [Str(iso)];
    assert !NoDateTime([DateTime(iso)][0]);
  }

  // ---------------------------------------------------------------------------
  // extract_structured_fields
  // ---------------------------------------------------------------------------

  /** The exception a `.get` or a slice raises on a value of the wrong kind. */
  datatype Raised = AttributeError | TypeError

  /** `if x := data.get(key)`: the key is there with a truthy value. */
  predicate Present(data: seq<(string, Value)>, key: string) {
    Truthy(Lookup(data, key, Null))
  }

  /** The three source types the projection knows. */
  predicate KnownSource(sourceType: string) {
    sourceType == "domain" || sourceType == "email" || sourceType == "social"
  }

  /** dict.update(fields): every field written in order. */
  function Update(entries: seq<(string, Value)>, fields: seq<(string, Value)>): (r: seq<(string, Value)>)
    decreases |fields|
  {
    if fields == [] then entries
    else Update(Put(entries, fields[0].0, fields[0].1), fields[1..])
  }

  /** After an update, the last field's key reads the last field's value. */
  lemma {:induction false} UpdateLast(entries: seq<(string, Value)>, fields: seq<(string, Value)>)
    requires fields != []
    ensures Get(Update(entries, fields), fields[|fields| - 1].0) == Some(fields[|fields| - 1].1)
    decreases |fields|
  {
    if |fields| == 1 {
      PutGet(entries, fields[0].0, fields[0].1);
    } else {
      UpdateLast(Put(entries, fields[0].0, fields[0].1), fields[1..]);
    }
  }

  /** An update leaves the keys it does not write as they were. */
  lemma {:induction false} UpdateOthers(entries: seq<(string, Value)>, fields: seq<(string, Value)>, key: string)
    requires forall i :: 0 <= i < |fields| ==> fields[i].0 != key
    ensures Get(Update(entries, fields), key) == Get(entries, key)
    decreases |fields|
  {
    if fields != [] {
      PutOthers(entries, fields[0].0, fields[0].1, key);
      UpdateOthers(Put(entries, fields[0].0, fields[0].1), fields[1..], key);
    }
  }

  /** The keys the WHOIS update writes, in order. */
  const WhoisKeys: seq<string> := ["registrar", "creation_date", "expiration_date", "domain_name", "org", "name_servers"]

  /** The keys the Shodan update writes, in order: `org` last. */
  const ShodanKeys: seq<string> := ["ip", "ports", "hostnames", "isp", "org"]

  /** A dict literal: keys paired with values, in order. */
  function Zip(keys: seq<string>, values: seq<Value>): (r: seq<(string, Value)>)
    requires |keys| == |values|
    ensures |r| == |keys| && forall i :: 0 <= i < |keys| ==> r[i] == (keys[i], values[i])
  {
    seq(|keys|, i requires 0 <= i < |keys| => (keys[i], values[i]))
  }

  /** The WHOIS values, each with its default; `str` is Python's str() on a value. */
  function WhoisValues(w: seq<(string, Value)>, str: Value -> string): (r: seq<Value>)
    ensures |r| == |WhoisKeys|
  {
    [Str(str(Lookup(w, "registrar", Str("")))),
     Str(str(Lookup(w, "creation_date", Str("")))),
     Str(str(Lookup(w, "expiration_date", Str("")))),
     Str(str(Lookup(w, "domain_name", Lookup(w, "domain", Str(""))))),
     Str(str(Lookup(w, "org", Str("")))),
     Lookup(w, "name_servers", List([]))]
  }

  /** The WHOIS fields. */
  function WhoisFields(w: seq<(string, Value)>, str: Value -> string): seq<(string, Value)>
  {
    Zip(WhoisKeys, WhoisValues(w, str))
  }

  /** The Shodan fields. */
  function ShodanFields(s: seq<(string, Value)>): seq<(string, Value)>
  {
    Zip(ShodanKeys,
        [Lookup(s, "ip_str", Str("")),
         Lookup(s, "ports", List([])),
         Lookup(s, "hostnames", List([])),
         Lookup(s, "isp", Str("")),
         Lookup(s, "org", Str(""))])
  }

  /** What the domain branch promises: the error cases, the DNS records, and Shodan's org winning over WHOIS's. */
  predicate DomainSpec(data: seq<(string, Value)>, str: Value -> string, r: Result<seq<(string, Value)>, Raised>) {
    (r.Err? <==> (Present(data, "whois") && !Lookup(data, "whois", Null).Dict?) ||
                 (Present(data, "shodan") && !Lookup(data, "shodan", Null).Dict?)) &&
    (r.Ok? ==> (Get(r.value, "dns_records").Some? <==> Present(data, "dns"))) &&
    (r.Ok? && Present(data, "dns") ==> Get(r.value, "dns_records") == Some(Lookup(data, "dns", Null))) &&
    (r.Ok? && Present(data, "shodan") ==>
       Get(r.value, "org") == Some(Lookup(Lookup(data, "shodan", Null).entries, "org", Str("")))) &&
    (r.Ok? && Present(data, "whois") && !Present(data, "shodan") ==>
       Get(r.value, "org") == Some(Str(str(Lookup(Lookup(data, "whois", Null).entries, "org", Str(""))))))
  }

  /** The domain branch: WHOIS, then Shodan (whose org overrides WHOIS's), then the DNS records. */
  method DomainFields(data: seq<(string, Value)>, str: Value -> string) returns (r: Result<seq<(string, Value)>, Raised>)
    ensures DomainSpec(data, str, r)
  {
    var structured: seq<(string, Value)> := [];
    var whois := Lookup(data, "whois", Null);
    if Truthy(whois) {
      if !whois.Dict? {
        return Err(AttributeError);
      }
      var fields := WhoisFields(whois.entries, str);
      WhoisNoDns(whois.entries, str);
      UpdateOthers([], fields, "dns_records");
      WhoisOrg(whois.entries, str);
      structured := Update(structured, fields);
    }
    var shodan := Lookup(data, "shodan", Null);
    if Truthy(shodan) {
      if !shodan.Dict? {
        return Err(AttributeError);
      }
      var fields := ShodanFields(shodan.entries);
      ShodanNoDns(shodan.entries);
      UpdateOthers(structured, fields, "dns_records");
      UpdateLast(structured, fields);
      structured := Update(structured, fields);
    }
    var dns := Lookup(data, "dns", Null);
    if Truthy(dns) {
      PutGet(structured, "dns_records", dns);
      PutOthers(structured, "dns_records", dns, "org");
      structured := Put(structured, "dns_records", dns);
    }
    r := Ok(structured);
  }

  lemma WhoisNoDns(w: seq<(string, Value)>, str: Value -> string)
    ensures forall i :: 0 <= i < |WhoisFields(w, str)| ==> WhoisFields(w, str)[i].0 != "dns_records"
  {
    assert "dns_records" !in WhoisKeys;
  }

  lemma ShodanNoDns(s: seq<(string, Value)>)
    ensures forall i :: 0 <= i < |ShodanFields(s)| ==> ShodanFields(s)[i].0 != "dns_records"
  {
    assert "dns_records" !in ShodanKeys;
  }

  /** Without Shodan, the domain fields read the WHOIS org. */
  lemma WhoisOrg(w: seq<(string, Value)>, str: Value -> string)
    ensures Get(Update([], WhoisFields(w, str)), "org") == Some(Str(str(Lookup(w, "org", Str("")))))
  {
    ZipUpdateGet([], WhoisKeys, WhoisValues(w, str), 4);
  }

  lemma {:induction false} UpdateSplit(entries: seq<(string, Value)>, a: seq<(string, Value)>, b: seq<(string, Value)>)
    ensures Update(entries, a + b) == Update(Update(entries, a), b)
    decreases |a|
  {
    if a == [] {
      assert a + b == b;
    } else {
      assert (a + b)[0] == a[0] && (a + b)[1..] == a[1..] + b;
      UpdateSplit(Put(entries, a[0].0, a[0].1), a[1..], b);
    }
  }

  /** Writing a dict literal whose later keys differ from keys[i] leaves keys[i] reading values[i]. */
  lemma ZipUpdateGet(entries: seq<(string, Value)>, keys: seq<string>, values: seq<Value>, i: nat)
    requires |keys| == |values| && i < |keys|
    requires forall j :: i < j < |keys| ==> keys[j] != keys[i]
    ensures Get(Update(entries, Zip(keys, values)), keys[i]) == Some(values[i])
  {
    var f := Zip(keys, values);
    assert f == f[..i + 1] + f[i + 1..];
    UpdateSplit(entries, f[..i + 1], f[i + 1..]);
    UpdateLast(entries, f[..i + 1]);
    UpdateOthers(Update(entries, f[..i + 1]), f[i + 1..], keys[i]);
  }

  /** Writing a dict literal leaves a key it does not name as it was. */
  lemma ZipUpdateOthers(entries: seq<(string, Value)>, keys: seq<string>, values: seq<Value>, key: string)
    requires |keys| == |values| && key !in keys
    ensures Get(Update(entries, Zip(keys, values)), key) == Get(entries, key)
  {
    UpdateOthers(entries, Zip(keys, values), key);
  }

  // The e-mail branch

  /** The keys the Hunter.io block writes, in order. */
  const HunterKeys: seq<string> := ["hunterio_status", "hunterio_score", "hunterio_disposable", "hunterio_webmail"]

  lemma HunterKeysDistinct()
    ensures forall i, j :: 0 <= i < j < |HunterKeys| ==> HunterKeys[i] != HunterKeys[j]
    ensures "breach_count" !in HunterKeys && "breached_sites" !in HunterKeys
  {
    var k := HunterKeys;
    assert k[0][10] == 't' && k[1][10] == 'c' && k[2][9] == 'd' && k[3][9] == 'w';
    assert |k[0]| == 15 && |k[1]| == 14;
  }

  /** hunter_info.get("data", hunter_info): the record the Hunter.io fields are read from. */
  function HunterContent(data: seq<(string, Value)>): Value
    requires Lookup(data, "hunterio", Null).Dict?
  {
    var hunter := Lookup(data, "hunterio", Null);
    Lookup(hunter.entries, "data", hunter)
  }

  /** The Hunter.io fields, each with its default. */
  function HunterValues(c: seq<(string, Value)>): (r: seq<Value>)
    ensures |r| == |HunterKeys|
  {
    [Lookup(c, "status", Lookup(c, "result", Null)), Lookup(c, "score", Int(0)),
     Lookup(c, "disposable", Bool(false)), Lookup(c, "webmail", Bool(false))]
  }

  /** breaches_info[:5]. */
  function FirstFive(items: seq<Value>): (r: seq<Value>)
    ensures |r| <= 5 && |r| <= |items| && r == items[..|r|]
    ensures |items| >= 5 ==> |r| == 5
    ensures |items| < 5 ==> r == items
  {
    if |items| <= 5 then items else items[..5]
  }

  /** The exception the breach block raises, if any: len() and [:5] need a sequence, `.get` a dict. */
  function BreachesError(b: Value): Option<Raised> {
    if b.List? || b.Tuple? then
      (if forall i :: 0 <= i < |FirstFive(b.items)| ==> FirstFive(b.items)[i].Dict? then None else Some(AttributeError))
    else if b.Str? then Some(AttributeError)
    else Some(TypeError)
  }

  /** [str(b.get("Name", "")) for b in breaches]. */
  function BreachNames(breaches: seq<Value>, str: Value -> string): (r: seq<Value>)
    requires forall i :: 0 <= i < |breaches| ==> breaches[i].Dict?
    ensures |r| == |breaches|
    ensures forall i :: 0 <= i < |breaches| ==> r[i] == Str(str(Lookup(breaches[i].entries, "Name", Str(""))))
  {
    seq(|breaches|, i requires 0 <= i < |breaches| => Str(str(Lookup(breaches[i].entries, "Name", Str("")))))
  }

  /** What the e-mail branch promises: the error cases, the four Hunter.io fields, and the breach count and first five names. */
  predicate EmailSpec(data: seq<(string, Value)>, str: Value -> string, r: Result<seq<(string, Value)>, Raised>) {
    var hunter := Lookup(data, "hunterio", Null);
    var breaches := Lookup(data, "breaches", Null);
    var hunterFails := Present(data, "hunterio") && (!hunter.Dict? || !HunterContent(data).Dict?);
    (r.Err? <==> hunterFails || (Present(data, "breaches") && BreachesError(breaches).Some?)) &&
    (r.Ok? && Present(data, "hunterio") ==>
       forall i :: 0 <= i < |HunterKeys| ==> Get(r.value, HunterKeys[i]) == Some(HunterValues(HunterContent(data).entries)[i])) &&
    (r.Ok? && !Present(data, "hunterio") ==> forall i :: 0 <= i < |HunterKeys| ==> Get(r.value, HunterKeys[i]) == None) &&
    (r.Ok? && Present(data, "breaches") ==>
       Get(r.value, "breach_count") == Some(Int(|breaches.items|)) &&
       Get(r.value, "breached_sites") == Some(List(BreachNames(FirstFive(breaches.items), str)))) &&
    (r.Ok? && !Present(data, "breaches") ==> Get(r.value, "breach_count") == None && Get(r.value, "breached_sites") == None)
  }

  /** The e-mail branch: the Hunter.io verdict, then the breach count and the first five breach names. */
  method EmailFields(data: seq<(string, Value)>, str: Value -> string) returns (r: Result<seq<(string, Value)>, Raised>)
    ensures EmailSpec(data, str, r)
  {
    HunterKeysDistinct();
    var structured: seq<(string, Value)> := [];
    var hunter := Lookup(data, "hunterio", Null);
    if Truthy(hunter) {
      if !hunter.Dict? {
        return Err(AttributeError);
      }
      var content := Lookup(hunter.entries, "data", hunter);
      if !content.Dict? {
        return Err(AttributeError);
      }
      var values := HunterValues(content.entries);
      ZipReads([], HunterKeys, values);
      ZipUpdateOthers([], HunterKeys, values, "breach_count");
      ZipUpdateOthers([], HunterKeys, values, "breached_sites");
      structured := Update(structured, Zip(HunterKeys, values));
    }
    var breaches := Lookup(data, "breaches", Null);
    if Truthy(breaches) {
      var e := BreachesError(breaches);
      if e.Some? {
        return Err(e.value);
      }
      var names := BreachNames(FirstFive(breaches.items), str);
      TwoWrites(structured, "breach_count", Int(|breaches.items|), "breached_sites", List(names), HunterKeys);
      structured := Put(structured, "breach_count", Int(|breaches.items|));
      structured := Put(structured, "breached_sites", List(names));
    }
    r := Ok(structured);
  }

  /** A dict literal with distinct keys reads back as written. */
  lemma ZipReads(entries: seq<(string, Value)>, keys: seq<string>, values: seq<Value>)
    requires |keys| == |values|
    requires forall i, j :: 0 <= i < j < |keys| ==> keys[i] != keys[j]
    ensures forall i :: 0 <= i < |keys| ==> Get(Update(entries, Zip(keys, values)), keys[i]) == Some(values[i])
  {
    forall i | 0 <= i < |keys| ensures Get(Update(entries, Zip(keys, values)), keys[i]) == Some(values[i]) {
      ZipUpdateGet(entries, keys, values, i);
    }
  }

  /** Two writes to different keys read back as written and keep every other listed key. */
  lemma TwoWrites(before: seq<(string, Value)>, k1: string, v1: Value, k2: string, v2: Value, others: seq<string>)
    requires k1 != k2 && k1 !in others && k2 !in others
    ensures var after := Put(Put(before, k1, v1), k2, v2);
            Get(after, k1) == Some(v1) && Get(after, k2) == Some(v2) &&
            forall i :: 0 <= i < |others| ==> Get(after, others[i]) == Get(before, others[i])
  {
    var middle := Put(before, k1, v1);
    PutGet(before, k1, v1);
    PutGet(middle, k2, v2);
    PutOthers(middle, k2, v2, k1);
    forall i | 0 <= i < |others| ensures Get(Put(middle, k2, v2), others[i]) == Get(before, others[i]) {
      PutOthers(before, k1, v1, others[i]);
      PutOthers(middle, k2, v2, others[i]);
    }
  }

  // The social branch

  /** details.get("exists") is truthy. */
  predicate Exists(details: Value)
    requires details.Dict?
  {
    Truthy(Lookup(details.entries, "exists", Null))
  }

  /** The entry a found profile gets: its platform and details.get("url"). */
  function FoundEntry(p: (string, Value)): (string, Value)
    requires p.1.Dict?
  {
    (p.0, Lookup(p.1.entries, "url", Null))
  }

  /** {platform: details.get("url") for platform, details in profiles.items() if details.get("exists")}. */
  function FoundProfiles(profiles: seq<(string, Value)>): (r: seq<(string, Value)>)
    requires forall i :: 0 <= i < |profiles| ==> profiles[i].1.Dict?
    ensures |r| <= |profiles|
  {
    if profiles == [] then []
    else
      var rest := FoundProfiles(profiles[1..]);
      var head := profiles[0];
      if Exists(head.1) then [FoundEntry(head)] + rest else rest
  }

  /** Every kept entry is a profile that exists, with its url. */
  lemma {:induction false} FoundProfilesSound(profiles: seq<(string, Value)>, j: nat)
    requires forall i :: 0 <= i < |profiles| ==> profiles[i].1.Dict?
    requires j < |FoundProfiles(profiles)|
    ensures exists i :: 0 <= i < |profiles| && Exists(profiles[i].1) && FoundProfiles(profiles)[j] == FoundEntry(profiles[i])
  {
    assert profiles != [];
    var rest := FoundProfiles(profiles[1..]);
    if Exists(profiles[0].1) && j == 0 {
      assert FoundProfiles(profiles)[0] == FoundEntry(profiles[0]);
    } else {
      var k := if Exists(profiles[0].1) then j - 1 else j;
      assert FoundProfiles(profiles)[j] == rest[k];
      assert forall i :: 0 <= i < |profiles[1..]| ==> profiles[1..][i] == profiles[i + 1];
      FoundProfilesSound(profiles[1..], k);
      var i :| 0 <= i < |profiles[1..]| && Exists(profiles[1..][i].1) && rest[k] == FoundEntry(profiles[1..][i]);
      assert profiles[1..][i] == profiles[i + 1];
    }
  }

  /** Every profile whose details say it exists is kept, with its url. */
  lemma {:induction false} FoundProfilesComplete(profiles: seq<(string, Value)>, i: nat)
    requires forall i :: 0 <= i < |profiles| ==> profiles[i].1.Dict?
    requires i < |profiles| && Exists(profiles[i].1)
    ensures FoundEntry(profiles[i]) in FoundProfiles(profiles)
  {
    if i > 0 {
      FoundProfilesComplete(profiles[1..], i - 1);
      assert profiles[1..][i - 1] == profiles[i];
    }
  }

  /** What the social branch promises: the error cases, and exactly the existing profiles with their count. */
  predicate SocialSpec(data: seq<(string, Value)>, r: Result<seq<(string, Value)>, Raised>) {
    var profiles := Lookup(data, "profiles", Null);
    var wellFormed := profiles.Dict? && forall i :: 0 <= i < |profiles.entries| ==> profiles.entries[i].1.Dict?;
    (r.Err? <==> Present(data, "profiles") && !wellFormed) &&
    (r.Ok? && Present(data, "profiles") ==>
       wellFormed &&
       Get(r.value, "social_media_presence") == Some(Dict(FoundProfiles(profiles.entries))) &&
       Get(r.value, "platform_count") == Some(Int(|FoundProfiles(profiles.entries)|))) &&
    (r.Ok? && !Present(data, "profiles") ==> r.value == [])
  }

  /** The social branch: the profiles that exist, and how many there are. */
  method SocialFields(data: seq<(string, Value)>) returns (r: Result<seq<(string, Value)>, Raised>)
    ensures SocialSpec(data, r)
  {
    var structured: seq<(string, Value)> := [];
    var profiles := Lookup(data, "profiles", Null);
    if Truthy(profiles) {
      if !profiles.Dict? {
        return Err(AttributeError);
      }
      if exists i :: 0 <= i < |profiles.entries| && !profiles.entries[i].1.Dict? {
        return Err(AttributeError);
      }
      var found := FoundProfiles(profiles.entries);
      TwoWrites([], "social_media_presence", Dict(found), "platform_count", Int(|found|), []);
      structured := Put(structured, "social_media_presence", Dict(found));
      structured := Put(structured, "platform_count", Int(|found|));
    }
    r := Ok(structured);
  }

  /**
   * extract_structured_fields: the projection of one source's raw data,
   * `{}` for a source type it does not know.
   */
  method ExtractStructuredFields(data: seq<(string, Value)>, sourceType: string, str: Value -> string)
    returns (r: Result<seq<(string, Value)>, Raised>)
    ensures !KnownSource(sourceType) ==> r == Ok([])
    ensures sourceType == "domain" ==> DomainSpec(data, str, r)
    ensures sourceType == "email" ==> EmailSpec(data, str, r)
    ensures sourceType == "social" ==> SocialSpec(data, r)
  {
    if sourceType == "domain" {
      r := DomainFields(data, str);
    } else if sourceType == "email" {
      r := EmailFields(data, str);
    } else if sourceType == "social" {
      r := SocialFields(data);
    } else {
      r := Ok([]);
    }
  }
}
