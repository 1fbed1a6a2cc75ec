/**
 * The small classifiers of scraper/extractors/osint_extractor.py: the risk
 * and footprint levels shown in reports, the guess of what an identifier
 * is, the entity row a profile is filed under, the dispatch of `entity`,
 * the guard of `profile_email` and the grouping of found platforms.
 */
module OsintExtractor {
  import opened Wrappers
  import opened Text
  import opened Json
  import DataProcessing

  // ---------------------------------------------------------------------------
  // Levels
  // ---------------------------------------------------------------------------

  /** How many of the ascending thresholds `total` reaches. */
  function Reached(total: int, thresholds: seq<int>): nat
    decreases |thresholds|
  {
    if thresholds == [] then 0
    else (if thresholds[0] <= total then 1 else 0) + Reached(total, thresholds[1..])
  }

  /** A larger total reaches at least as many thresholds. */
  lemma {:induction false} ReachedMonotone(a: int, b: int, thresholds: seq<int>)
    requires a <= b
    ensures Reached(a, thresholds) <= Reached(b, thresholds)
    decreases |thresholds|
  {
    if thresholds != [] {
      ReachedMonotone(a, b, thresholds[1..]);
    }
  }

  datatype Risk = LowRisk | MediumRisk | HighRisk | CriticalRisk

  function RiskRank(r: Risk): nat {
    match r
    case LowRisk => 0
    case MediumRisk => 1
    case HighRisk => 2
    case CriticalRisk => 3
  }

  /** The label shown for a risk level (the terminal colour codes around it are not modelled). */
  function RiskLabel(r: Risk): string {
    match r
    case LowRisk => "LOW"
    case MediumRisk => "MEDIUM"
    case HighRisk => "HIGH"
    case CriticalRisk => "CRITICAL"
  }

  /** _assess_email_risk_level: the level of an address by its total exposures, breaches plus pastes. */
  function EmailRiskLevel(breachCount: int, pasteCount: int): Risk {
    var total := breachCount + pasteCount;
    if total == 0 then LowRisk
    else if total <= 2 then MediumRisk
    else if total <= 5 then HighRisk
    else CriticalRisk
  }

  /** Exposures at which the risk level steps up. */
  const RiskThresholds: seq<int> := [1, 3, 6]

  /** For counts that are not negative, the risk level is the number of thresholds 1, 3 and 6 the total reaches. */
  lemma RiskLevelBands(breachCount: int, pasteCount: int)
    requires breachCount + pasteCount >= 0
    ensures RiskRank(EmailRiskLevel(breachCount, pasteCount)) == Reached(breachCount + pasteCount, RiskThresholds)
  {
    var t := breachCount + pasteCount;
    assert RiskThresholds[1..][1..][1..] == [];
    assert Reached(t, RiskThresholds[1..][1..]) == if 6 <= t then 1 else 0;
  }

  /** More exposures never lower the risk level. */
  lemma RiskMonotone(b1: int, p1: int, b2: int, p2: int)
    requires 0 <= b1 + p1 <= b2 + p2
    ensures RiskRank(EmailRiskLevel(b1, p1)) <= RiskRank(EmailRiskLevel(b2, p2))
  {
    RiskLevelBands(b1, p1);
    RiskLevelBands(b2, p2);
    ReachedMonotone(b1 + p1, b2 + p2, RiskThresholds);
  }

  datatype Footprint = Minimal | Low | Moderate | High | Extensive

  function FootprintRank(f: Footprint): nat {
    match f
    case Minimal => 0
    case Low => 1
    case Moderate => 2
    case High => 3
    case Extensive => 4
  }

  /** _assess_social_footprint: the footprint of a username by the number of profiles found. */
  function SocialFootprint(profileCount: int): Footprint {
    if profileCount == 0 then Minimal
    else if profileCount <= 3 then Low
    else if profileCount <= 7 then Moderate
    else if profileCount <= 12 then High
    else Extensive
  }

  /** Profile counts at which the footprint steps up. */
  const FootprintThresholds: seq<int> := [1, 4, 8, 13]

  /** For a count that is not negative, the footprint is the number of thresholds 1, 4, 8 and 13 it reaches. */
  lemma FootprintBands(profileCount: int)
    requires profileCount >= 0
    ensures FootprintRank(SocialFootprint(profileCount)) == Reached(profileCount, FootprintThresholds)
  {
    var t := FootprintThresholds;
    assert t[1..][1..][1..][1..] == [];
    assert Reached(profileCount, t[1..][1..][1..]) == if 13 <= profileCount then 1 else 0;
    assert Reached(profileCount, t[1..][1..]) == (if 8 <= profileCount then 1 else 0) + (if 13 <= profileCount then 1 else 0);
  }

  /** More profiles never lower the footprint. */
  lemma FootprintMonotone(a: int, b: int)
    requires 0 <= a <= b
    ensures FootprintRank(SocialFootprint(a)) <= FootprintRank(SocialFootprint(b))
  {
    FootprintBands(a);
    FootprintBands(b);
    ReachedMonotone(a, b, FootprintThresholds);
  }

  // ---------------------------------------------------------------------------
  // Entity types
  // ---------------------------------------------------------------------------

  /** The kinds of target `entity` profiles. */
  datatype EntityType = Domain | Email | Username

  /** The entity_type string of each kind. */
  function TypeName(t: EntityType): string {
    match t
    case Domain => "domain"
    case Email => "email"
    case Username => "username"
  }

  /** The kind an entity_type string names, if any. */
  function ParseEntityType(s: string): (r: Option<EntityType>)
    ensures r.Some? ==> TypeName(r.value) == s
    ensures r.None? ==> forall t :: TypeName(t) != s
  {
    if s == "domain" then Some(Domain)
    else if s == "email" then Some(Email)
    else if s == "username" then Some(Username)
    else None
  }

  /** Every kind's name is read back as that kind. */
  lemma ParseTypeName(t: EntityType)
    ensures ParseEntityType(TypeName(t)) == Some(t)
  {
    match t {
      case Domain =>
      case Email => assert TypeName(t)[0] == 'e';
      case Username => assert TypeName(t)[0] == 'u';
    }
  }

  /**
   * The identifier guess of get_osint_profile_by_identifier: a '.' without
   * an '@' is a domain, an '@' is an email, anything else a username.
   */
  function GuessEntityType(identifier: string): EntityType {
    if '.' in identifier && '@' !in identifier then Domain
    else if '@' in identifier then Email
    else Username
  }

  const Company: string := "company"
  const Person: string := "person"

  /** The row an entity is filed under: its type, name and domain. */
  datatype EntityRow = EntityRow(kind: string, name: string, domain: Option<string>)

  /** _get_or_create_entity: domains are companies carrying their domain, everything else is a person without one. */
  function NewEntityRow(identifier: string, entityType: string): (e: EntityRow)
    ensures e.name == identifier
    ensures e.kind == Company || e.kind == Person
    ensures e.kind == Company <==> entityType == TypeName(Domain)
    ensures e.domain.Some? <==> e.kind == Company
    ensures e.domain.Some? ==> e.domain.value == identifier
  {
    if entityType == TypeName(Domain) then EntityRow(Company, identifier, Some(identifier))
    else EntityRow(Person, identifier, None)
  }

  /** The entity type the identifier lookup searches for. */
  function LookupKind(identifier: string): string {
    if GuessEntityType(identifier) == Domain then Company else Person
  }

  /**
   * An identifier shaped like its kind (a domain with a '.' and no '@', an
   * email with an '@', a username with neither) is looked up under the type
   * its entity was created with.
   */
  lemma LookupFindsCreated(identifier: string, t: EntityType)
    requires t == Domain ==> '.' in identifier && '@' !in identifier
    requires t == Email ==> '@' in identifier
    requires t == Username ==> '.' !in identifier && '@' !in identifier
    ensures LookupKind(identifier) == NewEntityRow(identifier, TypeName(t)).kind
    ensures GuessEntityType(identifier) == t
  {
    ParseTypeName(t);
    if t != Domain {
      assert TypeName(t) != TypeName(Domain);
    }
  }

  /** A username with a '.' is created as a person but looked up as a company. */
  lemma DottedUsernameLookup(identifier: string)
    requires '.' in identifier && '@' !in identifier
    ensures NewEntityRow(identifier, TypeName(Username)).kind == Person
    ensures LookupKind(identifier) == Company
  {
    assert TypeName(Username)[0] != TypeName(Domain)[0];
  }

  /**
   * The corrected lookup: an identifier guessed to be a domain may also be a
   * username with a '.', so it is searched under both entity types. Every
   * entity created for the identifier is then found, whichever type it was
   * profiled as, as long as a domain has a '.' and no '@'.
   */
  function LookupKinds(identifier: string): (r: set<string>)
    ensures LookupKind(identifier) in r && r <= {Company, Person}
    ensures forall t: EntityType :: (t == Domain ==> '.' in identifier && '@' !in identifier) ==>
      NewEntityRow(identifier, TypeName(t)).kind in r
    ensures GuessEntityType(identifier) != Domain ==> r == {Person}
  {
    CreatedKindsFound(identifier);
    if GuessEntityType(identifier) == Domain then {Company, Person} else {Person}
  }

  lemma CreatedKindsFound(identifier: string)
    ensures forall t: EntityType :: (t == Domain ==> '.' in identifier && '@' !in identifier) ==>
      NewEntityRow(identifier, TypeName(t)).kind ==
        (if t == Domain then Company else Person)
  {
    assert TypeName(Username)[0] != TypeName(Domain)[0];
    assert TypeName(Email)[0] != TypeName(Domain)[0];
  }

  // ---------------------------------------------------------------------------
  // Dispatch
  // ---------------------------------------------------------------------------

  const UnknownEntityType: string := "Unknown entity type: "

  /**
   * The source `entity` files collected data under: a domain's, an email's,
   * or a username's social scan; any other entity_type is rejected.
   */
  function SourceFor(entityType: string): (r: Result<string, string>)
    ensures r.Ok? <==> ParseEntityType(entityType).Some?
    ensures r.Err? ==> r.error == UnknownEntityType + entityType
  {
    match ParseEntityType(entityType)
    case Some(Domain) => Ok("domain")
    case Some(Email) => Ok("email")
    case Some(Username) => Ok("social")
    case None => Err(UnknownEntityType + entityType)
  }

  /** Every accepted entity type is filed under a source the structured-field extractor knows, and distinct types under distinct sources. */
  lemma SourcesKnown(s1: string, s2: string)
    requires SourceFor(s1).Ok? && SourceFor(s2).Ok?
    ensures DataProcessing.KnownSource(SourceFor(s1).value)
    ensures s1 != s2 ==> SourceFor(s1).value != SourceFor(s2).value
  {
    var t1 := ParseEntityType(s1).value;
    var t2 := ParseEntityType(s2).value;
    if s1 != s2 {
      assert t1 != t2;
      assert SourceFor(s1).value[0] != SourceFor(s2).value[0];
    }
  }

  /** What profile_email does with its input: refuse it, or profile it as an email entity. */
  datatype EmailRequest =
    | Rejected(error: seq<(string, Value)>)
    | Profile(target: string, entityType: string)

  const InvalidEmail: string := "Invalid email format provided."

  /** profile_email's guard: an empty input or one without '@' is answered with an error dictionary. */
  function ProfileEmail(email: string): (r: EmailRequest)
    ensures r.Profile? <==> '@' in email
    ensures r.Profile? ==> r.target == email && r.entityType == TypeName(Email)
    ensures r.Rejected? ==>
      Get(r.error, "error") == Some(Str(InvalidEmail)) && Get(r.error, "original_input") == Some(Str(email))
  {
    if email == [] || '@' !in email then
      Rejected([("error", Str(InvalidEmail)), ("original_input", Str(email))])
    else Profile(email, TypeName(Email))
  }

  /** An address that passes the guard is later looked up as the person it was created as. */
  lemma ProfiledEmailFound(email: string)
    requires ProfileEmail(email).Profile?
    ensures GuessEntityType(email) == Email
    ensures LookupKind(email) == NewEntityRow(email, ProfileEmail(email).entityType).kind
    ensures SourceFor(ProfileEmail(email).entityType) == Ok("email")
  {
    LookupFindsCreated(email, Email);
    ParseTypeName(Email);
  }

  // ---------------------------------------------------------------------------
  // Platform categories
  // ---------------------------------------------------------------------------

  datatype Category = Social | Professional | Gaming | Other

  const SocialNames: seq<string> := ["twitter", "facebook", "instagram", "tiktok", "snapchat", "reddit"]
  const ProfessionalNames: seq<string> := ["linkedin", "github", "stackoverflow", "behance"]
  const GamingNames: seq<string> := ["steam", "twitch", "xbox", "playstation"]

  /** The category of a platform, by its lowercased name. */
  function CategoryOf(platform: string): Category {
    var low := Lower(platform);
    if low in SocialNames then Social
    else if low in ProfessionalNames then Professional
    else if low in GamingNames then Gaming
    else Other
  }

  /** The platforms `categoryOf` puts in category `c`, in the order found. */
  function InCategory(platforms: seq<string>, categoryOf: string -> Category, c: Category): seq<string>
    decreases |platforms|
  {
    if platforms == [] then []
    else
      var init := platforms[..|platforms| - 1];
      var last := platforms[|platforms| - 1];
      InCategory(init, categoryOf, c) + if categoryOf(last) == c then [last] else []
  }

  /** The four category lists one after another. */
  function Categorised(platforms: seq<string>, categoryOf: string -> Category): seq<string> {
    InCategory(platforms, categoryOf, Social) + InCategory(platforms, categoryOf, Professional) +
    InCategory(platforms, categoryOf, Gaming) + InCategory(platforms, categoryOf, Other)
  }

  /** Together the four categories hold every found platform exactly as often as it was found. */
  lemma {:induction false} CategoriesPartition(platforms: seq<string>, categoryOf: string -> Category)
    ensures multiset(Categorised(platforms, categoryOf)) == multiset(platforms)
    decreases |platforms|
  {
    if platforms != [] {
      var init := platforms[..|platforms| - 1];
      var last := platforms[|platforms| - 1];
      CategoriesPartition(init, categoryOf);
      CategorisedSnoc(platforms, categoryOf);
      MultisetSnoc(platforms);
    }
  }

  lemma MultisetSnoc(s: seq<string>)
    requires s != []
    ensures multiset(s) == multiset(s[..|s| - 1]) + multiset{s[|s| - 1]}
  {
    assert s == s[..|s| - 1] + [s[|s| - 1]];
  }

  /** One more platform adds it once to the four lists together. */
  lemma CategorisedSnoc(platforms: seq<string>, categoryOf: string -> Category)
    requires platforms != []
    ensures var last := platforms[|platforms| - 1];
            multiset(Categorised(platforms, categoryOf)) ==
            multiset(Categorised(platforms[..|platforms| - 1], categoryOf)) + multiset{last}
  {
    var init := platforms[..|platforms| - 1];
    var last := platforms[|platforms| - 1];
    AppendToOne(InCategory(init, categoryOf, Social), InCategory(init, categoryOf, Professional),
                InCategory(init, categoryOf, Gaming), InCategory(init, categoryOf, Other),
                InCategory(platforms, categoryOf, Social), InCategory(platforms, categoryOf, Professional),
                InCategory(platforms, categoryOf, Gaming), InCategory(platforms, categoryOf, Other),
                last, categoryOf(last));
  }

  /** Appending one platform to the list of its category adds it once to the four lists together. */
  lemma AppendToOne(s: seq<string>, p: seq<string>, g: seq<string>, o: seq<string>,
                    s': seq<string>, p': seq<string>, g': seq<string>, o': seq<string>, last: string, k: Category)
    requires s' == s + if k == Social then [last] else []
    requires p' == p + if k == Professional then [last] else []
    requires g' == g + if k == Gaming then [last] else []
    requires o' == o + if k == Other then [last] else []
    ensures multiset(s' + p' + g' + o') == multiset(s + p + g + o) + multiset{last}
  {
  }

  /** A platform is listed in its own category and in no other. */
  lemma {:induction false} CategoryExclusive(platforms: seq<string>, categoryOf: string -> Category, c: Category, p: string)
    ensures p in InCategory(platforms, categoryOf, c) <==> p in platforms && categoryOf(p) == c
    decreases |platforms|
  {
    if platforms != [] {
      var init := platforms[..|platforms| - 1];
      CategoryExclusive(init, categoryOf, c, p);
      assert platforms == init + [platforms[|platforms| - 1]];
    }
  }

  /** The platform breakdown of the username report: each found platform is appended to its category's list. */
  method CategorisePlatforms(platforms: seq<string>) returns (social: seq<string>, professional: seq<string>, gaming: seq<string>, other: seq<string>)
    ensures social == InCategory(platforms, CategoryOf, Social)
    ensures professional == InCategory(platforms, CategoryOf, Professional)
    ensures gaming == InCategory(platforms, CategoryOf, Gaming)
    ensures other == InCategory(platforms, CategoryOf, Other)
  {
    social, professional, gaming, other := [], [], [], [];
    for i := 0 to |platforms|
      invariant social == InCategory(platforms[..i], CategoryOf, Social)
      invariant professional == InCategory(platforms[..i], CategoryOf, Professional)
      invariant gaming == InCategory(platforms[..i], CategoryOf, Gaming)
      invariant other == InCategory(platforms[..i], CategoryOf, Other)
    {
      var platform := platforms[i];
      assert platforms[..i + 1][..i] == platforms[..i];
      var low := Lower(platform);
      if low in SocialNames {
        social := social + [platform];
      } else if low in ProfessionalNames {
        professional := professional + [platform];
      } else if low in GamingNames {
        gaming := gaming + [platform];
      } else {
        other := other + [platform];
      }
    }
    assert platforms[..|platforms|] == platforms;
  }
}
