/**
 * The contact filters of src/scraper/utils/extractors.py: the candidate
 * filter that extract_emails applies to its regular-expression matches, and
 * the set-to-set filters filter_emails and filter_phone_numbers. The regex
 * and phonenumbers matchers that produce the candidates are inputs here.
 */
module ContactFilters {

  import opened Wrappers
  import opened Text
  import CrawlRules

  // ---------------------------------------------------------------------------
  // extract_emails: the filter over the regex matches
  // ---------------------------------------------------------------------------

  const ExcludedDomains: seq<string> :=
    ["example.com", "domain.com", "yoursite.com", "yourdomain.com", "example.org", "email.com", "test.com", "sample.com"]

  const ExcludedExtensions: seq<string> :=
    [".png", ".jpg", ".jpeg", ".gif", ".webp", ".svg", ".css", ".js", ".pdf", ".doc", ".mp3", ".mp4"]

  predicate IsLowerHex(c: char) { IsDigit(c) || 'a' <= c <= 'f' }

  /**
   * re.match(r'^[0-9a-f]{32}@', e): 32 lower-case hex digits, then '@'. The
   * second excluded pattern (8+4+4+4+12 hex digits, then '@') is the same language.
   */
  predicate HexTokenAddress(e: string) {
    |e| > 32 && (forall i :: 0 <= i < 32 ==> IsLowerHex(e[i])) && e[32] == '@'
  }

  /** len(set(s)): the number of distinct characters. */
  function DistinctChars(s: string): nat {
    |set c | c in s|
  }

  /** e.split('@')[1]: the text between the first '@' and the next one. */
  function SecondPart(e: string): string {
    match After(e, "@")
    case None => ""
    case Some(rest) => Before(rest, "@")
  }

  /** Whether a lower-cased match survives the exclusions of extract_emails. */
  predicate KeepMatch(low: string) {
    (forall k :: 0 <= k < |ExcludedExtensions| ==> !Contains(low, ExcludedExtensions[k])) &&
    !HexTokenAddress(low) &&
    SecondPart(low) !in ExcludedDomains &&
    !(DistinctChars(Before(low, "@")) <= 2 && |Before(low, "@")| > 4)
  }

  /** The addresses the filter keeps from a sequence of matches. */
  function Extracted(matches: seq<string>): set<string> {
    set e | e in matches && KeepMatch(Lower(e)) :: Lower(e)
  }

  lemma ExtractedAppend(matches: seq<string>, m: string)
    ensures Extracted(matches + [m]) == Extracted(matches) + (if KeepMatch(Lower(m)) then {Lower(m)} else {})
  {
  }

  /**
   * extract_emails after its regex: each match is lower-cased and kept
   * unless it contains an excluded extension, has a 32-hex-digit local part,
   * has an excluded placeholder domain, or its local part is longer than 4
   * characters over at most 2 distinct ones. Every regex match has an '@'.
   */
  method ExtractEmails(matches: seq<string>) returns (emails: set<string>)
    requires forall i :: 0 <= i < |matches| ==> '@' in matches[i]
    ensures emails == Extracted(matches)
    ensures forall e :: e in emails ==> IsLowercase(e) && KeepMatch(e)
  {
    emails := {};
    for i := 0 to |matches|
      invariant emails == Extracted(matches[..i])
    {
      var low := Lower(matches[i]);
      var excluded := false;
      for k := 0 to |ExcludedExtensions|
        invariant excluded <==> exists j :: 0 <= j < k && Contains(low, ExcludedExtensions[j])
      {
        if Contains(low, ExcludedExtensions[k]) {
          excluded := true;
        }
      }
      var keep: bool;
      if excluded || HexTokenAddress(low) || SecondPart(low) in ExcludedDomains {
        keep := false;
      } else if DistinctChars(Before(low, "@")) <= 2 && |Before(low, "@")| > 4 {
        keep := false;
      } else {
        keep := true;
      }
      assert keep == KeepMatch(low);
      assert matches[..i + 1] == matches[..i] + [matches[i]];
      ExtractedAppend(matches[..i], matches[i]);
      if keep {
        emails := emails + {low};
      }
    }
    assert matches[..|matches|] == matches;
    forall e | e in emails ensures IsLowercase(e) {
      var m :| m in matches && KeepMatch(Lower(m)) && e == Lower(m);
      LowerIsLowercase(m);
    }
  }

  // ---------------------------------------------------------------------------
  // filter_emails
  // ---------------------------------------------------------------------------

  const ServiceDomains: set<string> :=
    {"sentry.io", "sentry.wixpress.com", "sentry-next.wixpress.com", "contactprivacy.com", "whois.tucows.com",
     "domainsbyproxy.com", "secureserver.net", "hostmaster.sk", "nic.it"}

  const MeaningfulTerms: seq<string> :=
    ["info", "contact", "support", "hello", "sales", "admin", "contatti", "assistenza", "ufficio", "segreteria", "privacy"]

  /** Runs of hex digits of the given lengths, each after the first optionally preceded by '-'. */
  predicate HexGroups(s: string, groups: seq<nat>)
    decreases |groups|, |s|
  {
    if groups == [] then s == []
    else
      |s| >= groups[0] && AllHex(s[..groups[0]]) &&
      var rest := s[groups[0]..];
      (HexGroups(rest, groups[1..]) ||
       (|groups| > 1 && rest != [] && rest[0] == '-' && HexGroups(rest[1..], groups[1..])))
  }

  /** The pattern text, or the pattern text and one final newline, as Python's `$` allows. */
  predicate UuidText(s: string) { HexGroups(s, [8, 4, 4, 4, 12]) }
  predicate LongHexText(s: string) { 12 <= |s| <= 64 && AllHex(s) }

  /** uuid_pattern.match(local): ^[0-9a-f]{8}-?[0-9a-f]{4}-?[0-9a-f]{4}-?[0-9a-f]{4}-?[0-9a-f]{12}$, ignoring case. */
  predicate IsUuidLike(s: string) {
    UuidText(s) || (s != [] && s[|s| - 1] == '\n' && UuidText(s[..|s| - 1]))
  }

  /** long_hex_pattern.match(local): ^[0-9a-f]{12,64}$, ignoring case. */
  predicate IsLongHex(s: string) {
    LongHexText(s) || (s != [] && s[|s| - 1] == '\n' && LongHexText(s[..|s| - 1]))
  }

  predicate HasMeaningfulTerm(local: string) {
    exists k :: 0 <= k < |MeaningfulTerms| && Contains(local, MeaningfulTerms[k])
  }

  /** The domains an e-mail may have to count as the site's own. */
  predicate IsSiteDomain(emailDomain: string, domain: string) {
    var d := Lower(domain);
    emailDomain == d || emailDomain == "mail." + d || emailDomain == CrawlRules.RemoveAll(d, "www.")
  }

  /** Whether filter_emails keeps one address. */
  predicate KeepEmail(email: string, domain: string, keepService: bool) {
    match After(email, "@")
    case None => false
    case Some(rest) =>
      var local := Lower(Before(email, "@"));
      var emailDomain := Lower(rest);
      !(emailDomain in ServiceDomains && !keepService) &&
      !IsUuidLike(local) && !IsLongHex(local) &&
      (IsSiteDomain(emailDomain, domain) || HasMeaningfulTerm(local))
  }

  function EmailsKept(emails: set<string>, domain: string, keepService: bool): set<string> {
    set e | e in emails && KeepEmail(e, domain, keepService)
  }

  lemma EmailsKeptAdd(emails: set<string>, email: string, domain: string, keepService: bool)
    ensures EmailsKept(emails + {email}, domain, keepService) ==
            EmailsKept(emails, domain, keepService) + (if KeepEmail(email, domain, keepService) then {email} else {})
  {
  }

  /**
   * filter_emails: drops addresses without '@', service-domain addresses
   * (unless kept on request) and hash-like local parts; of the rest keeps
   * those of the site's domain and those whose local part has a meaningful term.
   */
  method FilterEmails(emails: set<string>, domain: string, keepService: bool) returns (filtered: set<string>)
    ensures filtered == EmailsKept(emails, domain, keepService)
    ensures filtered <= emails
  {
    filtered := {};
    var normalized := Lower(domain);
    var mailDomain := "mail." + normalized;
    var noWww := CrawlRules.RemoveAll(normalized, "www.");
    var done: set<string> := {};
    while done != emails
      invariant done <= emails
      invariant filtered == EmailsKept(done, domain, keepService)
      decreases |emails - done|
    {
      var email :| email in emails - done;
      var keep := false;
      match After(email, "@") {
        case None =>
        case Some(rest) =>
          var local := Lower(Before(email, "@"));
          var emailDomain := Lower(rest);
          if emailDomain in ServiceDomains && !keepService {
          } else if IsUuidLike(local) || IsLongHex(local) {
          } else if emailDomain == normalized || emailDomain == mailDomain || emailDomain == noWww {
            keep := true;
          } else if HasMeaningfulTerm(local) {
            keep := true;
          }
      }
      assert keep == KeepEmail(email, domain, keepService);
      EmailsKeptAdd(done, email, domain, keepService);
      if keep {
        filtered := filtered + {email};
      }
      done := done + {email};
    }
  }

  /** An address at the site's own domain passes whenever it is not excluded. */
  lemma SiteAddressKept(local: string, domain: string, keepService: bool)
    requires '@' !in local
    requires !IsUuidLike(Lower(local)) && !IsLongHex(Lower(local))
    requires Lower(domain) !in ServiceDomains || keepService
    ensures KeepEmail(local + "@" + domain, domain, keepService)
  {
    BeforeFirst(local, '@', domain);
    assert local + "@" + domain == local + ['@'] + domain;
  }

  /** Service-domain addresses are dropped unless they are asked for. */
  lemma ServiceAddressDropped(local: string, service: string, domain: string)
    requires '@' !in local && Lower(service) in ServiceDomains
    ensures !KeepEmail(local + "@" + service, domain, false)
  {
    BeforeFirst(local, '@', service);
    assert local + "@" + service == local + ['@'] + service;
  }

  // ---------------------------------------------------------------------------
  // filter_phone_numbers
  // ---------------------------------------------------------------------------

  /** ''.join(filter(str.isdigit, s)). */
  function DigitsOf(s: string): (r: string)
    ensures AllDigits(r) && |r| <= |s|
  {
    if s == [] then []
    else (if IsDigit(s[0]) then [s[0]] else []) + DigitsOf(s[1..])
  }

  /** The cleaned number: one leading '+' kept (also for "++"), then digits only. */
  function CleanPhone(phone: string): (c: string)
    ensures StartsWith(phone, "+") ==> c != [] && c[0] == '+' && AllDigits(c[1..])
    ensures !StartsWith(phone, "+") ==> AllDigits(c)
  {
    if StartsWith(phone, "++") then "+" + DigitsOf(phone[2..])
    else if StartsWith(phone, "+") then "+" + DigitsOf(phone[1..])
    else DigitsOf(phone)
  }

  /** The six date patterns: each matches only all-digit text of length 6 or 8, and those it all matches. */
  predicate IsDateLike(c: string) { AllDigits(c) && (|c| == 6 || |c| == 8) }

  /** `\d{1,3}` groups joined by '.'. */
  predicate DottedQuad(s: string, groups: nat)
    decreases |s|
  {
    exists n :: 1 <= n <= 3 && n <= |s| && AllDigits(s[..n]) &&
      (if groups <= 1 then n == |s| else n < |s| && s[n] == '.' && DottedQuad(s[n + 1..], groups - 1))
  }

  /** re.match(r'^\d{1,3}(\.\d{1,3}){3}$', phone), applied to the raw number. */
  predicate IsIpLike(phone: string) {
    DottedQuad(phone, 4) || (phone != [] && phone[|phone| - 1] == '\n' && DottedQuad(phone[..|phone| - 1], 4))
  }

  /** The sequential pattern: at least six digits, each the successor of the one before. */
  predicate IsAscendingRun(c: string) {
    |c| >= 6 && AllDigits(c) && forall i :: 0 <= i < |c| - 1 ==> c[i + 1] as int == c[i] as int + 1
  }

  /** Ten digits starting with 1 or 2: int() gives a value between 1000000000 and 9999999999. */
  predicate IsTimestampLike(c: string) {
    |c| == 10 && (c[0] == '1' || c[0] == '2')
  }

  /** cleaned.replace('+', ''). */
  function WithoutPlus(c: string): (r: string)
    ensures |r| <= |c|
  {
    if c == [] then [] else (if c[0] == '+' then [] else [c[0]]) + WithoutPlus(c[1..])
  }

  predicate KeepPhone(phone: string) {
    var c := CleanPhone(phone);
    !IsDateLike(c) && !IsIpLike(phone) && !IsAscendingRun(c) && !IsTimestampLike(c) &&
    8 <= |WithoutPlus(c)| <= 15
  }

  /** The shape of every cleaned number: an optional '+', then digits. */
  predicate PhoneShape(c: string) {
    AllDigits(c) || (c != [] && c[0] == '+' && AllDigits(c[1..]))
  }

  function PhonesKept(phones: set<string>): set<string> {
    set p | p in phones && KeepPhone(p) :: CleanPhone(p)
  }

  lemma PhonesKeptAdd(phones: set<string>, phone: string)
    ensures PhonesKept(phones + {phone}) == PhonesKept(phones) + (if KeepPhone(phone) then {CleanPhone(phone)} else {})
  {
  }

  /**
   * filter_phone_numbers: each number is cleaned, then dropped when it looks
   * like a date, an IP address, an ascending run or a Unix timestamp, or when
   * it has fewer than 8 or more than 15 digits.
   */
  method FilterPhoneNumbers(phones: set<string>) returns (filtered: set<string>)
    ensures filtered == PhonesKept(phones)
    ensures forall c :: c in filtered ==> PhoneShape(c) && 8 <= |WithoutPlus(c)| <= 15
  {
    filtered := {};
    var done: set<string> := {};
    while done != phones
      invariant done <= phones
      invariant filtered == PhonesKept(done)
      decreases |phones - done|
    {
      var phone :| phone in phones - done;
      var cleaned: string;
      if StartsWith(phone, "++") {
        cleaned := "+" + DigitsOf(phone[2..]);
      } else if StartsWith(phone, "+") {
        cleaned := "+" + DigitsOf(phone[1..]);
      } else {
        cleaned := DigitsOf(phone);
      }
      var keep: bool;
      if IsDateLike(cleaned) || IsIpLike(phone) || IsAscendingRun(cleaned) || IsTimestampLike(cleaned) {
        keep := false;
      } else {
        keep := 8 <= |WithoutPlus(cleaned)| <= 15;
      }
      assert cleaned == CleanPhone(phone) && keep == KeepPhone(phone);
      PhonesKeptAdd(done, phone);
      if keep {
        filtered := filtered + {cleaned};
      }
      done := done + {phone};
    }
    forall c | c in filtered ensures PhoneShape(c) {
      var p :| p in phones && KeepPhone(p) && c == CleanPhone(p);
    }
  }

  /** Without a '+', the digit count is the length: all-digit numbers of 6 or 8 digits never pass. */
  lemma ShortDigitRunsDropped(phone: string)
    requires AllDigits(phone) && (|phone| == 6 || |phone| == 8)
    ensures !KeepPhone(phone)
  {
    DigitsOfDigits(phone);
  }

  lemma {:induction false} DigitsOfDigits(s: string)
    requires AllDigits(s)
    ensures DigitsOf(s) == s
  {
    if s != [] {
      DigitsOfDigits(s[1..]);
    }
  }

  /** A run such as 0123456 is dropped, and so is every 10-digit number starting with 1 or 2. */
  lemma RunsAndTimestampsDropped(phone: string)
    requires AllDigits(phone) && (IsAscendingRun(phone) || IsTimestampLike(phone))
    ensures !KeepPhone(phone)
  {
    DigitsOfDigits(phone);
  }
}
