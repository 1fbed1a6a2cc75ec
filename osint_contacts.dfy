/**
 * Contact extraction of scraper/extractors/osint_extractor.py
 * (_extract_and_save_contacts): addresses and numbers are gathered from
 * collected OSINT data, numbers are cleaned and bounded, addresses with
 * asset extensions are dropped, and the rest are stored as contact rows of
 * an entity unless an equal row already exists. The two regular
 * expressions are parameters: `emailsIn(s)` and `phonesIn(s)` are the sets
 * of their matches in `s`.
 */
module OsintContacts {
  import opened Wrappers
  import opened Text
  import opened Json
  import ContactFilters

  // ---------------------------------------------------------------------------
  // Gathering
  // ---------------------------------------------------------------------------

  /** The addresses and numbers gathered so far. */
  datatype Found = Found(emails: set<string>, phones: set<string>)

  /** Everything gathered from the parts together. */
  function Union(parts: seq<Found>): Found
    decreases |parts|
  {
    if parts == [] then Found({}, {})
    else
      var r := Union(parts[..|parts| - 1]);
      var last := parts[|parts| - 1];
      Found(r.emails + last.emails, r.phones + last.phones)
  }

  /** An address is gathered from the parts exactly when one part holds it, and so is a number. */
  lemma {:induction false} UnionMembers(parts: seq<Found>, e: string)
    ensures e in Union(parts).emails <==> exists i :: 0 <= i < |parts| && e in parts[i].emails
    ensures e in Union(parts).phones <==> exists i :: 0 <= i < |parts| && e in parts[i].phones
    decreases |parts|
  {
    if parts != [] {
      var init := parts[..|parts| - 1];
      UnionMembers(init, e);
      forall i | 0 <= i < |init| ensures init[i] == parts[i] { }
    }
  }

  const EmailWord: string := "email"

  /**
   * A string value under key `key` of a dictionary: its regex matches, and
   * the value itself, lowercased, when the key names an email and the value
   * holds an '@'.
   */
  function FromField(key: string, value: string, emailsIn: string -> set<string>, phonesIn: string -> set<string>): Found {
    var named: set<string> := if Contains(Lower(key), EmailWord) && '@' in value then {Lower(value)} else {};
    Found(named + emailsIn(value), phonesIn(value))
  }

  /**
   * find_contacts_recursive: dictionaries and lists are searched through,
   * strings are matched; anything else (numbers, tuples, datetimes) yields
   * nothing.
   */
  function FindContacts(item: Value, emailsIn: string -> set<string>, phonesIn: string -> set<string>): Found
    decreases item
  {
    match item
    case Dict(entries) =>
      Union(seq(|entries|, i requires 0 <= i < |entries| =>
        if entries[i].1.Str? then FromField(entries[i].0, entries[i].1.s, emailsIn, phonesIn)
        else FindContacts(entries[i].1, emailsIn, phonesIn)))
    case List(items) =>
      Union(seq(|items|, i requires 0 <= i < |items| => FindContacts(items[i], emailsIn, phonesIn)))
    case Str(s) => Found(emailsIn(s), phonesIn(s))
    case _ => Found({}, {})
  }

  /** Lowercasing keeps an '@'. */
  lemma LowerKeepsAt(s: string)
    requires '@' in s
    ensures '@' in Lower(s)
  {
    var i :| 0 <= i < |s| && s[i] == '@';
    assert Lower(s)[i] == '@';
  }

  /** When every regex match holds an '@', so does every gathered address. */
  lemma {:induction false} FoundEmailsHaveAt(item: Value, emailsIn: string -> set<string>, phonesIn: string -> set<string>)
    requires forall s, e :: e in emailsIn(s) ==> '@' in e
    ensures forall e :: e in FindContacts(item, emailsIn, phonesIn).emails ==> '@' in e
    decreases item
  {
    var r := FindContacts(item, emailsIn, phonesIn);
    forall e | e in r.emails ensures '@' in e {
      match item {
        case Dict(entries) =>
          var parts := seq(|entries|, i requires 0 <= i < |entries| =>
            if entries[i].1.Str? then FromField(entries[i].0, entries[i].1.s, emailsIn, phonesIn)
            else FindContacts(entries[i].1, emailsIn, phonesIn));
          UnionMembers(parts, e);
          var i :| 0 <= i < |parts| && e in parts[i].emails;
          if entries[i].1.Str? {
            var v := entries[i].1.s;
            if e !in emailsIn(v) {
              LowerKeepsAt(v);
            }
          } else {
            FoundEmailsHaveAt(entries[i].1, emailsIn, phonesIn);
          }
        case List(items) =>
          var parts := seq(|items|, i requires 0 <= i < |items| => FindContacts(items[i], emailsIn, phonesIn));
          UnionMembers(parts, e);
          var i :| 0 <= i < |parts| && e in parts[i].emails;
          FoundEmailsHaveAt(items[i], emailsIn, phonesIn);
        case Str(s) =>
        case _ =>
      }
    }
  }

  /** A string field whose key names an email contributes its lowercased value when that holds an '@', next to its regex matches. */
  lemma NamedFieldFound(entries: seq<(string, Value)>, i: nat, emailsIn: string -> set<string>, phonesIn: string -> set<string>)
    requires i < |entries| && entries[i].1.Str?
    ensures var v := entries[i].1.s;
            var r := FindContacts(Dict(entries), emailsIn, phonesIn);
            emailsIn(v) <= r.emails && phonesIn(v) <= r.phones &&
            (Contains(Lower(entries[i].0), EmailWord) && '@' in v ==> Lower(v) in r.emails)
  {
    var parts := seq(|entries|, j requires 0 <= j < |entries| =>
      if entries[j].1.Str? then FromField(entries[j].0, entries[j].1.s, emailsIn, phonesIn)
      else FindContacts(entries[j].1, emailsIn, phonesIn));
    assert parts[i] == FromField(entries[i].0, entries[i].1.s, emailsIn, phonesIn);
    forall e | e in parts[i].emails ensures e in Union(parts).emails {
      UnionMembers(parts, e);
    }
    forall e | e in parts[i].phones ensures e in Union(parts).phones {
      UnionMembers(parts, e);
    }
  }

  // ---------------------------------------------------------------------------
  // Cleaning
  // ---------------------------------------------------------------------------

  predicate PhoneChar(c: char) { IsDigit(c) || c == '+' }

  /** re.sub(r'[^\d+]', '', phone): the digits and '+' signs of a number, in order. */
  function DigitsAndPlus(s: string): (r: string)
    ensures |r| <= |s|
    ensures forall i :: 0 <= i < |r| ==> PhoneChar(r[i])
    decreases |s|
  {
    if s == [] then []
    else (if PhoneChar(s[0]) then [s[0]] else []) + DigitsAndPlus(s[1..])
  }

  /** Cleaning a cleaned number changes nothing. */
  lemma {:induction false} DigitsAndPlusIdempotent(s: string)
    ensures DigitsAndPlus(DigitsAndPlus(s)) == DigitsAndPlus(s)
    decreases |s|
  {
    if s != [] {
      DigitsAndPlusIdempotent(s[1..]);
      var t := DigitsAndPlus(s[1..]);
      if PhoneChar(s[0]) {
        assert ([s[0]] + t)[1..] == t;
        assert DigitsAndPlus([s[0]] + t) == [s[0]] + DigitsAndPlus(t);
      } else {
        assert DigitsAndPlus(s) == t;
      }
    }
  }

  /** The count the bound is checked on, the cleaned number without its '+' signs, is the number's digits. */
  lemma {:induction false} CountedDigits(s: string)
    ensures ContactFilters.WithoutPlus(DigitsAndPlus(s)) == ContactFilters.DigitsOf(s)
    decreases |s|
  {
    if s != [] {
      CountedDigits(s[1..]);
      var t := DigitsAndPlus(s[1..]);
      assert ContactFilters.DigitsOf(s) == (if IsDigit(s[0]) then [s[0]] else []) + ContactFilters.DigitsOf(s[1..]);
      if PhoneChar(s[0]) {
        assert ([s[0]] + t)[1..] == t;
        assert ContactFilters.WithoutPlus([s[0]] + t) == (if s[0] == '+' then [] else [s[0]]) + ContactFilters.WithoutPlus(t);
      } else {
        assert DigitsAndPlus(s) == t;
      }
    }
  }

  /** A cleaned number is kept when it has more than 7 and fewer than 16 characters besides '+'. */
  predicate KeepCleaned(c: string) {
    7 < |ContactFilters.WithoutPlus(c)| < 16
  }

  function CleanedPhones(phones: set<string>): set<string> {
    set p | p in phones && KeepCleaned(DigitsAndPlus(p)) :: DigitsAndPlus(p)
  }

  /** Taking one more number adds its cleaned form exactly when that form is kept. */
  lemma CleanedPhonesAdd(done: set<string>, phone: string)
    ensures CleanedPhones(done + {phone}) ==
      CleanedPhones(done) + (if KeepCleaned(DigitsAndPlus(phone)) then {DigitsAndPlus(phone)} else {})
  {
  }

  /** The cleaning loop over the gathered numbers. */
  method CleanPhones(phones: set<string>) returns (cleaned: set<string>)
    ensures cleaned == CleanedPhones(phones)
    ensures forall c :: c in cleaned ==> DigitsAndPlus(c) == c && 8 <= |ContactFilters.WithoutPlus(c)| <= 15
  {
    cleaned := {};
    var done: set<string> := {};
    while done != phones
      invariant done <= phones
      invariant cleaned == CleanedPhones(done)
      decreases |phones - done|
    {
      var phone :| phone in phones - done;
      var value := DigitsAndPlus(phone);
      CleanedPhonesAdd(done, phone);
      if 7 < |ContactFilters.WithoutPlus(value)| < 16 {
        cleaned := cleaned + {value};
      }
      done := done + {phone};
    }
    forall c | c in cleaned ensures DigitsAndPlus(c) == c {
      var p :| p in phones && KeepCleaned(DigitsAndPlus(p)) && c == DigitsAndPlus(p);
      DigitsAndPlusIdempotent(p);
    }
  }

  /** Address endings that mark an asset name rather than a mailbox. */
  const ExcludedExtensions: seq<string> := [".png", ".jpg", ".gif", ".jpeg", ".webp", ".svg", ".css", ".js"]

  /** `s` ends with one of `endings`. */
  predicate EndsWithAny(s: string, endings: seq<string>)
    decreases |endings|
  {
    endings != [] && (EndsWith(s, endings[0]) || EndsWithAny(s, endings[1..]))
  }

  predicate Excluded(email: string) {
    EndsWithAny(Lower(email), ExcludedExtensions)
  }

  /** Ending with one of the endings means ending with some listed one. */
  lemma {:induction false} EndsWithAnyListed(s: string, endings: seq<string>)
    ensures EndsWithAny(s, endings) <==> exists i :: 0 <= i < |endings| && EndsWith(s, endings[i])
    decreases |endings|
  {
    if endings != [] {
      EndsWithAnyListed(s, endings[1..]);
      if exists i :: 0 <= i < |endings| && EndsWith(s, endings[i]) {
        var i :| 0 <= i < |endings| && EndsWith(s, endings[i]);
        if i > 0 { assert endings[1..][i - 1] == endings[i]; }
      }
      if EndsWithAny(s, endings[1..]) {
        var i :| 0 <= i < |endings[1..]| && EndsWith(s, endings[1..][i]);
        assert endings[i + 1] == endings[1..][i];
      }
    }
  }

  /** Adding one address to the gathered ones keeps it, lowercased, unless it has an excluded ending. */
  lemma KeptEmailsAdd(emails: set<string>, email: string)
    ensures KeptEmails(emails + {email}) == KeptEmails(emails) + (if Excluded(email) then {} else {Lower(email)})
  {
  }

  /** The addresses saved: the gathered ones without an excluded ending, lowercased. */
  function KeptEmails(emails: set<string>): set<string> {
    set e | e in emails && !Excluded(e) :: Lower(e)
  }

  // ---------------------------------------------------------------------------
  // Saving
  // ---------------------------------------------------------------------------

  datatype ContactKind = EmailContact | PhoneContact

  /** A contact waiting to be saved: its kind, value and source. */
  datatype Pending = Pending(kind: ContactKind, value: string, source: string)

  /** The values of one kind among the pending contacts. */
  function ValuesOf(toSave: seq<Pending>, kind: ContactKind): set<string>
    decreases |toSave|
  {
    if toSave == [] then {}
    else
      var last := toSave[|toSave| - 1];
      ValuesOf(toSave[..|toSave| - 1], kind) + if last.kind == kind then {last.value} else {}
  }

  /** Every pending contact comes from `source`. */
  predicate FromSource(toSave: seq<Pending>, source: string) {
    forall k :: 0 <= k < |toSave| ==> toSave[k].source == source
  }

  lemma FromSourceSnoc(toSave: seq<Pending>, entry: Pending, source: string)
    requires FromSource(toSave, source) && entry.source == source
    ensures FromSource(toSave + [entry], source)
  {
    var s := toSave + [entry];
    forall k | 0 <= k < |s| ensures s[k].source == source {
      if k < |toSave| { assert s[k] == toSave[k]; }
    }
  }

  /** The first loop of contacts_to_save: an email entry per gathered address without an excluded ending, lowercased. */
  method EmailEntries(emails: set<string>, source: string) returns (toSave: seq<Pending>)
    ensures ValuesOf(toSave, EmailContact) == KeptEmails(emails)
    ensures ValuesOf(toSave, PhoneContact) == {}
    ensures FromSource(toSave, source)
  {
    toSave := [];
    var done: set<string> := {};
    while done != emails
      invariant done <= emails
      invariant ValuesOf(toSave, EmailContact) == KeptEmails(done)
      invariant ValuesOf(toSave, PhoneContact) == {}
      invariant FromSource(toSave, source)
      decreases |emails - done|
    {
      var email :| email in emails - done;
      KeptEmailsAdd(done, email);
      if !Excluded(email) {
        var entry := Pending(EmailContact, Lower(email), source);
        ValuesSnoc(toSave, entry);
        FromSourceSnoc(toSave, entry, source);
        toSave := toSave + [entry];
      }
      done := done + {email};
    }
  }

  /** Every pending contact is of kind `kind`. */
  predicate AllOfKind(toSave: seq<Pending>, kind: ContactKind) {
    forall k :: 0 <= k < |toSave| ==> toSave[k].kind == kind
  }

  /** The values of one kind in two lists put together are those of each. */
  lemma {:induction false} ValuesAppend(a: seq<Pending>, b: seq<Pending>, kind: ContactKind)
    ensures ValuesOf(a + b, kind) == ValuesOf(a, kind) + ValuesOf(b, kind)
    decreases |b|
  {
    if b == [] {
      assert a + b == a;
    } else {
      var init := b[..|b| - 1];
      ValuesAppend(a, init, kind);
      assert (a + b)[..|a + b| - 1] == a + init;
      assert (a + b)[|a + b| - 1] == b[|b| - 1];
    }
  }

  /** A list of one kind holds no value of another. */
  lemma {:induction false} NoneOfKind(toSave: seq<Pending>, kind: ContactKind, other: ContactKind)
    requires AllOfKind(toSave, kind) && other != kind
    ensures ValuesOf(toSave, other) == {}
    decreases |toSave|
  {
    if toSave != [] {
      NoneOfKind(toSave[..|toSave| - 1], kind, other);
    }
  }

  /** The state of the phone loop: `added` holds a phone entry from `source` for each number of `cleaned` no longer `remaining`. */
  predicate PhoneLoop(entries: seq<Pending>, toSave: seq<Pending>, added: seq<Pending>,
                      remaining: set<string>, cleaned: set<string>, source: string) {
    toSave == entries + added && AllOfKind(added, PhoneContact) && FromSource(added, source) &&
    ValuesOf(added, PhoneContact) + remaining == cleaned
  }

  /** Listing one remaining number keeps the phone loop's state. */
  lemma PhoneLoopStep(entries: seq<Pending>, toSave: seq<Pending>, added: seq<Pending>,
                      remaining: set<string>, cleaned: set<string>, source: string, phone: string)
    requires PhoneLoop(entries, toSave, added, remaining, cleaned, source) && phone in remaining
    ensures var entry := Pending(PhoneContact, phone, source);
            PhoneLoop(entries, toSave + [entry], added + [entry], remaining - {phone}, cleaned, source)
  {
    var entry := Pending(PhoneContact, phone, source);
    ValuesSnoc(added, entry);
    assert (added + [entry])[|added|] == entry;
    assert toSave + [entry] == entries + (added + [entry]);
  }

  /** When no number remains, the phone entries listed are the cleaned numbers, after the earlier entries. */
  lemma PhoneLoopDone(entries: seq<Pending>, toSave: seq<Pending>, added: seq<Pending>, cleaned: set<string>, source: string)
    requires FromSource(entries, source) && PhoneLoop(entries, toSave, added, {}, cleaned, source)
    ensures ValuesOf(toSave, EmailContact) == ValuesOf(entries, EmailContact)
    ensures ValuesOf(toSave, PhoneContact) == ValuesOf(entries, PhoneContact) + cleaned
    ensures FromSource(toSave, source)
  {
    ValuesAppend(entries, added, EmailContact);
    ValuesAppend(entries, added, PhoneContact);
    NoneOfKind(added, PhoneContact, EmailContact);
    forall k | 0 <= k < |toSave| ensures toSave[k].source == source {
      if k >= |entries| { assert toSave[k] == added[k - |entries|]; }
    }
  }

  /** The second loop of contacts_to_save: a phone entry per cleaned number, after the entries already listed. */
  method AddPhoneEntries(entries: seq<Pending>, cleaned: set<string>, source: string) returns (toSave: seq<Pending>)
    requires FromSource(entries, source)
    ensures ValuesOf(toSave, EmailContact) == ValuesOf(entries, EmailContact)
    ensures ValuesOf(toSave, PhoneContact) == ValuesOf(entries, PhoneContact) + cleaned
    ensures FromSource(toSave, source)
  {
    toSave := entries;
    ghost var added: seq<Pending> := [];
    var remaining := cleaned;
    assert entries + [] == entries;
    while remaining != {}
      invariant PhoneLoop(entries, toSave, added, remaining, cleaned, source)
      decreases |remaining|
    {
      var phone :| phone in remaining;
      var entry := Pending(PhoneContact, phone, source);
      PhoneLoopStep(entries, toSave, added, remaining, cleaned, source, phone);
      toSave := toSave + [entry];
      added := added + [entry];
      remaining := remaining - {phone};
    }
    PhoneLoopDone(entries, toSave, added, cleaned, source);
  }

  lemma ValuesSnoc(toSave: seq<Pending>, p: Pending)
    ensures ValuesOf(toSave + [p], EmailContact) == ValuesOf(toSave, EmailContact) + (if p.kind == EmailContact then {p.value} else {})
    ensures ValuesOf(toSave + [p], PhoneContact) == ValuesOf(toSave, PhoneContact) + (if p.kind == PhoneContact then {p.value} else {})
  {
    assert (toSave + [p])[..|toSave|] == toSave;
  }

  /** A row of the contacts table: the entity, an address or a number, and the source. */
  datatype Contact = Contact(entityId: int, email: Option<string>, phone: Option<string>, source: string)

  /** The addresses stored for an entity. */
  function EmailsOf(rows: seq<Contact>, entityId: int): set<string>
    decreases |rows|
  {
    if rows == [] then {}
    else
      var last := rows[|rows| - 1];
      EmailsOf(rows[..|rows| - 1], entityId) + if last.entityId == entityId && last.email.Some? then {last.email.value} else {}
  }

  /** The numbers stored for an entity. */
  function PhonesOf(rows: seq<Contact>, entityId: int): set<string>
    decreases |rows|
  {
    if rows == [] then {}
    else
      var last := rows[|rows| - 1];
      PhonesOf(rows[..|rows| - 1], entityId) + if last.entityId == entityId && last.phone.Some? then {last.phone.value} else {}
  }

  /** Every row's address and number are among its entity's. */
  lemma {:induction false} RowsListed(rows: seq<Contact>, i: nat)
    requires i < |rows|
    ensures rows[i].email.Some? ==> rows[i].email.value in EmailsOf(rows, rows[i].entityId)
    ensures rows[i].phone.Some? ==> rows[i].phone.value in PhonesOf(rows, rows[i].entityId)
    decreases |rows|
  {
    if i < |rows| - 1 {
      RowsListed(rows[..|rows| - 1], i);
    }
  }

  predicate SameEmail(a: Contact, b: Contact) {
    a.entityId == b.entityId && a.email.Some? && a.email == b.email
  }

  predicate SamePhone(a: Contact, b: Contact) {
    a.entityId == b.entityId && a.phone.Some? && a.phone == b.phone
  }

  /** No entity has the same address, or the same number, in two rows. */
  predicate NoDuplicates(rows: seq<Contact>) {
    forall i, j :: 0 <= i < j < |rows| ==> !SameEmail(rows[i], rows[j]) && !SamePhone(rows[i], rows[j])
  }

  /** Saving one pending contact: empty values are skipped, and a row is added only when the entity has no equal one. */
  function Insert(rows: seq<Contact>, entityId: int, p: Pending): seq<Contact> {
    if p.value == [] then rows
    else match p.kind
      case EmailContact =>
        if p.value in EmailsOf(rows, entityId) then rows
        else rows + [Contact(entityId, Some(p.value), None, p.source)]
      case PhoneContact =>
        if p.value in PhonesOf(rows, entityId) then rows
        else rows + [Contact(entityId, None, Some(p.value), p.source)]
  }

  /** The table after saving the pending contacts in order. */
  function Saved(rows: seq<Contact>, entityId: int, toSave: seq<Pending>): seq<Contact>
    decreases |toSave|
  {
    if toSave == [] then rows
    else Insert(Saved(rows, entityId, toSave[..|toSave| - 1]), entityId, toSave[|toSave| - 1])
  }

  /** Adding a row adds its address and number to its entity and to no other. */
  lemma RowsSnoc(rows: seq<Contact>, c: Contact, entityId: int)
    ensures EmailsOf(rows + [c], entityId) == EmailsOf(rows, entityId) + (if c.entityId == entityId && c.email.Some? then {c.email.value} else {})
    ensures PhonesOf(rows + [c], entityId) == PhonesOf(rows, entityId) + (if c.entityId == entityId && c.phone.Some? then {c.phone.value} else {})
  {
    assert (rows + [c])[..|rows|] == rows;
  }

  /** Inserting one pending contact adds its non-empty value to its entity's addresses or numbers, and nothing else. */
  lemma InsertContents(rows: seq<Contact>, entityId: int, p: Pending, other: int)
    ensures EmailsOf(Insert(rows, entityId, p), other) ==
            EmailsOf(rows, other) + (if other == entityId && p.kind == EmailContact && p.value != [] then {p.value} else {})
    ensures PhonesOf(Insert(rows, entityId, p), other) ==
            PhonesOf(rows, other) + (if other == entityId && p.kind == PhoneContact && p.value != [] then {p.value} else {})
  {
    if p.value != [] {
      match p.kind {
        case EmailContact =>
          if p.value !in EmailsOf(rows, entityId) {
            RowsSnoc(rows, Contact(entityId, Some(p.value), None, p.source), other);
          }
        case PhoneContact =>
          if p.value !in PhonesOf(rows, entityId) {
            RowsSnoc(rows, Contact(entityId, None, Some(p.value), p.source), other);
          }
      }
    }
  }

  /** Saving adds the non-empty pending addresses to the entity's addresses, and changes no other entity's. */
  lemma {:induction false} SavedEmails(rows: seq<Contact>, entityId: int, toSave: seq<Pending>, other: int)
    ensures EmailsOf(Saved(rows, entityId, toSave), other) ==
            EmailsOf(rows, other) + (if other == entityId then ValuesOf(toSave, EmailContact) - {[]} else {})
    decreases |toSave|
  {
    if toSave != [] {
      var init := toSave[..|toSave| - 1];
      var p := toSave[|toSave| - 1];
      assert toSave == init + [p];
      SavedEmails(rows, entityId, init, other);
      InsertContents(Saved(rows, entityId, init), entityId, p, other);
      ValuesSnoc(init, p);
    }
  }

  /** Saving adds the non-empty pending numbers to the entity's numbers, and changes no other entity's. */
  lemma {:induction false} SavedPhones(rows: seq<Contact>, entityId: int, toSave: seq<Pending>, other: int)
    ensures PhonesOf(Saved(rows, entityId, toSave), other) ==
            PhonesOf(rows, other) + (if other == entityId then ValuesOf(toSave, PhoneContact) - {[]} else {})
    decreases |toSave|
  {
    if toSave != [] {
      var init := toSave[..|toSave| - 1];
      var p := toSave[|toSave| - 1];
      assert toSave == init + [p];
      SavedPhones(rows, entityId, init, other);
      InsertContents(Saved(rows, entityId, init), entityId, p, other);
      ValuesSnoc(init, p);
    }
  }

  /** Saving only appends: the rows already stored stay as they were. */
  lemma {:induction false} SavedExtends(rows: seq<Contact>, entityId: int, toSave: seq<Pending>)
    ensures |rows| <= |Saved(rows, entityId, toSave)| && Saved(rows, entityId, toSave)[..|rows|] == rows
    decreases |toSave|
  {
    if toSave != [] {
      var before := Saved(rows, entityId, toSave[..|toSave| - 1]);
      SavedExtends(rows, entityId, toSave[..|toSave| - 1]);
      var after := Saved(rows, entityId, toSave);
      assert after == before || after[..|before|] == before;
      assert after[..|rows|] == after[..|before|][..|rows|];
    }
  }

  /** Adding a row never duplicates one when its address or number is new for its entity. */
  lemma InsertKeepsUnique(rows: seq<Contact>, entityId: int, p: Pending)
    requires NoDuplicates(rows)
    ensures NoDuplicates(Insert(rows, entityId, p))
  {
    var r := Insert(rows, entityId, p);
    if r != rows {
      var c := r[|rows|];
      assert r == rows + [c];
      forall i | 0 <= i < |rows| ensures !SameEmail(rows[i], c) && !SamePhone(rows[i], c) {
        RowsListed(rows, i);
      }
      forall i, j | 0 <= i < j < |r| ensures !SameEmail(r[i], r[j]) && !SamePhone(r[i], r[j]) {
        if j < |rows| { assert r[i] == rows[i] && r[j] == rows[j]; }
        else { assert r[i] == rows[i] && r[j] == c; }
      }
    }
  }

  /**
   * Row i is one the saving loop could have inserted: it belongs to the
   * entity, comes from `source`, holds either a non-empty address or a
   * non-empty number, and that value was not yet stored for the entity in
   * the rows before it.
   */
  predicate InsertedRow(rows: seq<Contact>, i: nat, entityId: int, source: string)
    requires i < |rows|
  {
    var c := rows[i];
    c.entityId == entityId && c.source == source && (c.email.Some? != c.phone.Some?) &&
    (c.email.Some? ==> c.email.value != [] && c.email.value !in EmailsOf(rows[..i], entityId)) &&
    (c.phone.Some? ==> c.phone.value != [] && c.phone.value !in PhonesOf(rows[..i], entityId))
  }

  /** Every row after the first `start` is an inserted row. */
  predicate InsertedAfter(rows: seq<Contact>, start: nat, entityId: int, source: string) {
    forall i :: start <= i < |rows| ==> InsertedRow(rows, i, entityId, source)
  }

  /** A row that was an inserted row stays one when rows are appended after it. */
  lemma InsertedRowExtends(rows: seq<Contact>, more: seq<Contact>, i: nat, entityId: int, source: string)
    requires i < |rows| <= |more| && more[..|rows|] == rows && InsertedRow(rows, i, entityId, source)
    ensures InsertedRow(more, i, entityId, source)
  {
    assert more[i] == rows[i];
    assert more[..i] == rows[..i];
  }

  /** Saving pending contacts from `source` appends only inserted rows of the entity. */
  lemma {:induction false} SavedRowsInserted(rows: seq<Contact>, entityId: int, toSave: seq<Pending>, source: string)
    requires FromSource(toSave, source)
    ensures |rows| <= |Saved(rows, entityId, toSave)|
    ensures InsertedAfter(Saved(rows, entityId, toSave), |rows|, entityId, source)
    decreases |toSave|
  {
    SavedExtends(rows, entityId, toSave);
    if toSave != [] {
      var init := toSave[..|toSave| - 1];
      var p := toSave[|toSave| - 1];
      assert FromSource(init, source) by {
        forall k | 0 <= k < |init| ensures init[k].source == source { assert init[k] == toSave[k]; }
      }
      SavedRowsInserted(rows, entityId, init, source);
      var before := Saved(rows, entityId, init);
      var after := Saved(rows, entityId, toSave);
      assert after == Insert(before, entityId, p);
      if after != before {
        assert after == before + [after[|before|]];
        assert after[..|before|] == before;
        forall i | |rows| <= i < |after| ensures InsertedRow(after, i, entityId, source) {
          if i < |before| {
            InsertedRowExtends(before, after, i, entityId, source);
          }
        }
      }
    }
  }

  /** Saving keeps the table free of duplicate addresses and numbers. */
  lemma {:induction false} SavedKeepsUnique(rows: seq<Contact>, entityId: int, toSave: seq<Pending>)
    requires NoDuplicates(rows)
    ensures NoDuplicates(Saved(rows, entityId, toSave))
    decreases |toSave|
  {
    if toSave != [] {
      SavedKeepsUnique(rows, entityId, toSave[..|toSave| - 1]);
      InsertKeepsUnique(Saved(rows, entityId, toSave[..|toSave| - 1]), entityId, toSave[|toSave| - 1]);
    }
  }

  /** What saving a list holding the addresses `emails` and the numbers `phones` does to the table. */
  lemma SaveOutcome(start: seq<Contact>, entityId: int, toSave: seq<Pending>, emails: set<string>, phones: set<string>)
    requires ValuesOf(toSave, EmailContact) == emails && ValuesOf(toSave, PhoneContact) == phones && [] !in phones
    ensures var rows := Saved(start, entityId, toSave);
            EmailsOf(rows, entityId) == EmailsOf(start, entityId) + (emails - {[]}) &&
            PhonesOf(rows, entityId) == PhonesOf(start, entityId) + phones
    ensures var rows := Saved(start, entityId, toSave);
            forall other :: other != entityId ==>
              EmailsOf(rows, other) == EmailsOf(start, other) && PhonesOf(rows, other) == PhonesOf(start, other)
    ensures var rows := Saved(start, entityId, toSave);
            |start| <= |rows| && rows[..|start|] == start
    ensures NoDuplicates(start) ==> NoDuplicates(Saved(start, entityId, toSave))
  {
    var rows := Saved(start, entityId, toSave);
    SavedExtends(start, entityId, toSave);
    forall other | true
      ensures EmailsOf(rows, other) == EmailsOf(start, other) + (if other == entityId then emails - {[]} else {})
      ensures PhonesOf(rows, other) == PhonesOf(start, other) + (if other == entityId then phones - {[]} else {})
    {
      SavedEmails(start, entityId, toSave, other);
      SavedPhones(start, entityId, toSave, other);
    }
    assert phones - {[]} == phones;
    if NoDuplicates(start) {
      SavedKeepsUnique(start, entityId, toSave);
    }
  }

  /** The contacts table of the OSINT database. */
  class ContactTable {
    var rows: seq<Contact>

    constructor()
      ensures rows == []
    {
      rows := [];
    }

    /** The saving loop: each pending contact is inserted after the check for an equal row. */
    method SaveContacts(entityId: int, toSave: seq<Pending>)
      modifies this
      ensures rows == Saved(old(rows), entityId, toSave)
    {
      ghost var start := rows;
      for i := 0 to |toSave|
        invariant rows == Saved(start, entityId, toSave[..i])
      {
        var p := toSave[i];
        assert toSave[..i + 1][..i] == toSave[..i];
        if p.value == [] {
          continue;
        }
        match p.kind {
          case EmailContact =>
            if p.value !in EmailsOf(rows, entityId) {
              rows := rows + [Contact(entityId, Some(p.value), None, p.source)];
            }
          case PhoneContact =>
            if p.value !in PhonesOf(rows, entityId) {
              rows := rows + [Contact(entityId, None, Some(p.value), p.source)];
            }
        }
      }
      assert toSave[..|toSave|] == toSave;
    }

    /**
     * _extract_and_save_contacts: gathers the contacts of `data`, cleans
     * and filters them, and saves them for `entityId`. The new rows hold
     * exactly the kept addresses and the cleaned numbers the entity did not
     * have; rows already stored, and other entities, are untouched.
     */
    method ExtractAndSaveContacts(entityId: int, data: seq<(string, Value)>, source: string,
                                  emailsIn: string -> set<string>, phonesIn: string -> set<string>)
      modifies this
      ensures var found := FindContacts(Dict(data), emailsIn, phonesIn);
              EmailsOf(rows, entityId) == EmailsOf(old(rows), entityId) + (KeptEmails(found.emails) - {[]}) &&
              PhonesOf(rows, entityId) == PhonesOf(old(rows), entityId) + CleanedPhones(found.phones)
      ensures forall other :: other != entityId ==>
                EmailsOf(rows, other) == EmailsOf(old(rows), other) && PhonesOf(rows, other) == PhonesOf(old(rows), other)
      ensures |old(rows)| <= |rows| && rows[..|old(rows)|] == old(rows)
      ensures InsertedAfter(rows, |old(rows)|, entityId, source)
      ensures NoDuplicates(old(rows)) ==> NoDuplicates(rows)
    {
      var found := FindContacts(Dict(data), emailsIn, phonesIn);
      if data == [] {
        return;
      }
      var cleaned := CleanPhones(found.phones);
      var toSave := EmailEntries(found.emails, source);
      toSave := AddPhoneEntries(toSave, cleaned, source);
      assert [] !in cleaned;
      SaveOutcome(rows, entityId, toSave, KeptEmails(found.emails), cleaned);
      SavedRowsInserted(rows, entityId, toSave, source);
      if toSave != [] {
        SaveContacts(entityId, toSave);
      }
    }
  }
}
