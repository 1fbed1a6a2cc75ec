/**
 * validate_domain (src/scraper/utils/validators.py): trims and lowercases the
 * input, cuts a URL down to its host, drops one leading "www." and checks the
 * result against `^((?!-)[a-z0-9-]{1,63}(?<!-)\.)+[a-z]{2,63}$`.
 *
 * The pattern's `$` also matches just before a final newline, so the code as
 * written accepts a host that ends in "\n".  ValidateDomainAsWritten keeps
 * that behaviour; ValidateDomain is the corrected validator, anchored at the
 * very end of the text, and the two differ only on such hosts.
 */
module Validators {

  import opened Wrappers
  import opened Text

  predicate IsLabelChar(c: char) { IsLowerLetter(c) || IsDigit(c) || c == '-' }

  /** `(?!-)[a-z0-9-]{1,63}(?<!-)`. */
  predicate IsLabel(l: string) {
    1 <= |l| <= 63 && l[0] != '-' && l[|l| - 1] != '-' && forall i :: 0 <= i < |l| ==> IsLabelChar(l[i])
  }

  /** `[a-z]{2,63}`. */
  predicate IsTld(t: string) {
    2 <= |t| <= 63 && forall i :: 0 <= i < |t| ==> IsLowerLetter(t[i])
  }

  /**
   * The whole text is one or more labels each followed by '.', then a TLD.
   * Neither labels nor the TLD contain '.', so the dots split the text into
   * exactly those pieces.
   */
  predicate IsDomainName(s: string) {
    var parts := SplitChar(s, '.');
    |parts| >= 2 && IsTld(parts[|parts| - 1]) && forall k :: 0 <= k < |parts| - 1 ==> IsLabel(parts[k])
  }

  /** re.match with the pattern as written: `$` matches at the end or before a final newline. */
  predicate DomainCheckAsWritten(s: string) {
    IsDomainName(s) || (s != [] && s[|s| - 1] == '\n' && IsDomainName(s[..|s| - 1]))
  }

  /** Removes a leading scheme, cuts at the first '/', '?' and ':', then drops one leading "www.". */
  function CleanHost(d: string): string {
    DropWww(CutHost(DropScheme(d)))
  }

  /** `domain.split("://", 1)[1]` when the text starts with "http://" or "https://". */
  function DropScheme(d: string): string {
    if StartsWith(d, "http://") || StartsWith(d, "https://") then
      match After(d, "://") case Some(rest) => rest case None => d
    else d
  }

  /** The text before the first '/', then before the first '?', then before the first ':'. */
  function CutHost(s: string): string {
    Before(Before(Before(s, "/"), "?"), ":")
  }

  function DropWww(h: string): string {
    if StartsWith(h, "www.") then h[4..] else h
  }

  /** validate_domain as written: None stands for (False, None), Some(d) for (True, d). */
  function ValidateDomainAsWritten(input: string): Option<string> {
    var d := Lower(Strip(input));
    if d == [] then None
    else
      var host := CleanHost(d);
      if DomainCheckAsWritten(host) then Some(host) else None
  }

  /** validate_domain with the pattern anchored at the very end of the text. */
  function ValidateDomain(input: string): (r: Option<string>)
    ensures Strip(input) == [] ==> r.None?
    ensures r.Some? <==> Lower(Strip(input)) != [] && IsDomainName(CleanHost(Lower(Strip(input))))
    ensures r.Some? ==> r.value == CleanHost(Lower(Strip(input)))
    ensures r.Some? ==> IsDomainName(r.value)
    ensures r.Some? ==> IsLowercase(r.value) && '.' in r.value
    ensures r.Some? ==> '/' !in r.value && '?' !in r.value && ':' !in r.value && NoSpace(r.value)
  {
    var d := Lower(Strip(input));
    if d == [] then None else CheckHost(CleanHost(d))
  }

  /** The corrected validator accepts what the code as written accepts, except a host ending in a newline. */
  lemma CorrectedDiffersOnNewline(input: string)
    ensures ValidateDomain(input).Some? ==> ValidateDomainAsWritten(input) == ValidateDomain(input)
    ensures ValidateDomainAsWritten(input) != ValidateDomain(input) ==>
              ValidateDomain(input).None? && ValidateDomainAsWritten(input).Some? &&
              var h := ValidateDomainAsWritten(input).value; h != [] && h[|h| - 1] == '\n'
  {
    var d := Lower(Strip(input));
    if d != [] {
      var host := CleanHost(d);
      assert ValidateDomain(input) == CheckHost(host);
      assert ValidateDomainAsWritten(input) == if DomainCheckAsWritten(host) then Some(host) else None;
    }
  }

  /** The final pattern test on the cleaned host. */
  function CheckHost(host: string): (r: Option<string>)
    ensures r.Some? <==> IsDomainName(host)
    ensures r.Some? ==> r.value == host && IsLowercase(host) && '.' in host
    ensures r.Some? ==> '/' !in host && '?' !in host && ':' !in host && NoSpace(host)
  {
    if IsDomainName(host) then
      DomainChars(host);
      Some(host)
    else None
  }

  /** Every character of a domain name is a label character or a dot, and there is a dot. */
  lemma DomainChars(s: string)
    requires IsDomainName(s)
    ensures forall i :: 0 <= i < |s| ==> IsLabelChar(s[i]) || s[i] == '.'
    ensures '.' in s
  {
    var parts := SplitChar(s, '.');
    forall i | 0 <= i < |s| ensures IsLabelChar(s[i]) || s[i] == '.' {
      if s[i] != '.' {
        var k := PartOf(s, '.', i);
        var j :| 0 <= j < |parts[k]| && parts[k][j] == s[i];
        if k < |parts| - 1 { assert IsLabel(parts[k]); } else { assert IsTld(parts[k]); }
      }
    }
    match Find(s, ".")
    case Some(i) =>
      assert OccursAt(s, ".", i);
      assert s[i..i + 1] == ".";
      assert s[i] == '.';
    case None =>
  }

  /** Every character other than the separator lies in one of the pieces of a split. */
  lemma {:induction false} PartOf(s: string, c: char, i: nat) returns (k: nat)
    requires i < |s| && s[i] != c
    ensures k < |SplitChar(s, c)| && s[i] in SplitChar(s, c)[k]
    decreases |s|
  {
    match Find(s, [c])
    case None =>
      k := 0;
      assert SplitChar(s, c) == [s];
    case Some(j) =>
      assert s[j..j + 1] == [c];
      assert SplitChar(s, c) == [s[..j]] + SplitChar(s[j + 1..], c);
      if i < j {
        k := 0;
        assert s[..j][i] == s[i];
      } else {
        assert i != j;
        var k' := PartOf(s[j + 1..], c, i - j - 1);
        assert s[j + 1..][i - j - 1] == s[i];
        k := k' + 1;
      }
  }

  /** A valid result is a fixed point unless it still starts with "www.". */
  lemma RevalidateIsIdentity(input: string)
    requires ValidateDomain(input).Some?
    requires !StartsWith(ValidateDomain(input).value, "www.")
    ensures ValidateDomain(ValidateDomain(input).value) == ValidateDomain(input)
  {
    var d := ValidateDomain(input).value;
    assert IsDomainName(d);
    DomainChars(d);
    CleanOfPlain(d);
  }

  /** Text made of label characters and dots. */
  predicate HostChars(d: string) {
    forall i :: 0 <= i < |d| ==> IsLabelChar(d[i]) || d[i] == '.'
  }

  /** Trimming, lowercasing and cutting such text changes nothing. */
  lemma CleanOfPlain(d: string)
    requires HostChars(d) && d != []
    ensures Lower(Strip(d)) == d && CutHost(DropScheme(d)) == d
  {
    assert Strip(d) == d by {
      assert !IsSpace(d[0]) && !IsSpace(d[|d| - 1]);
      StripOfTrimmed(d);
    }
    assert Lower(d) == d by {
      HostCharsPlain(d);
      LowerOfLowercase(d);
    }
    assert CutHost(DropScheme(d)) == d by {
      HostCharsPlain(d);
      NoSchemeWithoutColon(d);
      CutHostOfPlain(d);
    }
  }

  lemma HostCharsPlain(d: string)
    requires HostChars(d)
    ensures ':' !in d && '/' !in d && '?' !in d && IsLowercase(d)
  {
  }

  lemma NoSchemeWithoutColon(d: string)
    requires ':' !in d
    ensures DropScheme(d) == d
  {
  }

  lemma CutHostOfPlain(s: string)
    requires '/' !in s && '?' !in s && ':' !in s
    ensures CutHost(s) == s
  {
    BeforeAbsent(s, '/');
    BeforeAbsent(s, '?');
    BeforeAbsent(s, ':');
  }

  /** A domain name behind one "www." validates to itself. */
  lemma WwwFormOfADomain(d: string)
    requires IsDomainName(d) && !StartsWith(d, "www.")
    ensures ValidateDomain("www." + d) == Some(d)
  {
    DomainChars(d);
    CleanWww(d);
  }

  lemma CleanWww(d: string)
    requires HostChars(d)
    ensures Lower(Strip("www." + d)) == "www." + d && CleanHost("www." + d) == d
  {
    var w := "www." + d;
    assert |w| == 4 + |d| && w[..4] == "www." && w[4..] == d;
    assert HostChars(w) by {
      forall i | 0 <= i < |w| ensures IsLabelChar(w[i]) || w[i] == '.' {
        if i >= 4 { assert w[i] == d[i - 4]; }
      }
    }
    assert DropWww(w) == d;
    CleanOfPlain(w);
  }

  /** A domain name given as an https URL with a path validates to itself. */
  lemma UrlFormOfADomain(d: string, path: string)
    requires IsDomainName(d) && !StartsWith(d, "www.")
    requires path == [] || !IsSpace(path[|path| - 1])
    ensures ValidateDomain("https://" + d + "/" + path) == Some(d)
  {
    DomainChars(d);
    CleanUrl(d, path);
  }

  lemma CleanUrl(d: string, path: string)
    requires HostChars(d) && !StartsWith(d, "www.")
    requires path == [] || !IsSpace(path[|path| - 1])
    ensures var u := "https://" + d + "/" + path;
            Lower(Strip(u)) != [] && CleanHost(Lower(Strip(u))) == d
  {
    var u := "https://" + d + "/" + path;
    var tail := d + "/" + Lower(path);
    UrlIsTrimmed(d, path);
    var head := "https://" + d + "/";
    assert u == head + path;
    PlainAround("https://", d, "/");
    LowerAppend(head, path);
    Regroup("https://", d, "/", Lower(path));
    SchemeDropped(tail);
    CutHostAtSlash(d, Lower(path));
  }

  lemma UrlIsTrimmed(d: string, path: string)
    requires path == [] || !IsSpace(path[|path| - 1])
    ensures Strip("https://" + d + "/" + path) == "https://" + d + "/" + path
  {
    var u := "https://" + d + "/" + path;
    assert u[0] == 'h';
    assert u[|u| - 1] == if path == [] then '/' else path[|path| - 1];
    StripOfTrimmed(u);
  }

  lemma CutHostAtSlash(d: string, rest: string)
    requires HostChars(d)
    ensures CutHost(d + "/" + rest) == d
  {
    assert '/' !in d && '?' !in d && ':' !in d;
    BeforeFirst(d, '/', rest);
    CutHostOfPlain(d);
  }

  /** Lower-case text before a path: lower() only changes the path. */
  lemma LowerAppend(head: string, path: string)
    requires IsLowercase(head)
    ensures Lower(head + path) == head + Lower(path)
  {
    LowerConcat(head, path);
    LowerOfLowercase(head);
  }

  /** Lower-case text around a host is lower-case. */
  lemma PlainAround(a: string, d: string, b: string)
    requires HostChars(d) && IsLowercase(a) && IsLowercase(b)
    ensures IsLowercase(a + d + b)
  {
    var t := a + d + b;
    HostCharsPlain(d);
    forall i | 0 <= i < |t| ensures !IsUpperLetter(t[i]) {
      if i < |a| { assert t[i] == a[i]; }
      else if i < |a| + |d| { assert t[i] == d[i - |a|]; }
      else { assert t[i] == b[i - |a| - |d|]; }
    }
  }

  lemma SchemeDropped(tail: string)
    ensures DropScheme("https://" + tail) == tail
  {
    var low := "https://" + tail;
    assert StartsWith(low, "https://");
    assert OccursAt(low, "://", 5);
    FindFirst(low, "://");
    forall j | 0 <= j < 5 ensures !OccursAt(low, "://", j) {
      assert low[j] != ':';
    }
  }

  /**
   * The finding: a domain name followed by a newline and a path passes the
   * check as written, with the newline kept in the returned host, while the
   * anchored check turns it down.
   */
  lemma NewlineSlipsThrough(d: string, path: string)
    requires IsDomainName(d) && !StartsWith(d, "www.")
    requires path == [] || !IsSpace(path[|path| - 1])
    ensures ValidateDomainAsWritten(d + "\n/" + path) == Some(d + "\n")
    ensures ValidateDomain(d + "\n/" + path) == None
  {
    DomainChars(d);
    CleanNewline(d, path);
    NewlineCheckedAsWritten(d);
    NewlineNotDomain(d);
  }

  lemma NewlineCheckedAsWritten(d: string)
    requires IsDomainName(d)
    ensures DomainCheckAsWritten(d + "\n")
  {
    var h := d + "\n";
    assert h[..|h| - 1] == d;
  }

  lemma NewlineNotDomain(d: string)
    ensures !IsDomainName(d + "\n")
  {
    var h := d + "\n";
    assert !IsLabelChar(h[|d|]) && h[|d|] != '.';
    if IsDomainName(h) {
      DomainChars(h);
    }
  }

  lemma CleanNewline(d: string, path: string)
    requires HostChars(d) && d != [] && !StartsWith(d, "www.")
    requires path == [] || !IsSpace(path[|path| - 1])
    ensures var u := d + "\n/" + path;
            Lower(Strip(u)) != [] && CleanHost(Lower(Strip(u))) == d + "\n"
  {
    NewlineUrlTrimmed(d, path);
    PlainAround([], d, "\n/");
    assert [] + d + "\n/" == d + "\n/";
    LowerAppend(d + "\n/", path);
    NewlineSplit(d, Lower(path));
    NewlineUrlCut(d, Lower(path));
  }

  lemma NewlineSplit(d: string, lp: string)
    ensures d + "\n/" + lp == (d + "\n") + ['/'] + lp
  {
  }

  lemma NewlineUrlTrimmed(d: string, path: string)
    requires HostChars(d) && d != []
    requires path == [] || !IsSpace(path[|path| - 1])
    ensures Strip(d + "\n/" + path) == d + "\n/" + path
  {
    var u := d + "\n/" + path;
    assert u[0] == d[0];
    assert u[|u| - 1] == if path == [] then '/' else path[|path| - 1];
    StripOfTrimmed(u);
  }

  lemma NewlineUrlCut(d: string, lp: string)
    requires HostChars(d) && !StartsWith(d, "www.")
    ensures CleanHost((d + "\n") + ['/'] + lp) == d + "\n"
  {
    var h := d + "\n";
    NewlineUrlNoScheme(d, lp);
    NewlineHostCut(h, lp);
    NotPrefixAfter(d, '\n', "www.");
  }

  /** Text that does not start with p still does not once a character outside p is appended. */
  lemma NotPrefixAfter(d: string, c: char, p: string)
    requires !StartsWith(d, p) && c !in p
    ensures !StartsWith(d + [c], p)
  {
    if |p| <= |d| {
      assert (d + [c])[..|p|] == d[..|p|];
    } else if |p| == |d| + 1 {
      assert p[|d|] in p;
    }
  }

  lemma NewlineUrlNoScheme(d: string, lp: string)
    requires HostChars(d)
    ensures DropScheme((d + "\n") + ['/'] + lp) == (d + "\n") + ['/'] + lp
  {
    var x := (d + "\n") + ['/'] + lp;
    assert x[|d|] == '\n';
    assert !StartsWith(x, "http://") by {
      if |x| >= 7 {
        if |d| < 4 {
          assert x[..7][|d|] != "http://"[|d|];
        } else {
          assert x[4] == if |d| == 4 then '\n' else d[4];
          assert x[..7][4] != "http://"[4];
        }
      }
    }
    assert !StartsWith(x, "https://") by {
      if |x| >= 8 {
        if |d| < 5 {
          assert x[..8][|d|] != "https://"[|d|];
        } else {
          assert x[5] == if |d| == 5 then '\n' else d[5];
          assert x[..8][5] != "https://"[5];
        }
      }
    }
  }

  lemma NewlineHostCut(h: string, lp: string)
    requires '/' !in h && '?' !in h && ':' !in h
    ensures CutHost(h + ['/'] + lp) == h
  {
    BeforeFirst(h, '/', lp);
    CutHostOfPlain(h);
  }
}
