/**
 * String helpers with the meaning of the Python built-ins the scraper uses:
 * str.strip, str.lower (ASCII part), str.startswith/endswith, `in`,
 * str.split(sep, 1) and str.splitlines.
 */
module Text {

  import opened Wrappers

  /** Python's str.isspace: the ASCII and Unicode whitespace characters. */
  predicate IsSpace(c: char) {
    c == ' ' || c == '\t' || c == '\n' || c == '\r' || c == '\U{000B}' || c == '\U{000C}'
    || ('\U{001C}' <= c <= '\U{001F}') || c == '\U{0085}' || c == '\U{00A0}' || c == '\U{1680}'
    || ('\U{2000}' <= c <= '\U{200A}') || c == '\U{2028}' || c == '\U{2029}' || c == '\U{202F}'
    || c == '\U{205F}' || c == '\U{3000}'
  }

  predicate IsDigit(c: char) { '0' <= c <= '9' }
  predicate IsLowerLetter(c: char) { 'a' <= c <= 'z' }
  predicate IsUpperLetter(c: char) { 'A' <= c <= 'Z' }
  predicate IsAlnum(c: char) { IsDigit(c) || IsLowerLetter(c) || IsUpperLetter(c) }
  predicate IsHex(c: char) { IsDigit(c) || ('a' <= c <= 'f') || ('A' <= c <= 'F') }

  predicate AllDigits(s: string) { forall i :: 0 <= i < |s| ==> IsDigit(s[i]) }
  predicate AllHex(s: string) { forall i :: 0 <= i < |s| ==> IsHex(s[i]) }
  predicate NoSpace(s: string) { forall i :: 0 <= i < |s| ==> !IsSpace(s[i]) }

  function LowerChar(c: char): char {
    if IsUpperLetter(c) then (c as int + 32) as char else c
  }

  /** str.lower, on the ASCII letters. */
  function Lower(s: string): (r: string)
    ensures |r| == |s|
    ensures forall i :: 0 <= i < |s| ==> r[i] == LowerChar(s[i])
  {
    if s == [] then [] else [LowerChar(s[0])] + Lower(s[1..])
  }

  predicate IsLowercase(s: string) { forall i :: 0 <= i < |s| ==> !IsUpperLetter(s[i]) }

  function LStrip(s: string): (r: string)
    ensures |r| <= |s| && r == s[|s| - |r|..]
    ensures r == [] || !IsSpace(r[0])
  {
    if s != [] && IsSpace(s[0]) then LStrip(s[1..]) else s
  }

  function RStrip(s: string): (r: string)
    ensures |r| <= |s| && r == s[..|r|]
    ensures r == [] || !IsSpace(r[|r| - 1])
  {
    if s != [] && IsSpace(s[|s| - 1]) then RStrip(s[..|s| - 1]) else s
  }

  /** str.strip() with no argument. */
  function Strip(s: string): (r: string)
    ensures r == [] || (!IsSpace(r[0]) && !IsSpace(r[|r| - 1]))
  {
    RStrip(LStrip(s))
  }

  /** strip() only removes characters. */
  lemma StripSub(s: string)
    ensures forall c :: c in Strip(s) ==> c in s
  {
    var l := LStrip(s);
    assert forall c :: c in l ==> c in s by {
      forall c | c in l ensures c in s { assert c in s[|s| - |l|..]; }
    }
    var r := RStrip(l);
    assert forall c :: c in r ==> c in l by {
      forall c | c in r ensures c in l { assert c in l[..|r|]; }
    }
  }

  /** lower() leaves no upper-case ASCII letter. */
  lemma LowerIsLowercase(s: string)
    ensures IsLowercase(Lower(s))
  {
  }

  /** str.rstrip(c) for one character. */
  function RStripChar(s: string, c: char): (r: string)
    ensures |r| <= |s| && r == s[..|r|]
    ensures r == [] || r[|r| - 1] != c
  {
    if s != [] && s[|s| - 1] == c then RStripChar(s[..|s| - 1], c) else s
  }

  /** str.strip(c) for one character. */
  function StripChar(s: string, c: char): (r: string)
    ensures r == [] || (r[0] != c && r[|r| - 1] != c)
  {
    var l := LStripChar(s, c);
    var r := RStripChar(l, c);
    assert r == [] || r[0] == l[0];
    r
  }

  function LStripChar(s: string, c: char): (r: string)
    ensures |r| <= |s| && r == s[|s| - |r|..]
    ensures r == [] || r[0] != c
  {
    if s != [] && s[0] == c then LStripChar(s[1..], c) else s
  }

  predicate StartsWith(s: string, p: string) { |p| <= |s| && s[..|p|] == p }
  predicate EndsWith(s: string, p: string) { |p| <= |s| && s[|s| - |p|..] == p }

  /** `sep` occurs in `s` starting at index `j`. */
  predicate OccursAt(s: string, sep: string, j: int) {
    0 <= j && j + |sep| <= |s| && s[j..j + |sep|] == sep
  }

  /** Index of the first occurrence of `sep` at or after `k`. */
  function FindFrom(s: string, sep: string, k: nat): (r: Option<nat>)
    requires sep != []
    ensures r.Some? ==> k <= r.value && OccursAt(s, sep, r.value)
    decreases |s| - k
  {
    if k + |sep| > |s| then None
    else if OccursAt(s, sep, k) then Some(k)
    else FindFrom(s, sep, k + 1)
  }

  /** FindFrom finds the first occurrence: there is none between `k` and its result, and none at all when it fails. */
  lemma {:induction false} FindFromFirst(s: string, sep: string, k: nat)
    requires sep != []
    ensures var r := FindFrom(s, sep, k);
            (r.Some? ==> forall j :: k <= j < r.value ==> !OccursAt(s, sep, j)) &&
            (r.None? ==> forall j :: k <= j ==> !OccursAt(s, sep, j))
    decreases |s| - k
  {
    if k + |sep| <= |s| && !OccursAt(s, sep, k) {
      FindFromFirst(s, sep, k + 1);
    }
  }

  /** str.find: index of the first occurrence of `sep`. */
  function Find(s: string, sep: string): (r: Option<nat>)
    requires sep != []
    ensures r.Some? ==> OccursAt(s, sep, r.value)
  {
    FindFrom(s, sep, 0)
  }

  /** Find's result is the first occurrence, and it fails only when there is none. */
  lemma FindFirst(s: string, sep: string)
    requires sep != []
    ensures var r := Find(s, sep);
            (r.Some? ==> forall j :: 0 <= j < r.value ==> !OccursAt(s, sep, j)) &&
            (r.None? ==> forall j :: !OccursAt(s, sep, j))
  {
    FindFromFirst(s, sep, 0);
  }

  /** `sub in s`. */
  predicate Contains(s: string, sub: string) {
    sub == [] || Find(s, sub).Some?
  }

  /** An occurrence at a known position is found. */
  lemma ContainsAt(s: string, sub: string, i: nat)
    requires OccursAt(s, sub, i)
    ensures Contains(s, sub)
  {
    if sub != [] {
      FindFirst(s, sub);
    }
  }

  /** Appending text never removes an occurrence. */
  lemma ContainsAppend(s: string, t: string, sub: string)
    requires Contains(s, sub)
    ensures Contains(s + t, sub)
  {
    if sub != [] {
      var i := Find(s, sub).value;
      assert (s + t)[i..i + |sub|] == s[i..i + |sub|];
      assert OccursAt(s + t, sub, i);
      FindFirst(s + t, sub);
    }
  }

  /** `c in s` for one character. */
  lemma ContainsChar(s: string, c: char)
    ensures Contains(s, [c]) <==> c in s
  {
    FindFirst(s, [c]);
    if c in s {
      var i :| 0 <= i < |s| && s[i] == c;
      assert s[i..i + 1] == [c];
      assert OccursAt(s, [c], i);
    }
    if Contains(s, [c]) {
      var i := Find(s, [c]).value;
      assert s[i..i + 1] == [c];
      assert s[i] == c;
    }
  }

  /** Text before the first `sep`: `s.split(sep)[0]`, the whole string when absent. */
  function Before(s: string, sep: string): (r: string)
    requires sep != []
    ensures |r| <= |s| && r == s[..|r|]
  {
    match Find(s, sep)
    case None => s
    case Some(i) => s[..i]
  }

  /** Text after the first `sep`: `s.split(sep, 1)[1]`, None when `sep` does not occur. */
  function After(s: string, sep: string): (r: Option<string>)
    requires sep != []
    ensures r.Some? <==> Contains(s, sep)
    ensures r.Some? ==> s == Before(s, sep) + sep + r.value
  {
    match Find(s, sep)
    case None => None
    case Some(i) =>
      assert s == s[..i] + s[i..i + |sep|] + s[i + |sep|..];
      Some(s[i + |sep|..])
  }

  /** The first occurrence of a character is found where it is. */
  lemma FindCharFirst(a: string, c: char, b: string)
    requires c !in a
    ensures Find(a + [c] + b, [c]) == Some(|a|)
  {
    var s := a + [c] + b;
    FindFirst(s, [c]);
    assert s[|a|..|a| + 1] == [c];
    assert OccursAt(s, [c], |a|);
    forall j | 0 <= j < |a| ensures !OccursAt(s, [c], j) {
      assert s[j..j + 1] == [a[j]];
    }
  }

  lemma FindCharAbsent(s: string, c: char)
    requires c !in s
    ensures Find(s, [c]) == None
  {
    ContainsChar(s, c);
  }

  lemma BeforeFirst(a: string, c: char, b: string)
    requires c !in a
    ensures Before(a + [c] + b, [c]) == a
    ensures After(a + [c] + b, [c]) == Some(b)
  {
    FindCharFirst(a, c, b);
    assert (a + [c] + b)[..|a|] == a;
  }

  lemma BeforeAbsent(s: string, c: char)
    requires c !in s
    ensures Before(s, [c]) == s
    ensures After(s, [c]) == None
  {
    FindCharAbsent(s, c);
  }

  /** lower() changes nothing in text without upper-case letters. */
  lemma {:induction false} LowerOfLowercase(s: string)
    requires IsLowercase(s)
    ensures Lower(s) == s
  {
    if s != [] {
      LowerOfLowercase(s[1..]);
    }
  }

  /** lower() works character by character, so it distributes over concatenation. */
  lemma LowerConcat(a: string, b: string)
    ensures Lower(a + b) == Lower(a) + Lower(b)
  {
    var l, r := Lower(a + b), Lower(a) + Lower(b);
    forall i | 0 <= i < |a + b| ensures l[i] == r[i] {
      if i < |a| { assert (a + b)[i] == a[i]; } else { assert (a + b)[i] == b[i - |a|]; }
    }
  }

  /** Regrouping four pieces of text. */
  lemma Regroup(a: string, b: string, c: string, e: string)
    ensures a + b + c + e == a + (b + c + e)
  {
  }

  /** strip() changes nothing in text that neither starts nor ends with whitespace. */
  lemma StripOfTrimmed(s: string)
    requires s == [] || (!IsSpace(s[0]) && !IsSpace(s[|s| - 1]))
    ensures Strip(s) == s
  {
  }

  /** `s.split(c)` for one separator character: never empty, "" gives [""]. */
  function SplitChar(s: string, c: char): (parts: seq<string>)
    ensures |parts| >= 1
    ensures forall k :: 0 <= k < |parts| ==> c !in parts[k]
    ensures parts[0] == Before(s, [c])
    decreases |s|
  {
    match Find(s, [c])
    case None =>
      ContainsChar(s, c);
      [s]
    case Some(i) =>
      assert s[i..i + 1] == [c];
      assert c !in s[..i] by {
        FindFirst(s, [c]);
        forall j | 0 <= j < i ensures s[j] != c {
          assert !OccursAt(s, [c], j);
          assert s[j..j + 1] == [s[j]];
        }
      }
      [s[..i]] + SplitChar(s[i + 1..], c)
  }

  /** `sep.join(parts)`. */
  function JoinWith(parts: seq<string>, sep: string): string {
    if parts == [] then []
    else if |parts| == 1 then parts[0]
    else parts[0] + sep + JoinWith(parts[1..], sep)
  }

  /** Line boundaries recognised by Python's str.splitlines. */
  predicate IsLineBreak(c: char) {
    c == '\n' || c == '\r' || c == '\U{000B}' || c == '\U{000C}' || c == '\U{001C}'
    || c == '\U{001D}' || c == '\U{001E}' || c == '\U{0085}' || c == '\U{2028}' || c == '\U{2029}'
  }

  /** Index of the first line boundary in `s`, or |s|. */
  function LineEnd(s: string): (i: nat)
    ensures i <= |s|
    ensures forall j :: 0 <= j < i ==> !IsLineBreak(s[j])
    ensures i < |s| ==> IsLineBreak(s[i])
  {
    if s == [] || IsLineBreak(s[0]) then 0 else 1 + LineEnd(s[1..])
  }

  /** str.splitlines(): "\r\n" is one boundary and a final boundary adds no empty line. */
  function SplitLines(s: string): (lines: seq<string>)
    ensures forall k, j :: 0 <= k < |lines| && 0 <= j < |lines[k]| ==> !IsLineBreak(lines[k][j])
    ensures s == [] <==> lines == []
    decreases |s|
  {
    if s == [] then []
    else
      var i := LineEnd(s);
      var rest := if i == |s| then []
                  else if s[i] == '\r' && i + 1 < |s| && s[i + 1] == '\n' then s[i + 2..]
                  else s[i + 1..];
      [s[..i]] + SplitLines(rest)
  }
}
