/**
 * The string operations the dashboard relies on: `String.prototype.endsWith`,
 * `String.prototype.trim`, the suffix removal done by
 * `commonName.replace(/ Underground Station$/, '')`, and the decimal rendering
 * of integers inside template literals.
 */
module Text {

  /** `s.endsWith(suffix)`. */
  predicate EndsWith(s: string, suffix: string) {
    |suffix| <= |s| && s[|s| - |suffix|..] == suffix
  }

  /** A string ends with whatever its last part ends with. */
  lemma {:induction false} EndsWithAppend(s: string, t: string, suffix: string)
    requires EndsWith(t, suffix)
    ensures EndsWith(s + t, suffix)
  {
    var st := s + t;
    assert st[|st| - |suffix|..] == t[|t| - |suffix|..];
  }

  /**
   * The characters `String.prototype.trim` removes: ECMAScript's WhiteSpace
   * (tab, vertical tab, form feed, space, no-break space, byte order mark and
   * the Unicode space separators) and LineTerminator (LF, CR, U+2028, U+2029).
   */
  predicate IsJsWhitespace(c: char) {
    || c == '\t' || c == '\n' || c == '\U{000B}' || c == '\U{000C}' || c == '\r'
    || c == ' ' || c == '\U{00A0}' || c == '\U{1680}'
    || ('\U{2000}' <= c <= '\U{200A}')
    || c == '\U{2028}' || c == '\U{2029}' || c == '\U{202F}' || c == '\U{205F}'
    || c == '\U{3000}' || c == '\U{FEFF}'
  }

  /** Drops leading whitespace: the result is the suffix of `s` that starts at its first non-whitespace character. */
  function TrimStart(s: string): (r: string)
    ensures |r| <= |s| && r == s[|s| - |r|..]
    ensures r != [] ==> !IsJsWhitespace(r[0])
    ensures forall i :: 0 <= i < |s| - |r| ==> IsJsWhitespace(s[i])
  {
    if s != [] && IsJsWhitespace(s[0]) then TrimStart(s[1..]) else s
  }

  /** Drops trailing whitespace: the result is the prefix of `s` that ends at its last non-whitespace character. */
  function TrimEnd(s: string): (r: string)
    ensures |r| <= |s| && r == s[..|r|]
    ensures r != [] ==> !IsJsWhitespace(r[|r| - 1])
    ensures forall i :: |r| <= i < |s| ==> IsJsWhitespace(s[i])
  {
    if s != [] && IsJsWhitespace(s[|s| - 1]) then TrimEnd(s[..|s| - 1]) else s
  }

  /** `s.trim()`. */
  function Trim(s: string): string {
    TrimEnd(TrimStart(s))
  }

  /**
   * `trim` keeps one contiguous slice `s[i..j]` that neither starts nor ends
   * with whitespace, and everything it removes is whitespace.
   */
  lemma {:induction false} TrimIsSlice(s: string) returns (i: nat, j: nat)
    ensures i <= j <= |s| && Trim(s) == s[i..j]
    ensures Trim(s) != [] ==> !IsJsWhitespace(Trim(s)[0]) && !IsJsWhitespace(Trim(s)[|Trim(s)| - 1])
    ensures forall k :: 0 <= k < i ==> IsJsWhitespace(s[k])
    ensures forall k :: j <= k < |s| ==> IsJsWhitespace(s[k])
  {
    var t := TrimStart(s);
    var u := TrimEnd(t);
    i := |s| - |t|;
    j := i + |u|;
    assert t == s[i..];
    assert u == t[..|u|];
    assert u == s[i..j];
    forall k | j <= k < |s| ensures IsJsWhitespace(s[k]) {
      assert s[k] == t[k - i];
    }
    if u != [] {
      assert u[0] == t[0];
    }
  }

  /** Trimming twice is trimming once. */
  lemma {:induction false} TrimIdempotent(s: string)
    ensures Trim(Trim(s)) == Trim(s)
  {
    var t := Trim(s);
    if t != [] {
      assert TrimStart(t) == t;
      assert TrimEnd(t) == t;
    }
  }

  /** The literal that `/ Underground Station$/` matches. */
  const UndergroundSuffix: string := " Underground Station"

  /** `name.replace(/ Underground Station$/, '')`: the pattern is anchored at the end, so at most one copy goes. */
  function StripUndergroundSuffix(name: string): string {
    if EndsWith(name, UndergroundSuffix) then name[..|name| - |UndergroundSuffix|] else name
  }

  /** The station display name: the suffix is removed once, then the rest is trimmed. */
  function CleanStationName(commonName: string): string {
    Trim(StripUndergroundSuffix(commonName))
  }

  /**
   * The cleaned name is the trimmed common name with at most one trailing
   * `" Underground Station"` removed, and it never starts or ends with whitespace.
   */
  lemma {:induction false} CleanStationNameSpec(commonName: string)
    ensures EndsWith(commonName, UndergroundSuffix) ==>
      CleanStationName(commonName) == Trim(commonName[..|commonName| - |UndergroundSuffix|])
    ensures !EndsWith(commonName, UndergroundSuffix) ==> CleanStationName(commonName) == Trim(commonName)
    ensures CleanStationName(commonName) != [] ==>
      !IsJsWhitespace(CleanStationName(commonName)[0]) &&
      !IsJsWhitespace(CleanStationName(commonName)[|CleanStationName(commonName)| - 1])
  {
    var _, _ := TrimIsSlice(StripUndergroundSuffix(commonName));
  }

  /** A common name ending in the suffix loses it: `"Oxford Circus Underground Station"` becomes `"Oxford Circus"`. */
  lemma {:induction false} CleanStationNameOxfordCircus()
    ensures CleanStationName("Oxford Circus Underground Station") == "Oxford Circus"
  {
    var oxford := "Oxford Circus Underground Station";
    assert oxford == "Oxford Circus" + UndergroundSuffix;
    assert EndsWith(oxford, UndergroundSuffix);
    assert StripUndergroundSuffix(oxford) == "Oxford Circus";
    NoEdgeWhitespaceIsTrimmed("Oxford Circus");
  }

  /** A common name without the suffix is kept: `"Bank"` stays `"Bank"`. */
  lemma {:induction false} CleanStationNameBank()
    ensures CleanStationName("Bank") == "Bank"
  {
    assert !EndsWith("Bank", UndergroundSuffix);
    NoEdgeWhitespaceIsTrimmed("Bank");
  }

  /** A string that neither starts nor ends with whitespace is its own trim. */
  lemma {:induction false} NoEdgeWhitespaceIsTrimmed(s: string)
    requires s != [] && !IsJsWhitespace(s[0]) && !IsJsWhitespace(s[|s| - 1])
    ensures Trim(s) == s
  {
    assert TrimStart(s) == s;
  }

  /** Only one copy of the suffix is removed, because the pattern has no repetition. */
  lemma {:induction false} StripRemovesOneSuffix(stem: string)
    ensures StripUndergroundSuffix(stem + UndergroundSuffix + UndergroundSuffix) == stem + UndergroundSuffix
  {
    var s := stem + UndergroundSuffix + UndergroundSuffix;
    assert s[|s| - |UndergroundSuffix|..] == UndergroundSuffix;
    assert s[..|s| - |UndergroundSuffix|] == stem + UndergroundSuffix;
  }

  predicate IsDigit(c: char) {
    '0' <= c <= '9'
  }

  function DigitChar(d: nat): (c: char)
    requires d < 10
    ensures IsDigit(c)
  {
    "0123456789"[d]
  }

  function DigitValue(c: char): (d: nat)
    requires IsDigit(c)
    ensures d < 10
  {
    (c as int - '0' as int) as nat
  }

  lemma {:induction false} DigitRoundTrip(d: nat)
    requires d < 10
    ensures DigitValue(DigitChar(d)) == d
  {
  }

  /** The decimal text JavaScript produces for a non-negative integer (`${n}`). */
  function NatToString(n: nat): (r: string)
    ensures |r| > 0
    ensures forall k :: 0 <= k < |r| ==> IsDigit(r[k])
  {
    if n < 10 then [DigitChar(n)] else NatToString(n / 10) + [DigitChar(n % 10)]
  }

  /** Reads decimal digits back as a number; the reference against which `NatToString` is checked. */
  function ParseNat(s: string): nat
    requires forall k :: 0 <= k < |s| ==> IsDigit(s[k])
  {
    if s == [] then 0 else 10 * ParseNat(s[..|s| - 1]) + DigitValue(s[|s| - 1])
  }

  /** Rendering then reading back gives the number, and there is no superfluous leading zero. */
  lemma {:induction false} NatToStringRoundTrip(n: nat)
    ensures ParseNat(NatToString(n)) == n
    ensures NatToString(n)[0] == '0' ==> n == 0
  {
    var r := NatToString(n);
    if n < 10 {
      assert r[..0] == [];
      DigitRoundTrip(n);
    } else {
      NatToStringRoundTrip(n / 10);
      assert r[..|r| - 1] == NatToString(n / 10);
      DigitRoundTrip(n % 10);
    }
  }

  /** Distinct numbers render differently. */
  lemma {:induction false} NatToStringInjective(m: nat, n: nat)
    requires NatToString(m) == NatToString(n)
    ensures m == n
  {
    NatToStringRoundTrip(m);
    NatToStringRoundTrip(n);
  }

  /** The decimal text JavaScript produces for any integer, with a leading minus sign when negative. */
  function IntToString(i: int): string {
    if i < 0 then "-" + NatToString(-i) else NatToString(i)
  }
}
