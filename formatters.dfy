/**
 * The two display formatters of the video adapter: formatDuration turns an ISO 8601 duration
 * in the format with designators (ISO 8601:2004, section 4.4.3.2) into a clock string, and
 * formatNumber groups a view count into thousands (en-US grouping of Number.prototype.toLocaleString).
 */
module Formatters {
  import opened Values

  // ---------------------------------------------------------------------------------------------
  // formatDuration: the pattern /PT(\d+H)?(\d+M)?(\d+S)?/
  // ---------------------------------------------------------------------------------------------

  /** The digit strings the three optional groups capture; an absent group is "". */
  datatype DurationParts = DurationParts(hours: string, minutes: string, seconds: string)

  predicate ValidParts(p: DurationParts) {
    AllDigits(p.hours) && AllDigits(p.minutes) && AllDigits(p.seconds)
  }

  predicate HasPT(s: string, k: int)
    requires 0 <= k < |s| - 1
  {
    s[k] == 'P' && s[k + 1] == 'T'
  }

  /** The text after the leftmost "PT" (where the unanchored pattern matches), or None when there is none. */
  function AfterPT(s: string): (r: Option<string>)
    ensures r.None? <==> forall k :: 0 <= k < |s| - 1 ==> !HasPT(s, k)
    ensures r.Some? ==> |r.value| + 2 <= |s| && r.value == s[|s| - |r.value|..]
    ensures r.Some? ==> HasPT(s, |s| - |r.value| - 2)
    ensures r.Some? ==> forall k :: 0 <= k < |s| - |r.value| - 2 ==> !HasPT(s, k)
  {
    if |s| < 2 then None
    else if s[0] == 'P' && s[1] == 'T' then
      assert HasPT(s, 0);
      Some(s[2..])
    else
      var r := AfterPT(s[1..]);
      assert !HasPT(s, 0);
      assert forall k :: 1 <= k < |s| - 1 ==> (HasPT(s, k) <==> HasPT(s[1..], k - 1));
      if r.Some? then
        assert HasPT(s[1..], |s| - 1 - |r.value| - 2);
        assert HasPT(s, |s| - |r.value| - 2);
        r
      else
        r
  }

  /** Length of the longest run of decimal digits at the start of s (what a greedy \d+ consumes). */
  function DigitPrefix(s: string): (n: nat)
    ensures n <= |s| && AllDigits(s[..n])
    ensures n == |s| || !IsDigit(s[n])
  {
    if s != [] && IsDigit(s[0]) then
      var n := 1 + DigitPrefix(s[1..]);
      assert s[..n] == [s[0]] + s[1..][..n - 1];
      n
    else 0
  }

  /** One optional group (\d+X)? tried at the start of s: the captured digits and the text after it. */
  function Group(s: string, designator: char): (r: (string, string))
    ensures AllDigits(r.0)
    ensures r.0 == [] ==> r.1 == s
    ensures r.0 != [] ==> s == r.0 + [designator] + r.1
  {
    var n := DigitPrefix(s);
    if 0 < n < |s| && s[n] == designator then
      assert s == s[..n] + [designator] + s[n + 1..];
      (s[..n], s[n + 1..])
    else ("", s)
  }

  /** The match of /PT(\d+H)?(\d+M)?(\d+S)?/ on a duration string; None when String.prototype.match returns null. */
  function MatchDuration(d: string): (r: Option<DurationParts>)
    ensures r.None? <==> forall k :: 0 <= k < |d| - 1 ==> !HasPT(d, k)
    ensures r.Some? ==> ValidParts(r.value)
  {
    match AfterPT(d)
    case None => None
    case Some(t) =>
      var (h, t1) := Group(t, 'H');
      var (m, t2) := Group(t1, 'M');
      var (sec, _) := Group(t2, 'S');
      Some(DurationParts(h, m, sec))
  }

  /** String.prototype.padStart(2, "0"). */
  function PadStart2(s: string): (r: string)
    ensures |r| == if |s| < 2 then 2 else |s|
    ensures r[|r| - |s|..] == s
    ensures forall k :: 0 <= k < |r| - |s| ==> r[k] == '0'
  {
    if |s| == 0 then "00" else if |s| == 1 then "0" + s else s
  }

  /** The padded "mm:ss" part of the clock text. */
  function ClockTail(p: DurationParts): string {
    PadStart2(p.minutes) + ":" + PadStart2(p.seconds)
  }

  /** The clock text built from the captured parts: an unpadded "hours:" prefix only when hours were captured. */
  function Clock(p: DurationParts): string {
    (if p.hours != "" then p.hours + ":" else "") + PadStart2(p.minutes) + ":" + PadStart2(p.seconds)
  }

  /** formatDuration as a value: None stands for the TypeError thrown when the pattern does not match. */
  function DurationText(d: string): Option<string> {
    match MatchDuration(d)
    case None => None
    case Some(p) => Some(Clock(p))
  }

  /** formatDuration, building its result step by step as the source does. */
  method FormatDuration(duration: string) returns (r: Option<string>)
    ensures r.None? <==> forall k :: 0 <= k < |duration| - 1 ==> !HasPT(duration, k)
    ensures r == DurationText(duration)
  {
    var m := MatchDuration(duration);
    if m.None? {
      return None;
    }
    var hours, minutes, seconds := m.value.hours, m.value.minutes, m.value.seconds;
    var result := "";
    if hours != "" {
      result := result + (hours + ":");
    }
    ghost var prefix := result;
    result := result + (PadStart2(minutes) + ":");
    result := result + PadStart2(seconds);
    ClockSteps(m.value, prefix);
    return Some(result);
  }

  /** The three appends of formatDuration build the clock text. */
  lemma ClockSteps(p: DurationParts, prefix: string)
    requires prefix == "" + (if p.hours != "" then p.hours + ":" else "")
    ensures prefix + (PadStart2(p.minutes) + ":") + PadStart2(p.seconds) == Clock(p)
  {
    var pm, ps := PadStart2(p.minutes), PadStart2(p.seconds);
    ClockSplit(p);
    assert prefix == (if p.hours != "" then p.hours + ":" else "");
    assert prefix + (pm + ":") + ps == prefix + (pm + ":" + ps);
  }

  // ----- the partner of formatDuration: the ISO 8601 text it reads, and the fields of what it writes -----

  /** One designated component of an ISO 8601 duration: the digits and their designator, or nothing. */
  function Component(digits: string, designator: char): string {
    if digits == "" then "" else digits + [designator]
  }

  /** The ISO 8601 time-only duration "PT[nH][nM][nS]" whose components are the given parts. */
  function IsoDuration(p: DurationParts): string {
    "PT" + Component(p.hours, 'H') + Component(p.minutes, 'M') + Component(p.seconds, 'S')
  }

  /** The ':'-separated fields of a string (String.prototype.split(":")). */
  function Fields(s: string): (r: seq<string>)
    ensures |r| >= 1
  {
    if s == [] then [""]
    else
      var rest := Fields(s[1..]);
      if s[0] == ':' then [""] + rest else [[s[0]] + rest[0]] + rest[1..]
  }

  lemma {:induction false} FieldsNoColon(a: string)
    requires forall i :: 0 <= i < |a| ==> a[i] != ':'
    ensures Fields(a) == [a]
  {
    if a != [] {
      FieldsNoColon(a[1..]);
      assert [a[0]] + a[1..] == a;
    }
  }

  lemma {:induction false} FieldsSplit(a: string, b: string)
    requires forall i :: 0 <= i < |a| ==> a[i] != ':'
    ensures Fields(a + ":" + b) == [a] + Fields(b)
  {
    var s := a + ":" + b;
    if a == [] {
      assert s[1..] == b;
    } else {
      assert s[1..] == a[1..] + ":" + b;
      FieldsSplit(a[1..], b);
      assert [a[0]] + a[1..] == a;
    }
  }

  lemma {:induction false} DigitPrefixOf(d: string, rest: string)
    requires AllDigits(d)
    requires rest == [] || !IsDigit(rest[0])
    ensures DigitPrefix(d + rest) == |d|
  {
    if d != [] {
      assert (d + rest)[1..] == d[1..] + rest;
      DigitPrefixOf(d[1..], rest);
    } else {
      assert d + rest == rest;
    }
  }

  /** A component with the designator a group looks for is captured by that group. */
  lemma GroupTakes(digits: string, designator: char, tail: string)
    requires AllDigits(digits) && !IsDigit(designator)
    requires digits == "" ==> Group(tail, designator) == ("", tail)
    ensures Group(Component(digits, designator) + tail, designator) == (digits, tail)
  {
    if digits != "" {
      var s := Component(digits, designator) + tail;
      assert s == digits + ([designator] + tail);
      DigitPrefixOf(digits, [designator] + tail);
      assert s[..|digits|] == digits && s[|digits| + 1..] == tail;
    } else {
      assert Component(digits, designator) + tail == tail;
    }
  }

  /** A component with another designator is left for a later group. */
  lemma GroupSkips(digits: string, other: char, designator: char, tail: string)
    requires AllDigits(digits) && digits != "" && !IsDigit(other) && other != designator
    ensures Group(Component(digits, other) + tail, designator) == ("", Component(digits, other) + tail)
  {
    var s := Component(digits, other) + tail;
    assert s == digits + ([other] + tail);
    DigitPrefixOf(digits, [other] + tail);
  }

  /** Round trip: matching the ISO 8601 text of some parts captures exactly those parts. */
  lemma MatchIsoDuration(p: DurationParts)
    requires ValidParts(p)
    ensures MatchDuration(IsoDuration(p)) == Some(p)
  {
    var cs := Component(p.seconds, 'S');
    var cm := Component(p.minutes, 'M') + cs;
    var t := Component(p.hours, 'H') + cm;
    assert IsoDuration(p) == "PT" + t;
    assert AfterPT(IsoDuration(p)) == Some(t);
    assert Group("", 'S') == ("", "");
    assert Group("", 'M') == ("", "");
    assert Group("", 'H') == ("", "");
    assert cs == cs + "";
    GroupTakes(p.seconds, 'S', "");
    if p.seconds != "" {
      GroupSkips(p.seconds, 'S', 'M', "");
      GroupSkips(p.seconds, 'S', 'H', "");
    }
    GroupTakes(p.minutes, 'M', cs);
    if p.minutes != "" {
      GroupSkips(p.minutes, 'M', 'H', cs);
    } else {
      assert cm == cs;
    }
    GroupTakes(p.hours, 'H', cm);
  }

  /** The clock text as the hour prefix followed by the "mm:ss" tail. */
  lemma ClockSplit(p: DurationParts)
    ensures Clock(p) == (if p.hours != "" then p.hours + ":" else "") + ClockTail(p)
  {
    var prefix := if p.hours != "" then p.hours + ":" else "";
    var pm, ps := PadStart2(p.minutes), PadStart2(p.seconds);
    assert Clock(p) == prefix + pm + ":" + ps;
    AppendRegroup(prefix, pm, ":", ps);
  }

  /** Regrouping four appended strings so that the last three form one block. */
  lemma AppendRegroup(a: string, b: string, c: string, d: string)
    ensures a + b + c + d == a + (b + c + d)
  {
    assert a + b + c == a + (b + c);
    assert (a + (b + c)) + d == a + ((b + c) + d);
  }

  /** The fields of the clock text: the hours (only when captured), then the padded minutes and seconds. */
  lemma ClockFields(p: DurationParts)
    requires ValidParts(p)
    ensures Fields(Clock(p)) ==
      (if p.hours != "" then [p.hours] else []) + [PadStart2(p.minutes), PadStart2(p.seconds)]
  {
    var pm, ps := PadStart2(p.minutes), PadStart2(p.seconds);
    assert AllDigits(pm) && AllDigits(ps);
    var tail := ClockTail(p);
    FieldsNoColon(ps);
    FieldsSplit(pm, ps);
    assert Fields(tail) == [pm, ps];
    ClockSplit(p);
    if p.hours != "" {
      FieldsSplit(p.hours, tail);
      assert Fields(Clock(p)) == [p.hours] + [pm, ps];
    } else {
      assert "" + tail == tail;
      assert Fields(Clock(p)) == [] + [pm, ps];
    }
  }

  /** Padding never truncates and never changes the number a digit string denotes. */
  lemma PadStart2Value(s: string)
    requires AllDigits(s)
    ensures AllDigits(PadStart2(s)) && DigitsValue(PadStart2(s)) == DigitsValue(s)
    ensures |s| >= 2 ==> PadStart2(s) == s
  {
    if |s| == 0 {
      assert PadStart2(s) == "00";
      assert "00"[..1] == "0" && "0"[..0] == "";
      assert DigitsValue("0") == 0;
    } else if |s| == 1 {
      assert PadStart2(s) == "0" + s;
      LeadingZeroValue(s);
    } else {
      assert PadStart2(s) == s;
    }
  }

  /**
   * formatDuration reads an ISO 8601 duration and writes a clock whose fields denote the same numbers:
   * "H:MM:SS" when an hour component is present, "MM:SS" otherwise, with absent components read as 0
   * and minutes and seconds padded to at least two digits, never truncated.
   */
  lemma DurationTextOfIso(p: DurationParts)
    requires ValidParts(p)
    ensures DurationText(IsoDuration(p)) == Some(Clock(p))
    ensures Fields(Clock(p)) ==
      (if p.hours != "" then [p.hours] else []) + [PadStart2(p.minutes), PadStart2(p.seconds)]
    ensures AllDigits(PadStart2(p.minutes)) && DigitsValue(PadStart2(p.minutes)) == DigitsValue(p.minutes)
    ensures AllDigits(PadStart2(p.seconds)) && DigitsValue(PadStart2(p.seconds)) == DigitsValue(p.seconds)
    ensures |PadStart2(p.minutes)| >= 2 && |PadStart2(p.seconds)| >= 2
  {
    MatchIsoDuration(p);
    ClockFields(p);
    PadStart2Value(p.minutes);
    PadStart2Value(p.seconds);
  }

  /** Prefixing a colon-free segment and a ':' adds exactly one ':'. */
  lemma ColonPrefix(a: string, b: string)
    requires forall i :: 0 <= i < |a| ==> a[i] != ':'
    ensures CountChar(a + ":" + b, ':') == 1 + CountChar(b, ':')
  {
    CountCharAbsent(a, ':');
    assert CountChar(":", ':') == 1;
    CountCharAppend(a, ":", ':');
    CountCharAppend(a + ":", b, ':');
  }

  /** The clock has two ':' separators exactly when an hour component was captured. */
  lemma ClockColons(p: DurationParts)
    requires ValidParts(p)
    ensures CountChar(Clock(p), ':') == if p.hours != "" then 2 else 1
  {
    var pm, ps := PadStart2(p.minutes), PadStart2(p.seconds);
    assert AllDigits(pm) && AllDigits(ps);
    var tail := ClockTail(p);
    ColonPrefix(pm, ps);
    CountCharAbsent(ps, ':');
    assert CountChar(tail, ':') == 1;
    ClockSplit(p);
    if p.hours != "" {
      ColonPrefix(p.hours, tail);
    } else {
      assert "" + tail == tail;
    }
  }

  // ---------------------------------------------------------------------------------------------
  // formatNumber: parseInt(num).toLocaleString() under en-US grouping
  // ---------------------------------------------------------------------------------------------

  /** The Number parseInt produces: NaN, or a sign and a magnitude (so that -0 stays distinguishable). */
  datatype ParsedInt = NaN | Integer(negative: bool, magnitude: nat)

  predicate IsHexDigit(c: char) {
    IsDigit(c) || 'a' <= c <= 'f' || 'A' <= c <= 'F'
  }

  function HexDigitValue(c: char): nat
    requires IsHexDigit(c)
  {
    if IsDigit(c) then DigitValue(c)
    else if 'a' <= c <= 'f' then 10 + (c as int - 'a' as int)
    else 10 + (c as int - 'A' as int)
  }

  function HexPrefix(s: string): (n: nat)
    ensures n <= |s| && forall i :: 0 <= i < n ==> IsHexDigit(s[i])
  {
    if s != [] && IsHexDigit(s[0]) then 1 + HexPrefix(s[1..]) else 0
  }

  function HexValue(s: string): nat
    requires forall i :: 0 <= i < |s| ==> IsHexDigit(s[i])
  {
    if s == [] then 0 else HexValue(s[..|s| - 1]) * 16 + HexDigitValue(s[|s| - 1])
  }

  /**
   * parseInt with no radix: skip leading whitespace, read an optional sign, then read the rest
   * unsigned; a '-' negates the value.
   */
  function ParseInt(s: string): ParsedInt {
    var t := TrimStart(s);
    if t != [] && t[0] == '-' then Negated(ParseUnsigned(t[1..]))
    else if t != [] && t[0] == '+' then ParseUnsigned(t[1..])
    else ParseUnsigned(t)
  }

  /**
   * The unsigned part of parseInt: radix 16 after a "0x"/"0X" prefix, otherwise radix 10, taking the
   * longest prefix of digits; NaN when there is no digit.
   */
  function ParseUnsigned(u: string): (r: ParsedInt)
    ensures r.Integer? ==> !r.negative
  {
    if |u| >= 2 && u[0] == '0' && (u[1] == 'x' || u[1] == 'X') then
      var n := HexPrefix(u[2..]);
      if n == 0 then NaN else Integer(false, HexValue(u[2..][..n]))
    else
      var n := DigitPrefix(u);
      if n == 0 then NaN else Integer(false, DigitsValue(u[..n]))
  }

  function Negated(p: ParsedInt): ParsedInt {
    if p.NaN? then NaN else Integer(true, p.magnitude)
  }

  function DigitChar(d: nat): (c: char)
    requires d < 10
    ensures IsDigit(c) && DigitValue(c) == d
  {
    ('0' as int + d) as char
  }

  /** Canonical decimal digits of a natural number: no leading zero except for 0 itself. */
  predicate Canonical(d: string) {
    d != [] && AllDigits(d) && (d[0] == '0' ==> d == "0")
  }

  /** The shortest decimal numeral of n. */
  function DecimalString(n: nat): (r: string)
    ensures Canonical(r) && DigitsValue(r) == n
  {
    if n < 10 then [DigitChar(n)]
    else
      var r := DecimalString(n / 10) + [DigitChar(n % 10)];
      assert r[..|r| - 1] == DecimalString(n / 10);
      r
  }

  lemma {:induction false} CanonicalPositive(d: string)
    requires Canonical(d) && d != "0"
    ensures DigitsValue(d) >= 1
  {
    if |d| > 1 {
      var p := d[..|d| - 1];
      assert p[0] == d[0];
      CanonicalPositive(p);
    }
  }

  /** Every canonical numeral is the numeral of its own value. */
  lemma {:induction false} DecimalStringOfValue(d: string)
    requires Canonical(d)
    ensures DecimalString(DigitsValue(d)) == d
  {
    if |d| > 1 {
      var p := d[..|d| - 1];
      assert p[0] == d[0];
      CanonicalPositive(p);
      DecimalStringOfValue(p);
      assert d == p + [d[|d| - 1]];
    } else {
      assert d == [d[0]];
    }
  }

  /** The en-US digit grouping of toLocaleString: a ',' before every block of three digits from the right. */
  function GroupThousands(d: string): (r: string)
    ensures |d| > 0 ==> |r| > 0 && r[0] == d[0]
  {
    if |d| <= 3 then d else GroupThousands(d[..|d| - 3]) + "," + d[|d| - 3..]
  }

  function RemoveCommas(s: string): (r: string) {
    if s == [] then [] else RemoveCommas(s[..|s| - 1]) + (if s[|s| - 1] == ',' then "" else [s[|s| - 1]])
  }

  lemma {:induction false} RemoveCommasAppend(a: string, b: string)
    ensures RemoveCommas(a + b) == RemoveCommas(a) + RemoveCommas(b)
  {
    if b == [] {
      assert a + b == a;
    } else {
      assert (a + b)[..|a + b| - 1] == a + b[..|b| - 1];
      RemoveCommasAppend(a, b[..|b| - 1]);
    }
  }

  lemma {:induction false} RemoveCommasNone(s: string)
    requires forall i :: 0 <= i < |s| ==> s[i] != ','
    ensures RemoveCommas(s) == s
  {
    if s != [] {
      RemoveCommasNone(s[..|s| - 1]);
    }
  }

  /** Grouping only inserts separators: removing them gives back the digits. */
  lemma {:induction false} GroupThousandsInverse(d: string)
    requires AllDigits(d)
    ensures RemoveCommas(GroupThousands(d)) == d
  {
    if |d| <= 3 {
      RemoveCommasNone(d);
    } else {
      var hi, lo := d[..|d| - 3], d[|d| - 3..];
      var g := GroupThousands(hi);
      assert GroupThousands(d) == g + "," + lo;
      GroupThousandsInverse(hi);
      RemoveCommasNone(lo);
      assert RemoveCommas(",") == "";
      RemoveCommasAppend(g, ",");
      RemoveCommasAppend(g + ",", lo);
      assert hi + lo == d;
    }
  }

  /** There is one separator per complete block of three digits after the leading block. */
  lemma {:induction false} GroupThousandsSeparators(d: string)
    requires AllDigits(d) && |d| > 0
    ensures CountChar(GroupThousands(d), ',') == (|d| - 1) / 3
  {
    if |d| <= 3 {
      CountCharAbsent(d, ',');
    } else {
      var hi, lo := d[..|d| - 3], d[|d| - 3..];
      var g := GroupThousands(hi);
      assert GroupThousands(d) == g + "," + lo;
      GroupThousandsSeparators(hi);
      CountCharAbsent(lo, ',');
      assert CountChar(",", ',') == 1;
      CountCharAppend(g, ",", ',');
      CountCharAppend(g + ",", lo, ',');
    }
  }

  /** A ',' stands exactly at every fourth position of r counted from its right end. */
  predicate CommasEveryFourth(r: string)
  {
    forall i :: 0 <= i < |r| ==> (r[i] == ',' <==> (|r| - i) % 4 == 0)
  }

  /** Appending a separator and a block of three digits keeps the separators every fourth position. */
  lemma CommasEveryFourthStep(g: string, lo: string)
    requires CommasEveryFourth(g) && |lo| == 3 && AllDigits(lo)
    ensures CommasEveryFourth(g + "," + lo)
  {
    var r := g + "," + lo;
    forall i | 0 <= i < |r| ensures r[i] == ',' <==> (|r| - i) % 4 == 0 {
      if i < |g| {
        assert r[i] == g[i];
        assert |r| - i == (|g| - i) + 4;
      } else if i > |g| {
        assert r[i] == lo[i - |g| - 1];
        assert IsDigit(lo[i - |g| - 1]);
      }
    }
  }

  /**
   * Where the separators go: a ',' stands exactly at every fourth position counted from the right end, so
   * the digits form blocks of three with a leading block of one to three.
   */
  lemma {:induction false} GroupThousandsPositions(d: string)
    requires AllDigits(d) && |d| > 0
    ensures var r := GroupThousands(d);
      |r| == |d| + (|d| - 1) / 3 && CommasEveryFourth(r)
  {
    if |d| <= 3 {
      forall i | 0 <= i < |d| ensures d[i] == ',' <==> (|d| - i) % 4 == 0 {
        assert IsDigit(d[i]);
      }
    } else {
      var hi, lo := d[..|d| - 3], d[|d| - 3..];
      assert GroupThousands(d) == GroupThousands(hi) + "," + lo;
      GroupThousandsPositions(hi);
      CommasEveryFourthStep(GroupThousands(hi), lo);
    }
  }

  /** Number.prototype.toLocaleString() in en-US for the values parseInt yields. */
  function LocaleString(n: ParsedInt): string {
    match n
    case NaN => "NaN"
    case Integer(negative, magnitude) =>
      (if negative then "-" else "") + GroupThousands(DecimalString(magnitude))
  }

  /** formatNumber: "Unknown" exactly for falsy input (absent or ""); otherwise the grouped integer. */
  function FormatNumber(num: Option<string>): (r: string)
    ensures r == Unknown <==> !Truthy(num)
    ensures r != [] && (r[0] == 'N' || r[0] == '-' || IsDigit(r[0]) || r == Unknown)
  {
    if !Truthy(num) then Unknown
    else
      var r := LocaleString(ParseInt(num.value));
      assert r[0] != 'U';
      r
  }

  /** parseInt reads a canonical numeral as its own value. */
  lemma ParseCanonical(d: string)
    requires Canonical(d)
    ensures ParseInt(d) == Integer(false, DigitsValue(d))
  {
    ParseDecimal("", "", d, "");
    assert "" + "" + d + "" == d;
  }

  /** Leading whitespace is skipped up to the first character that is not whitespace. */
  lemma {:induction false} TrimStartSkips(w: string, x: string)
    requires forall k :: 0 <= k < |w| ==> IsJsWhitespace(w[k])
    requires x == [] || !IsJsWhitespace(x[0])
    ensures TrimStart(w + x) == x
  {
    if w == [] {
      assert w + x == x;
    } else {
      assert (w + x)[0] == w[0];
      assert (w + x)[1..] == w[1..] + x;
      TrimStartSkips(w[1..], x);
    }
  }

  lemma {:induction false} HexPrefixOf(h: string, rest: string)
    requires forall i :: 0 <= i < |h| ==> IsHexDigit(h[i])
    requires rest == [] || !IsHexDigit(rest[0])
    ensures HexPrefix(h + rest) == |h|
  {
    if h != [] {
      assert (h + rest)[0] == h[0];
      assert (h + rest)[1..] == h[1..] + rest;
      HexPrefixOf(h[1..], rest);
    } else {
      assert h + rest == rest;
    }
  }

  /** Whitespace, then an optional sign: what parseInt skips before the digits. */
  predicate Lead(w: string, sign: string)
  {
    && (forall k :: 0 <= k < |w| ==> IsJsWhitespace(w[k]))
    && (sign == "" || sign == "-" || sign == "+")
  }

  /** Leading whitespace and a sign only decide the sign: what follows is read unsigned. */
  lemma ParseLead(w: string, sign: string, u: string)
    requires Lead(w, sign)
    requires u != [] && !IsJsWhitespace(u[0]) && u[0] != '-' && u[0] != '+'
    ensures ParseInt(w + sign + u) == if sign == "-" then Negated(ParseUnsigned(u)) else ParseUnsigned(u)
  {
    var v := sign + u;
    assert TrimStart(w + sign + u) == v by {
      assert w + sign + u == w + v;
      assert v[0] == (if sign == "" then u[0] else sign[0]);
      TrimStartSkips(w, v);
    }
    if sign == "" {
      assert v == u;
    } else {
      assert v[0] == sign[0] && v[1..] == u;
    }
  }

  /** The unsigned reader takes the decimal digits at the start and stops at the first other character. */
  lemma UnsignedDigits(d: string, t: string)
    requires d != [] && AllDigits(d)
    requires t == [] || !IsDigit(t[0])
    requires d == "0" && t != [] ==> t[0] != 'x' && t[0] != 'X'
    ensures ParseUnsigned(d + t) == Integer(false, DigitsValue(d))
  {
    var u := d + t;
    assert u[0] == d[0];
    assert !(|u| >= 2 && u[0] == '0' && (u[1] == 'x' || u[1] == 'X')) by {
      if |u| >= 2 && u[0] == '0' {
        if |d| >= 2 { assert u[1] == d[1]; } else { assert u[1] == t[0]; }
      }
    }
    DigitPrefixOf(d, t);
    assert u[..|d|] == d;
  }

  /**
   * parseInt reads the decimal digits after the leading whitespace and the sign, stops at the first
   * character that is not a digit, and negates the value after a '-'.
   */
  lemma ParseDecimal(w: string, sign: string, d: string, t: string)
    requires Lead(w, sign)
    requires d != [] && AllDigits(d)
    requires t == [] || !IsDigit(t[0])
    requires d == "0" && t != [] ==> t[0] != 'x' && t[0] != 'X'
    ensures ParseInt(w + sign + d + t) == Integer(sign == "-", DigitsValue(d))
  {
    assert w + sign + d + t == w + sign + (d + t);
    assert (d + t)[0] == d[0];
    UnsignedDigits(d, t);
    ParseLead(w, sign, d + t);
  }

  /** After "0x" or "0X" the unsigned reader takes hexadecimal digits up to the first other character. */
  lemma UnsignedHex(x: char, h: string, t: string)
    requires x == 'x' || x == 'X'
    requires h != [] && forall i :: 0 <= i < |h| ==> IsHexDigit(h[i])
    requires t == [] || !IsHexDigit(t[0])
    ensures ParseUnsigned(['0', x] + h + t) == Integer(false, HexValue(h))
  {
    var u := ['0', x] + h + t;
    var v := h + t;
    assert u == ['0', x] + v;
    assert u[0] == '0' && u[1] == x;
    assert u[2..] == v;
    HexPrefixOf(h, t);
    assert v[..|h|] == h;
  }

  /**
   * After the leading whitespace, the sign and a "0x" or "0X" prefix parseInt reads hexadecimal digits
   * up to the first other character, and negates the value after a '-'.
   */
  lemma ParseHex(w: string, sign: string, x: char, h: string, t: string)
    requires Lead(w, sign) && (x == 'x' || x == 'X')
    requires h != [] && forall i :: 0 <= i < |h| ==> IsHexDigit(h[i])
    requires t == [] || !IsHexDigit(t[0])
    ensures ParseInt(w + sign + ['0', x] + h + t) == Integer(sign == "-", HexValue(h))
  {
    var u := ['0', x] + h + t;
    AppendRegroup(w + sign, ['0', x], h, t);
    UnsignedHex(x, h, t);
    ParseLead(w, sign, u);
  }

  /** Without a digit at the start the unsigned reader gives NaN. */
  lemma UnsignedNoDigits(t: string)
    requires t == [] || !IsDigit(t[0])
    ensures ParseUnsigned(t) == NaN
  {
    assert DigitPrefix(t) == 0;
  }

  /** With no digit after the whitespace and the sign, parseInt gives NaN. */
  lemma ParseNoDigits(w: string, sign: string, t: string)
    requires Lead(w, sign)
    requires t == [] || (!IsDigit(t[0]) && !IsJsWhitespace(t[0]) && t[0] != '-' && t[0] != '+')
    ensures ParseInt(w + sign + t) == NaN
  {
    UnsignedNoDigits(t);
    if t == [] {
      assert w + sign + t == w + sign;
      TrimStartSkips(w, sign);
      if sign != "" {
        assert sign[1..] == t;
      }
    } else {
      ParseLead(w, sign, t);
    }
  }

  /** A canonical count is read back exactly: formatting only inserts the thousands separators. */
  lemma FormatNumberCanonical(d: string)
    requires Canonical(d)
    ensures FormatNumber(Some(d)) == GroupThousands(d)
    ensures RemoveCommas(FormatNumber(Some(d))) == d
  {
    ParseCanonical(d);
    DecimalStringOfValue(d);
    assert LocaleString(Integer(false, DigitsValue(d))) == GroupThousands(d);
    GroupThousandsInverse(d);
  }
}
