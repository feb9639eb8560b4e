/** The URL de-archiving transform (wikidata_bot_framework/transformers.py):
    a URL statement pointing at a web-archive snapshot is turned back into the
    original URL, with archive URL, archive date and "link rot" qualifiers. */
module Transformers {
  import opened Collections
  import opened Constants
  import opened Wikibase
  import opened DataClasses

  /** The fixed part of the pattern `web.archive.org/web/(\d{14})/`. Its `.`
      characters are unescaped, so each matches any character but a newline. */
  const Marker: string := "web.archive.org/web/"

  /** Length of a whole match: the marker, 14 digits and a slash. */
  const MatchLength: nat := 35

  /** The code point of the digit zero of the run of Unicode decimal digits
      (general category Nd, Unicode 15.0) that holds `c`, if any. Each of the 68
      runs holds the ten digits zero to nine at consecutive code points. In a
      `str` pattern, Python's `\d` accepts exactly these 680 characters. */
  function DigitZero(c: char): (z: Option<int>)
    ensures z.Some? ==> z.value <= c as int < z.value + 10
  {
    var n := c as int;
    if 0x0030 <= n < 0x0030 + 10 then Some(0x0030)
    else if 0x0660 <= n < 0x0660 + 10 then Some(0x0660)
    else if 0x06F0 <= n < 0x06F0 + 10 then Some(0x06F0)
    else if 0x07C0 <= n < 0x07C0 + 10 then Some(0x07C0)
    else if 0x0966 <= n < 0x0966 + 10 then Some(0x0966)
    else if 0x09E6 <= n < 0x09E6 + 10 then Some(0x09E6)
    else if 0x0A66 <= n < 0x0A66 + 10 then Some(0x0A66)
    else if 0x0AE6 <= n < 0x0AE6 + 10 then Some(0x0AE6)
    else if 0x0B66 <= n < 0x0B66 + 10 then Some(0x0B66)
    else if 0x0BE6 <= n < 0x0BE6 + 10 then Some(0x0BE6)
    else if 0x0C66 <= n < 0x0C66 + 10 then Some(0x0C66)
    else if 0x0CE6 <= n < 0x0CE6 + 10 then Some(0x0CE6)
    else if 0x0D66 <= n < 0x0D66 + 10 then Some(0x0D66)
    else if 0x0DE6 <= n < 0x0DE6 + 10 then Some(0x0DE6)
    else if 0x0E50 <= n < 0x0E50 + 10 then Some(0x0E50)
    else if 0x0ED0 <= n < 0x0ED0 + 10 then Some(0x0ED0)
    else if 0x0F20 <= n < 0x0F20 + 10 then Some(0x0F20)
    else if 0x1040 <= n < 0x1040 + 10 then Some(0x1040)
    else if 0x1090 <= n < 0x1090 + 10 then Some(0x1090)
    else if 0x17E0 <= n < 0x17E0 + 10 then Some(0x17E0)
    else if 0x1810 <= n < 0x1810 + 10 then Some(0x1810)
    else if 0x1946 <= n < 0x1946 + 10 then Some(0x1946)
    else if 0x19D0 <= n < 0x19D0 + 10 then Some(0x19D0)
    else if 0x1A80 <= n < 0x1A80 + 10 then Some(0x1A80)
    else if 0x1A90 <= n < 0x1A90 + 10 then Some(0x1A90)
    else if 0x1B50 <= n < 0x1B50 + 10 then Some(0x1B50)
    else if 0x1BB0 <= n < 0x1BB0 + 10 then Some(0x1BB0)
    else if 0x1C40 <= n < 0x1C40 + 10 then Some(0x1C40)
    else if 0x1C50 <= n < 0x1C50 + 10 then Some(0x1C50)
    else if 0xA620 <= n < 0xA620 + 10 then Some(0xA620)
    else if 0xA8D0 <= n < 0xA8D0 + 10 then Some(0xA8D0)
    else if 0xA900 <= n < 0xA900 + 10 then Some(0xA900)
    else if 0xA9D0 <= n < 0xA9D0 + 10 then Some(0xA9D0)
    else if 0xA9F0 <= n < 0xA9F0 + 10 then Some(0xA9F0)
    else if 0xAA50 <= n < 0xAA50 + 10 then Some(0xAA50)
    else if 0xABF0 <= n < 0xABF0 + 10 then Some(0xABF0)
    else if 0xFF10 <= n < 0xFF10 + 10 then Some(0xFF10)
    else if 0x104A0 <= n < 0x104A0 + 10 then Some(0x104A0)
    else if 0x10D30 <= n < 0x10D30 + 10 then Some(0x10D30)
    else if 0x11066 <= n < 0x11066 + 10 then Some(0x11066)
    else if 0x110F0 <= n < 0x110F0 + 10 then Some(0x110F0)
    else if 0x11136 <= n < 0x11136 + 10 then Some(0x11136)
    else if 0x111D0 <= n < 0x111D0 + 10 then Some(0x111D0)
    else if 0x112F0 <= n < 0x112F0 + 10 then Some(0x112F0)
    else if 0x11450 <= n < 0x11450 + 10 then Some(0x11450)
    else if 0x114D0 <= n < 0x114D0 + 10 then Some(0x114D0)
    else if 0x11650 <= n < 0x11650 + 10 then Some(0x11650)
    else if 0x116C0 <= n < 0x116C0 + 10 then Some(0x116C0)
    else if 0x11730 <= n < 0x11730 + 10 then Some(0x11730)
    else if 0x118E0 <= n < 0x118E0 + 10 then Some(0x118E0)
    else if 0x11950 <= n < 0x11950 + 10 then Some(0x11950)
    else if 0x11C50 <= n < 0x11C50 + 10 then Some(0x11C50)
    else if 0x11D50 <= n < 0x11D50 + 10 then Some(0x11D50)
    else if 0x11DA0 <= n < 0x11DA0 + 10 then Some(0x11DA0)
    else if 0x11F50 <= n < 0x11F50 + 10 then Some(0x11F50)
    else if 0x16A60 <= n < 0x16A60 + 10 then Some(0x16A60)
    else if 0x16AC0 <= n < 0x16AC0 + 10 then Some(0x16AC0)
    else if 0x16B50 <= n < 0x16B50 + 10 then Some(0x16B50)
    else if 0x1D7CE <= n < 0x1D7CE + 10 then Some(0x1D7CE)
    else if 0x1D7D8 <= n < 0x1D7D8 + 10 then Some(0x1D7D8)
    else if 0x1D7E2 <= n < 0x1D7E2 + 10 then Some(0x1D7E2)
    else if 0x1D7EC <= n < 0x1D7EC + 10 then Some(0x1D7EC)
    else if 0x1D7F6 <= n < 0x1D7F6 + 10 then Some(0x1D7F6)
    else if 0x1E140 <= n < 0x1E140 + 10 then Some(0x1E140)
    else if 0x1E2F0 <= n < 0x1E2F0 + 10 then Some(0x1E2F0)
    else if 0x1E4F0 <= n < 0x1E4F0 + 10 then Some(0x1E4F0)
    else if 0x1E950 <= n < 0x1E950 + 10 then Some(0x1E950)
    else if 0x1FBF0 <= n < 0x1FBF0 + 10 then Some(0x1FBF0)
    else None
  }

  /** `\d`: is `c` a Unicode decimal digit? */
  predicate IsDigit(c: char)
  {
    DigitZero(c).Some?
  }

  /** The value `int()` gives a decimal digit. */
  function DigitValue(c: char): (d: nat)
    requires IsDigit(c)
    ensures d <= 9
  {
    c as int - DigitZero(c).value
  }

  /** Is `c` an ASCII digit from `lo` to `hi`, as a character class such as `[0-5]` demands? */
  predicate InRange(c: char, lo: char, hi: char)
  {
    lo <= c <= hi
  }

  /** A Unicode digit is a decimal digit, and an ASCII digit has its usual value. */
  lemma AsciiDigit(c: char)
    requires '0' <= c <= '9'
    ensures IsDigit(c) && DigitValue(c) == c as int - '0' as int
  {
  }

  /** Do 35 characters spell a match: the marker (its dots accepting anything but a
      newline), 14 digits and a slash? */
  predicate IsMatch(w: string)
  {
    |w| == MatchLength
    && (forall k :: 0 <= k < |Marker| ==> if Marker[k] == '.' then w[k] != '\n' else w[k] == Marker[k])
    && (forall k :: 20 <= k < 34 ==> IsDigit(w[k]))
    && w[34] == '/'
  }

  /** Does the whole pattern match at position `i`? */
  predicate MatchAt(s: string, i: nat)
  {
    i + MatchLength <= |s| && IsMatch(s[i..i + MatchLength])
  }

  /** `re.search`: the leftmost position at or after `from` where the pattern matches. */
  function Search(s: string, from: nat): (r: Option<nat>)
    ensures r.Some? ==> from <= r.value && MatchAt(s, r.value)
    ensures r.Some? ==> forall j :: from <= j < r.value ==> !MatchAt(s, j)
    ensures r.None? ==> forall j :: from <= j ==> !MatchAt(s, j)
    decreases |s| - from
  {
    if from + MatchLength > |s| then None
    else if MatchAt(s, from) then Some(from)
    else Search(s, from + 1)
  }

  /** Does `m` occur in `s` at position `i`? */
  predicate OccursAt(s: string, m: string, i: nat)
  {
    i + |m| <= |s| && s[i..i + |m|] == m
  }

  /** `s[i:].replace(m, "")`: every non-overlapping occurrence of `m` from position
      `i` on, scanning left to right, is removed. */
  function RemoveFrom(s: string, m: string, i: nat): string
    requires |m| > 0 && i <= |s|
    decreases |s| - i
  {
    if i + |m| > |s| then s[i..]
    else if s[i..i + |m|] == m then RemoveFrom(s, m, i + |m|)
    else [s[i]] + RemoveFrom(s, m, i + 1)
  }

  /** `s.replace(m, "")` */
  function RemoveAll(s: string, m: string): string
    requires |m| > 0
  {
    RemoveFrom(s, m, 0)
  }

  /** Without any occurrence of `m`, removing it changes nothing. */
  lemma {:induction false} RemoveFromAbsent(s: string, m: string, i: nat)
    requires |m| > 0 && i <= |s|
    requires forall j :: i <= j ==> !OccursAt(s, m, j)
    ensures RemoveFrom(s, m, i) == s[i..]
    decreases |s| - i
  {
    if i + |m| <= |s| {
      assert !OccursAt(s, m, i);
      RemoveFromAbsent(s, m, i + 1);
      assert s[i..] == [s[i]] + s[i + 1..];
    }
  }

  /** Removal keeps everything before the first occurrence of `m`. */
  lemma {:induction false} RemoveFromKeepsPrefix(s: string, m: string, i: nat, p: nat)
    requires |m| > 0 && i <= p && OccursAt(s, m, p)
    requires forall j :: i <= j < p ==> !OccursAt(s, m, j)
    ensures RemoveFrom(s, m, i) == s[i..p] + RemoveFrom(s, m, p + |m|)
    decreases p - i
  {
    if i < p {
      assert i + |m| <= |s|;
      assert s[i..i + |m|] != m by { assert !OccursAt(s, m, i); }
      calc {
        RemoveFrom(s, m, i);
        [s[i]] + RemoveFrom(s, m, i + 1);
        { RemoveFromKeepsPrefix(s, m, i + 1, p); }
        [s[i]] + (s[i + 1..p] + RemoveFrom(s, m, p + |m|));
        { assert s[i..p] == [s[i]] + s[i + 1..p]; }
        s[i..p] + RemoveFrom(s, m, p + |m|);
      }
    }
  }

  /** `s.replace(m, "")` keeps everything before the first occurrence of `m`. */
  lemma RemoveAllKeepsPrefix(s: string, m: string, p: nat)
    requires |m| > 0 && OccursAt(s, m, p)
    requires forall j :: 0 <= j < p ==> !OccursAt(s, m, j)
    ensures RemoveAll(s, m) == s[..p] + RemoveFrom(s, m, p + |m|)
  {
    RemoveFromKeepsPrefix(s, m, 0, p);
  }

  /** The string form of a target; only string targets can hold an archive URL. */
  function TextOf(v: Value): Option<string>
  {
    match v
    case Url(s) => Some(s)
    case Text(s) => Some(s)
    case _ => None
  }

  /** The position of the archive match in a target, if any. */
  function ArchiveMatch(v: Value): Option<nat>
  {
    if TextOf(v).Some? then Search(TextOf(v).value, 0) else None
  }

  /** The new target: the original string with the matched text removed everywhere. */
  function DeArchived(v: Value, p: nat): Value
    requires TextOf(v).Some? && p + MatchLength <= |TextOf(v).value|
  {
    var s := TextOf(v).value;
    var cleaned := RemoveAll(s, s[p..p + MatchLength]);
    if v.Url? then Url(cleaned) else Text(cleaned)
  }

  /** On a match, the text before `web.archive.org` (the scheme, say) is kept,
      and the rest is what follows the match with the matched text removed. */
  lemma DeArchivedKeepsPrefix(v: Value)
    requires ArchiveMatch(v).Some?
    ensures var s := TextOf(v).value; var p := ArchiveMatch(v).value;
      TextOf(DeArchived(v, p)).value == s[..p] + RemoveFrom(s, s[p..p + MatchLength], p + MatchLength)
  {
    var s := TextOf(v).value;
    var p := ArchiveMatch(v).value;
    var m := s[p..p + MatchLength];
    forall j | 0 <= j < p ensures !OccursAt(s, m, j) {
      if OccursAt(s, m, j) {
        assert MatchAt(s, j);
      }
    }
    RemoveAllKeepsPrefix(s, m, p);
  }

  /** Are all characters of `ds` decimal digits? */
  predicate AllDigits(ds: string)
  {
    forall k :: 0 <= k < |ds| ==> IsDigit(ds[k])
  }

  /** The numeric value of a run of decimal digits, as `int()` reads it. */
  function Number(ds: string): nat
    requires AllDigits(ds)
  {
    if ds == [] then 0
    else 10 * Number(ds[..|ds| - 1]) + DigitValue(ds[|ds| - 1])
  }

  /** The 14 captured digits, split as `%Y%m%d%H%M%S`. */
  datatype Timestamp = Timestamp(year: nat, month: nat, day: nat, hour: nat, minute: nat, second: nat)

  function ParseTimestamp(ds: string): Timestamp
    requires |ds| == 14 && AllDigits(ds)
  {
    Timestamp(Number(ds[0..4]), Number(ds[4..6]), Number(ds[6..8]),
              Number(ds[8..10]), Number(ds[10..12]), Number(ds[12..14]))
  }

  /** Does the regular expression `strptime` builds for `%Y%m%d%H%M%S` take all 14
      characters? It reads `%Y` as `\d\d\d\d`, `%m` as `1[0-2]|0[1-9]|[1-9]`, `%d` as
      `3[01]|[12]\d|0[1-9]|[1-9]| [1-9]`, `%H` as `2[0-3]|[0-1]\d|\d`, `%M` as
      `[0-5]\d|\d` and `%S` as `6[0-1]|[0-5]\d|\d`. Its literal digits and classes are
      ASCII; only `\d` takes any decimal digit. A one-character field leaves data
      unconverted, which fails too, so every field after the year takes two. */
  predicate FieldsMatch(ds: string)
    requires |ds| == 14
  {
    && (forall k :: 0 <= k < 4 ==> IsDigit(ds[k]))
    && ((ds[4] == '1' && InRange(ds[5], '0', '2')) || (ds[4] == '0' && InRange(ds[5], '1', '9')))
    && ((ds[6] == '3' && InRange(ds[7], '0', '1')) || (InRange(ds[6], '1', '2') && IsDigit(ds[7]))
        || (ds[6] == '0' && InRange(ds[7], '1', '9')))
    && ((ds[8] == '2' && InRange(ds[9], '0', '3')) || (InRange(ds[8], '0', '1') && IsDigit(ds[9])))
    && InRange(ds[10], '0', '5') && IsDigit(ds[11])
    && ((ds[12] == '6' && InRange(ds[13], '0', '1')) || (InRange(ds[12], '0', '5') && IsDigit(ds[13])))
  }

  predicate IsLeapYear(y: int)
  {
    y % 4 == 0 && (y % 100 != 0 || y % 400 == 0)
  }

  function DaysInMonth(y: int, m: int): nat
  {
    if m == 2 then (if IsLeapYear(y) then 29 else 28)
    else if m == 4 || m == 6 || m == 9 || m == 11 then 30
    else 31
  }

  /** Does `datetime` accept the fields: a year from 1, a day that exists in its
      month, and a time of day with at most 59 seconds? */
  predicate ValidTimestamp(t: Timestamp)
  {
    1 <= t.year && 1 <= t.month <= 12 && 1 <= t.day <= DaysInMonth(t.year, t.month)
    && t.hour <= 23 && t.minute <= 59 && t.second <= 59
  }

  /** Does `datetime.datetime.strptime(ds, "%Y%m%d%H%M%S")` return a value? */
  predicate TimestampParses(ds: string)
    requires |ds| == 14 && AllDigits(ds)
  {
    FieldsMatch(ds) && ValidTimestamp(ParseTimestamp(ds))
  }

  /** Each ASCII digit, as `int()` reads it. */
  lemma AsciiNumber2(ds: string)
    requires |ds| == 2 && '0' <= ds[0] <= '9' && '0' <= ds[1] <= '9'
    ensures AllDigits(ds) && Number(ds) == 10 * (ds[0] as int - '0' as int) + (ds[1] as int - '0' as int)
  {
    AsciiDigit(ds[0]);
    AsciiDigit(ds[1]);
    assert ds[..1][..0] == [];
    assert Number(ds[..1]) == DigitValue(ds[0]);
  }

  /** Four ASCII digits, as `int()` reads them. */
  lemma AsciiNumber4(ds: string)
    requires |ds| == 4 && forall k :: 0 <= k < 4 ==> '0' <= ds[k] <= '9'
    ensures AllDigits(ds)
    ensures Number(ds) == 1000 * (ds[0] as int - '0' as int) + 100 * (ds[1] as int - '0' as int)
      + 10 * (ds[2] as int - '0' as int) + (ds[3] as int - '0' as int)
  {
    forall k | 0 <= k < 4 ensures IsDigit(ds[k]) && DigitValue(ds[k]) == ds[k] as int - '0' as int {
      AsciiDigit(ds[k]);
    }
    AsciiNumber2(ds[..2]);
    assert ds[..3][..2] == ds[..2];
    assert Number(ds[..3]) == 10 * Number(ds[..2]) + DigitValue(ds[2]);
  }

  /** The value of two ASCII digits. */
  function Ascii2(a: char, b: char): int
  {
    10 * (a as int - '0' as int) + (b as int - '0' as int)
  }

  /** `%m` on ASCII digits: `1[0-2]|0[1-9]` takes exactly the months 1 to 12. */
  lemma AsciiMonthField(a: char, b: char)
    requires '0' <= a <= '9' && '0' <= b <= '9'
    ensures ((a == '1' && InRange(b, '0', '2')) || (a == '0' && InRange(b, '1', '9'))) <==> 1 <= Ascii2(a, b) <= 12
  {
  }

  /** `%d` on ASCII digits: `3[01]|[12]\d|0[1-9]` takes exactly the days 1 to 31. */
  lemma AsciiDayField(a: char, b: char)
    requires '0' <= a <= '9' && '0' <= b <= '9'
    ensures ((a == '3' && InRange(b, '0', '1')) || (InRange(a, '1', '2') && IsDigit(b)) || (a == '0' && InRange(b, '1', '9')))
      <==> 1 <= Ascii2(a, b) <= 31
  {
    AsciiDigit(b);
  }

  /** `%H`, `%M` and `%S` on ASCII digits take exactly the hours to 23, the minutes
      to 59 and the seconds to 61. */
  lemma AsciiTimeFields(h0: char, h1: char, m0: char, m1: char, s0: char, s1: char)
    requires '0' <= h0 <= '9' && '0' <= h1 <= '9' && '0' <= m0 <= '9' && '0' <= m1 <= '9'
    requires '0' <= s0 <= '9' && '0' <= s1 <= '9'
    ensures ((h0 == '2' && InRange(h1, '0', '3')) || (InRange(h0, '0', '1') && IsDigit(h1))) <==> Ascii2(h0, h1) <= 23
    ensures (InRange(m0, '0', '5') && IsDigit(m1)) <==> Ascii2(m0, m1) <= 59
    ensures ((s0 == '6' && InRange(s1, '0', '1')) || (InRange(s0, '0', '5') && IsDigit(s1))) <==> Ascii2(s0, s1) <= 61
  {
    AsciiDigit(h1);
    AsciiDigit(m1);
    AsciiDigit(s1);
  }

  /** For ASCII digits the pattern rejects nothing that `datetime` would accept: the
      timestamp parses exactly when its fields form a real date and time. */
  lemma AsciiTimestampParses(ds: string)
    requires |ds| == 14 && forall k :: 0 <= k < 14 ==> '0' <= ds[k] <= '9'
    ensures AllDigits(ds)
    ensures TimestampParses(ds) <==> ValidTimestamp(ParseTimestamp(ds))
  {
    forall k | 0 <= k < 14 ensures IsDigit(ds[k]) {
      AsciiDigit(ds[k]);
    }
    AsciiNumber2(ds[4..6]);
    AsciiNumber2(ds[6..8]);
    AsciiNumber2(ds[8..10]);
    AsciiNumber2(ds[10..12]);
    AsciiNumber2(ds[12..14]);
    var t := ParseTimestamp(ds);
    assert t.month == Ascii2(ds[4], ds[5]) && t.day == Ascii2(ds[6], ds[7]);
    assert t.hour == Ascii2(ds[8], ds[9]) && t.minute == Ascii2(ds[10], ds[11]) && t.second == Ascii2(ds[12], ds[13]);
    AsciiMonthField(ds[4], ds[5]);
    AsciiDayField(ds[6], ds[7]);
    AsciiTimeFields(ds[8], ds[9], ds[10], ds[11], ds[12], ds[13]);
    assert DaysInMonth(t.year, t.month) <= 31;
  }

  /** The 14 characters a match captures are decimal digits. */
  lemma CapturedDigits(s: string, p: nat)
    requires MatchAt(s, p)
    ensures AllDigits(s[p + 20..p + 34])
  {
    var w := s[p..p + MatchLength];
    var cap := s[p + 20..p + 34];
    assert IsMatch(w);
    forall k | 0 <= k < 14 ensures IsDigit(cap[k]) {
      assert cap[k] == w[k + 20];
    }
  }

  /** The timestamp captured by the match at `p`. */
  function CapturedTimestamp(s: string, p: nat): Timestamp
    requires MatchAt(s, p)
  {
    CapturedDigits(s, p);
    ParseTimestamp(s[p + 20..p + 34])
  }

  /** Does the timestamp captured by the match at `p` parse? */
  predicate CapturedParses(s: string, p: nat)
    requires MatchAt(s, p)
  {
    CapturedDigits(s, p);
    TimestampParses(s[p + 20..p + 34])
  }

  /** A qualifier that is only added when its property holds no value yet. */
  function SkipIfConflicting(claim: Snak): (q: ExtraQualifier)
    ensures q.claim == claim && q.skipIfConflictingExists
    ensures !q.replaceIfConflictingExists && !q.deleteOtherIfReplacing
    ensures !q.skipIfConflictingLanguageExists && !q.makeNewIfConflicting && !q.referenceOnly
  {
    ExtraQualifier(claim, true, false, false, false, false, false)
  }

  function ArchiveUrlQualifier(full: string): ExtraQualifier
  {
    SkipIfConflicting(Snak(ArchiveUrlProp, Url(full), false, false))
  }

  function ArchiveDateQualifier(t: Timestamp): ExtraQualifier
  {
    SkipIfConflicting(Snak(ArchiveDateProp, Time(t.year, t.month, t.day), false, false))
  }

  function LinkRotQualifier(): ExtraQualifier
  {
    SkipIfConflicting(Snak(DeprecatedReasonProp, Item(LinkRotId), false, false))
  }

  /** The desired qualifiers after the three provenance qualifiers are appended. */
  function WithArchiveQualifiers(qs: Entries<PropId, seq<ExtraQualifier>>, full: string, t: Timestamp): Entries<PropId, seq<ExtraQualifier>>
  {
    var q1 := AppendUnder(qs, ArchiveUrlProp, ArchiveUrlQualifier(full));
    var q2 := AppendUnder(q1, ArchiveDateProp, ArchiveDateQualifier(t));
    AppendUnder(q2, DeprecatedReasonProp, LinkRotQualifier())
  }

  /** The list under `k`, or the empty list (the `defaultdict(list)` view). */
  function ListUnder(qs: Entries<PropId, seq<ExtraQualifier>>, k: PropId): seq<ExtraQualifier>
  {
    if Get(qs, k).Some? then Get(qs, k).value else []
  }

  /** Exactly one qualifier is appended under each of P1065, P2960 and P2241: the full
      archive URL, the archive date, and the link-rot item; other lists are unchanged. */
  lemma ArchiveQualifiersAppended(qs: Entries<PropId, seq<ExtraQualifier>>, full: string, t: Timestamp)
    ensures var r := WithArchiveQualifiers(qs, full, t);
      && ListUnder(r, ArchiveUrlProp) == ListUnder(qs, ArchiveUrlProp) + [ArchiveUrlQualifier(full)]
      && ListUnder(r, ArchiveDateProp) == ListUnder(qs, ArchiveDateProp) + [ArchiveDateQualifier(t)]
      && ListUnder(r, DeprecatedReasonProp) == ListUnder(qs, DeprecatedReasonProp) + [LinkRotQualifier()]
      && forall k :: k != ArchiveUrlProp && k != ArchiveDateProp && k != DeprecatedReasonProp ==> Get(r, k) == Get(qs, k)
  {
    var q1 := AppendUnder(qs, ArchiveUrlProp, ArchiveUrlQualifier(full));
    var q2 := AppendUnder(q1, ArchiveDateProp, ArchiveDateQualifier(t));
    var r := AppendUnder(q2, DeprecatedReasonProp, LinkRotQualifier());
    forall k ensures Get(r, k) == if k == DeprecatedReasonProp then Some(ListUnder(q2, k) + [LinkRotQualifier()]) else Get(q2, k) {
      GetAppendUnder(q2, DeprecatedReasonProp, LinkRotQualifier(), k);
    }
    forall k ensures Get(q2, k) == if k == ArchiveDateProp then Some(ListUnder(q1, k) + [ArchiveDateQualifier(t)]) else Get(q1, k) {
      GetAppendUnder(q1, ArchiveDateProp, ArchiveDateQualifier(t), k);
    }
    forall k ensures Get(q1, k) == if k == ArchiveUrlProp then Some(ListUnder(qs, k) + [ArchiveUrlQualifier(full)]) else Get(qs, k) {
      GetAppendUnder(qs, ArchiveUrlProp, ArchiveUrlQualifier(full), k);
    }
  }

  /** `de_archivify_url_property`. On a match the target loses the archive prefix, the
      rank becomes deprecated when asked, and the three qualifiers are appended; when
      `strptime` rejects the captured timestamp, parsing fails after the target and
      rank were set, and `raised` reports the error. Without a match
      nothing changes. */
  method DeArchivifyUrlProperty(prop: ExtraProperty, deprecate: bool) returns (raised: bool)
    modifies prop, prop.claim
    ensures prop.claim == old(prop.claim) && prop.extraReferences == old(prop.extraReferences)
    ensures prop.claim.qualifiers == old(prop.claim.qualifiers) && prop.claim.sources == old(prop.claim.sources)
    ensures ArchiveMatch(old(prop.claim.target)).None? ==>
      !raised && prop.claim.target == old(prop.claim.target) && prop.claim.rank == old(prop.claim.rank)
      && prop.qualifiers == old(prop.qualifiers)
    ensures ArchiveMatch(old(prop.claim.target)).Some? ==>
      var full := TextOf(old(prop.claim.target)).value;
      var p := ArchiveMatch(old(prop.claim.target)).value;
      var t := CapturedTimestamp(full, p);
      && prop.claim.target == DeArchived(old(prop.claim.target), p)
      && prop.claim.rank == (if deprecate then Deprecated else old(prop.claim.rank))
      && raised == !CapturedParses(full, p)
      && prop.qualifiers == (if raised then old(prop.qualifiers) else WithArchiveQualifiers(old(prop.qualifiers), full, t))
  {
    raised := false;
    var target := prop.claim.target;
    var m := ArchiveMatch(target);
    if m.Some? {
      var full := TextOf(target).value;
      var p := m.value;
      var parses := CapturedParses(full, p);
      var t := CapturedTimestamp(full, p);
      var qualifiers := WithArchiveQualifiers(prop.qualifiers, full, t);
      prop.claim.target := DeArchived(target, p);
      if deprecate {
        prop.claim.rank := Deprecated;
      }
      if !parses {
        raised := true;
        return;
      }
      prop.qualifiers := qualifiers;
    }
  }


  const ExampleScheme: string := "https://"
  const ExampleDigits: string := "2020" + "01" + "01" + "00" + "00" + "00"
  const ExampleSnapshot: string := Marker + ExampleDigits + "/"
  const ExampleOriginal: string := "http://example.com"
  const ExampleUrl: string := ExampleScheme + ExampleSnapshot + ExampleOriginal

  /** For a snapshot of `http://example.com` taken at midnight on 2020-01-01, the
      match starts right after the scheme. */
  lemma ExampleMatch()
    ensures ArchiveMatch(Url(ExampleUrl)) == Some(8)
  {
    var s := ExampleUrl;
    assert s[8..43] == ExampleSnapshot;
    var w := ExampleSnapshot;
    forall k | 20 <= k < 34 ensures IsDigit(w[k]) {
      assert w[k] == ExampleDigits[k - 20];
      AsciiDigit(w[k]);
    }
    assert IsMatch(w);
    assert MatchAt(s, 8);
    forall j | 0 <= j < 8 ensures !MatchAt(s, j) {
      assert s[j..j + MatchLength][0] == s[j] == ExampleScheme[j];
    }
    var r := Search(s, 0);
    assert r.Some?;
    assert !(r.value < 8) && !(r.value > 8);
  }

  /** The example's new target keeps the scheme in front of the original URL. */
  lemma ExampleTarget()
    ensures DeArchived(Url(ExampleUrl), 8) == Url(ExampleScheme + ExampleOriginal)
  {
    var s := ExampleUrl;
    var m := s[8..43];
    assert m == ExampleSnapshot;
    forall j | 0 <= j < 8 ensures !OccursAt(s, m, j) {
      assert s[j..j + |m|][0] == s[j] == ExampleScheme[j];
    }
    RemoveAllKeepsPrefix(s, m, 8);
    assert s[..8] == ExampleScheme;
    assert s[43..] == ExampleOriginal;
  }

  /** The example's digits are midnight on 2020-01-01, which `strptime` accepts. */
  lemma ExampleDigitsParse()
    ensures AllDigits(ExampleDigits)
    ensures ParseTimestamp(ExampleDigits) == Timestamp(2020, 1, 1, 0, 0, 0)
    ensures TimestampParses(ExampleDigits)
  {
    var ds := ExampleDigits;
    AsciiTimestampParses(ds);
    AsciiNumber4(ds[0..4]);
    AsciiNumber2(ds[4..6]);
    AsciiNumber2(ds[6..8]);
    AsciiNumber2(ds[8..10]);
    AsciiNumber2(ds[10..12]);
    AsciiNumber2(ds[12..14]);
  }

  /** The example's timestamp is midnight on 2020-01-01, which `strptime` accepts. */
  lemma ExampleTimestamp()
    ensures MatchAt(ExampleUrl, 8)
    ensures CapturedTimestamp(ExampleUrl, 8) == Timestamp(2020, 1, 1, 0, 0, 0)
    ensures CapturedParses(ExampleUrl, 8)
  {
    ExampleMatch();
    assert ExampleUrl[28..42] == ExampleDigits;
    ExampleDigitsParse();
  }

  /** ARABIC-INDIC DIGIT FIVE, a decimal digit outside ASCII. */
  const ArabicFive: char := '\U{0665}'

  /** `\d` takes any decimal digit, and `strptime` converts one where its pattern has
      `\d`: a snapshot taken on the 1٥th parses as the 15th. */
  lemma ExampleNonAsciiDay()
    ensures IsDigit(ArabicFive) && DigitValue(ArabicFive) == 5
    ensures var ds := "2020011" + [ArabicFive] + "000000";
      AllDigits(ds) && TimestampParses(ds) && ParseTimestamp(ds) == Timestamp(2020, 1, 15, 0, 0, 0)
  {
    var ds := "2020011" + [ArabicFive] + "000000";
    assert IsDigit(ArabicFive) && DigitValue(ArabicFive) == 5;
    AsciiNumber4(ds[0..4]);
    AsciiNumber2(ds[4..6]);
    AsciiNumber2(ds[8..10]);
    AsciiNumber2(ds[10..12]);
    AsciiNumber2(ds[12..14]);
    var d := ds[6..8];
    assert d == ['1', ArabicFive];
    assert Number(d) == 15 by {
      AsciiDigit('1');
      assert d[..1] == ['1'] && ['1'][..0] == [];
    }
    forall k | 0 <= k < 14 ensures IsDigit(ds[k]) {
      if k < 4 {
        assert ds[k] == ds[0..4][k];
      } else if k < 6 {
        assert ds[k] == ds[4..6][k - 4];
      } else if k < 8 {
        assert ds[k] == d[k - 6];
      } else if k < 10 {
        assert ds[k] == ds[8..10][k - 8];
      } else if k < 12 {
        assert ds[k] == ds[10..12][k - 10];
      } else {
        assert ds[k] == ds[12..14][k - 12];
      }
    }
    assert FieldsMatch(ds);
  }

  /** Where `strptime`'s pattern has an ASCII class, a non-ASCII digit fails the parse
      although `\d` let the snapshot match: a month written 0٥ is rejected. */
  lemma ExampleNonAsciiMonth()
    ensures var ds := "20200" + [ArabicFive] + "01000000";
      AllDigits(ds) && !TimestampParses(ds)
  {
    var ds := "20200" + [ArabicFive] + "01000000";
    forall k | 0 <= k < 14 && k != 5 ensures IsDigit(ds[k]) {
      AsciiDigit(ds[k]);
    }
    assert !FieldsMatch(ds);
  }
}
