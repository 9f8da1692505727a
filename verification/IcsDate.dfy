/** Calendar dates in iCalendar's basic format (packages/mail-service/src/dav-client.ts, lines 69 to 97).

    A date is its broken-down UTC fields; reading those fields out of an ISO string is the
    language's own Date type. */
module IcsDate {
  import opened Common

  datatype DateTime = DateTime(year: nat, month: nat, day: nat, hour: nat, minute: nat, second: nat) {
    predicate Valid() {
      1 <= month <= 12 && 1 <= day <= 31 && hour < 24 && minute < 60 && second < 60
    }
  }

  function FormatIcsDate(d: DateTime, allDay: bool): string {
    var date := Pad(d.year, 4) + Pad(d.month, 2) + Pad(d.day, 2);
    if allDay then date else date + "T" + Pad(d.hour, 2) + Pad(d.minute, 2) + Pad(d.second, 2) + "Z"
  }

  /** The ISO string of the same date or date and time. */
  function Iso(d: DateTime, allDay: bool): string {
    var date := Pad(d.year, 4) + "-" + Pad(d.month, 2) + "-" + Pad(d.day, 2);
    if allDay then date else date + "T" + Pad(d.hour, 2) + ":" + Pad(d.minute, 2) + ":" + Pad(d.second, 2) + "Z"
  }

  datatype DtValue = DtValue(iso: string, allDay: bool)

  /** `s.slice(from, upto)` for 0 <= from <= upto */
  function Slice(s: string, from: nat, upto: nat): string
    requires from <= upto
  {
    s[Min(from, |s|)..Min(upto, |s|)]
  }

  function ParseIcsDtValue(value: string): DtValue {
    var v := Trim(value);
    if |v| == 8 && AllDigits(v) then
      DtValue(Slice(v, 0, 4) + "-" + Slice(v, 4, 6) + "-" + Slice(v, 6, 8), true)
    else
      var seconds := Slice(v, 13, 15);
      DtValue(Slice(v, 0, 4) + "-" + Slice(v, 4, 6) + "-" + Slice(v, 6, 8) + "T" + Slice(v, 9, 11) + ":" + Slice(v, 11, 13)
              + ":" + (if seconds == "" then "00" else seconds) + "Z", false)
  }

  // ---- Round trip ----

  lemma {:induction false} DecimalLength(n: nat)
    ensures Decimal(n) != [] && AllDigits(Decimal(n))
    ensures |Decimal(n)| <= 2 <==> n < 100
    ensures |Decimal(n)| <= 3 <==> n < 1000
    ensures |Decimal(n)| <= 4 <==> n < 10000
    ensures |Decimal(n)| == 1 <==> n < 10
  {
    if n >= 10 {
      DecimalLength(n / 10);
    }
  }

  lemma PadLength(n: nat)
    ensures AllDigits(Pad(n, 2)) && AllDigits(Pad(n, 4))
    ensures n < 100 ==> |Pad(n, 2)| == 2
    ensures |Pad(n, 4)| >= 4 && (|Pad(n, 4)| == 4 <==> n < 10000)
  {
    DecimalLength(n);
  }

  lemma NothingToTrim(s: string)
    requires s != [] && !IsSpace(s[0]) && !IsSpace(Last(s))
    ensures Trim(s) == s
  {
  }

  lemma DigitsKeep(d: DateTime)
    requires d.Valid()
    ensures |Pad(d.month, 2)| == |Pad(d.day, 2)| == |Pad(d.hour, 2)| == |Pad(d.minute, 2)| == |Pad(d.second, 2)| == 2
    ensures AllDigits(Pad(d.year, 4)) && AllDigits(Pad(d.month, 2)) && AllDigits(Pad(d.day, 2))
    ensures |Pad(d.year, 4)| >= 4 && (|Pad(d.year, 4)| == 4 <==> d.year < 10000)
  {
    PadLength(d.year);
    PadLength(d.month);
    PadLength(d.day);
    PadLength(d.hour);
    PadLength(d.minute);
    PadLength(d.second);
  }

  lemma DateDigits(d: DateTime)
    requires d.Valid()
    ensures var date := Pad(d.year, 4) + Pad(d.month, 2) + Pad(d.day, 2);
      AllDigits(date) && |date| == |Pad(d.year, 4)| + 4
  {
    DigitsKeep(d);
  }

  /** A printed date or date and time never ends in white space, and is never empty. */
  lemma PrintedDateIsTrimmed(d: DateTime, allDay: bool)
    requires d.Valid()
    ensures var s := FormatIcsDate(d, allDay); s != [] && IsDigit(s[0]) && Trim(s) == s
  {
    DigitsKeep(d);
    DateDigits(d);
    var s := FormatIcsDate(d, allDay);
    assert s[0] == Pad(d.year, 4)[0];
    if allDay {
      assert Last(s) == Last(Pad(d.day, 2));
    } else {
      assert Last(s) == 'Z';
    }
    NothingToTrim(s);
  }

  lemma FourDigitsComeBack(d: DateTime, allDay: bool)
    requires d.Valid() && d.year < 10000
    ensures ParseIcsDtValue(FormatIcsDate(d, allDay)) == DtValue(Iso(d, allDay), allDay)
  {
    DigitsKeep(d);
    PadLength(d.minute);
    PadLength(d.second);
    if allDay {
      ParseDateIs(Pad(d.year, 4), Pad(d.month, 2), Pad(d.day, 2));
    } else {
      ParseTimeIs(Pad(d.year, 4), Pad(d.month, 2), Pad(d.day, 2), Pad(d.hour, 2), Pad(d.minute, 2), Pad(d.second, 2), "Z");
    }
  }

  lemma MoreDigitsDoNot(d: DateTime, allDay: bool)
    requires d.Valid() && d.year >= 10000
    ensures ParseIcsDtValue(FormatIcsDate(d, allDay)).iso != Iso(d, allDay)
  {
    DigitsKeep(d);
    DateDigits(d);
    PrintedDateIsTrimmed(d, allDay);
    var v := FormatIcsDate(d, allDay);
    assert |v| > 8;
    assert Last(ParseIcsDtValue(v).iso) == 'Z';
    if allDay {
      assert Last(Iso(d, true)) == Last(Pad(d.day, 2));
    } else {
      assert |Iso(d, false)| > 20;
    }
  }

  /** Printing and parsing a date gives its ISO form back exactly for the years of four digits. */
  lemma DateRoundTripsIff(d: DateTime, allDay: bool)
    requires d.Valid()
    ensures ParseIcsDtValue(FormatIcsDate(d, allDay)) == DtValue(Iso(d, allDay), allDay) <==> d.year < 10000
    ensures ParseIcsDtValue(FormatIcsDate(d, allDay)).iso == Iso(d, allDay) <==> d.year < 10000
  {
    if d.year < 10000 { FourDigitsComeBack(d, allDay); } else { MoreDigitsDoNot(d, allDay); }
  }

  lemma BasicParts(y: string, mo: string, da: string)
    requires |y| == 4 && |mo| == |da| == 2
    ensures var s := y + mo + da; |s| == 8 && s[..4] == y && s[4..6] == mo && s[6..] == da
  {
  }

  lemma BasicTimeParts(date: string, h: string, mi: string, se: string)
    requires |date| == 8 && |h| == |mi| == |se| == 2
    ensures var s := date + "T" + h + mi + se + "Z";
      |s| == 16 && s[..8] == date && s[8] == 'T' && s[9..11] == h && s[11..13] == mi && s[13..15] == se && s[15] == 'Z'
  {
  }

  /** A printed date of a year of four digits is the year, the month and the day as digits; */
  lemma FormatDateIs(d: DateTime)
    requires d.Valid() && d.year < 10000
    ensures var s := FormatIcsDate(d, true);
      && |s| == 8 && AllDigits(s[..4]) && AllDigits(s[4..6]) && AllDigits(s[6..])
      && Number(s[..4]) == d.year && Number(s[4..6]) == d.month && Number(s[6..]) == d.day
  {
    DigitsKeep(d);
    PadReadsBack(d.year, 4);
    PadReadsBack(d.month, 2);
    PadReadsBack(d.day, 2);
    BasicParts(Pad(d.year, 4), Pad(d.month, 2), Pad(d.day, 2));
  }

  /** a time is that, the letter T, the hour, the minute and the second, and a Z. */
  lemma FormatTimeIs(d: DateTime)
    requires d.Valid() && d.year < 10000
    ensures var s := FormatIcsDate(d, false);
      && |s| == 16 && s[..8] == FormatIcsDate(d, true) && s[8] == 'T' && s[15] == 'Z'
      && AllDigits(s[9..11]) && AllDigits(s[11..13]) && AllDigits(s[13..15])
      && Number(s[9..11]) == d.hour && Number(s[11..13]) == d.minute && Number(s[13..15]) == d.second
  {
    DigitsKeep(d);
    FormatDateIs(d);
    PadReadsBack(d.hour, 2);
    PadReadsBack(d.minute, 2);
    PadReadsBack(d.second, 2);
    BasicTimeParts(FormatIcsDate(d, true), Pad(d.hour, 2), Pad(d.minute, 2), Pad(d.second, 2));
  }

  lemma IsoDateParts(y: string, mo: string, da: string)
    requires |y| == 4 && |mo| == |da| == 2
    ensures var s := y + "-" + mo + "-" + da;
      |s| == 10 && s[..4] == y && s[5..7] == mo && s[8..] == da && s[4] == s[7] == '-'
  {
  }

  lemma IsoTimeParts(h: string, mi: string, se: string)
    requires |h| == |mi| == |se| == 2
    ensures var s := "T" + h + ":" + mi + ":" + se + "Z";
      |s| == 10 && s[0] == 'T' && s[1..3] == h && s[3] == ':' && s[4..6] == mi && s[6] == ':' && s[7..9] == se && s[9] == 'Z'
  {
  }

  ghost predicate IsDate(s: string, d: DateTime) {
    && |s| == 10 && s[4] == s[7] == '-' && AllDigits(s[..4]) && AllDigits(s[5..7]) && AllDigits(s[8..])
    && Number(s[..4]) == d.year && Number(s[5..7]) == d.month && Number(s[8..]) == d.day
  }

  ghost predicate IsTime(s: string, d: DateTime) {
    && |s| == 10 && s[0] == 'T' && s[3] == s[6] == ':' && s[9] == 'Z'
    && AllDigits(s[1..3]) && AllDigits(s[4..6]) && AllDigits(s[7..9])
    && Number(s[1..3]) == d.hour && Number(s[4..6]) == d.minute && Number(s[7..9]) == d.second
  }

  lemma DateIs(d: DateTime, date: string)
    requires d.Valid() && d.year < 10000 && date == Pad(d.year, 4) + "-" + Pad(d.month, 2) + "-" + Pad(d.day, 2)
    ensures IsDate(date, d)
  {
    DigitsKeep(d);
    PadReadsBack(d.year, 4);
    PadReadsBack(d.month, 2);
    PadReadsBack(d.day, 2);
    IsoDateParts(Pad(d.year, 4), Pad(d.month, 2), Pad(d.day, 2));
  }

  lemma TimeIs(d: DateTime, time: string)
    requires d.Valid() && time == "T" + Pad(d.hour, 2) + ":" + Pad(d.minute, 2) + ":" + Pad(d.second, 2) + "Z"
    ensures IsTime(time, d)
  {
    DigitsKeep(d);
    PadReadsBack(d.hour, 2);
    PadReadsBack(d.minute, 2);
    PadReadsBack(d.second, 2);
    IsoTimeParts(Pad(d.hour, 2), Pad(d.minute, 2), Pad(d.second, 2));
  }

  /** The ISO form has the same numbers, apart by hyphens, and behind the letter T by colons. */
  lemma IsoIs(d: DateTime) returns (time: string)
    requires d.Valid() && d.year < 10000
    ensures IsDate(Iso(d, true), d) && Iso(d, false) == Iso(d, true) + time && IsTime(time, d)
  {
    var date := Pad(d.year, 4) + "-" + Pad(d.month, 2) + "-" + Pad(d.day, 2);
    time := "T" + Pad(d.hour, 2) + ":" + Pad(d.minute, 2) + ":" + Pad(d.second, 2) + "Z";
    DateIs(d, date);
    TimeIs(d, time);
    TimeBehind(date, Pad(d.hour, 2), Pad(d.minute, 2), Pad(d.second, 2));
  }

  lemma TimeBehind(date: string, h: string, mi: string, se: string)
    ensures date + "T" + h + ":" + mi + ":" + se + "Z" == date + ("T" + h + ":" + mi + ":" + se + "Z")
  {
  }

  lemma DateSlices(y: string, mo: string, da: string, rest: string)
    requires |y| == 4 && |mo| == |da| == 2
    ensures var v := y + mo + da + rest; Slice(v, 0, 4) == y && Slice(v, 4, 6) == mo && Slice(v, 6, 8) == da
  {
  }

  lemma TimeSlices(front: string, h: string, mi: string, s: string, z: string)
    requires |front| == 9 && |h| == |mi| == 2 && |s| in {0, 2} && (s == "" ==> z == "")
    ensures var v := front + h + mi + s + z; Slice(v, 9, 11) == h && Slice(v, 11, 13) == mi && Slice(v, 13, 15) == s
  {
  }

  /** What is read of a date that others wrote, */
  lemma ParseDateIs(y: string, mo: string, da: string)
    requires |y| == 4 && |mo| == |da| == 2 && AllDigits(y) && AllDigits(mo) && AllDigits(da)
    ensures ParseIcsDtValue(y + mo + da) == DtValue(y + "-" + mo + "-" + da, true)
  {
    var date := y + mo + da;
    assert IsDigit(y[0]) && IsDigit(da[1]);
    DateIsTrimmed(date, y, da);
    DigitsOfThree(y, mo, da);
    DateSlices(y, mo, da, "");
    assert date + "" == date;
  }

  /** and of a time: without the seconds they count as 00, without a Z it is added. */
  lemma ParseTimeIs(y: string, mo: string, da: string, h: string, mi: string, s: string, z: string)
    requires |y| == 4 && |mo| == |da| == |h| == |mi| == 2 && |s| in {0, 2} && (z == "" || (z == "Z" && s != ""))
    requires AllDigits(y) && AllDigits(mi) && AllDigits(s)
    ensures ParseIcsDtValue(y + mo + da + "T" + h + mi + s + z)
         == DtValue(y + "-" + mo + "-" + da + "T" + h + ":" + mi + ":" + (if s == "" then "00" else s) + "Z", false)
  {
    var v := y + mo + da + "T" + h + mi + s + z;
    assert IsDigit(y[0]) && IsDigit(mi[1]) && (s != "" ==> IsDigit(s[1]));
    TimeIsTrimmed(v, y, mi, s, z);
    TimeSlices(y + mo + da + "T", h, mi, s, z);
    var rest := "T" + h + mi + s + z;
    assert v == y + mo + da + rest;
    DateSlices(y, mo, da, rest);
  }

  lemma DigitsOfThree(y: string, mo: string, da: string)
    requires AllDigits(y) && AllDigits(mo) && AllDigits(da)
    ensures AllDigits(y + mo + da)
  {
    DigitsOfBoth(y, mo);
    DigitsOfBoth(y + mo, da);
  }

  lemma DigitsOfBoth(a: string, b: string)
    requires AllDigits(a) && AllDigits(b)
    ensures AllDigits(a + b)
  {
    forall i | 0 <= i < |a + b| ensures IsDigit((a + b)[i]) {
      if i < |a| { assert IsDigit(a[i]); } else { assert IsDigit(b[i - |a|]); }
    }
  }

  lemma DateIsTrimmed(date: string, y: string, da: string)
    requires |date| == 8 && |y| == 4 && |da| == 2 && date[0] == y[0] && date[7] == da[1] && IsDigit(y[0]) && IsDigit(da[1])
    ensures Trim(date) == date
  {
    NothingToTrim(date);
  }

  lemma TimeIsTrimmed(time: string, y: string, mi: string, s: string, z: string)
    requires |time| >= 13 && y != "" && time[0] == y[0] && IsDigit(y[0]) && |mi| == 2 && IsDigit(mi[1])
    requires |s| in {0, 2} && (s != "" ==> IsDigit(s[1])) && (z == "" || z == "Z")
    requires Last(time) == if z != "" then 'Z' else if s != "" then s[1] else mi[1]
    ensures Trim(time) == time
  {
    NothingToTrim(time);
  }
}
