/** Log timestamps: UTC seconds as YYYY-MM-DDTHH:MM:SSZ (section 5.6 of
    RFC 3339), readable back and sorted like the times they stand for. */
module Timestamp {
  import opened Calendar
  import opened Decimal

  /** The first second of year 10000. */
  const LIMIT: nat := 253402300800

  // ----- string order ---------------------------------------------------------------

  /** Strings of one length compared character by character. */
  ghost predicate Less(a: string, b: string) {
    |a| == |b| && exists k :: 0 <= k < |a| && a[k] < b[k] && forall i :: 0 <= i < k ==> a[i] == b[i]
  }

  lemma LessPrefix(a: string, b: string, c: string, d: string)
    requires Less(a, b) && |c| == |d|
    ensures Less(a + c, b + d)
  {
    var k :| 0 <= k < |a| && a[k] < b[k] && forall i :: 0 <= i < k ==> a[i] == b[i];
    assert (a + c)[k] < (b + d)[k];
  }

  lemma LessSuffix(p: string, a: string, b: string)
    requires Less(a, b)
    ensures Less(p + a, p + b)
  {
    var k :| 0 <= k < |a| && a[k] < b[k] && forall i :: 0 <= i < k ==> a[i] == b[i];
    assert (p + a)[|p| + k] < (p + b)[|p| + k];
  }

  /** No string is both below and above another, or below itself. */
  lemma LessAsymmetric(a: string, b: string)
    requires Less(a, b)
    ensures !Less(b, a) && a != b
  {}

  lemma LessLast(p: string, c: char, d: char)
    requires c < d
    ensures Less(p + [c], p + [d])
  {
    assert [c][0] < [d][0] && Less([c], [d]);
    LessSuffix(p, [c], [d]);
  }

  /** Fixed-width fields sort like their numbers. */
  lemma {:induction false} PaddedLess(m: nat, n: nat, width: nat)
    requires width >= 1 && m < n < Power(width)
    ensures Less(Padded(m, width), Padded(n, width))
    decreases width
  {
    if width == 1 {
      assert Power(1) == 10 * Power(0);
      assert Padded(m, 1) == "" + [Digit(m)] && Padded(n, 1) == "" + [Digit(n)];
      LessLast("", Digit(m), Digit(n));
    } else {
      PaddedLast(m, width);
      PaddedLast(n, width);
      PaddedLessStep(m, n, width);
    }
  }

  lemma {:induction false} PaddedLessStep(m: nat, n: nat, width: nat)
    requires width >= 2 && m < n < Power(width)
    ensures Less(Padded(m / 10, width - 1) + [Digit(m % 10)], Padded(n / 10, width - 1) + [Digit(n % 10)])
    decreases width, 0
  {
    if m / 10 < n / 10 {
      PaddedLess(m / 10, n / 10, width - 1);
      LessPrefix(Padded(m / 10, width - 1), Padded(n / 10, width - 1), [Digit(m % 10)], [Digit(n % 10)]);
    } else {
      LessLast(Padded(m / 10, width - 1), Digit(m % 10), Digit(n % 10));
    }
  }

  // ----- the timestamp -------------------------------------------------------------

  /** The six fields of a moment. */
  datatype Moment = Moment(date: Date, hour: nat, minute: nat, second: nat)

  function MomentOf(secs: nat): Moment {
    var clock := secs % 86400;
    Moment(DaysToCivil(secs / 86400), clock / 3600, clock % 3600 / 60, clock % 60)
  }

  function Print(m: Moment): string
    requires m.date.year >= 0 && m.date.month >= 0 && m.date.day >= 0
  {
    Padded(m.date.year, 4) + "-" + Padded(m.date.month, 2) + "-" + Padded(m.date.day, 2) + "T"
    + Padded(m.hour, 2) + ":" + Padded(m.minute, 2) + ":" + Padded(m.second, 2) + "Z"
  }

  lemma MomentFits(secs: nat)
    ensures var m := MomentOf(secs);
            && IsDate(m.date) && m.date.year >= 1970 && m.hour < 24 && m.minute < 60 && m.second < 60
            && (secs < LIMIT ==> m.date.year < 10000)
  {
    var days := secs / 86400;
    FormsAgree(days);
    CivilValid(days);
    CivilAtEpoch();
    if days > 0 { CivilMonotone(0, days); }
    if secs < LIMIT { YearFits(days); }
  }

  /** The last day of year 9999 is day 2932896. */
  lemma YearFits(days: nat)
    requires days <= 2932896
    ensures CivilFromDays(days).year < 10000
  {
    var last := Date(9999, 12, 31);
    assert DayNumber(last) == 2932896;
    CivilOnto(last);
    if days < 2932896 { CivilMonotone(days, 2932896); }
  }

  /** What the logger prints for a moment. */
  function FormatUnixTimestamp(secs: nat): string {
    MomentFits(secs);
    Print(MomentOf(secs))
  }

  predicate Fits(m: Moment) {
    && IsDate(m.date) && 0 <= m.date.year < 10000 && m.hour < 24 && m.minute < 60 && m.second < 60
  }

  lemma FieldReads(n: nat, width: nat)
    requires (width == 2 && n < 100) || (width == 4 && n < 10000)
    ensures var s := Padded(n, width); |s| == width && AllDigits(s) && Value(s) == n
  {
    assert Power(1) == 10 * Power(0) && Power(2) == 10 * Power(1) && Power(3) == 10 * Power(2)
        && Power(4) == 10 * Power(3);
    PaddedReads(n, width);
  }

  lemma Joined(y: string, mo: string, d: string, h: string, mi: string, sec: string)
    requires |y| == 4 && |mo| == |d| == |h| == |mi| == |sec| == 2
    ensures var s := y + "-" + mo + "-" + d + "T" + h + ":" + mi + ":" + sec + "Z";
            && |s| == 20 && s[4] == '-' && s[7] == '-' && s[10] == 'T' && s[13] == ':' && s[16] == ':' && s[19] == 'Z'
            && s[..4] == y && s[5..7] == mo && s[8..10] == d && s[11..13] == h && s[14..16] == mi && s[17..19] == sec
  {
    var s := y + "-" + mo + "-" + d + "T" + h + ":" + mi + ":" + sec + "Z";
    assert s[5] == mo[0] && s[6] == mo[1] && s[8] == d[0] && s[9] == d[1];
    assert s[11] == h[0] && s[12] == h[1] && s[14] == mi[0] && s[15] == mi[1] && s[17] == sec[0] && s[18] == sec[1];
    assert forall i | 0 <= i < 4 :: s[i] == y[i];
  }

  /** The fields of a printed moment, at their fixed places. */
  lemma PrintLayout(m: Moment)
    requires Fits(m)
    ensures var s := Print(m);
            && |s| == 20 && s[4] == '-' && s[7] == '-' && s[10] == 'T' && s[13] == ':' && s[16] == ':' && s[19] == 'Z'
            && s[..4] == Padded(m.date.year, 4) && s[5..7] == Padded(m.date.month, 2)
               && s[8..10] == Padded(m.date.day, 2)
            && s[11..13] == Padded(m.hour, 2) && s[14..16] == Padded(m.minute, 2) && s[17..19] == Padded(m.second, 2)
  {
    FieldReads(m.date.year, 4);
    FieldReads(m.date.month, 2);
    FieldReads(m.date.day, 2);
    FieldReads(m.hour, 2);
    FieldReads(m.minute, 2);
    FieldReads(m.second, 2);
    Joined(Padded(m.date.year, 4), Padded(m.date.month, 2), Padded(m.date.day, 2),
           Padded(m.hour, 2), Padded(m.minute, 2), Padded(m.second, 2));
  }

  // ----- reading back ---------------------------------------------------------------

  datatype Parsed = Invalid | Seconds(secs: nat)

  predicate HasLayout(s: string) {
    && |s| == 20 && s[4] == '-' && s[7] == '-' && s[10] == 'T' && s[13] == ':' && s[16] == ':' && s[19] == 'Z'
    && AllDigits(s[..4]) && AllDigits(s[5..7]) && AllDigits(s[8..10])
    && AllDigits(s[11..13]) && AllDigits(s[14..16]) && AllDigits(s[17..19])
  }

  function Fields(s: string): Moment
    requires HasLayout(s)
  {
    Moment(Date(Value(s[..4]), Value(s[5..7]), Value(s[8..10])), Value(s[11..13]), Value(s[14..16]), Value(s[17..19]))
  }

  function SecondsOf(m: Moment): int {
    DayNumber(m.date) * 86400 + m.hour * 3600 + m.minute * 60 + m.second
  }

  /** Reads exactly the timestamps of the years 1970 to 9999. */
  function ParseTimestamp(s: string): Parsed {
    if !HasLayout(s) || !Fits(Fields(s)) || SecondsOf(Fields(s)) < 0 then Invalid else Seconds(SecondsOf(Fields(s)))
  }

  lemma MomentInverts(secs: nat)
    ensures SecondsOf(MomentOf(secs)) == secs
  {
    FormsAgree(secs / 86400);
    CivilInverts(secs / 86400);
    ClockInverts(secs);
  }

  lemma ClockInverts(secs: nat)
    ensures var c := secs % 86400; secs == secs / 86400 * 86400 + c / 3600 * 3600 + c % 3600 / 60 * 60 + c % 60
  {
    var c := secs % 86400;
    assert c % 3600 % 60 == c % 60 by { assert c == 60 * (60 * (c / 3600) + c % 3600 / 60) + c % 3600 % 60; }
  }

  /** Before year 10000 every timestamp has twenty characters and reads back as
      the second it was printed for. */
  lemma TimestampRoundTrip(secs: nat)
    requires secs < LIMIT
    ensures |FormatUnixTimestamp(secs)| == 20
    ensures ParseTimestamp(FormatUnixTimestamp(secs)) == Seconds(secs)
  {
    MomentFits(secs);
    var m := MomentOf(secs);
    PrintLayout(m);
    FieldReads(m.date.year, 4);
    FieldReads(m.date.month, 2);
    FieldReads(m.date.day, 2);
    FieldReads(m.hour, 2);
    FieldReads(m.minute, 2);
    FieldReads(m.second, 2);
    assert Fields(Print(m)) == m;
    MomentInverts(secs);
  }

  lemma MomentFromSeconds(m: Moment, n: nat)
    requires Fits(m) && SecondsOf(m) == n
    ensures MomentOf(n) == m
  {
    var clock := m.hour * 3600 + m.minute * 60 + m.second;
    assert n / 86400 == DayNumber(m.date) && n % 86400 == clock;
    assert clock / 3600 == m.hour && clock % 3600 / 60 == m.minute && clock % 60 == m.second by {
      ClockFields(m.hour, m.minute, m.second);
    }
    FormsAgree(n / 86400);
    CivilOnto(m.date);
  }

  lemma ClockFields(h: nat, m: nat, s: nat)
    requires h < 24 && m < 60 && s < 60
    ensures var c := h * 3600 + m * 60 + s; c / 3600 == h && c % 3600 / 60 == m && c % 60 == s
  {
    var c := h * 3600 + m * 60 + s;
    assert c % 3600 == m * 60 + s;
    assert c == 60 * (60 * h + m) + s;
  }

  lemma YearBounds(m: Moment)
    requires Fits(m)
    ensures SecondsOf(m) < LIMIT
  {
    var last := Date(9999, 12, 31);
    assert DayNumber(last) == 2932896;
    CivilOnto(last);
    CivilOnto(m.date);
    if DayNumber(m.date) > 2932896 {
      CivilMonotone(2932896, DayNumber(m.date));
      assert false;
    }
  }

  lemma SlicesJoin(s: string)
    requires |s| == 20
    ensures s == s[..4] + [s[4]] + s[5..7] + [s[7]] + s[8..10] + [s[10]]
                 + s[11..13] + [s[13]] + s[14..16] + [s[16]] + s[17..19] + [s[19]]
  {}

  lemma LayoutPrints(s: string)
    requires HasLayout(s) && Fits(Fields(s))
    ensures Print(Fields(s)) == s
  {
    ReadsPadded(s[..4]);
    ReadsPadded(s[5..7]);
    ReadsPadded(s[8..10]);
    ReadsPadded(s[11..13]);
    ReadsPadded(s[14..16]);
    ReadsPadded(s[17..19]);
    SlicesJoin(s);
  }

  /** Nothing else reads as a timestamp: what is accepted is what would be
      printed for the second it stands for. */
  lemma OnlyTimestampsRead(s: string, secs: nat)
    requires ParseTimestamp(s) == Seconds(secs)
    ensures secs < LIMIT && FormatUnixTimestamp(secs) == s
  {
    LayoutPrints(s);
    YearBounds(Fields(s));
    MomentFromSeconds(Fields(s), secs);
  }

  lemma KnownFields()
    ensures Padded(2023, 4) == "2023" && Padded(7, 2) == "07"
  {
    assert DigitsOf(20) == "20" && DigitsOf(202) == DigitsOf(20) + [Digit(2)];
    assert Zeros(1) == "0";
  }

  /** The fields in their order, with their separators. */
  lemma PrintedFields(m: Moment, secs: nat)
    requires Fits(m) && SecondsOf(m) == secs
    ensures FormatUnixTimestamp(secs) ==
              Padded(m.date.year, 4) + "-" + Padded(m.date.month, 2) + "-" + Padded(m.date.day, 2) + "T"
              + Padded(m.hour, 2) + ":" + Padded(m.minute, 2) + ":" + Padded(m.second, 2) + "Z"
  {
    MomentFromSeconds(m, secs);
  }

  // ----- order ----------------------------------------------------------------------------

  /** Earlier in the first field that differs. */
  predicate Earlier(a: Moment, b: Moment) {
    Before(a.date, b.date)
    || (a.date == b.date && (a.hour < b.hour || (a.hour == b.hour
        && (a.minute < b.minute || (a.minute == b.minute && a.second < b.second)))))
  }

  lemma DaysOrdered(x: nat, y: nat)
    requires x < y
    ensures Before(DaysToCivil(x), DaysToCivil(y))
  {
    FormsAgree(x);
    FormsAgree(y);
    CivilMonotone(x, y);
  }

  lemma SplitOrdered(m: nat, n: nat)
    requires m < n
    ensures m / 86400 < n / 86400 || (m / 86400 == n / 86400 && m % 86400 < n % 86400)
  {}

  lemma MomentsOrdered(m: nat, n: nat)
    requires m < n
    ensures Earlier(MomentOf(m), MomentOf(n))
  {
    SplitOrdered(m, n);
    if m / 86400 < n / 86400 {
      DaysOrdered(m / 86400, n / 86400);
    } else {
      ClockOrdered(m % 86400, n % 86400);
    }
  }

  lemma ClockOrdered(c: nat, d: nat)
    requires c < d < 86400
    ensures c / 3600 < d / 3600
            || (c / 3600 == d / 3600 && (c % 3600 / 60 < d % 3600 / 60
                || (c % 3600 / 60 == d % 3600 / 60 && c % 60 < d % 60)))
  {
    ClockInverts(c);
    ClockInverts(d);
  }

  lemma LessAt(s: string, t: string, o: nat, w: nat)
    requires |s| == |t| && o + w <= |s| && s[..o] == t[..o] && Less(s[o..o + w], t[o..o + w])
    ensures Less(s, t)
  {
    assert s == s[..o] + (s[o..o + w] + s[o + w..]) && t == t[..o] + (t[o..o + w] + t[o + w..]);
    LessPrefix(s[o..o + w], t[o..o + w], s[o + w..], t[o + w..]);
    LessSuffix(s[..o], s[o..o + w] + s[o + w..], t[o..o + w] + t[o + w..]);
  }

  lemma PrefixGrows(s: string, t: string, o: nat, w: nat)
    requires |s| == |t| && o + w < |s| && s[..o] == t[..o] && s[o..o + w] == t[o..o + w] && s[o + w] == t[o + w]
    ensures s[..o + w + 1] == t[..o + w + 1]
  {
    assert s[..o + w + 1] == s[..o] + s[o..o + w] + [s[o + w]];
    assert t[..o + w + 1] == t[..o] + t[o..o + w] + [t[o + w]];
  }

  lemma FieldLess(m: nat, n: nat, width: nat)
    requires m < n && ((width == 2 && n < 100) || (width == 4 && n < 10000))
    ensures Less(Padded(m, width), Padded(n, width))
  {
    assert Power(1) == 10 * Power(0) && Power(2) == 10 * Power(1) && Power(3) == 10 * Power(2)
        && Power(4) == 10 * Power(3);
    PaddedLess(m, n, width);
  }

  lemma DatesPrintOrdered(a: Moment, b: Moment)
    requires Fits(a) && Fits(b) && Before(a.date, b.date)
    ensures Less(Print(a), Print(b))
  {
    var s, t := Print(a), Print(b);
    PrintLayout(a);
    PrintLayout(b);
    if a.date.year < b.date.year {
      FieldLess(a.date.year, b.date.year, 4);
      assert s[0..4] == s[..4] && t[0..4] == t[..4];
      LessAt(s, t, 0, 4);
    } else {
      assert s[0..4] == s[..4] && t[0..4] == t[..4];
      PrefixGrows(s, t, 0, 4);
      if a.date.month < b.date.month {
        FieldLess(a.date.month, b.date.month, 2);
        LessAt(s, t, 5, 2);
      } else {
        PrefixGrows(s, t, 5, 2);
        FieldLess(a.date.day, b.date.day, 2);
        LessAt(s, t, 8, 2);
      }
    }
  }

  lemma ClocksPrintOrdered(a: Moment, b: Moment)
    requires Fits(a) && Fits(b) && a.date == b.date && Earlier(a, b)
    ensures Less(Print(a), Print(b))
  {
    var s, t := Print(a), Print(b);
    PrintLayout(a);
    PrintLayout(b);
    assert s[0..4] == s[..4] && t[0..4] == t[..4];
    PrefixGrows(s, t, 0, 4);
    PrefixGrows(s, t, 5, 2);
    PrefixGrows(s, t, 8, 2);
    if a.hour < b.hour {
      FieldLess(a.hour, b.hour, 2);
      LessAt(s, t, 11, 2);
    } else {
      PrefixGrows(s, t, 11, 2);
      if a.minute < b.minute {
        FieldLess(a.minute, b.minute, 2);
        LessAt(s, t, 14, 2);
      } else {
        PrefixGrows(s, t, 14, 2);
        FieldLess(a.second, b.second, 2);
        LessAt(s, t, 17, 2);
      }
    }
  }

  lemma TimestampLess(m: nat, n: nat)
    requires m < n < LIMIT
    ensures Less(FormatUnixTimestamp(m), FormatUnixTimestamp(n))
  {
    MomentFits(m);
    MomentFits(n);
    MomentsOrdered(m, n);
    if Before(MomentOf(m).date, MomentOf(n).date) {
      DatesPrintOrdered(MomentOf(m), MomentOf(n));
    } else {
      ClocksPrintOrdered(MomentOf(m), MomentOf(n));
    }
  }

  /** Before year 10000, sorting timestamps as strings sorts the times. */
  lemma TimestampOrder(m: nat, n: nat)
    requires m < LIMIT && n < LIMIT
    ensures m < n <==> Less(FormatUnixTimestamp(m), FormatUnixTimestamp(n))
  {
    if m < n {
      TimestampLess(m, n);
    } else if n < m {
      TimestampLess(n, m);
      LessAsymmetric(FormatUnixTimestamp(n), FormatUnixTimestamp(m));
    }
  }
}
