/**
 * `TimeUtils` of public/assets/js/utils/TimeUtils.js: date formatting,
 * relative-time wording, time differences and the same-day test.
 *
 * The clock is a parameter. A `Date` is given by the local calendar fields
 * its getters return, or by its time value in milliseconds, whichever the
 * function reads; the calendar that links the two is outside the model.
 */
module TimeUtils {
  import opened Wrappers
  import opened Text

  /** The fields `getFullYear`, `getMonth` (0-based), `getDate`, `getHours`, `getMinutes`, `getSeconds` return. */
  datatype DateParts = DateParts(year: int, month: int, day: int, hours: int, minutes: int, seconds: int)

  /** The ranges those getters return values in. */
  predicate ValidParts(d: DateParts)
  {
    && 0 <= d.month <= 11 && 1 <= d.day <= 31
    && 0 <= d.hours <= 23 && 0 <= d.minutes <= 59 && 0 <= d.seconds <= 59
  }

  // ---------------------------------------------------------------------------
  // formatDate

  /** `String(n).padStart(2, '0')`. */
  function Pad2(n: nat): (s: string)
    ensures AllDigits(s) && |s| >= 2
    ensures n < 100 ==> |s| == 2
  {
    if n < 10 then "0" + NatToString(n) else NatToString(n)
  }

  /** Padding keeps the value: a two-digit result reads back as `n`, and from 10 on nothing is added. */
  lemma Pad2Value(n: nat)
    ensures n < 100 ==> ParseDigits(Pad2(n)) == n
    ensures n >= 10 ==> Pad2(n) == NatToString(n)
  {
    ParseNatToString(n);
    if n < 10 {
      assert ParseDigits("0") == 0;
      assert ("0" + NatToString(n))[..1] == "0";
    }
  }

  /** `pat` occurs in `s` at position `k`. */
  predicate OccursAt(s: string, pat: string, k: int)
  {
    0 <= k && k + |pat| <= |s| && s[k..k + |pat|] == pat
  }

  /** The first position from `from` on at which `pat` occurs in `s` (`indexOf`). */
  function Find(s: string, pat: string, from: nat): (i: Option<nat>)
    requires |pat| > 0
    ensures i.Some? ==> from <= i.value && OccursAt(s, pat, i.value)
    ensures forall k :: from <= k && (i.None? || k < i.value) ==> !OccursAt(s, pat, k)
    decreases |s| - from
  {
    if from + |pat| > |s| then None
    else if s[from..from + |pat|] == pat then Some(from)
    else Find(s, pat, from + 1)
  }

  /** `s.replace(pat, rep)` with a string pattern: only the first occurrence is replaced. */
  function ReplaceFirst(s: string, pat: string, rep: string): string
    requires |pat| > 0
  {
    match Find(s, pat, 0)
    case None => s
    case Some(i) => s[..i] + rep + s[i + |pat|..]
  }

  const DefaultFormat: string := "YYYY-MM-DD"

  /** The six values `formatDate` puts into a format, already rendered. */
  datatype Fields = Fields(year: string, month: string, day: string, hours: string, minutes: string, seconds: string)

  /** The year as `String` renders it; the 1-based month, day, hours, minutes and seconds zero-padded. */
  function Render(d: DateParts): (f: Fields)
    requires ValidParts(d)
    ensures Numeric(f.year) && AllDigits(f.month) && AllDigits(f.day)
    ensures |f.month| == 2 && |f.day| == 2 && |f.hours| == 2 && |f.minutes| == 2 && |f.seconds| == 2
  {
    Fields(IntToString(d.year), Pad2(d.month + 1), Pad2(d.day), Pad2(d.hours), Pad2(d.minutes), Pad2(d.seconds))
  }

  /** The chain of `replace` calls: each placeholder at its first occurrence, case-sensitively. */
  function Substitute(format: string, f: Fields): string
  {
    ReplaceFirst(ReplaceFirst(ReplaceFirst(ReplaceFirst(ReplaceFirst(ReplaceFirst(
      format, "YYYY", f.year), "MM", f.month), "DD", f.day), "HH", f.hours), "mm", f.minutes), "ss", f.seconds)
  }

  /**
   * `formatDate`: `YYYY` becomes the year, then `MM`, `DD`, `HH`, `mm`, `ss`
   * the zero-padded month (1-based), day, hours, minutes and seconds.
   */
  function FormatDate(d: DateParts, format: string): string
    requires ValidParts(d)
  {
    Substitute(format, Render(d))
  }

  /** `pat` is first found at `i` when it occurs there and its first character does not occur before. */
  lemma FindAt(s: string, pat: string, i: nat)
    requires |pat| > 0 && OccursAt(s, pat, i)
    requires forall k :: 0 <= k < i ==> s[k] != pat[0]
    ensures Find(s, pat, 0) == Some(i)
  {
    forall k | 0 <= k < i
      ensures !OccursAt(s, pat, k)
    {
      if k + |pat| <= |s| {
        assert s[k..k + |pat|][0] == s[k];
      }
    }
  }

  /** `pat` is not found when its first character does not occur at all. */
  lemma FindNone(s: string, pat: string)
    requires |pat| > 0
    requires forall k :: 0 <= k < |s| ==> s[k] != pat[0]
    ensures Find(s, pat, 0).None?
  {
    forall k | 0 <= k
      ensures !OccursAt(s, pat, k)
    {
      if k + |pat| <= |s| {
        assert s[k..k + |pat|][0] == s[k];
      }
    }
  }

  /** Replacing in `a + b`, where `a` cannot hold the pattern and `b` starts with it. */
  lemma ReplaceAfter(a: string, b: string, pat: string, rep: string)
    requires |pat| > 0 && |pat| <= |b| && b[..|pat|] == pat
    requires forall k :: 0 <= k < |a| ==> a[k] != pat[0]
    ensures ReplaceFirst(a + b, pat, rep) == a + rep + b[|pat|..]
  {
    var s := a + b;
    assert s[|a|..|a| + |pat|] == b[..|pat|];
    FindAt(s, pat, |a|);
    assert s[..|a|] == a && s[|a| + |pat|..] == b[|pat|..];
  }

  /** Characters a rendered year or a padded field can hold. */
  predicate Numeric(s: string)
  {
    forall k :: 0 <= k < |s| ==> IsDigit(s[k]) || s[k] == '-'
  }

  /** A numeric string holds no placeholder, so replacing one leaves it as it is. */
  lemma ReplaceInNumeric(s: string, pat: string, rep: string)
    requires Numeric(s) && |pat| > 0 && !IsDigit(pat[0]) && pat[0] != '-'
    ensures ReplaceFirst(s, pat, rep) == s
  {
    FindNone(s, pat);
  }

  /** A pattern whose first character does not occur in `s` leaves `s` as it is. */
  lemma ReplaceAbsent(s: string, pat: string, rep: string)
    requires |pat| > 0
    requires forall k :: 0 <= k < |s| ==> s[k] != pat[0]
    ensures ReplaceFirst(s, pat, rep) == s
  {
    FindNone(s, pat);
  }

  /** The steps of the default format, one placeholder at a time. */
  lemma ReplaceYear(y: string)
    ensures ReplaceFirst(DefaultFormat, "YYYY", y) == y + "-MM-DD"
  {
    ReplaceAfter([], DefaultFormat, "YYYY", y);
    assert [] + DefaultFormat == DefaultFormat && DefaultFormat[4..] == "-MM-DD";
  }

  lemma ReplaceMonth(y: string, m: string)
    requires Numeric(y)
    ensures ReplaceFirst(y + "-MM-DD", "MM", m) == y + "-" + m + "-DD"
  {
    assert Numeric(y + "-");
    ReplaceAfter(y + "-", "MM-DD", "MM", m);
    assert y + "-MM-DD" == (y + "-") + "MM-DD";
  }

  lemma ReplaceDay(y: string, m: string, dd: string)
    requires Numeric(y) && AllDigits(m)
    ensures ReplaceFirst(y + "-" + m + "-DD", "DD", dd) == y + "-" + m + "-" + dd
  {
    assert Numeric(y + "-" + m + "-");
    ReplaceAfter(y + "-" + m + "-", "DD", "DD", dd);
    assert y + "-" + m + "-DD" == (y + "-" + m + "-") + "DD";
  }

  lemma ReplaceTime(s: string, f: Fields)
    requires Numeric(s)
    ensures ReplaceFirst(ReplaceFirst(ReplaceFirst(s, "HH", f.hours), "mm", f.minutes), "ss", f.seconds) == s
  {
    ReplaceInNumeric(s, "HH", f.hours);
    ReplaceInNumeric(s, "mm", f.minutes);
    ReplaceInNumeric(s, "ss", f.seconds);
  }

  /** The default format gives the year, the month and the day joined by dashes. */
  lemma SubstituteDefault(f: Fields)
    requires Numeric(f.year) && AllDigits(f.month) && AllDigits(f.day)
    ensures Substitute(DefaultFormat, f) == f.year + "-" + f.month + "-" + f.day
  {
    ReplaceYear(f.year);
    ReplaceMonth(f.year, f.month);
    ReplaceDay(f.year, f.month, f.day);
    assert Numeric(f.year + "-" + f.month + "-" + f.day);
    ReplaceTime(f.year + "-" + f.month + "-" + f.day, f);
  }

  /** The fields `Render` produces, one by one. */
  lemma RenderFields(d: DateParts)
    requires ValidParts(d)
    ensures Render(d) == Fields(IntToString(d.year), Pad2(d.month + 1), Pad2(d.day), Pad2(d.hours), Pad2(d.minutes), Pad2(d.seconds))
  {
  }

  /** The default format gives the year, the 1-based month and the day, padded and joined by dashes. */
  lemma DefaultFormatDate(d: DateParts)
    requires ValidParts(d)
    ensures FormatDate(d, DefaultFormat) == IntToString(d.year) + "-" + Pad2(d.month + 1) + "-" + Pad2(d.day)
  {
    SubstituteDefault(Render(d));
    RenderFields(d);
  }

  lemma ReplaceRepeated(y: string, m: string)
    ensures ReplaceFirst(ReplaceFirst("MM/MM", "YYYY", y), "MM", m) == m + "/MM"
  {
    ReplaceAbsent("MM/MM", "YYYY", y);
    ReplaceAfter([], "MM/MM", "MM", m);
    assert [] + "MM/MM" == "MM/MM" && "MM/MM"[2..] == "/MM";
  }

  lemma ReplaceAfterRepeated(m: string, f: Fields)
    requires AllDigits(m)
    ensures var s := m + "/MM";
      ReplaceFirst(ReplaceFirst(ReplaceFirst(ReplaceFirst(s, "DD", f.day), "HH", f.hours), "mm", f.minutes), "ss", f.seconds) == s
  {
    var s := m + "/MM";
    ReplaceAbsent(s, "DD", f.day);
    ReplaceAbsent(s, "HH", f.hours);
    ReplaceAbsent(s, "mm", f.minutes);
    ReplaceAbsent(s, "ss", f.seconds);
  }

  /** Only the first `MM` is replaced: a repeated placeholder stays in the output. */
  lemma SubstituteRepeated(f: Fields)
    requires AllDigits(f.month)
    ensures Substitute("MM/MM", f) == f.month + "/MM"
  {
    ReplaceRepeated(f.year, f.month);
    ReplaceAfterRepeated(f.month, f);
  }

  lemma FirstOccurrenceOnly(d: DateParts)
    requires ValidParts(d)
    ensures FormatDate(d, "MM/MM") == Pad2(d.month + 1) + "/MM"
  {
    SubstituteRepeated(Render(d));
    RenderFields(d);
  }

  // ---------------------------------------------------------------------------
  // getRelativeTime

  datatype Unit = Minute | Hour | Day | Month | Year

  /** The length of a unit in seconds; a month is 30 days and a year 365. */
  function UnitSeconds(u: Unit): nat
  {
    match u
    case Minute => 60
    case Hour => 3600
    case Day => 86400
    case Month => 2592000
    case Year => 31536000
  }

  function UnitName(u: Unit): string
  {
    match u
    case Minute => "minute"
    case Hour => "hour"
    case Day => "day"
    case Month => "month"
    case Year => "year"
  }

  /** The order of the buckets. */
  function Rank(u: Unit): nat
  {
    match u
    case Minute => 0
    case Hour => 1
    case Day => 2
    case Month => 3
    case Year => 4
  }

  /** The wording chosen for a difference: "just now", or a count of some unit. */
  datatype Relative = JustNow | Ago(count: int, unit: Unit)

  /**
   * The if-chain of `getRelativeTime`: under a minute (negative differences
   * included) is "just now"; otherwise the largest unit not exceeding the
   * difference, counted with `Math.floor`.
   */
  function Bucket(diff: int): (b: Relative)
    ensures b.JustNow? <==> diff < 60
    ensures b.Ago? ==>
              && UnitSeconds(b.unit) <= diff
              && (b.unit != Year ==> diff < NextThreshold(b.unit))
              && b.count == diff / UnitSeconds(b.unit)
              && b.count >= 1
  {
    if diff < 60 then JustNow
    else if diff < 3600 then Ago(diff / 60, Minute)
    else if diff < 86400 then Ago(diff / 3600, Hour)
    else if diff < 2592000 then Ago(diff / 86400, Day)
    else if diff < 31536000 then Ago(diff / 2592000, Month)
    else Ago(diff / 31536000, Year)
  }

  /** Where the bucket of a unit ends: the length of the next unit. */
  function NextThreshold(u: Unit): nat
  {
    match u
    case Minute => 3600
    case Hour => 86400
    case Day => 2592000
    case Month => 31536000
    case Year => 0
  }

  /** A later moment never gets a smaller unit, and within one unit never a smaller count. */
  lemma BucketMonotone(d1: int, d2: int)
    requires d1 <= d2 && Bucket(d1).Ago?
    ensures Bucket(d2).Ago?
    ensures Rank(Bucket(d1).unit) <= Rank(Bucket(d2).unit)
    ensures Bucket(d1).unit == Bucket(d2).unit ==> Bucket(d1).count <= Bucket(d2).count
  {
  }

  /** `${n} unit${n > 1 ? 's' : ''} ago`. */
  function RelativeText(b: Relative): string
  {
    match b
    case JustNow => "just now"
    case Ago(n, u) => IntToString(n) + " " + UnitName(u) + (if n > 1 then "s" else "") + " ago"
  }

  /**
   * `getRelativeTime` for the clock reading `nowMs`: `date` is the time value
   * of the argument, or nothing for an invalid date, whose difference is NaN:
   * every comparison fails and the text is "NaN year ago".
   */
  function GetRelativeTime(nowMs: int, date: Option<int>): string
  {
    match date
    case None => "NaN year ago"
    case Some(ms) => RelativeText(Bucket((nowMs - ms) / 1000))
  }

  /**
   * The text is "just now" exactly when less than a minute has passed, which
   * includes every date in the future; otherwise it is a positive count, a
   * unit and the plural `s` exactly when the count exceeds one.
   */
  lemma RelativeTimeWording(nowMs: int, ms: int)
    ensures var diff := (nowMs - ms) / 1000;
      && (GetRelativeTime(nowMs, Some(ms)) == "just now" <==> diff < 60)
      && (ms >= nowMs ==> GetRelativeTime(nowMs, Some(ms)) == "just now")
      && (diff >= 60 ==>
            var b := Bucket(diff);
            GetRelativeTime(nowMs, Some(ms))
              == NatToString(b.count) + " " + UnitName(b.unit) + (if b.count > 1 then "s" else "") + " ago")
  {
    var diff := (nowMs - ms) / 1000;
    if diff >= 60 {
      var t := GetRelativeTime(nowMs, Some(ms));
      assert t[0] == IntToString(Bucket(diff).count)[0];
      assert IsDigit(t[0]);
    }
  }

  // ---------------------------------------------------------------------------
  // getTimeDifference and isToday

  datatype Difference = Difference(milliseconds: nat, seconds: nat, minutes: nat, hours: nat, days: nat)

  /** `getTimeDifference` on two time values in milliseconds. */
  function GetTimeDifference(date1: int, date2: int): (d: Difference)
    ensures d.milliseconds == if date2 >= date1 then date2 - date1 else date1 - date2
  {
    var diff: nat := if date2 - date1 >= 0 then date2 - date1 else date1 - date2;
    Difference(diff, diff / 1000, diff / 60000, diff / 3600000, diff / 86400000)
  }

  /**
   * The difference does not depend on the order of the arguments, and each
   * field is the previous one in the next larger unit, rounded down.
   */
  lemma TimeDifferenceProperties(date1: int, date2: int)
    ensures GetTimeDifference(date1, date2) == GetTimeDifference(date2, date1)
    ensures var d := GetTimeDifference(date1, date2);
      && d.seconds == d.milliseconds / 1000
      && d.minutes == d.seconds / 60
      && d.hours == d.minutes / 60
      && d.days == d.hours / 24
  {
  }

  /** `isToday` against the clock's calendar fields: same day, month and year. */
  predicate IsToday(d: DateParts, today: DateParts)
  {
    d.day == today.day && d.month == today.month && d.year == today.year
  }

  /** Distinct integers render to distinct strings. */
  lemma IntToStringInjective(a: int, b: int)
    requires IntToString(a) == IntToString(b)
    ensures a == b
  {
    if a < 0 && b < 0 {
      assert IntToString(a)[1..] == NatToString(-a);
      assert IntToString(b)[1..] == NatToString(-b);
      NatToStringInjective(-a, -b);
    } else if a >= 0 && b >= 0 {
      NatToStringInjective(a, b);
    }
  }

  /** The `YYYY-MM-DD` text determines the year and the two padded fields. */
  lemma JoinedDateInjective(y1: int, m1: nat, d1: nat, y2: int, m2: nat, d2: nat)
    requires m1 < 100 && d1 < 100 && m2 < 100 && d2 < 100
    requires IntToString(y1) + "-" + Pad2(m1) + "-" + Pad2(d1) == IntToString(y2) + "-" + Pad2(m2) + "-" + Pad2(d2)
    ensures y1 == y2 && m1 == m2 && d1 == d2
  {
    var a1, a2 := IntToString(y1), IntToString(y2);
    var s1 := a1 + "-" + Pad2(m1) + "-" + Pad2(d1);
    var s2 := a2 + "-" + Pad2(m2) + "-" + Pad2(d2);
    assert |a1| == |a2|;
    assert s1[..|a1|] == a1 && s2[..|a2|] == a2;
    IntToStringInjective(y1, y2);
    assert s1[|a1| + 1..|a1| + 3] == Pad2(m1) && s2[|a2| + 1..|a2| + 3] == Pad2(m2);
    assert s1[|a1| + 4..] == Pad2(d1) && s2[|a2| + 4..] == Pad2(d2);
    Pad2Value(m1);
    Pad2Value(m2);
    Pad2Value(d1);
    Pad2Value(d2);
  }

  /** A date is "today" exactly when it formats to the same `YYYY-MM-DD` as today. */
  lemma IsTodayIffSameDefaultFormat(d: DateParts, today: DateParts)
    requires ValidParts(d) && ValidParts(today)
    ensures IsToday(d, today) <==> FormatDate(d, DefaultFormat) == FormatDate(today, DefaultFormat)
  {
    DefaultFormatDate(d);
    DefaultFormatDate(today);
    SameDayText(d, today);
  }

  /** The `YYYY-MM-DD` texts of two dates agree exactly when their day, month and year do. */
  lemma SameDayText(d: DateParts, today: DateParts)
    requires ValidParts(d) && ValidParts(today)
    ensures IsToday(d, today)
        <==> IntToString(d.year) + "-" + Pad2(d.month + 1) + "-" + Pad2(d.day)
             == IntToString(today.year) + "-" + Pad2(today.month + 1) + "-" + Pad2(today.day)
  {
    if IntToString(d.year) + "-" + Pad2(d.month + 1) + "-" + Pad2(d.day)
       == IntToString(today.year) + "-" + Pad2(today.month + 1) + "-" + Pad2(today.day)
    {
      JoinedDateInjective(d.year, d.month + 1, d.day, today.year, today.month + 1, today.day);
    }
  }
}
