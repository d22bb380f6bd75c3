/**
 Reading the names of the deletion manifests back: hexadecimal digits to a UUID, and an ISO
 timestamp to the instant it stands for, by positional reading and the closed calendar formula.
 */
module ManifestReading {
  import opened Common
  import opened ManifestNames

  // ---------------------------------------------------------------- digits

  function DigitValue(ch: char): nat {
    if '0' <= ch <= '9' then ch as nat - '0' as nat
    else if 'a' <= ch <= 'f' then 10 + (ch as nat - 'a' as nat)
    else 0
  }

  function Radix(base: Base): nat {
    match base case Ten => 10 case Sixteen => 16
  }

  /** The number a text of digits stands for, the first digit counting most. */
  function Value(text: string, radix: nat): nat {
    if text == "" then 0 else radix * Value(text[..|text| - 1], radix) + DigitValue(text[|text| - 1])
  }

  lemma DigitReads(d: nat)
    requires d < 16
    ensures DigitValue(Digit(d)) == d
  {
  }

  lemma SplitsOff(n: nat, base: Base)
    ensures n == Radix(base) * Rest(n, base) + Last(n, base)
  {
  }

  /** Digits read back to the number they were written for. */
  lemma {:induction false} PaddedReads(n: nat, width: nat, base: Base)
    requires Short(n, width, base)
    ensures Value(Padded(n, width, base), Radix(base)) == n
  {
    if width > 0 {
      PaddedReads(Rest(n, base), width - 1, base);
      DigitReads(Last(n, base));
      SplitsOff(n, base);
      assert Padded(n, width, base)[..width - 1] == Padded(Rest(n, base), width - 1, base);
    }
  }

  /** The text of a UUID without its four hyphens is its number in base 16. */
  lemma UuidReadsBack(id: Id)
    requires IsUuid(id)
    ensures var t := UuidText(id);
      Value(WithoutHyphens(t), 16) == id && t[8] == '-' && t[13] == '-' && t[18] == '-' && t[23] == '-'
  {
    HexOfText(Padded(id, 32, Sixteen));
    PaddedReads(id, 32, Sixteen);
  }

  // ---------------------------------------------------------------- the calendar

  predicate Leap(year: nat) {
    year % 4 == 0 && (year % 100 != 0 || year % 400 == 0)
  }

  const BEFORE_MONTH: seq<nat> := [0, 31, 59, 90, 120, 151, 181, 212, 243, 273, 304, 334]

  /** The days from the first of January of year 1 to a date of the Gregorian calendar. */
  function DayNumber(year: nat, month: nat, day: nat): int
    requires year >= 1 && 1 <= month <= 12
  {
    365 * (year - 1) + (year - 1) / 4 - (year - 1) / 100 + (year - 1) / 400
    + BEFORE_MONTH[month - 1] + (if Leap(year) && month > 2 then 1 else 0) + day - 1
  }

  lemma MonthsBefore(year: nat, month: nat)
    requires 1 <= month <= 12
    ensures DaysBeforeMonth(year, month) == BEFORE_MONTH[month - 1] + if Leap(year) && month > 2 then 1 else 0
  {
    assert DaysBeforeMonth(year, 2) == 31;
    assert DaysBeforeMonth(year, 3) == YearLength(year) - 306;
    assert DaysBeforeMonth(year, 4) == YearLength(year) - 275;
    assert DaysBeforeMonth(year, 5) == YearLength(year) - 245;
    assert DaysBeforeMonth(year, 6) == YearLength(year) - 214;
    assert DaysBeforeMonth(year, 7) == YearLength(year) - 184;
    assert DaysBeforeMonth(year, 8) == YearLength(year) - 153;
    assert DaysBeforeMonth(year, 9) == YearLength(year) - 122;
    assert DaysBeforeMonth(year, 10) == YearLength(year) - 92;
    assert DaysBeforeMonth(year, 11) == YearLength(year) - 61;
    assert DaysBeforeMonth(year, 12) == YearLength(year) - 31;
  }

  /** The date of an instant is the one whose day number it has, counted from the first of January 1970. */
  lemma CivilIsTheDate(second: int)
    requires IsSecond(second)
    ensures var c := CivilOf(second);
      && c.year >= 1 && 1 <= c.month <= 12 && c.second < 86400
      && second == (DayNumber(c.year, c.month, c.day) - DayNumber(1970, 1, 1)) * 86400 + c.second
  {
    var c := CivilOf(second);
    var all := second + EPOCH_DAY * DAY;
    DaysBeforeClosed(c.year);
    MonthsBefore(c.year, c.month);
    assert all == DAY * (all / DAY) + all % DAY;
    assert DayNumber(c.year, c.month, c.day) == all / DAY;
    assert DayNumber(1970, 1, 1) == EPOCH_DAY;
  }

  // ---------------------------------------------------------------- timestamps

  /** The second that a text of the form YYYY-MM-DDThh:mm:ss stands for. */
  function ReadClock(t: string): int
    requires |t| == 19 && Value(t[..4], 10) >= 1 && 1 <= Value(t[5..7], 10) <= 12
  {
    (DayNumber(Value(t[..4], 10), Value(t[5..7], 10), Value(t[8..10], 10)) - DayNumber(1970, 1, 1)) * 86400
    + Value(t[11..13], 10) * 3600 + Value(t[14..16], 10) * 60 + Value(t[17..19], 10)
  }

  lemma ReadTwo(n: nat)
    requires n < 100
    ensures Value(Padded(n, 2, Ten), 10) == n
  {
    ShortTwo(n);
    PaddedReads(n, 2, Ten);
  }

  lemma DateFields(c: Civil, separator: string)
    requires |separator| == 1
    ensures var d := Date(c, separator);
      && |d| == 10 && d[..4] == Padded(c.year, 4, Ten) && d[5..7] == Padded(c.month, 2, Ten)
      && d[8..] == Padded(c.day, 2, Ten) && d[4] == d[7] == separator[0]
  {
  }

  lemma TimeFields(second: nat)
    ensures var t := TimeOfDay(second);
      && t[..2] == Padded(second / 3600, 2, Ten) && t[3..5] == Padded(second / 60 % 60, 2, Ten)
      && t[6..] == Padded(second % 60, 2, Ten) && t[2] == t[5] == ':'
  {
  }

  lemma ClockParts(second: int)
    requires IsSecond(second)
    ensures var t := Clock(second);
      t[..10] == Date(CivilOf(second), "-") && t[10] == 'T' && t[11..] == TimeOfDay(CivilOf(second).second)
  {
    DateFields(CivilOf(second), "-");
  }

  lemma Inside(t: string, i: nat, j: nat, a: nat, b: nat)
    requires i <= j <= |t| && a <= b <= j - i
    ensures t[i..j][a..b] == t[i + a..i + b]
  {
    forall k | 0 <= k < b - a ensures t[i..j][a..b][k] == t[i + a..i + b][k] {}
  }

  lemma DateAndTime(t: string, date: string, time: string)
    requires |t| == 19 && t[..10] == date && t[11..] == time
    ensures t[..4] == date[..4] && t[5..7] == date[5..7] && t[8..10] == date[8..]
    ensures t[11..13] == time[..2] && t[14..16] == time[3..5] && t[17..19] == time[6..]
  {
    Inside(t, 0, 10, 0, 4);
    Inside(t, 0, 10, 5, 7);
    Inside(t, 0, 10, 8, 10);
    Inside(t, 11, 19, 0, 2);
    Inside(t, 11, 19, 3, 5);
    Inside(t, 11, 19, 6, 8);
    assert t[11..19] == time && t[0..10] == date && date[8..10] == date[8..] && time[6..8] == time[6..];
  }

  /** The six numbers of a clock text. */
  lemma ClockFields(second: int)
    requires IsSecond(second)
    ensures var (t, c) := (Clock(second), CivilOf(second));
      && t[..4] == Padded(c.year, 4, Ten) && t[5..7] == Padded(c.month, 2, Ten) && t[8..10] == Padded(c.day, 2, Ten)
      && t[11..13] == Padded(c.second / 3600, 2, Ten) && t[14..16] == Padded(c.second / 60 % 60, 2, Ten)
      && t[17..19] == Padded(c.second % 60, 2, Ten)
  {
    ClockParts(second);
    DateFields(CivilOf(second), "-");
    TimeFields(CivilOf(second).second);
    DateAndTime(Clock(second), Date(CivilOf(second), "-"), TimeOfDay(CivilOf(second).second));
  }

  lemma ClockValues(second: int)
    requires IsSecond(second)
    ensures var (t, c) := (Clock(second), CivilOf(second));
      && Value(t[..4], 10) == c.year && Value(t[5..7], 10) == c.month && Value(t[8..10], 10) == c.day
      && Value(t[11..13], 10) == c.second / 3600 && Value(t[14..16], 10) == c.second / 60 % 60
      && Value(t[17..19], 10) == c.second % 60
  {
    var c := CivilOf(second);
    ClockFields(second);
    CivilBounds(second);
    ShortFour(c.year);
    PaddedReads(c.year, 4, Ten);
    ReadTwo(c.month);
    ReadTwo(c.day);
    ReadTwo(c.second / 3600);
    ReadTwo(c.second / 60 % 60);
    ReadTwo(c.second % 60);
  }

  lemma HoursMinutesSeconds(n: nat)
    ensures n / 3600 * 3600 + n / 60 % 60 * 60 + n % 60 == n
  {
    assert n / 60 / 60 == n / 3600;
  }

  /** The timestamp of a manifest reads back to its second. */
  lemma ClockReadsBack(second: int)
    requires IsSecond(second)
    ensures var t := Clock(second); Value(t[..4], 10) >= 1 && 1 <= Value(t[5..7], 10) <= 12 && ReadClock(t) == second
  {
    ClockValues(second);
    CivilIsTheDate(second);
    HoursMinutesSeconds(CivilOf(second).second);
  }

  /** And with the fraction, where there is one, to its microsecond. */
  lemma StampReadsBack(at: Time)
    requires IsInstant(at)
    ensures var t := Stamp(at);
      && 20 <= |t| && t[..19] == Clock(at / 1000000) && t[|t| - 1] == 'Z'
      && (if |t| == 20 then at % 1000000 == 0
          else |t| == 27 && t[19] == '.' && Value(t[20..26], 10) == at % 1000000 != 0)
  {
    var (t, u) := (Stamp(at), at % 1000000);
    assert t == Clock(at / 1000000) + Fraction(u);
    FractionReads(u);
    StampParts(t, Clock(at / 1000000), Fraction(u));
  }

  lemma FractionReads(u: nat)
    requires u < 1000000
    ensures var f := Fraction(u);
      f != "" && f[|f| - 1] == 'Z'
      && (if u == 0 then |f| == 1 else |f| == 8 && f[0] == '.' && Value(f[1..7], 10) == u)
  {
    ShortSix(u);
    PaddedReads(u, 6, Ten);
    if u != 0 { assert Fraction(u)[1..7] == Padded(u, 6, Ten); }
  }

  lemma StampParts(t: string, clock: string, fraction: string)
    requires t == clock + fraction && |clock| == 19 && fraction != ""
    ensures t[..19] == clock && |t| == 19 + |fraction| && t[|t| - 1] == fraction[|fraction| - 1]
    ensures t[19] == fraction[0]
    ensures |fraction| == 8 ==> t[20..26] == fraction[1..7]
  {
  }

  /** The day in an object key is the day of the manifest's timestamp. */
  lemma KeyDay(c: Codec, id: Id, at: Time)
    requires IsInstant(at)
    ensures var (key, t) := (ObjectKey(c, id, at), Stamp(at));
      && |key| >= |c.prefix| + 16 && key[..|c.prefix|] == c.prefix && key[|key| - 4..] == ".age"
      && var day := key[|c.prefix| + 1..|c.prefix| + 11];
         day[..4] == t[..4] && day[5..7] == t[5..7] && day[8..] == t[8..10] && day[4] == '/' && day[7] == '/'
  {
    var (key, c0) := (ObjectKey(c, id, at), CivilOf(at / 1000000));
    ClockFields(at / 1000000);
    DateFields(c0, "/");
    StampFields(at);
    KeyParts(c, id, at);
    Inside(key, |c.prefix| + 1, |c.prefix| + 11, 0, 4);
  }

  lemma StampFields(at: Time)
    requires IsInstant(at)
    ensures var (t, u) := (Stamp(at), Clock(at / 1000000));
      20 <= |t| && t[..4] == u[..4] && t[5..7] == u[5..7] && t[8..10] == u[8..10]
  {
    var t := Stamp(at);
    assert t[..19] == Clock(at / 1000000);
    Inside(t, 0, 19, 0, 4);
    Inside(t, 0, 19, 5, 7);
    Inside(t, 0, 19, 8, 10);
  }

  lemma KeyParts(c: Codec, id: Id, at: Time)
    requires IsInstant(at)
    ensures var (key, date) := (ObjectKey(c, id, at), Date(CivilOf(at / 1000000), "/"));
      && |date| == 10 && |key| >= |c.prefix| + 16 && key[..|c.prefix|] == c.prefix
      && key[|c.prefix| + 1..|c.prefix| + 11] == date && key[|key| - 4..] == ".age"
  {
    DateFields(CivilOf(at / 1000000), "/");
    KeySplit(ObjectKey(c, id, at), c.prefix, Date(CivilOf(at / 1000000), "/"), c.digest(TAG + Manifest(id, at)));
  }

  lemma KeySplit(key: string, prefix: string, date: string, digest: string)
    requires key == prefix + "/" + date + "/" + digest + ".age" && |date| == 10
    ensures |key| >= |prefix| + 16 && key[..|prefix|] == prefix
    ensures key[|prefix| + 1..|prefix| + 11] == date && key[|key| - 4..] == ".age"
  {
  }
}
