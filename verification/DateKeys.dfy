/** "YYYY-MM-DD" keys, and shifting one by a number of days through a UTC `Date`. */
module DateKeys {
  import opened Options
  import opened Text
  import opened Calendar

  // ---------- Keys ----------

  /** The numbers a key can spell: four digits of year, two of month and two of day. */
  predicate Spellable(c: Civil) {
    0 <= c.year < 10_000 && 0 <= c.month < 100 && 0 <= c.day < 100
  }

  lemma Powers()
    ensures Pow10(2) == 100 && Pow10(4) == 10_000 && Pow10(6) == 1_000_000
  {
    assert Pow10(3) == 1000;
    assert Pow10(5) == 100_000;
  }

  function Key(c: Civil): (s: string)
    requires Spellable(c)
    ensures |s| == 10
  {
    Powers();
    Padded(c.year, 4) + "-" + Padded(c.month, 2) + "-" + Padded(c.day, 2)
  }

  predicate KeyShaped(s: string) {
    && |s| == 10
    && (forall i :: 0 <= i < 10 && i !in {4, 7} ==> IsDigit(s[i]))
    && s[4] == '-' && s[7] == '-'
  }

  function Parse(s: string): (c: Civil)
    requires KeyShaped(s)
    ensures Spellable(c) && Key(c) == s
  {
    Powers();
    assert s == s[..4] + "-" + s[5..7] + "-" + s[8..];
    Civil(NumberValue(s[..4]), NumberValue(s[5..7]), NumberValue(s[8..]))
  }

  /** A key of a real day of the years 0000 to 9999. */
  predicate IsKey(s: string) {
    KeyShaped(s) && IsDate(Parse(s))
  }

  function DayOf(key: string): int
    requires IsKey(key)
  {
    DayNumber(Parse(key))
  }

  lemma KeyLess(a: Civil, b: Civil)
    requires Spellable(a) && Spellable(b)
    ensures StrLess(Key(a), Key(b)) <==> Before(a, b)
  {
    Powers();
    PaddedLess(a.year, b.year, 4);
    PaddedLess(a.month, b.month, 2);
    PaddedLess(a.day, b.day, 2);
    var ya, am, ad := Padded(a.year, 4), Padded(a.month, 2), Padded(a.day, 2);
    var yb, bm, bd := Padded(b.year, 4), Padded(b.month, 2), Padded(b.day, 2);
    assert Key(a) == ya + ("-" + (am + ("-" + ad))) && Key(b) == yb + ("-" + (bm + ("-" + bd)));
    StrLessConcat(ya, "-" + (am + ("-" + ad)), yb, "-" + (bm + ("-" + bd)));
    StrLessConcat("-", am + ("-" + ad), "-", bm + ("-" + bd));
    StrLessConcat(am, "-" + ad, bm, "-" + bd);
    StrLessConcat("-", ad, "-", bd);
    StrLessTotal("-", "-");
  }

  lemma KeyInjective(a: Civil, b: Civil)
    requires Spellable(a) && Spellable(b) && Key(a) == Key(b)
    ensures a == b
  {
    KeyLess(a, b);
    KeyLess(b, a);
    StrLessTotal(Key(a), Key(b));
  }

  lemma KeyOfDate(c: Civil)
    requires IsDate(c) && 0 <= c.year < 10_000
    ensures DayInRange(c) && IsKey(Key(c)) && Parse(Key(c)) == c
  {
    MonthLengths(c.year, c.month);
    KeyInjective(Parse(Key(c)), c);
  }

  predicate DayInRange(c: Civil) {
    1 <= c.month <= 12 && 1 <= c.day <= 31
  }

  lemma MonthLengths(y: int, m: int)
    requires 1 <= m <= 12
    ensures 28 <= DaysInMonth(y, m) <= 31
  {
  }

  /** String order on keys is calendar order. */
  lemma KeyOrder(a: string, b: string)
    requires IsKey(a) && IsKey(b)
    ensures StrLess(a, b) <==> DayOf(a) < DayOf(b)
    ensures a == b <==> DayOf(a) == DayOf(b)
  {
    KeyLess(Parse(a), Parse(b));
    BeforeIsEarlier(Parse(a), Parse(b));
  }

  // ---------- Shifting ----------

  const MS_PER_DAY: int := 86_400_000
  const NOON: int := 43_200_000
  const MAX_TIME: int := 8_640_000_000_000_000

  predicate IsTime(t: int) {
    -MAX_TIME <= t <= MAX_TIME
  }

  /** The time of day a key is read at. */
  datatype Anchor = Midnight | Noon {
    function Ms(): int {
      if Midnight? then 0 else NOON
    }
  }

  /** The days whose anchored time a `Date` can hold. */
  predicate InTimeRange(day: int, anchor: Anchor) {
    -100_000_000 <= day <= (if anchor.Midnight? then 100_000_000 else 99_999_999)
  }

  lemma TimeRange(day: int, anchor: Anchor)
    ensures IsTime(day * MS_PER_DAY + anchor.Ms()) <==> InTimeRange(day, anchor)
  {
  }

  /** The date part of `toISOString`: years outside 0000..9999 take a sign and six digits. */
  function IsoDate(c: Civil): string
    requires DayInRange(c) && -1_000_000 < c.year < 1_000_000
  {
    Powers();
    if 0 <= c.year < 10_000 then Key(c)
    else
      (if c.year < 0 then "-" + Padded(-c.year, 6) else "+" + Padded(c.year, 6))
      + "-" + Padded(c.month, 2) + "-" + Padded(c.day, 2)
  }

  lemma TimeYears(day: int)
    requires InTimeRange(day, Midnight)
    ensures -1_000_000 < CivilOf(day).year < 1_000_000
    ensures DayInRange(CivilOf(day))
  {
    var y := CivilOf(day).year;
    WithinYear(CivilOf(day));
    YearLength(y);
    if y >= 1_000_000 && y > 1_000_000 { LaterYear(1_000_000, y); }
    if y <= -1_000_000 && y + 1 < -999_999 { LaterYear(y + 1, -999_999); }
    MonthLengths(CivilOf(day).year, CivilOf(day).month);
  }

  /** The first ten characters of the ISO form of a day. */
  ghost function IsoKey(day: int): (s: string)
    requires InTimeRange(day, Midnight)
  {
    TimeYears(day);
    IsoDate(CivilOf(day))[..10]
  }

  /** The key of a day, or nothing when the anchored time is outside the Date range. */
  ghost function KeyAt(day: int, anchor: Anchor): Option<string>
  {
    if InTimeRange(day, anchor) then Some(IsoKey(day)) else None
  }

  /** What shifting must produce: the key of the day `days` later. */
  ghost function Shifted(key: string, days: int, anchor: Anchor): Option<string>
    requires IsKey(key)
  {
    KeyAt(DayOf(key) + days, anchor)
  }

  /** Day and TimeWithinDay of section 21.4.1 of ECMA-262. */
  function DayInTime(t: int): int {
    t / MS_PER_DAY
  }

  function MsInDay(t: int): int {
    t % MS_PER_DAY
  }

  /** A JavaScript `Date` read and written in UTC; None is an invalid date. */
  class UtcDate {
    var time: Option<int>

    constructor (day: int, anchor: Anchor)
      ensures time == Some(day * MS_PER_DAY + anchor.Ms())
    {
      time := Some(day * MS_PER_DAY + anchor.Ms());
    }

    function Day(): int
      requires time.Some?
      reads this
    {
      DayInTime(time.value)
    }

    method Fields() returns (c: Civil)
      requires time.Some?
      ensures c == CivilOf(Day())
    {
      CivilFromDayIsCivilOf(Day());
      c := CivilFromDay(Day());
    }

    method GetUTCDate() returns (date: int)
      requires time.Some?
      ensures date == CivilOf(Day()).day
    {
      var c := Fields();
      date := c.day;
    }

    /**
      Moves to day-of-month `date` of the current month. A date past either end of the month
      runs over into the months around it, one day at a time.
    */
    method SetUTCDate(date: int)
      requires time.Some?
      modifies this
      ensures var t := (old(Day()) + date - CivilOf(old(Day())).day) * MS_PER_DAY + MsInDay(old(time.value));
              time == if IsTime(t) then Some(t) else None
    {
      var c := Fields();
      var moved := MakeDay(c.year, c.month - 1, date);
      MakeDayMoves(c, date - c.day);
      assert moved == Day() + date - c.day;
      var t := moved * MS_PER_DAY + MsInDay(time.value);
      time := if IsTime(t) then Some(t) else None;
    }

    method ToIsoKey() returns (key: string)
      requires time.Some? && InTimeRange(Day(), Midnight)
      ensures key == IsoKey(Day())
    {
      TimeYears(Day());
      var c := Fields();
      key := IsoDate(c)[..10];
    }
  }

  lemma SplitTime(day: int, ms: int)
    requires 0 <= ms < MS_PER_DAY
    ensures DayInTime(day * MS_PER_DAY + ms) == day
    ensures MsInDay(day * MS_PER_DAY + ms) == ms
  {
  }

  method ShiftDay(day: int, days: int, anchor: Anchor) returns (shifted: Option<string>)
    ensures shifted == KeyAt(day + days, anchor)
  {
    hide CivilOf, IsoKey, DayInTime, MsInDay, IsTime;
    var d := new UtcDate(day, anchor);
    SplitTime(day, anchor.Ms());
    var date := d.GetUTCDate();
    d.SetUTCDate(date + days);
    TimeRange(day + days, anchor);
    if d.time.None? {
      return None; // toISOString throws
    }
    SplitTime(day + days, anchor.Ms());
    var iso := d.ToIsoKey();
    shifted := Some(iso);
  }

  /** CostsPage: anchored at midnight. */
  method ShiftDate(dateStr: string, days: int) returns (shifted: Option<string>)
    requires IsKey(dateStr)
    ensures shifted == Shifted(dateStr, days, Midnight)
  {
    hide DayOf, KeyAt, IsKey;
    shifted := ShiftDay(DayOf(dateStr), days, Midnight);
  }

  /** CostModule: anchored at noon. */
  method ShiftKey(key: string, days: int) returns (shifted: Option<string>)
    requires IsKey(key)
    ensures shifted == Shifted(key, days, Noon)
  {
    hide DayOf, KeyAt, IsKey;
    shifted := ShiftDay(DayOf(key), days, Noon);
  }

  /** Years 0000 to 9999, as day numbers. */
  predicate FourDigitDay(day: int) {
    -719_528 <= day < 2_932_897
  }

  lemma FourDigitYears(day: int)
    requires FourDigitDay(day)
    ensures 0 <= CivilOf(day).year < 10_000
    ensures InTimeRange(day, Midnight) && InTimeRange(day, Noon)
  {
    var y := CivilOf(day).year;
    WithinYear(CivilOf(day));
    YearLength(y);
    if y < -1 { LaterYear(y + 1, 0); }
    if y > 10_000 { LaterYear(10_000, y); }
  }

  lemma KeysAreFourDigit(key: string)
    requires IsKey(key)
    ensures FourDigitDay(DayOf(key))
  {
    var c := Parse(key);
    FourDigitFrom(c);
  }

  lemma FourDigitFrom(c: Civil)
    requires IsDate(c) && 0 <= c.year < 10_000
    ensures FourDigitDay(DayNumber(c))
  {
    hide DayNumber, DayFromYear, IsLeap;
    WithinYear(c);
    if c.year > 0 { LaterYear(0, c.year); }
    if c.year < 9999 { LaterYear(c.year, 10_000); }
    YearLength(9999);
    YearEnds();
  }

  lemma YearEnds()
    ensures DayFromYear(0) == -719_528 && DayFromYear(10_000) == 2_932_897
  {
  }

  lemma KeyAtIsKey(day: int, anchor: Anchor)
    requires FourDigitDay(day)
    ensures var r := KeyAt(day, anchor);
            r.Some? && IsKey(r.value) && DayOf(r.value) == day
  {
    FourDigitYears(day);
    var c := CivilOf(day);
    KeyOfDate(c);
    assert IsoKey(day) == Key(c) by {
      assert IsoDate(c) == Key(c);
    }
  }

  /** Shifting lands on the key of exactly that day, from either anchor. */
  lemma ShiftedIsKey(key: string, days: int, anchor: Anchor)
    requires IsKey(key) && FourDigitDay(DayOf(key) + days)
    ensures var r := Shifted(key, days, anchor);
            r.Some? && IsKey(r.value) && DayOf(r.value) == DayOf(key) + days
  {
    hide KeyAt, DayOf, IsKey;
    KeyAtIsKey(DayOf(key) + days, anchor);
  }

  lemma KeyAtDayOf(key: string, anchor: Anchor)
    requires IsKey(key)
    ensures KeyAt(DayOf(key), anchor) == Some(key)
  {
    KeysAreFourDigit(key);
    KeyAtIsKey(DayOf(key), anchor);
    KeyOrder(KeyAt(DayOf(key), anchor).value, key);
  }

  /** Shifting by nothing changes nothing. */
  lemma ShiftZero(key: string, anchor: Anchor)
    requires IsKey(key)
    ensures Shifted(key, 0, anchor) == Some(key)
  {
    KeyAtDayOf(key, anchor);
  }

  /** A shift that stays within four-digit years lands on the key of the day it should. */
  lemma ShiftLands(key: string, a: int, k: string, anchor: Anchor)
    requires IsKey(key) && FourDigitDay(DayOf(key) + a)
    requires Shifted(key, a, anchor) == Some(k)
    ensures IsKey(k) && DayOf(k) == DayOf(key) + a
  {
    ShiftedIsKey(key, a, anchor);
  }

  lemma ShiftFrom(key: string, a: int, k: string, b: int, anchor: Anchor)
    requires IsKey(key) && IsKey(k) && DayOf(k) == DayOf(key) + a
    ensures Shifted(k, b, anchor) == Shifted(key, a + b, anchor)
  {
    hide IsKey, DayOf, KeyAt;
    assert DayOf(k) + b == DayOf(key) + (a + b);
  }

  /** Shifts add up: by a and then by b is by a + b. */
  lemma ShiftsAddUp(key: string, a: int, k: string, b: int, anchor: Anchor)
    requires IsKey(key) && FourDigitDay(DayOf(key) + a)
    requires Shifted(key, a, anchor) == Some(k)
    ensures IsKey(k) && Shifted(k, b, anchor) == Shifted(key, a + b, anchor)
  {
    ShiftLands(key, a, k, anchor);
    ShiftFrom(key, a, k, b, anchor);
  }

  /** Shifting back undoes a shift. */
  lemma ShiftBack(key: string, a: int, k: string, anchor: Anchor)
    requires IsKey(key) && FourDigitDay(DayOf(key) + a)
    requires Shifted(key, a, anchor) == Some(k)
    ensures IsKey(k) && Shifted(k, -a, anchor) == Some(key)
  {
    ShiftLands(key, a, k, anchor);
    ShiftFrom(key, a, k, -a, anchor);
    ShiftZero(key, anchor);
  }

  /** The two anchors agree on every key and offset but one day: the very last of the Date range. */
  lemma AnchorsAgree(key: string, days: int)
    requires IsKey(key)
    ensures Shifted(key, days, Midnight) == Shifted(key, days, Noon) <==> DayOf(key) + days != 100_000_000
  {
  }

  /** How keys look, and what is cut from the ISO form of a day outside the four-digit years. */
  lemma KeysLookLike()
    ensures Key(Civil(2024, 2, 29)) == "2024-02-29" && Key(Civil(5, 11, 7)) == "0005-11-07"
    ensures IsoDate(Civil(9999, 12, 31)) == "9999-12-31"
    ensures IsoDate(Civil(10_000, 1, 2))[..10] == "+010000-01"
    ensures IsoDate(Civil(-1, 12, 31))[..10] == "-000001-12"
  {
    hide Padded;
    Powers();
    TwoDigits();
    FourDigits();
    SixDigits();
    assert "+010000-01-02"[..10] == "+010000-01" && "-000001-12-31"[..10] == "-000001-12";
    assert "+" + "010000" + "-" + "01" + "-" + "02" == "+010000-01-02";
    assert "-" + "000001" + "-" + "12" + "-" + "31" == "-000001-12-31";
  }

  lemma FourDigits()
    ensures Pow10(4) == 10_000
    ensures Padded(2024, 4) == "2024" && Padded(5, 4) == "0005" && Padded(9999, 4) == "9999"
  {
    hide Padded;
    Powers();
    TwoDigits();
    PaddedStep(2024, 4);
    PaddedStep(202, 3);
    PaddedStep(5, 4);
    PaddedStep(0, 3);
    PaddedStep(9999, 4);
    PaddedStep(999, 3);
  }

  lemma SixDigits()
    ensures Pow10(6) == 1_000_000
    ensures Padded(10_000, 6) == "010000" && Padded(1, 6) == "000001"
  {
    hide Padded;
    Powers();
    TwoDigits();
    PaddedStep(10_000, 6);
    PaddedStep(1000, 5);
    PaddedStep(100, 4);
    PaddedStep(10, 3);
    PaddedStep(1, 6);
    PaddedStep(0, 5);
    PaddedStep(0, 4);
    PaddedStep(0, 3);
  }

  lemma PaddedStep(n: nat, w: nat)
    requires w > 0 && n < Pow10(w)
    ensures n / 10 < Pow10(w - 1) && Padded(n, w) == Padded(n / 10, w - 1) + [Digit(n % 10)]
  {
  }

  lemma TwoDigits()
    ensures Pow10(2) == 100
    ensures Padded(0, 2) == "00" && Padded(1, 2) == "01" && Padded(2, 2) == "02" && Padded(7, 2) == "07"
    ensures Padded(11, 2) == "11" && Padded(12, 2) == "12" && Padded(20, 2) == "20"
    ensures Padded(29, 2) == "29" && Padded(31, 2) == "31" && Padded(99, 2) == "99"
  {
    assert Padded(0, 1) == "0" && Padded(1, 1) == "1" && Padded(2, 1) == "2";
    assert Padded(3, 1) == "3" && Padded(9, 1) == "9";
  }

  /** From the first day of 1970 that is a shift by a hundred million: midnight is still a time, noon is not. */
  lemma AnchorsDiffer()
    ensures var key := Key(Civil(1970, 1, 1));
            && IsKey(key)
            && Shifted(key, 100_000_000, Midnight).Some?
            && Shifted(key, 100_000_000, Noon).None?
  {
    KeyOfDate(Civil(1970, 1, 1));
  }
}
