/** The date ranges of the two cost views: presets, date pickers, last month, and their day counts. */
module CostRanges {
  import opened Options
  import opened Text
  import opened Calendar
  import opened DateKeys

  datatype Range = Range(start: string, end: string)

  /** Both ends are calendar days and they are in order. */
  ghost predicate Chronological(r: Range) {
    IsKey(r.start) && IsKey(r.end) && DayOf(r.start) <= DayOf(r.end)
  }

  /** A key a clock can show: any day from year 0001 on. */
  predicate IsToday(key: string) {
    IsKey(key) && Parse(key).year >= 1
  }

  /** `${key.slice(0, 7)}-01`. */
  function FirstOfMonth(key: string): (r: string)
    requires IsKey(key)
    ensures IsKey(r)
    ensures Parse(r) == Parse(key).(day := 1)
    ensures DayOf(r) == DayOf(key) - Parse(key).day + 1
  {
    var c := Parse(key);
    var first := c.(day := 1);
    KeyOfDate(first);
    Powers();
    assert Padded(1, 2) == "01" by { assert Padded(0, 1) == "0"; }
    assert Key(first) == key[..7] + "-01" by {
      assert Key(c) == key;
      assert key[..7] == Padded(c.year, 4) + "-" + Padded(c.month, 2);
    }
    key[..7] + "-01"
  }

  // ---------- CostModule ----------

  /** `${n}` for an integer. */
  function Numeral(n: int): string {
    if n < 0 then "-" + Decimal(-n) else Decimal(n)
  }

  /** `Date.UTC`, which reads the years 0 to 99 as 1900 to 1999. */
  function DateUTC(year: int, month: int, date: int): int {
    MakeDay(if 0 <= year <= 99 then 1900 + year else year, month, date)
  }

  function PreviousMonth(c: Civil): (p: (int, int))
    requires 1 <= c.month <= 12
    ensures 1 <= p.1 <= 12
  {
    if c.month == 1 then (c.year - 1, 12) else (c.year, c.month - 1)
  }

  ghost function LastMonth(today: string): Range
    requires IsKey(today)
  {
    var (py, pm) := PreviousMonth(Parse(today));
    var last := CivilOf(DateUTC(py, pm, 0)).day;
    MonthEnds();
    Powers();
    var prefix := Numeral(py) + "-" + Padded(pm, 2) + "-";
    Range(prefix + "01", prefix + Padded(last, 2))
  }

  lemma MonthEnds()
    ensures forall day :: 1 <= CivilOf(day).day <= 31
  {
    forall day ensures 1 <= CivilOf(day).day <= 31 { MonthLengths(CivilOf(day).year, CivilOf(day).month); }
  }

  datatype Period = Today | Last7 | ThisMonth | LastMonthPeriod | Custom

  /** The range each tab asks for; None is a thrown RangeError. */
  ghost function RangeFor(period: Period, customStart: string, customEnd: string, today: string): Option<Range>
    requires IsKey(today)
  {
    match period
    case Today => Some(Range(today, today))
    case Last7 =>
      var start := Shifted(today, -6, Noon);
      if start.None? then None else Some(Range(start.value, today))
    case ThisMonth => Some(Range(FirstOfMonth(today), today))
    case LastMonthPeriod => Some(LastMonth(today))
    case Custom =>
      Some(Range(if customStart == "" then today else customStart, if customEnd == "" then today else customEnd))
  }

  method ComputeRange(period: Period, customStart: string, customEnd: string, today: string)
    returns (range: Option<Range>)
    requires IsKey(today)
    ensures range == RangeFor(period, customStart, customEnd, today)
  {
    match period
    case Today => range := Some(Range(today, today));
    case Last7 =>
      var start := ShiftKey(today, -6);
      range := if start.None? then None else Some(Range(start.value, today));
    case ThisMonth => range := Some(Range(FirstOfMonth(today), today));
    case LastMonthPeriod =>
      var (py, pm) := PreviousMonth(Parse(today));
      CivilFromDayIsCivilOf(DateUTC(py, pm, 0));
      var last := CivilFromDay(DateUTC(py, pm, 0));
      MonthLengths(last.year, last.month);
      Powers();
      var prefix := Numeral(py) + "-" + Padded(pm, 2) + "-";
      range := Some(Range(prefix + "01", prefix + Padded(last.day, 2)));
    case Custom =>
      var start, end := if customStart == "" then today else customStart, if customEnd == "" then today else customEnd;
      range := Some(Range(start, end));
  }

  lemma FourDigitNumeral(n: int)
    ensures |Numeral(n)| == 4 && (forall i :: 0 <= i < 4 ==> IsDigit(Numeral(n)[i])) <==> 1000 <= n < 10_000
    ensures 1000 <= n < 10_000 ==> Numeral(n) == Padded(n, 4)
  {
    Powers();
    if n >= 0 {
      hide Decimal, Padded;
      DecimalLength(n);
      if 1000 <= n < 10_000 {
        DecimalIsPadded(n);
      }
    } else {
      assert Numeral(n)[0] == '-';
    }
  }

  lemma DecimalIsPadded(n: nat)
    requires 1000 <= n < 10_000 && Pow10(4) == 10_000
    ensures Decimal(n) == Padded(n, 4)
  {
    assert Decimal(n) == Decimal(n / 10) + [Digit(n % 10)];
    assert Decimal(n / 10) == Decimal(n / 100) + [Digit(n / 10 % 10)];
    assert Decimal(n / 100) == [Digit(n / 1000)] + [Digit(n / 100 % 10)];
    assert Padded(n, 4) == Padded(n / 10, 3) + [Digit(n % 10)];
    assert Padded(n / 10, 3) == Padded(n / 100, 2) + [Digit(n / 10 % 10)];
    assert Padded(n / 100, 2) == Padded(n / 1000, 1) + [Digit(n / 100 % 10)];
    assert Padded(n / 1000, 1) == Padded(0, 0) + [Digit(n / 1000)];
  }

  /** From year 1000 on, the range is day 1 to the last day of the previous month, leap years and January included. */
  lemma LastMonthIsAMonth(today: string)
    requires IsKey(today)
    requires PreviousMonth(Parse(today)).0 >= 1000
    ensures var (py, pm) := PreviousMonth(Parse(today));
            && IsKey(LastMonth(today).start) && IsKey(LastMonth(today).end)
            && Parse(LastMonth(today).start) == Civil(py, pm, 1)
            && Parse(LastMonth(today).end) == Civil(py, pm, DaysInMonth(py, pm))
  {
    var (py, pm) := PreviousMonth(Parse(today));
    DayZeroIsMonthEnd(py, pm);
    MonthLengths(py, pm);
    FourDigitNumeral(py);
    Powers();
    KeyOfDate(Civil(py, pm, 1));
    KeyOfDate(Civil(py, pm, DaysInMonth(py, pm)));
    assert Padded(1, 2) == "01" by { assert Padded(0, 1) == "0"; }
    assert LastMonth(today).start == Key(Civil(py, pm, 1));
    assert LastMonth(today).end == Key(Civil(py, pm, DaysInMonth(py, pm)));
  }

  /** Last month as text: the year without padding, and for years below 100 the length of the month 1900 years later. */
  lemma LastMonthIs(today: string)
    requires IsKey(today)
    ensures var c := Parse(today);
            var (py, pm) := if c.month == 1 then (c.year - 1, 12) else (c.year, c.month - 1);
            var last := DaysInMonth(if 0 <= py <= 99 then py + 1900 else py, pm);
            28 <= last <= 31 && SpellsMonth(LastMonth(today), py, pm, last)
  {
    var (py, pm) := PreviousMonth(Parse(today));
    DayZeroIsMonthEnd(if 0 <= py <= 99 then py + 1900 else py, pm);
    MonthLengths(if 0 <= py <= 99 then py + 1900 else py, pm);
    hide Parse, DaysInMonth, Padded, Numeral, CivilOf, MakeDay, IsKey;
  }

  predicate SpellsMonth(r: Range, year: int, month: nat, last: nat)
    requires 1 <= month <= 12 && 1 <= last <= 31
  {
    Powers();
    && r.start == Numeral(year) + "-" + Padded(month, 2) + "-" + "01"
    && r.end == Numeral(year) + "-" + Padded(month, 2) + "-" + Padded(last, 2)
  }

  /** What each tab shows: today; seven days; the month so far; the month before; or what was picked, else today. */
  lemma TabShows(period: Period, customStart: string, customEnd: string, today: string)
    requires IsToday(today)
    ensures var r := RangeFor(period, customStart, customEnd, today);
            && r.Some?
            && (period.Today? ==> r.value == Range(today, today))
            && (period.Last7? ==> r.value.end == today && Chronological(r.value)
                                  && DayCount(r.value.start, r.value.end) == 7)
            && (period.ThisMonth? ==> r.value.end == today && Chronological(r.value)
                                      && Parse(r.value.start) == Parse(today).(day := 1))
            && (period.LastMonthPeriod? ==> r.value == LastMonth(today))
            && (period.Custom? ==>
                  && (customStart != "" ==> r.value.start == customStart)
                  && (customStart == "" ==> r.value.start == today)
                  && (customEnd != "" ==> r.value.end == customEnd)
                  && (customEnd == "" ==> r.value.end == today))
  {
    if period.Last7? {
      TodayIsLate(today);
      EarlierIsFourDigit(today, 6);
      ShiftedIsKey(today, -6, Noon);
      DayCountIsExact(Shifted(today, -6, Noon).value, today);
    }
  }

  lemma EarlierIsFourDigit(today: string, n: nat)
    requires IsToday(today) && n <= 29
    ensures FourDigitDay(DayOf(today) - n)
  {
    TodayIsLate(today);
  }

  /** The day after the end of a month is the first of the next, across the year's end too. */
  lemma MonthsMeet(c: Civil)
    requires IsDate(c)
    ensures var (py, pm) := PreviousMonth(c);
            DayNumber(Civil(py, pm, DaysInMonth(py, pm))) + 1 == DayNumber(c.(day := 1))
  {
    if c.month == 1 {
      YearLength(c.year - 1);
      MonthTable(IsLeap(c.year - 1));
    }
  }

  /** "Last month" and "this month" tile: one ends the day before the other starts. */
  lemma MonthsTile(today: string)
    requires IsKey(today) && PreviousMonth(Parse(today)).0 >= 1000
    ensures Chronological(LastMonth(today)) && Parse(LastMonth(today).start).day == 1
    ensures DayOf(LastMonth(today).end) + 1 == DayOf(FirstOfMonth(today))
    ensures RangeFor(ThisMonth, "", "", today) == Some(Range(FirstOfMonth(today), today))
  {
    var (py, pm) := PreviousMonth(Parse(today));
    LastMonthIsAMonth(today);
    MonthLengths(py, pm);
    MonthsMeet(Parse(today));
  }

  /** The year is printed without padding, so the range is made of keys exactly from year 1000 on. */
  lemma LastMonthKeysIff(today: string)
    requires IsKey(today)
    ensures IsKey(LastMonth(today).start) <==> PreviousMonth(Parse(today)).0 >= 1000
    ensures IsKey(LastMonth(today).end) <==> PreviousMonth(Parse(today)).0 >= 1000
  {
    var (py, pm) := PreviousMonth(Parse(today));
    if py >= 1000 {
      LastMonthIsAMonth(today);
    } else {
      MonthEnds();
      Powers();
      var last := CivilOf(DateUTC(py, pm, 0)).day;
      var month := "-" + Padded(pm, 2) + "-";
      ShortYearIsNoKey(py, month + "01");
      ShortYearIsNoKey(py, month + Padded(last, 2));
      assert LastMonth(today).start == Numeral(py) + (month + "01");
      assert LastMonth(today).end == Numeral(py) + (month + Padded(last, 2));
    }
  }

  lemma ShortYearIsNoKey(year: int, rest: string)
    requires year < 1000 && |rest| == 6
    ensures !IsKey(Numeral(year) + rest)
  {
    FourDigitNumeral(year);
    var s := Numeral(year) + rest;
    if |s| == 10 {
      assert forall i :: 0 <= i < 4 ==> s[i] == Numeral(year)[i];
    }
  }

  /** In January 1000, last month starts at "999-12-01", which is no date key. */
  lemma LastMonthMayNotBeKeys()
    ensures var today := Key(Civil(1000, 1, 15));
            IsKey(today) && !IsKey(LastMonth(today).start) && !IsKey(LastMonth(today).end)
  {
    KeyOfDate(Civil(1000, 1, 15));
    LastMonthKeysIff(Key(Civil(1000, 1, 15)));
  }

  // ---------- CostsPage ----------

  datatype Preset = Week | Month | ToDate | CustomDates

  /** The range of a preset; None is a thrown RangeError. */
  ghost function PresetRange(preset: Preset, today: string): Option<Range>
    requires IsKey(today) && !preset.CustomDates?
  {
    match preset
    case Week =>
      var start := Shifted(today, -6, Midnight);
      if start.None? then None else Some(Range(start.value, today))
    case Month =>
      var start := Shifted(today, -29, Midnight);
      if start.None? then None else Some(Range(start.value, today))
    case _ => Some(Range(FirstOfMonth(today), today))
  }

  /** `Math.round(a / b)`. */
  function RoundDiv(a: int, b: int): int
    requires b > 0
  {
    (2 * a + b) / (2 * b)
  }

  /** The inclusive day count as the page computes it from two midnight times. */
  function DayCount(start: string, end: string): int
    requires IsKey(start) && IsKey(end)
  {
    RoundDiv(DayOf(end) * MS_PER_DAY - DayOf(start) * MS_PER_DAY, MS_PER_DAY) + 1
  }

  lemma DayCountIsExact(start: string, end: string)
    requires IsKey(start) && IsKey(end)
    ensures DayCount(start, end) == DayOf(end) - DayOf(start) + 1
  {
    RoundExact(DayOf(end), DayOf(start));
  }

  lemma RoundExact(a: int, b: int)
    ensures RoundDiv(a * MS_PER_DAY - b * MS_PER_DAY, MS_PER_DAY) == a - b
  {
    assert 2 * (a * MS_PER_DAY - b * MS_PER_DAY) + MS_PER_DAY == (a - b) * (2 * MS_PER_DAY) + MS_PER_DAY;
  }

  lemma PresetInOrder(preset: Preset, today: string)
    requires IsToday(today) && !preset.CustomDates?
    ensures var r := PresetRange(preset, today);
            && r.Some? && r.value.end == today && Chronological(r.value)
            && DayOf(r.value.start)
               == DayOf(today) - (match preset case Week => 6 case Month => 29 case _ => Parse(today).day - 1)
  {
    TodayIsLate(today);
    if preset.Week? {
      ShiftedIsKey(today, -6, Midnight);
    } else if preset.Month? {
      ShiftedIsKey(today, -29, Midnight);
    }
  }

  /** 7 and 30 days for those presets, and the day of the month for month-to-date. */
  lemma PresetLengths(preset: Preset, today: string)
    requires IsToday(today) && !preset.CustomDates?
    ensures var r := PresetRange(preset, today);
            && r.Some? && Chronological(r.value)
            && DayCount(r.value.start, r.value.end)
               == (match preset case Week => 7 case Month => 30 case _ => Parse(today).day)
  {
    PresetInOrder(preset, today);
    DayCountIsExact(PresetRange(preset, today).value.start, today);
  }

  lemma TodayIsLate(today: string)
    requires IsToday(today)
    ensures FourDigitDay(DayOf(today)) && FourDigitDay(DayOf(today) - 29)
  {
    KeysAreFourDigit(today);
    var c := Parse(today);
    WithinYear(c);
    if c.year > 1 { LaterYear(1, c.year); }
  }

  /** The range after one picker changed; an emptied picker changes nothing. */
  function DatePicked(r: Range, isStart: bool, value: string): Range {
    if value == "" then r
    else
      var next := if isStart then r.(start := value) else r.(end := value);
      if StrLess(next.end, next.start) then Range(value, value) else next
  }

  datatype Change =
    | PickPreset(preset: Preset, today: string)
    | PickZone(today: string)
    | PickDate(isStart: bool, value: string)

  datatype Page = Page(preset: Preset, range: Range)

  /** The page after one change of its controls; None is a thrown RangeError. */
  ghost function Changed(p: Page, c: Change): Option<Page>
    requires c.PickPreset? ==> IsKey(c.today) && !c.preset.CustomDates?
    requires c.PickZone? ==> IsKey(c.today)
  {
    match c
    case PickPreset(preset, today) =>
      var r := PresetRange(preset, today);
      if r.None? then None else Some(Page(preset, r.value))
    case PickZone(today) =>
      if p.preset.CustomDates? then Some(p)
      else
        var r := PresetRange(p.preset, today);
        if r.None? then None else Some(p.(range := r.value))
    case PickDate(isStart, value) =>
      if value == "" then Some(p) else Some(Page(CustomDates, DatePicked(p.range, isStart, value)))
  }

  /** What clocks and date pickers can supply: today's date, and a calendar day or nothing. */
  predicate Possible(c: Change) {
    match c
    case PickPreset(preset, today) => IsToday(today) && !preset.CustomDates?
    case PickZone(today) => IsToday(today)
    case PickDate(_, value) => value == "" || IsKey(value)
  }

  lemma PickKeepsOrder(r: Range, isStart: bool, value: string)
    requires Chronological(r) && (value == "" || IsKey(value))
    ensures Chronological(DatePicked(r, isStart, value))
  {
    if value != "" {
      KeyOrder(if isStart then r.end else value, if isStart then value else r.start);
    }
  }

  /**
    A picked day becomes the end it was picked for and the other end stays, unless that turns
    the range around: then it is that one day.
  */
  lemma PickedRange(r: Range, isStart: bool, value: string)
    requires Chronological(r) && IsKey(value)
    ensures var p := DatePicked(r, isStart, value);
            && (isStart && DayOf(value) <= DayOf(r.end) ==> p == Range(value, r.end))
            && (isStart && DayOf(value) > DayOf(r.end) ==> p == Range(value, value))
            && (!isStart && DayOf(r.start) <= DayOf(value) ==> p == Range(r.start, value))
            && (!isStart && DayOf(r.start) > DayOf(value) ==> p == Range(value, value))
  {
    hide DayOf, IsKey;
    EmptyIsNoKey(value);
    if isStart {
      KeyOrder(r.end, value);
    } else {
      KeyOrder(value, r.start);
    }
  }

  lemma EmptyIsNoKey(value: string)
    requires IsKey(value)
    ensures value != ""
  {
  }

  /** What a control does: a preset sets both, a zone redoes a preset, a picked day makes the range custom. */
  lemma ChangeSets(p: Page, c: Change)
    requires Chronological(p.range) && Possible(c)
    ensures Changed(p, c).Some?
    ensures var q := Changed(p, c).value;
            && (c.PickPreset? ==> q.preset == c.preset && Some(q.range) == PresetRange(c.preset, c.today))
            && (c.PickZone? && p.preset.CustomDates? ==> q == p)
            && (c.PickZone? && !p.preset.CustomDates? ==> Changed(p, PickPreset(p.preset, c.today)) == Some(q))
            && (c.PickDate? && c.value == "" ==> q == p)
            && (c.PickDate? && c.value != "" ==> q == Page(CustomDates, DatePicked(p.range, c.isStart, c.value)))
  {
    hide IsKey, DayOf, IsoKey, Shifted, FirstOfMonth, PresetRange, DatePicked;
    match c
    case PickPreset(preset, today) => PresetInOrder(preset, today);
    case PickZone(today) =>
      if !p.preset.CustomDates? {
        PresetInOrder(p.preset, today);
      }
    case PickDate(isStart, value) =>
  }

  lemma ChangeKeepsOrder(p: Page, c: Change)
    requires Chronological(p.range) && Possible(c)
    ensures var q := Changed(p, c); q.Some? && Chronological(q.value.range)
  {
    hide IsKey, DayOf, IsoKey, Shifted, FirstOfMonth, PresetRange, DatePicked;
    match c
    case PickPreset(preset, today) => PresetInOrder(preset, today);
    case PickZone(today) =>
      if !p.preset.CustomDates? {
        PresetInOrder(p.preset, today);
      }
    case PickDate(isStart, value) => PickKeepsOrder(p.range, isStart, value);
  }

  /** The page after a whole sequence of changes. */
  ghost function AllChanged(p: Page, changes: seq<Change>): Option<Page>
    requires forall c :: c in changes ==> Possible(c)
    decreases changes
  {
    if changes == [] then Some(p)
    else
      assert Possible(changes[0]);
      var q := Changed(p, changes[0]);
      if q.None? then None else AllChanged(q.value, changes[1..])
  }

  /** After any sequence of changes the range is still in calendar order and nothing throws. */
  lemma {:induction false} RangeStaysChronological(p: Page, changes: seq<Change>)
    requires Chronological(p.range)
    requires forall c :: c in changes ==> Possible(c)
    ensures var q := AllChanged(p, changes); q.Some? && Chronological(q.value.range)
    decreases changes
  {
    hide IsKey, DayOf, Changed;
    if changes != [] {
      assert changes[0] in changes;
      ChangeKeepsOrder(p, changes[0]);
      RangeStaysChronological(Changed(p, changes[0]).value, changes[1..]);
    }
  }

  /** So the day count shown beside the pickers is exact and never below 1. */
  lemma RangeDaysPositive(r: Range)
    requires Chronological(r)
    ensures DayCount(r.start, r.end) == DayOf(r.end) - DayOf(r.start) + 1 >= 1
  {
    DayCountIsExact(r.start, r.end);
  }

  method ComputePreset(preset: Preset, today: string) returns (range: Option<Range>)
    requires IsKey(today) && !preset.CustomDates?
    ensures range == PresetRange(preset, today)
  {
    if preset.ToDate? {
      return Some(Range(FirstOfMonth(today), today));
    }
    var start := ShiftDate(today, if preset.Week? then -6 else -29);
    range := if start.None? then None else Some(Range(start.value, today));
  }

  class CostsPage {
    var preset: Preset
    var range: Range

    function View(): Page
      reads this
    {
      Page(preset, range)
    }

    constructor (initial: Range)
      ensures View() == Page(Month, initial)
    {
      preset, range := Month, initial;
    }

    method ChangePreset(next: Preset, today: string) returns (ok: bool)
      requires IsKey(today) && !next.CustomDates?
      modifies this
      ensures ok ==> Changed(old(View()), PickPreset(next, today)) == Some(View())
      ensures !ok ==> Changed(old(View()), PickPreset(next, today)) == None
    {
      preset := next;
      var r := ComputePreset(next, today);
      ok := r.Some?;
      if ok {
        range := r.value;
      }
    }

    method ChangeTz(today: string) returns (ok: bool)
      requires IsKey(today)
      modifies this
      ensures ok ==> Changed(old(View()), PickZone(today)) == Some(View())
      ensures !ok ==> Changed(old(View()), PickZone(today)) == None
    {
      ok := true;
      if !preset.CustomDates? {
        var r := ComputePreset(preset, today);
        ok := r.Some?;
        if ok {
          range := r.value;
        }
      }
    }

    method ChangeDate(isStart: bool, value: string)
      modifies this
      ensures Changed(old(View()), PickDate(isStart, value)) == Some(View())
    {
      if value == "" {
        return;
      }
      preset := CustomDates;
      var next := if isStart then range.(start := value) else range.(end := value);
      if StrLess(next.end, next.start) {
        next := Range(value, value);
      }
      range := next;
    }
  }

  /** What the cost service returned for a range. */
  datatype Data = Data(start: string, end: string, today: string, cost: real, tokens: real)

  datatype Average = Average(cost: real, tokens: real, days: int)

  predicate DataKeys(d: Data) {
    IsKey(d.start) && IsKey(d.end) && IsKey(d.today)
  }

  /** The last day that has happened: the range's end, or today if that is earlier. */
  function LastCounted(d: Data): string {
    if StrLess(d.today, d.end) then d.today else d.end
  }

  /** The day count `avgPerDay` divides by, or None before the range has begun. */
  function DaysCounted(d: Data): Option<int>
    requires DataKeys(d)
  {
    if StrLess(LastCounted(d), d.start) then None else Some(DayCount(d.start, LastCounted(d)))
  }

  /** There is an average exactly when the range has begun, over 1 to `range length` days that have happened. */
  lemma DaysCountedInRange(d: Data)
    requires DataKeys(d) && DayOf(d.start) <= DayOf(d.end)
    ensures DaysCounted(d).Some? <==> DayOf(d.start) <= DayOf(d.today)
    ensures DaysCounted(d).Some? ==>
              && 1 <= DaysCounted(d).value <= DayCount(d.start, d.end)
              && (DaysCounted(d).value == DayCount(d.start, d.end) <==> DayOf(d.end) <= DayOf(d.today))
  {
    KeyOrder(d.today, d.end);
    KeyOrder(LastCounted(d), d.start);
    DayCountIsExact(d.start, d.end);
    DayCountIsExact(d.start, LastCounted(d));
  }

  lemma DaysCountedExactly(d: Data)
    requires DataKeys(d) && DaysCounted(d).Some?
    ensures DaysCounted(d).value
         == (if DayOf(d.end) <= DayOf(d.today) then DayOf(d.end) else DayOf(d.today)) - DayOf(d.start) + 1
  {
    KeyOrder(d.today, d.end);
    DayCountIsExact(d.start, LastCounted(d));
  }

  function Averaged(d: Data, days: int): Average
    requires days != 0
  {
    Average(d.cost / days as real, d.tokens / days as real, days)
  }

  lemma AveragesMultiplyBack(d: Data, days: int)
    requires days >= 1
    ensures var a := Averaged(d, days);
            && a.days == days && a.cost * days as real == d.cost && a.tokens * days as real == d.tokens
  {
  }

  /** The totals are spread over the days that have happened; the divisor is never 0. */
  method AvgPerDay(d: Data) returns (avg: Option<Average>)
    requires DataKeys(d) && DayOf(d.start) <= DayOf(d.end)
    ensures DayOf(d.today) < DayOf(d.start) ==> avg == None
    ensures DayOf(d.start) <= DayOf(d.today) <= DayOf(d.end) ==>
              avg == Some(Averaged(d, DayOf(d.today) - DayOf(d.start) + 1))
    ensures DayOf(d.end) < DayOf(d.today) ==>
              avg == Some(Averaged(d, DayOf(d.end) - DayOf(d.start) + 1))
    ensures avg.Some? ==>
              && avg.value.days >= 1
              && avg.value.cost * avg.value.days as real == d.cost
              && avg.value.tokens * avg.value.days as real == d.tokens
  {
    hide IsKey, DayOf, DaysCounted;
    var days := DaysCounted(d);
    DaysCountedInRange(d);
    if days.None? {
      return None;
    }
    DaysCountedExactly(d);
    AveragesMultiplyBack(d, days.value);
    avg := Some(Averaged(d, days.value));
  }
}
