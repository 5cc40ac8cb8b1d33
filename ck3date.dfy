/**
  The CK3 calendar date: a year.month.day calendar in which every year has
  365 days (February always has 28). Covers validation, ordering, day
  numbers, adding days, decoding the binary hour count and the two textual
  formats, and parsing "Y.M.D".
*/
module Ck3Date {
  import opened Wrappers
  import opened Numbers

  /** Index 0 is unused; index m is the length of month m. */
  const DAYS_PER_MONTH: seq<nat> := [0, 31, 28, 31, 30, 31, 30, 31, 31, 30, 31, 30, 31]

  datatype Date = Date(year: u16, month: u8, day: u8)

  /** The month lengths of the calendar, named directly rather than through the table. */
  predicate IsMonthDay(month: int, day: int)
  {
    1 <= day &&
    if month == 2 then day <= 28
    else if month == 4 || month == 6 || month == 9 || month == 11 then day <= 30
    else 1 <= month <= 12 && day <= 31
  }

  /** A date that `New` accepts. */
  predicate IsValid(d: Date)
  {
    d.year != 0 && IsMonthDay(d.month, d.day)
  }

  /** Builds a date, or None when the date does not exist in the calendar. */
  function New(year: u16, month: u8, day: u8): (r: Option<Date>)
    ensures r.Some? <==> year != 0 && IsMonthDay(month, day)
    ensures r.Some? ==> r.value == Date(year, month, day)
  {
    if year != 0 && month != 0 && day != 0 && month < |DAYS_PER_MONTH| && day <= DAYS_PER_MONTH[month]
    then Some(Date(year, month, day))
    else None
  }

  /** February 29 never exists, whatever the year. */
  lemma NoLeapDay(year: u16)
    ensures New(year, 2, 29) == None
  {
  }

  // ---------------------------------------------------------------------
  // Ordering

  datatype Ordering = Less | Equal | Greater {
    function Reverse(): Ordering
    {
      match this
      case Less => Greater
      case Equal => Equal
      case Greater => Less
    }
  }

  function CmpInt(a: int, b: int): Ordering
  {
    if a < b then Less else if a == b then Equal else Greater
  }

  /** `Ordering::then_with`: the second comparison decides only a tie. */
  function ThenWith(first: Ordering, second: Ordering): Ordering
  {
    if first == Equal then second else first
  }

  /** Dates compare by year, then month, then day. */
  function Compare(a: Date, b: Date): (r: Ordering)
    ensures r == Equal <==> a == b
    ensures r == Less <==>
      a.year < b.year || (a.year == b.year && (a.month < b.month || (a.month == b.month && a.day < b.day)))
  {
    ThenWith(CmpInt(a.year, b.year), ThenWith(CmpInt(a.month, b.month), CmpInt(a.day, b.day)))
  }

  /** Compare is a total order: antisymmetric and transitive. */
  lemma CompareTotalOrder(a: Date, b: Date, c: Date)
    ensures Compare(b, a) == Compare(a, b).Reverse()
    ensures Compare(a, b) != Greater && Compare(b, c) != Greater ==> Compare(a, c) != Greater
  {
  }

  // ---------------------------------------------------------------------
  // Day numbers

  /** Days in the months before `month`: the running sums of the month lengths. */
  const MONTH_STARTS: seq<nat> := [0, 0, 31, 59, 90, 120, 151, 181, 212, 243, 273, 304, 334, 365]

  function DaysBeforeMonth(month: int): nat
    requires 1 <= month <= 13
  {
    MONTH_STARTS[month]
  }

  /** The running sums agree with the month-length table. */
  lemma MonthStartsSumLengths(month: int)
    requires 1 <= month <= 12
    ensures DaysBeforeMonth(1) == 0 && DaysBeforeMonth(13) == 365
    ensures DaysBeforeMonth(month + 1) == DaysBeforeMonth(month) + DAYS_PER_MONTH[month]
  {
  }

  /** Day number counted from year 0, January 1 (day 0). */
  function DayNumber(d: Date): int
    requires 1 <= d.month <= 12
  {
    365 * d.year + DaysBeforeMonth(d.month) + d.day - 1
  }

  /** The day number of a date, accumulated from the year, a per-month offset and the day. */
  method Days(date: Date) returns (days: i32)
    requires 1 <= date.month <= 12  // every other month reaches `unreachable!()`
    ensures days == DayNumber(date)
  {
    days := 0;
    days := days + date.year * 365;
    var offset := match date.month
      case 1 => -1
      case 2 => 30
      case 3 => 58
      case 4 => 89
      case 5 => 119
      case 6 => 150
      case 7 => 180
      case 8 => 211
      case 9 => 242
      case 10 => 272
      case 11 => 303
      case _ => 333;
    days := days + offset;
    days := days + date.day;
  }

  /** The days from `a` to `b`. */
  function DaysUntil(a: Date, b: Date): int
    requires 1 <= a.month <= 12 && 1 <= b.month <= 12
  {
    DayNumber(b) - DayNumber(a)
  }

  /** Within a valid month, the day of the year lies in that month's slice of 0..364. */
  lemma DayOfYearBounds(month: int, day: int)
    requires IsMonthDay(month, day)
    ensures 1 <= month <= 12
    ensures DaysBeforeMonth(month) <= DaysBeforeMonth(month) + day - 1 < DaysBeforeMonth(month + 1) <= 365
  {
  }

  lemma {:induction false} DaysBeforeMonthMonotone(m1: int, m2: int)
    requires 1 <= m1 <= m2 <= 13
    ensures DaysBeforeMonth(m1) <= DaysBeforeMonth(m2)
    decreases m2 - m1
  {
    if m1 < m2 {
      DaysBeforeMonthMonotone(m1, m2 - 1);
    }
  }

  /** On calendar dates, the order of day numbers is the order of Compare. */
  lemma DayNumberOrder(a: Date, b: Date)
    requires IsMonthDay(a.month, a.day) && IsMonthDay(b.month, b.day)
    ensures Compare(a, b) == Less <==> DayNumber(a) < DayNumber(b)
    ensures a == b <==> DayNumber(a) == DayNumber(b)
  {
    DayOfYearBounds(a.month, a.day);
    DayOfYearBounds(b.month, b.day);
    if a.month < b.month {
      DaysBeforeMonthMonotone(a.month + 1, b.month);
    } else if b.month < a.month {
      DaysBeforeMonthMonotone(b.month + 1, a.month);
    }
  }

  /** days_until is the signed distance: zero on itself, antisymmetric, positive exactly towards later dates. */
  lemma DaysUntilProperties(a: Date, b: Date)
    requires IsMonthDay(a.month, a.day) && IsMonthDay(b.month, b.day)
    ensures DaysUntil(a, a) == 0
    ensures DaysUntil(a, b) == -DaysUntil(b, a)
    ensures DaysUntil(a, b) > 0 <==> Compare(a, b) == Less
    ensures DaysUntil(a, b) == 0 <==> a == b
  {
    DayNumberOrder(a, b);
  }

  /** The month and day of the `daysSinceJan1`-th day of a year (0 is January 1). */
  function MonthDayFromJulian(daysSinceJan1: int): (r: (int, int))
    requires 0 <= daysSinceJan1 <= 364  // every other value reaches `unreachable!()`
    ensures IsMonthDay(r.0, r.1)
    ensures DaysBeforeMonth(r.0) + r.1 - 1 == daysSinceJan1
  {
    var i := daysSinceJan1;
    if i <= 30 then (1, i + 1)
    else if i <= 58 then (2, i - 30)
    else if i <= 89 then (3, i - 58)
    else if i <= 119 then (4, i - 89)
    else if i <= 150 then (5, i - 119)
    else if i <= 180 then (6, i - 150)
    else if i <= 211 then (7, i - 180)
    else if i <= 242 then (8, i - 211)
    else if i <= 272 then (9, i - 242)
    else if i <= 303 then (10, i - 272)
    else if i <= 333 then (11, i - 303)
    else (12, i - 333)
  }

  /** The date `days` days after `date`; the year wraps to 16 bits as `as u16` does. */
  function AddDays(date: Date, days: i32): (r: Date)
    requires 1 <= date.month <= 12
    requires -0x8000_0000 <= DayNumber(date) + days < 0x8000_0000  // the i32 sum must not overflow
    requires Rem(DayNumber(date) + days, 365) >= 0  // a negative remainder reaches `unreachable!()`
    ensures IsMonthDay(r.month, r.day)
    ensures 0 <= DayNumber(date) + days < 0x1_0000 * 365 ==> DayNumber(r) == DayNumber(date) + days
  {
    var newDays := DayNumber(date) + days;
    var md := MonthDayFromJulian(Rem(newDays, 365));
    AddDaysSplit(newDays, md.0, md.1);
    Date(AsU16(Quot(newDays, 365)), AsU8(md.0), AsU8(md.1))
  }

  /** Reassembling a day number from its year and its month and day within the year. */
  lemma AddDaysSplit(total: int, month: int, day: int)
    requires IsMonthDay(month, day) && DaysBeforeMonth(month) + day - 1 == Rem(total, 365)
    ensures AsU8(month) == month && AsU8(day) == day
    ensures 0 <= total < 0x1_0000 * 365 ==>
      365 * AsU16(Quot(total, 365)) + DaysBeforeMonth(month) + day - 1 == total
  {
    DayOfYearBounds(month, day);
  }

  /** Adding n days and then counting the days back gives n. */
  lemma AddDaysRoundTrip(date: Date, n: i32)
    requires 1 <= date.month <= 12
    requires 0 <= DayNumber(date) + n < 0x1_0000 * 365
    ensures DaysUntil(date, AddDays(date, n)) == n
  {
  }

  /** Adding zero days to a calendar date gives the same date. */
  lemma AddDaysZero(date: Date)
    requires IsMonthDay(date.month, date.day)
    ensures AddDays(date, 0) == date
  {
    DayOfYearBounds(date.month, date.day);
    var r := AddDays(date, 0);
    DayNumberOrder(date, r);
  }

  /** From January 1, adding the day-of-year offset of any calendar day lands on that day of the same year. */
  lemma AddDaysWithinYear(year: u16, month: u8, day: u8)
    requires IsMonthDay(month, day)
    ensures AddDays(Date(year, 1, 1), DaysBeforeMonth(month) + day - 1) == Date(year, month, day)
  {
    DayOfYearBounds(month, day);
    var target := Date(year, month, day);
    var r := AddDays(Date(year, 1, 1), DaysBeforeMonth(month) + day - 1);
    assert DayNumber(r) == DayNumber(target);
    DayNumberOrder(r, target);
  }

  /**
    Decodes a date stored as hours since year -5000 (binary saves): the hours
    within the day are dropped, and years before 1 are rejected.
  */
  method FromI32(hours: i32) returns (r: Option<Date>)
    ensures r.None? <==> hours < 5001 * 365 * 24
    ensures r.Some? ==> IsMonthDay(r.value.month, r.value.day)
    ensures r.Some? ==> r.value.year == AsU16(hours / 24 / 365 - 5000)
    ensures r.Some? && hours / 24 < (5000 + 0x1_0000) * 365 ==>
      DayNumber(r.value) == hours / 24 - 5000 * 365
  {
    var s: int := hours;
    var _ := Rem(s, 24);
    s := Quot(s, 24);
    var daysSinceJan1 := Rem(s, 365);
    s := Quot(s, 365);
    var year := s - 5000;  // `checked_sub` cannot fail: |s| is far below 2^31 - 5000 here
    if year < 1 {
      return None;
    }
    var md := MonthDayFromJulian(daysSinceJan1);
    assert Rem(hours / 24 - 5000 * 365, 365) == daysSinceJan1;
    AddDaysSplit(hours / 24 - 5000 * 365, md.0, md.1);
    r := Some(Date(AsU16(year), AsU8(md.0), AsU8(md.1)));
  }

  // ---------------------------------------------------------------------
  // Textual formats

  /** "Y.M.D" without padding. */
  function Ck3Fmt(d: Date): string
  {
    Decimal(d.year) + "." + Decimal(d.month) + "." + Decimal(d.day)
  }

  /** "YYYY-MM-DD": the year padded to at least four digits, month and day to two. */
  function Iso8601(d: Date): string
  {
    ZeroPad(Decimal(d.year), 4) + "-" + ZeroPad(Decimal(d.month), 2) + "-" + ZeroPad(Decimal(d.day), 2)
  }

  /**
    Reads "YYYY-MM-DD" back: the last two fields have two digits each, the year takes
    everything before them and has at least four.
  */
  function ReadIso(s: string): Option<(nat, nat, nat)>
  {
    if |s| < 10 || s[|s| - 6] != '-' || s[|s| - 3] != '-' then None
    else
      var y, m, dd := s[..|s| - 6], s[|s| - 5..|s| - 3], s[|s| - 2..];
      if AllDigitsIn(y, 10) && AllDigitsIn(m, 10) && AllDigitsIn(dd, 10)
      then Some((Value(y, 10), Value(m, 10), Value(dd, 10)))
      else None
  }

  /** The ISO rendering reads back as the date it renders, in ten characters while the year has four digits. */
  lemma Iso8601RoundTrip(d: Date)
    requires IsMonthDay(d.month, d.day)
    ensures ReadIso(Iso8601(d)) == Some((d.year as nat, d.month as nat, d.day as nat))
    ensures d.year < 10000 ==> |Iso8601(d)| == 10
  {
    var y, m, dd := ZeroPad(Decimal(d.year), 4), ZeroPad(Decimal(d.month), 2), ZeroPad(Decimal(d.day), 2);
    IsoPieces(d);
    PaddedValue(d.year, 4);
    PaddedValue(d.month, 2);
    PaddedValue(d.day, 2);
    ReadJoined(y, m, dd);
  }

  /** Three digit strings joined by dashes read back as their values. */
  lemma ReadJoined(p: string, q: string, r: string)
    requires |p| >= 4 && |q| == 2 && |r| == 2
    requires AllDigitsIn(p, 10) && AllDigitsIn(q, 10) && AllDigitsIn(r, 10)
    ensures ReadIso(p + ['-'] + q + ['-'] + r) == Some((Value(p, 10), Value(q, 10), Value(r, 10)))
  {
    SplitThree(p, q, r, '-');
  }

  /** The ISO rendering is three padded fields, month and day two digits each. */
  lemma IsoPieces(d: Date)
    requires IsMonthDay(d.month, d.day)
    ensures var y, m, dd := ZeroPad(Decimal(d.year), 4), ZeroPad(Decimal(d.month), 2), ZeroPad(Decimal(d.day), 2);
      && Iso8601(d) == y + ['-'] + m + ['-'] + dd
      && |m| == 2 && |dd| == 2 && |y| >= 4 && (d.year < 10000 ==> |y| == 4)
  {
    assert d.month < 100 && d.day < 100;
    PaddedLength(d.month, 2);
    PaddedLength(d.day, 2);
    if d.year < 10000 {
      PaddedLength(d.year, 4);
    }
  }

  /** A number below 10^width is padded to exactly width digits. */
  lemma PaddedLength(v: nat, width: nat)
    requires width == 2 || width == 4
    requires v < if width == 2 then 100 else 10000
    ensures |ZeroPad(Decimal(v), width)| == width
  {
    assert Pow(10, 2) == 100 && Pow(10, 4) == 10000;
    RenderLength(v, 10, width);
  }

  /** The three parts of `p + [sep] + q + [sep] + r` when `q` and `r` have two characters each. */
  lemma SplitThree(p: string, q: string, r: string, sep: char)
    requires |q| == 2 && |r| == 2
    ensures var s := p + [sep] + q + [sep] + r; var n := |s|;
      && n == |p| + 6
      && s[n - 6] == sep && s[n - 3] == sep
      && s[..n - 6] == p && s[n - 5..n - 3] == q && s[n - 2..] == r
  {
  }

  lemma PaddedValue(v: nat, width: nat)
    ensures AllDigitsIn(ZeroPad(Decimal(v), width), 10)
    ensures Value(ZeroPad(Decimal(v), width), 10) == v
  {
    var s := Decimal(v);
    RenderValue(v, 10);
    if |s| < width {
      ZerosValue(width - |s|, s, 10);
    }
  }

  // ---------------------------------------------------------------------
  // Parsing "Y.M.D"

  predicate IsDateChar(c: char)
  {
    IsDigit(c) || c == '.'
  }

  /** Every character is a digit or a dot. */
  predicate DateText(s: string)
    decreases |s|
  {
    s == [] || (DateText(s[..|s| - 1]) && IsDateChar(s[|s| - 1]))
  }

  /** DateText holds of a concatenation exactly when it holds of both parts. */
  lemma {:induction false} DateTextConcat(p: string, q: string)
    ensures DateText(p + q) <==> DateText(p) && DateText(q)
    decreases |q|
  {
    if q == [] {
      assert p + q == p;
    } else {
      var q', c := q[..|q| - 1], q[|q| - 1];
      DateTextConcat(p, q');
      assert (p + q)[..|p + q| - 1] == p + q';
    }
  }

  /** A run of decimal digits is date text. */
  lemma {:induction false} DigitsAreDateText(s: string)
    requires AllDigitsIn(s, 10)
    ensures DateText(s)
    decreases |s|
  {
    if s != [] {
      DigitsAreDateText(s[..|s| - 1]);
    }
  }

  /** Every prefix of date text is date text. */
  lemma {:induction false} DateTextPrefix(s: string, k: nat)
    requires DateText(s) && k <= |s|
    ensures DateText(s[..k])
    decreases |s|
  {
    if k < |s| {
      DateTextPrefix(s[..|s| - 1], k);
      assert s[..|s| - 1][..k] == s[..k];
    } else {
      assert s[..k] == s;
    }
  }

  /** The '.'-separated fields of a string (one field when there is no '.'). */
  function Fields(s: string): (r: seq<string>)
    ensures |r| >= 1
    decreases |s|
  {
    if s == [] then [[]]
    else
      var init := Fields(s[..|s| - 1]);
      var c := s[|s| - 1];
      if c == '.' then init + [[]] else init[..|init| - 1] + [init[|init| - 1] + [c]]
  }

  /** The fields joined back with '.'. */
  function Join(fields: seq<string>): string
    requires |fields| >= 1
  {
    if |fields| == 1 then fields[0] else Join(fields[..|fields| - 1]) + "." + fields[|fields| - 1]
  }

  /**
    The tokenizer library's `to_u64` on a run of ASCII digits: the number
    they denote, failing on the empty run and on values that do not fit 64 bits.
  */
  function ToU64(s: string): Option<nat>
  {
    if s != [] && AllDigitsIn(s, 10) && Value(s, 10) < 0x1_0000_0000_0000_0000
    then Some(Value(s, 10))
    else None
  }

  /**
    The date a string denotes: digits and exactly two dots, the three numbers
    truncated to the field widths (`as u16`, `as u8`) and then validated by New.
  */
  function DateOfString(s: string): Option<Date>
  {
    if |s| == 0 || s[0] > '9' then None
    else if !DateText(s) then None
    else
      var f := Fields(s);
      if |f| != 3 then None
      else
        match (ToU64(f[0]), ToU64(f[1]), ToU64(f[2]))
        case (Some(y), Some(m), Some(d)) => New(AsU16(y), AsU8(m), AsU8(d))
        case _ => None
  }

  /** DateText is the same as: every character is a digit or a dot. */
  lemma {:induction false} DateTextChars(s: string)
    ensures DateText(s) <==> forall i :: 0 <= i < |s| ==> IsDateChar(s[i])
    decreases |s|
  {
    if s != [] {
      var init := s[..|s| - 1];
      DateTextChars(init);
      assert forall i :: 0 <= i < |init| ==> init[i] == s[i];
    }
  }

  /**
    The inputs the parse turns down whatever their numbers: the empty string,
    a first character above '9', a character that is neither a digit nor a
    dot, and anything but exactly two dots.
  */
  lemma ParseRejects(s: string)
    ensures |s| == 0 || s[0] > '9' ==> DateOfString(s) == None
    ensures (exists i :: 0 <= i < |s| && !IsDateChar(s[i])) ==> DateOfString(s) == None
    ensures |Fields(s)| != 3 ==> DateOfString(s) == None
  {
    DateTextChars(s);
  }

  /** The fields a scan has closed in state 0, 1 or 2 (the number of dots seen). */
  function ClosedFields(state: int, span1: string, span2: string): seq<string>
  {
    if state == 0 then [] else if state == 1 then [span1] else [span1, span2]
  }

  /**
    What the scan of ParseFromStr knows after `pos` characters: they are all
    digits or dots, `state` dots closed `span1` (and `span2`), and the field
    being scanned starts at `start`.
  */
  predicate Scanned(data: string, pos: int, state: int, span1: string, span2: string, start: int)
  {
    && 0 <= start <= pos <= |data| && 0 <= state <= 2
    && DateText(data[..pos])
    && Fields(data[..pos]) == ClosedFields(state, span1, span2) + [data[start..pos]]
    && (state == 0 ==> span1 == [] && span2 == [])
    && (state == 1 ==> span2 == [])
  }

  /** Parses "Y.M.D" in one pass, remembering where the first two fields end. */
  method ParseFromStr(data: string) returns (r: Option<Date>)
    ensures r == DateOfString(data)
  {
    if |data| == 0 || data[0] > '9' {
      return None;
    }
    var state := 0;
    var span1: string := [];
    var span2: string := [];
    var start := 0;
    ScanStart(data);
    for pos := 0 to |data|
      invariant Scanned(data, pos, state, span1, span2, start)
    {
      var c := data[pos];
      ScanNext(data, pos, state, span1, span2, start);
      if c == '.' {
        if state == 0 {
          span1 := data[start..pos];
          state := 1;
        } else if state == 1 {
          span2 := data[start..pos];
          state := 2;
        } else {
          return None;
        }
        start := pos + 1;
      } else if c > '9' || c < '0' {
        return None;
      }
    }
    ParseEnd(data, state, span1, span2, start);
    var span3 := data[start..];
    var y := ToU64(span1);
    if y.Some? {
      var m := ToU64(span2);
      if m.Some? {
        var d := ToU64(span3);
        if d.Some? {
          return New(AsU16(y.value), AsU8(m.value), AsU8(d.value));
        }
      }
    }
    return None;
  }

  lemma ScanStart(data: string)
    ensures Scanned(data, 0, 0, [], [], 0)
  {
    assert data[..0] == [];
  }

  /** One character of the scan: a third '.' or a character that is no digit decides the parse; anything else moves on. */
  lemma ScanNext(data: string, pos: int, state: int, span1: string, span2: string, start: int)
    requires Scanned(data, pos, state, span1, span2, start) && pos < |data|
    ensures var c := data[pos];
      if c == '.' then
        if state == 0 then Scanned(data, pos + 1, 1, data[start..pos], span2, pos + 1)
        else if state == 1 then Scanned(data, pos + 1, 2, span1, data[start..pos], pos + 1)
        else DateOfString(data) == None
      else if c > '9' || c < '0' then DateOfString(data) == None
      else Scanned(data, pos + 1, state, span1, span2, start)
  {
    var c := data[pos];
    if c == '.' {
      if state == 2 {
        ScanThirdDot(data, pos, span1, span2, start);
      } else {
        ScanFieldDot(data, pos, state, span1, span2, start);
      }
    } else if c > '9' || c < '0' {
      if DateText(data) {
        DateTextPrefix(data, pos + 1);
      }
    } else {
      ScanFieldDigit(data, pos, state, span1, span2, start);
    }
  }

  lemma ScanFieldDot(data: string, pos: int, state: int, span1: string, span2: string, start: int)
    requires Scanned(data, pos, state, span1, span2, start) && pos < |data| && data[pos] == '.' && state < 2
    ensures state == 0 ==> Scanned(data, pos + 1, 1, data[start..pos], span2, pos + 1)
    ensures state == 1 ==> Scanned(data, pos + 1, 2, span1, data[start..pos], pos + 1)
  {
    var closed, field := ClosedFields(state, span1, span2), data[start..pos];
    assert data[..pos + 1] == data[..pos] + ['.'];
    ScanDot(data[..pos], closed, field);
    assert data[pos + 1..pos + 1] == [];
  }

  lemma ScanThirdDot(data: string, pos: int, span1: string, span2: string, start: int)
    requires Scanned(data, pos, 2, span1, span2, start) && pos < |data| && data[pos] == '.'
    ensures DateOfString(data) == None
  {
    assert data[..pos + 1] == data[..pos] + ['.'];
    ScanDot(data[..pos], [span1, span2], data[start..pos]);
    FieldsGrow(data, pos + 1);
  }

  lemma ScanFieldDigit(data: string, pos: int, state: int, span1: string, span2: string, start: int)
    requires Scanned(data, pos, state, span1, span2, start) && pos < |data| && '0' <= data[pos] <= '9'
    ensures Scanned(data, pos + 1, state, span1, span2, start)
  {
    var c := data[pos];
    var field := data[start..pos];
    assert data[..pos + 1] == data[..pos] + [c];
    ScanDigit(data[..pos], c, ClosedFields(state, span1, span2), field);
    assert data[start..pos + 1] == field + [c];
    DateTextConcat(data[..pos], [c]);
  }

  /** A character other than '.' extends the field being scanned. */
  lemma ScanDigit(prefix: string, c: char, closed: seq<string>, field: string)
    requires Fields(prefix) == closed + [field] && c != '.'
    ensures Fields(prefix + [c]) == closed + [field + [c]]
  {
    FieldsSnoc(prefix, c);
    assert (closed + [field])[..|closed|] == closed;
  }

  /** A '.' closes the field being scanned and opens an empty one. */
  lemma ScanDot(prefix: string, closed: seq<string>, field: string)
    requires Fields(prefix) == closed + [field]
    ensures Fields(prefix + ['.']) == (closed + [field]) + [[]]
  {
    FieldsSnoc(prefix, '.');
  }

  /** At the end of the scan, DateOfString decides on the three fields alone. */
  lemma ParseEnd(data: string, state: int, span1: string, span2: string, start: int)
    requires |data| > 0 && data[0] <= '9'
    requires Scanned(data, |data|, state, span1, span2, start)
    ensures DateOfString(data) ==
      match (ToU64(span1), ToU64(span2), ToU64(data[start..]))
      case (Some(y), Some(m), Some(d)) => New(AsU16(y), AsU8(m), AsU8(d))
      case _ => None
  {
    assert data[..|data|] == data;
  }

  /** A longer string has at least as many fields as its prefixes. */
  lemma {:induction false} FieldsGrow(s: string, k: nat)
    requires k <= |s|
    ensures |Fields(s[..k])| <= |Fields(s)|
    decreases |s|
  {
    if k < |s| {
      var init := s[..|s| - 1];
      FieldsGrow(init, k);
      assert init[..k] == s[..k];
    } else {
      assert s[..k] == s;
    }
  }

  /** How one more character changes the fields: a '.' opens a new field, anything else extends the last. */
  lemma FieldsSnoc(p: string, c: char)
    ensures var f := Fields(p);
      Fields(p + [c]) == if c == '.' then f + [[]] else f[..|f| - 1] + [f[|f| - 1] + [c]]
  {
    assert (p + [c])[..|p|] == p;
  }

  /** Appending characters other than '.' extends the last field. */
  lemma {:induction false} FieldsNoDot(p: string, t: string)
    requires forall i :: 0 <= i < |t| ==> t[i] != '.'
    ensures var f := Fields(p); Fields(p + t) == f[..|f| - 1] + [f[|f| - 1] + t]
    decreases |t|
  {
    var f := Fields(p);
    var k := |f| - 1;
    if t == [] {
      assert p + t == p;
      assert f[k] + t == f[k];
      assert f == f[..k] + [f[k]];
    } else {
      var t', c := t[..|t| - 1], t[|t| - 1];
      FieldsNoDot(p, t');
      assert p + t == (p + t') + [c];
      ScanDigit(p + t', c, f[..k], f[k] + t');
      assert f[k] + t == (f[k] + t') + [c];
    }
  }

  /** A '.' and a dot-free run after a string add the run as one more field. */
  lemma FieldsAfterDot(p: string, t: string)
    requires forall i :: 0 <= i < |t| ==> t[i] != '.'
    ensures Fields(p + "." + t) == Fields(p) + [t]
  {
    var f := Fields(p);
    FieldsSnoc(p, '.');
    FieldsNoDot(p + ".", t);
    var f1 := f + [[]];
    assert f1[..|f1| - 1] == f && f1[|f1| - 1] + t == t;
  }

  /** Three dot-free strings joined with dots split back into those three fields. */
  lemma FieldsOfThree(a: string, b: string, c: string)
    requires forall i :: 0 <= i < |a| ==> a[i] != '.'
    requires forall i :: 0 <= i < |b| ==> b[i] != '.'
    requires forall i :: 0 <= i < |c| ==> c[i] != '.'
    ensures Fields(a + "." + b + "." + c) == [a, b, c]
  {
    FieldsNoDot([], a);
    var f0 := Fields([]);
    assert [] + a == a && f0[0] + a == a;
    FieldsAfterDot(a, b);
    FieldsAfterDot(a + "." + b, c);
  }

  /** Joining the fields of a string with '.' gives the string back. */
  lemma {:induction false} JoinFields(s: string)
    ensures Join(Fields(s)) == s
    decreases |s|
  {
    if s != [] {
      var p, c := s[..|s| - 1], s[|s| - 1];
      JoinFields(p);
      var f := Fields(p);
      if c != '.' {
        var k := |f| - 1;
        if k > 0 {
          assert (f[..k] + [f[k] + [c]])[..k] == f[..k];
          assert f == f[..k] + [f[k]];
        }
      }
      assert s == p + [c];
    }
  }

  /** Three runs of digits joined by dots are read field by field, by both parses. */
  lemma DateOfThree(a: string, b: string, c: string)
    requires a != [] && AllDigitsIn(a, 10) && AllDigitsIn(b, 10) && AllDigitsIn(c, 10)
    ensures DateOfString(a + "." + b + "." + c) ==
      match (ToU64(a), ToU64(b), ToU64(c))
      case (Some(y), Some(m), Some(d)) => New(AsU16(y), AsU8(m), AsU8(d))
      case _ => None
    ensures DateOfStringChecked(a + "." + b + "." + c) ==
      match (ToU64(a), ToU64(b), ToU64(c))
      case (Some(y), Some(m), Some(d)) =>
        if y < 0x1_0000 && m < 0x100 && d < 0x100 then New(y, m, d) else None
      case _ => None
  {
    var s := a + "." + b + "." + c;
    FieldsOfThree(a, b, c);
    assert s[0] == a[0];
    DigitsAreDateText(a);
    DigitsAreDateText(b);
    DigitsAreDateText(c);
    assert DateText(".");
    DateTextConcat(a, ".");
    DateTextConcat(a + ".", b);
    DateTextConcat(a + "." + b, ".");
    DateTextConcat(a + "." + b + ".", c);
  }

  /** DateOfThree once the three numbers are known. */
  lemma ParseThree(a: string, b: string, c: string, y: nat, m: nat, d: nat)
    requires a != [] && AllDigitsIn(a, 10) && AllDigitsIn(b, 10) && AllDigitsIn(c, 10)
    requires ToU64(a) == Some(y) && ToU64(b) == Some(m) && ToU64(c) == Some(d)
    ensures DateOfString(a + "." + b + "." + c) == New(AsU16(y), AsU8(m), AsU8(d))
    ensures DateOfStringChecked(a + "." + b + "." + c) ==
      if y < 0x1_0000 && m < 0x100 && d < 0x100 then New(y, m, d) else None
  {
    DateOfThree(a, b, c);
  }

  /** `to_u64` reads a rendering back when the number fits 64 bits. */
  lemma ToU64Decimal(n: nat)
    requires n < 0x1_0000_0000_0000_0000
    ensures ToU64(Decimal(n)) == Some(n)
  {
    RenderValue(n, 10);
  }

  /** Both parses of three rendered numbers joined by dots. */
  lemma ParseDecimals(y: nat, m: nat, d: nat)
    requires y < 0x1_0000_0000_0000_0000 && m < 0x1_0000_0000_0000_0000 && d < 0x1_0000_0000_0000_0000
    ensures DateOfString(Decimal(y) + "." + Decimal(m) + "." + Decimal(d)) == New(AsU16(y), AsU8(m), AsU8(d))
    ensures DateOfStringChecked(Decimal(y) + "." + Decimal(m) + "." + Decimal(d)) ==
      if y < 0x1_0000 && m < 0x100 && d < 0x100 then New(y, m, d) else None
  {
    ToU64Decimal(y);
    ToU64Decimal(m);
    ToU64Decimal(d);
    ParseThree(Decimal(y), Decimal(m), Decimal(d), y, m, d);
  }

  /** New accepts a valid date given its own fields. */
  lemma NewValid(d: Date)
    requires IsValid(d)
    ensures New(AsU16(d.year), AsU8(d.month), AsU8(d.day)) == Some(d)
  {
  }

  /** Formatting a valid date as "Y.M.D" and parsing it back gives the date. */
  lemma ParseCk3Fmt(d: Date)
    requires IsValid(d)
    ensures DateOfString(Ck3Fmt(d)) == Some(d)
  {
    NewValid(d);
    ParseDecimals(d.year, d.month, d.day);
  }

  // ---------------------------------------------------------------------
  // Parsing with range checks in place of truncation

  /** Like DateOfString, but a number too wide for its field rejects the string. */
  function DateOfStringChecked(s: string): Option<Date>
  {
    if |s| == 0 || s[0] > '9' then None
    else if !DateText(s) then None
    else
      var f := Fields(s);
      if |f| != 3 then None
      else
        match (ToU64(f[0]), ToU64(f[1]), ToU64(f[2]))
        case (Some(y), Some(m), Some(d)) =>
          if y < 0x1_0000 && m < 0x100 && d < 0x100 then New(y, m, d) else None
        case _ => None
  }

  /** Every field is a run of digits without a leading zero. */
  predicate Canonical(s: string)
  {
    forall f :: f in Fields(s) ==> f != [] && AllDigitsIn(f, 10) && (f[0] != '0' || |f| == 1)
  }

  /** What a successful checked parse consists of: three fields whose numbers are the date. */
  lemma CheckedFields(s: string)
    requires DateOfStringChecked(s).Some?
    ensures var f := Fields(s); var d := DateOfStringChecked(s).value;
      && |f| == 3
      && ToU64(f[0]) == Some(d.year as nat)
      && ToU64(f[1]) == Some(d.month as nat)
      && ToU64(f[2]) == Some(d.day as nat)
  {
  }

  /** Three fields joined with dots. */
  lemma JoinThree(f: seq<string>)
    requires |f| == 3
    ensures Join(f) == f[0] + "." + f[1] + "." + f[2]
  {
    var f2 := f[..2];
    assert f2[..1] == [f[0]];
    assert Join(f2) == f[0] + "." + f[1];
  }

  /** A canonical "Y.M.D" string that the checked parse accepts formats back to itself. */
  lemma CanonicalRoundTrip(s: string)
    requires Canonical(s) && DateOfStringChecked(s).Some?
    ensures Ck3Fmt(DateOfStringChecked(s).value) == s
  {
    var f := Fields(s);
    var d := DateOfStringChecked(s).value;
    CheckedFields(s);
    assert f[0] in f && f[1] in f && f[2] in f;
    CanonicalRender(f[0], 10);
    CanonicalRender(f[1], 10);
    CanonicalRender(f[2], 10);
    JoinFields(s);
    JoinThree(f);
  }

  /** The checked parse agrees with the source wherever no field is truncated. */
  lemma CheckedAgreesWhenInRange(s: string)
    requires DateOfStringChecked(s).Some?
    ensures DateOfString(s) == DateOfStringChecked(s)
  {
  }

  /**
    A month written 256·k too large is read as the month itself (`as u8`
    keeps the low 8 bits), so a string such as "1.257.1" parses as 1.1.1 and
    does not format back to itself; the checked parse rejects it.
  */
  lemma WideMonthAccepted(d: Date, k: nat)
    requires IsValid(d) && k >= 1 && d.month + 0x100 * k < 0x1_0000_0000_0000_0000
    ensures var s := Decimal(d.year) + "." + Decimal(d.month + 0x100 * k) + "." + Decimal(d.day);
      && DateOfString(s) == Some(d)
      && Ck3Fmt(d) != s
      && DateOfStringChecked(s) == None
  {
    var wide := d.month + 0x100 * k;
    assert AsU8(wide) == d.month;
    NewValid(d);
    ParseDecimals(d.year, wide, d.day);
    DistinctMiddle(Decimal(d.year), d.month, wide, Decimal(d.day));
  }

  /** Texts whose middle fields render different numbers differ. */
  lemma DistinctMiddle(y: string, m1: nat, m2: nat, d: string)
    requires AllDigitsIn(y, 10) && AllDigitsIn(d, 10) && m1 != m2
    ensures y + "." + Decimal(m1) + "." + d != y + "." + Decimal(m2) + "." + d
  {
    RenderValue(m1, 10);
    RenderValue(m2, 10);
    FieldsOfThree(y, Decimal(m1), d);
    FieldsOfThree(y, Decimal(m2), d);
  }
}
