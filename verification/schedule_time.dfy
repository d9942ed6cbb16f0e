/** Weekly schedules: local weekdays and time to a UTC cron line and back, under one fixed offset.
    An instant is a count of minutes since 1970-01-01 00:00; local counts are `offset` ahead of UTC. */
module ScheduleTime {
  import opened Texts
  import opened Wrappers

  const DAY := 1440
  const WEEK := 10080
  const STAR := 0x2A
  const SPACE := 0x20

  datatype Cron = Cron(minute: int, hour: int, days: seq<int>)

  datatype Schedule = Schedule(days: seq<int>, hour: int, minute: int)

  // ----- The Date object -----

  /** 1970-01-01 was a Thursday; Sunday is 0. */
  function WeekdayOf(minutes: int): (d: int)
    ensures 0 <= d < 7
  {
    (minutes / DAY + 4) % 7
  }

  function HourOf(minutes: int): (h: int)
    ensures 0 <= h < 24
  {
    minutes % DAY / 60
  }

  function MinuteOf(minutes: int): (m: int)
    ensures 0 <= m < 60
  {
    minutes % 60
  }

  /** The given time of day on the first date from base's date on that has the weekday. */
  function OnWeekday(weekday: int, hour: int, minute: int, base: int): int {
    var d := base / DAY * DAY + hour * 60 + minute;
    d + (weekday - WeekdayOf(d) + 7) % 7 * DAY
  }

  predicate IsTime(hour: int, minute: int) {
    0 <= hour <= 23 && 0 <= minute <= 59
  }

  predicate AreDays(days: seq<int>) {
    forall d :: d in days ==> 0 <= d <= 6
  }

  function SetOf(days: seq<int>): set<int> {
    set d | d in days
  }

  /** A set of weekdays as a sorted list, from `d` on. */
  function DayList(days: set<int>, d: nat): seq<int>
    decreases 7 - d
  {
    if d >= 7 then [] else (if d in days then [d] else []) + DayList(days, d + 1)
  }

  // ----- The cron line -----

  /** A number below 100. */
  function Decimal(n: int): Text {
    if n < 10 then [ZERO + n] else [ZERO + n / 10, ZERO + n % 10]
  }

  function Join(days: seq<int>): Text {
    if days == [] then []
    else if |days| == 1 then Decimal(days[0])
    else Decimal(days[0]) + [COMMA] + Join(days[1..])
  }

  const STARS: Text := [SPACE, STAR, SPACE, STAR, SPACE]

  function CronText(c: Cron): Text {
    Decimal(c.minute) + ([SPACE] + (Decimal(c.hour) + (STARS + Join(c.days))))
  }

  function NumberAt(t: Text, i: nat, j: nat): int
    requires i <= j <= |t|
    decreases j - i
  {
    if i == j then 0 else 10 * NumberAt(t, i, j - 1) + t[j - 1] - ZERO
  }

  /** A non-empty run of digits: its value and end. */
  function ReadNumber(t: Text, i: nat): (r: Parsed<int>)
    requires i <= |t|
    ensures r.Good? ==> i < r.next <= |t|
  {
    var e := Digits(t, i, |t|);
    if e == i then Bad else Good(NumberAt(t, i, e), e)
  }

  /** A non-empty run of whitespace: its end. */
  function ReadGap(t: Text, i: nat): (r: Option<nat>)
    requires i <= |t|
    ensures r.Some? ==> i < r.value <= |t|
  {
    if SkipSpace(t, i) == i then None else Some(SkipSpace(t, i))
  }

  /** A star between gaps, whose first gap starts at i: the end of the second. */
  function ReadStar(t: Text, i: nat): (r: Option<nat>)
    requires i <= |t|
    ensures r.Some? ==> i < r.value <= |t|
  {
    if i == |t| || t[i] != STAR then None else ReadGap(t, i + 1)
  }

  function ReadDays(t: Text, i: nat): Option<seq<int>>
    requires i <= |t|
    decreases |t| - i
  {
    if i == |t| || !(ZERO <= t[i] <= ZERO + 6) then None
    else if i + 1 == |t| then Some([t[i] - ZERO])
    else if t[i + 1] != COMMA then None
    else
      var rest := ReadDays(t, i + 2);
      if rest.None? then None else Some([t[i] - ZERO] + rest.value)
  }

  function ReadCron(line: Text): Option<Cron> {
    var t := Trim(line);
    var minute := ReadNumber(t, 0);
    if minute.Bad? then None else
    var gap := ReadGap(t, minute.next);
    if gap.None? then None else
    var hour := ReadNumber(t, gap.value);
    if hour.Bad? then None else
    var days := ReadStars(t, hour.next);
    if days.None? || minute.value > 59 || hour.value > 23 then None
    else Some(Cron(minute.value, hour.value, days.value))
  }

  /** Both stars and the days. */
  function ReadStars(t: Text, i: nat): Option<seq<int>>
    requires i <= |t|
  {
    var gap := ReadGap(t, i);
    if gap.None? then None else
    var month := ReadStar(t, gap.value);
    if month.None? then None else
    var dow := ReadStar(t, month.value);
    if dow.None? then None else ReadDays(t, dow.value)
  }

  // ----- The conversions -----

  /** The time of day and the shift in days when a time of day moves by `step` minutes. */
  function Moved(hour: int, minute: int, step: int): int {
    hour * 60 + minute + step
  }

  function ShiftDay(day: int, moved: int): (d: int)
    ensures 0 <= d < 7
  {
    (day + moved / DAY) % 7
  }

  function Shifted(days: seq<int>, moved: int): set<int> {
    set d | d in days :: ShiftDay(d, moved)
  }

  /** A whole schedule moved by `step` minutes. */
  function Shift(days: seq<int>, hour: int, minute: int, step: int): Schedule {
    var moved := Moved(hour, minute, step);
    Schedule(DayList(Shifted(days, moved), 0), HourOf(moved), MinuteOf(moved))
  }

  lemma OnWeekdayIs(weekday: int, hour: int, minute: int, base: int, step: int)
    requires 0 <= weekday < 7 && IsTime(hour, minute)
    ensures var x, moved := OnWeekday(weekday, hour, minute, base) + step, Moved(hour, minute, step);
            WeekdayOf(x) == ShiftDay(weekday, moved) && HourOf(x) == HourOf(moved) && MinuteOf(x) == MinuteOf(moved)
  {
    var moved := Moved(hour, minute, step);
    var days := FoundDay(weekday, hour, minute, base);
    WholeDays(days, moved);
    NextDays(days + 4, moved / DAY);
  }

  /** The day the search ends on. */
  lemma FoundDay(weekday: int, hour: int, minute: int, base: int) returns (days: int)
    requires 0 <= weekday < 7 && IsTime(hour, minute)
    ensures OnWeekday(weekday, hour, minute, base) == days * DAY + hour * 60 + minute && (days + 4) % 7 == weekday
  {
    var first, time := base / DAY, hour * 60 + minute;
    WholeDays(first, time);
    FoundWeekday(first + 4, weekday);
    var more := (weekday - WeekdayOf(first * DAY + time) + 7) % 7;
    days := first + more;
  }

  lemma FoundWeekday(n: int, weekday: int)
    requires 0 <= weekday < 7
    ensures (n + (weekday - n % 7 + 7) % 7) % 7 == weekday
  {
  }

  lemma NextDays(n: int, more: int)
    ensures (n + more) % 7 == (n % 7 + more) % 7
  {
  }

  lemma WholeDays(days: int, moved: int)
    ensures (days * DAY + moved) / DAY == days + moved / DAY
    ensures (days * DAY + moved) % DAY == moved % DAY && (days * DAY + moved) % 60 == moved % 60
  {
    Whole(days, moved, DAY);
    assert days * DAY == 24 * days * 60;
    Whole(24 * days, moved, 60);
  }

  lemma Whole(q: int, r: int, unit: int)
    requires unit == DAY || unit == 60
    ensures (q * unit + r) / unit == q + r / unit && (q * unit + r) % unit == r % unit
  {
    if unit == DAY {
      assert (q * DAY + r) / DAY == q + r / DAY;
    } else {
      assert (q * 60 + r) / 60 == q + r / 60;
    }
  }

  method LocalToUtcCron(localDays: seq<int>, hour: int, minute: int, base: int, offset: int)
      returns (line: Option<Text>)
    ensures line.Some? <==> localDays != [] && IsTime(hour, minute) && AreDays(localDays)
    ensures line.Some? ==> line == Some(UtcLine(localDays, hour, minute, offset))
  {
    if |localDays| == 0 || hour < 0 || hour > 23 || minute < 0 || minute > 59 {
      return None;
    }
    var utcDays: set<int> := {};
    var utcHour, utcMinute := 0, 0;
    ghost var moved := Moved(hour, minute, -offset);
    for i := 0 to |localDays|
      invariant AreDays(localDays[..i])
      invariant utcDays == set d | d in localDays[..i] :: ShiftDay(d, moved)
      invariant i > 0 ==> utcHour == HourOf(moved) && utcMinute == MinuteOf(moved)
    {
      var wd := localDays[i];
      if wd < 0 || wd > 6 {
        assert wd in localDays;
        return None;
      }
      var local := OnWeekday(wd, hour, minute, base + offset);
      OnWeekdayIs(wd, hour, minute, base + offset, -offset);
      assert localDays[..i + 1] == localDays[..i] + [wd];
      utcDays := utcDays + {WeekdayOf(local - offset)};
      utcHour, utcMinute := HourOf(local - offset), MinuteOf(local - offset);
    }
    assert localDays[..|localDays|] == localDays;
    return Some(CronText(Cron(utcMinute, utcHour, DayList(utcDays, 0))));
  }

  function UtcLine(localDays: seq<int>, hour: int, minute: int, offset: int): Text {
    var s := Shift(localDays, hour, minute, -offset);
    CronText(Cron(s.minute, s.hour, s.days))
  }

  /** Whatever line is read, its numbers and days are in range. */
  lemma CronIsValid(line: Text)
    ensures var c := ReadCron(line);
            c.Some? ==> c.value.days != [] && AreDays(c.value.days) && IsTime(c.value.hour, c.value.minute)
  {
    var t := Trim(line);
    var minute := ReadNumber(t, 0);
    if ReadCron(line).Some? {
      var hour := ReadNumber(t, ReadGap(t, minute.next).value);
      NumberNatural(t, 0, minute.next);
      NumberNatural(t, ReadGap(t, minute.next).value, hour.next);
      StarsValid(t, hour.next);
    }
  }

  lemma {:induction false} NumberNatural(t: Text, i: nat, j: nat)
    requires i <= |t| && i <= j <= Digits(t, i, |t|)
    ensures NumberAt(t, i, j) >= 0
    decreases j - i
  {
    if i < j {
      DigitsAreDigits(t, i, |t|);
      NumberNatural(t, i, j - 1);
    }
  }

  lemma StarsValid(t: Text, i: nat)
    requires i <= |t| && ReadStars(t, i).Some?
    ensures ReadStars(t, i).value != [] && AreDays(ReadStars(t, i).value)
  {
    var month := ReadStar(t, ReadGap(t, i).value);
    DaysValid(t, ReadStar(t, month.value).value);
  }

  lemma {:induction false} DaysValid(t: Text, i: nat)
    requires i <= |t| && ReadDays(t, i).Some?
    ensures ReadDays(t, i).value != [] && AreDays(ReadDays(t, i).value)
    decreases |t| - i
  {
    if i + 1 < |t| { DaysValid(t, i + 2); }
  }

  method UtcCronToLocal(line: Text, base: int, offset: int) returns (r: Option<Schedule>)
    ensures r == LocalOf(line, offset)
  {
    hide ReadCron, OnWeekday, WeekdayOf, HourOf, MinuteOf, ShiftDay, DayList;
    var cron := ReadCron(line);
    if cron.None? {
      return None;
    }
    var Cron(minute, hour, utcDays) := cron.value;
    CronIsValid(line);
    var localDays: set<int> := {};
    var localHour, localMinute := hour, minute;
    ghost var moved := Moved(hour, minute, offset);
    for i := 0 to |utcDays|
      invariant localDays == set d | d in utcDays[..i] :: ShiftDay(d, moved)
      invariant i > 0 ==> localHour == HourOf(moved) && localMinute == MinuteOf(moved)
    {
      assert utcDays[i] in utcDays;
      var utc := OnWeekday(utcDays[i], hour, minute, base);
      OnWeekdayIs(utcDays[i], hour, minute, base, offset);
      assert utcDays[..i + 1] == utcDays[..i] + [utcDays[i]];
      localDays := localDays + {WeekdayOf(utc + offset)};
      localHour, localMinute := HourOf(utc + offset), MinuteOf(utc + offset);
    }
    assert utcDays[..|utcDays|] == utcDays;
    return Some(Schedule(DayList(localDays, 0), localHour, localMinute));
  }

  function LocalOf(line: Text, offset: int): Option<Schedule> {
    var cron := ReadCron(line);
    if cron.None? then None else Some(Shift(cron.value.days, cron.value.hour, cron.value.minute, offset))
  }

  // ----- The line reads back -----

  lemma DecimalReads(n: int, t: Text, i: nat)
    requires 0 <= n < 100 && Stands(t, i, |t|, Decimal(n))
    requires i + |Decimal(n)| < |t| ==> !IsDigit(t[i + |Decimal(n)|])
    ensures ReadNumber(t, i) == Good(n, i + |Decimal(n)|)
  {
    StandsAt(t, i, |t|, Decimal(n), 0);
    assert NumberAt(t, i, i + 1) == 10 * NumberAt(t, i, i) + t[i] - ZERO;
    if n >= 10 {
      StandsAt(t, i, |t|, Decimal(n), 1);
      assert Digits(t, i + 2, |t|) == i + 2;
      assert Digits(t, i + 1, |t|) == i + 2;
    } else {
      assert Digits(t, i + 1, |t|) == i + 1;
    }
  }

  lemma GapReads(t: Text, i: nat)
    requires i + 1 < |t| && t[i] == SPACE && !IsTrimmed(t[i + 1])
    ensures ReadGap(t, i) == Some(i + 1)
  {
    assert SkipSpace(t, i + 1) == i + 1;
  }

  lemma StarsRead(t: Text, i: nat, days: seq<int>)
    requires days != [] && AreDays(days) && Stands(t, i, |t|, STARS + Join(days)) && i + 5 + |Join(days)| == |t|
    ensures ReadStars(t, i) == Some(days)
  {
    hide ReadDays, Join;
    StandsSplit(t, i, |t|, STARS, Join(days));
    StandsAt(t, i, |t|, STARS, 0);
    StandsAt(t, i, |t|, STARS, 1);
    StandsAt(t, i, |t|, STARS, 2);
    StandsAt(t, i, |t|, STARS, 3);
    StandsAt(t, i, |t|, STARS, 4);
    DaysRead(t, i + 5, days);
    GapReads(t, i);
    GapReads(t, i + 2);
    GapReads(t, i + 4);
  }

  lemma {:induction false} DaysRead(t: Text, i: nat, days: seq<int>)
    requires days != [] && AreDays(days) && Stands(t, i, |t|, Join(days)) && i + |Join(days)| == |t|
    ensures ReadDays(t, i) == Some(days) && i < |t| && !IsTrimmed(t[i]) && !IsTrimmed(t[|t| - 1])
    decreases |days|
  {
    assert days[0] in days && forall d :: d in days[1..] ==> d in days;
    if |days| == 1 {
      StandsAt(t, i, |t|, Join(days), 0);
      assert days == [days[0]];
    } else {
      hide ReadDays, Join, Stands;
      JoinSplit(days, t, i);
      DaysRead(t, i + 2, days[1..]);
      DaysCons(days, t, i);
    }
  }

  lemma Regrouped(a: Text, mark: int, b: Text)
    ensures a + [mark] + b == a + ([mark] + b)
  {
  }

  lemma JoinSplit(days: seq<int>, t: Text, i: nat)
    requires |days| > 1 && AreDays(days) && Stands(t, i, |t|, Join(days)) && days[0] in days
    ensures i + 1 < |t| && t[i] == ZERO + days[0] && t[i + 1] == COMMA && Stands(t, i + 2, |t|, Join(days[1..]))
    ensures |Join(days)| == 2 + |Join(days[1..])|
  {
    var rest := Join(days[1..]);
    Regrouped([ZERO + days[0]], COMMA, rest);
    SplitAround(t, i, |t|, [ZERO + days[0]], COMMA, rest);
    StandsAt(t, i, |t|, [ZERO + days[0]], 0);
  }

  lemma DaysCons(days: seq<int>, t: Text, i: nat)
    requires |days| > 1 && i + 2 < |t| && 0 <= days[0] <= 6 && t[i] == ZERO + days[0] && t[i + 1] == COMMA
    requires ReadDays(t, i + 2) == Some(days[1..])
    ensures ReadDays(t, i) == Some(days)
  {
    HeadTail(days);
  }

  predicate ValidCron(c: Cron) {
    IsTime(c.hour, c.minute) && c.days != [] && AreDays(c.days)
  }

  /** Reading back the line that was written. */
  lemma CronReadsBack(c: Cron)
    requires ValidCron(c)
    ensures ReadCron(CronText(c)) == Some(c)
  {
    hide ReadNumber, ReadStars, ReadGap, Decimal, Join, Stands, Trim;
    var t := CronText(c);
    var tail := STARS + Join(c.days);
    var i := CronStands(c, t);
    DecimalReads(c.minute, t, 0);
    DecimalReads(c.hour, t, i);
    StarsRead(t, i + |Decimal(c.hour)|, c.days);
    GapReads(t, i - 1);
  }

  lemma CronStands(c: Cron, t: Text) returns (i: nat)
    requires ValidCron(c) && t == CronText(c)
    ensures i == |Decimal(c.minute)| + 1 && i + |Decimal(c.hour)| < |t| && t[i - 1] == SPACE == t[i + |Decimal(c.hour)|]
    ensures Stands(t, 0, |t|, Decimal(c.minute)) && Stands(t, i, |t|, Decimal(c.hour)) && !IsTrimmed(t[i])
    ensures Stands(t, i + |Decimal(c.hour)|, |t|, STARS + Join(c.days))
            && |t| == i + |Decimal(c.hour)| + 5 + |Join(c.days)|
    ensures Trim(t) == t
  {
    hide Join, Trim, ReadDays;
    var tail := STARS + Join(c.days);
    i := |Decimal(c.minute)| + 1;
    var j := i + |Decimal(c.hour)|;
    CronSplit(c, t, tail);
    StandsAt(t, j, |t|, tail, 0);
    StandsAt(t, i, |t|, Decimal(c.hour), 0);
    StandsAt(t, 0, |t|, Decimal(c.minute), 0);
    StandsSplit(t, j, |t|, STARS, Join(c.days));
    DaysRead(t, j + 5, c.days);
    NothingToTrim(t);
  }

  lemma CronSplit(c: Cron, t: Text, tail: Text)
    requires t == CronText(c) && tail == STARS + Join(c.days)
    ensures var i := |Decimal(c.minute)| + 1;
            && Stands(t, 0, |t|, Decimal(c.minute)) && i <= |t| && t[i - 1] == SPACE
            && Stands(t, i, |t|, Decimal(c.hour)) && Stands(t, i + |Decimal(c.hour)|, |t|, tail)
            && |t| == i + |Decimal(c.hour)| + |tail|
  {
    hide Decimal, Join;
    assert t[0..|t|] == t;
    SplitAround(t, 0, |t|, Decimal(c.minute), SPACE, Decimal(c.hour) + tail);
    StandsSplit(t, |Decimal(c.minute)| + 1, |t|, Decimal(c.hour), tail);
  }

  lemma NothingToTrim(t: Text)
    requires t != [] && !IsTrimmed(t[0]) && !IsTrimmed(t[|t| - 1])
    ensures Trim(t) == t
  {
  }

  // ----- Which lines are read at all -----

  predicate AllDigits(t: Text, i: nat, j: nat) {
    i < j <= |t| && forall k :: i <= k < j ==> 0x30 <= t[k] <= 0x39
  }

  predicate AllBlank(t: Text, i: nat, j: nat) {
    i < j <= |t| && forall k :: i <= k < j ==> IsTrimmed(t[k])
  }

  /** From i to the end: single digits of weekdays, with commas between. */
  predicate DaysFill(t: Text, i: nat, days: seq<int>) {
    && days != [] && i + 2 * |days| - 1 == |t|
    && (forall k :: 0 <= k < |days| ==> 0 <= days[k] <= 6 && t[i + 2 * k] == 0x30 + days[k])
    && (forall k :: 0 <= k < |days| - 1 ==> t[i + 2 * k + 1] == 0x2C)
  }

  /** Where the five fields of a line and the gaps between them end. */
  datatype Marks = Marks(minute: nat, gap: nat, hour: nat, first: nat, second: nat, days: nat)

  /** The line is a minute, an hour, two stars and the days, with blanks between. */
  predicate IsLine(t: Text, c: Cron, m: Marks) {
    && AllDigits(t, 0, m.minute) && AllBlank(t, m.minute, m.gap) && NumberAt(t, 0, m.minute) == c.minute <= 59
    && AllDigits(t, m.gap, m.hour) && AllBlank(t, m.hour, m.first) && NumberAt(t, m.gap, m.hour) == c.hour <= 23
    && m.first < |t| && t[m.first] == 0x2A && AllBlank(t, m.first + 1, m.second)
    && m.second < |t| && t[m.second] == 0x2A && AllBlank(t, m.second + 1, m.days)
    && DaysFill(t, m.days, c.days)
  }

  lemma {:induction false} DigitsEnd(t: Text, i: nat, j: nat)
    requires i <= j <= |t| && (forall k :: i <= k < j ==> IsDigit(t[k])) && (j < |t| ==> !IsDigit(t[j]))
    ensures Digits(t, i, |t|) == j
    decreases j - i
  {
    if i < j { DigitsEnd(t, i + 1, j); }
  }

  lemma {:induction false} SpaceEnds(t: Text, i: nat, j: nat)
    requires i <= j <= |t| && (forall k :: i <= k < j ==> IsTrimmed(t[k])) && (j < |t| ==> !IsTrimmed(t[j]))
    ensures SkipSpace(t, i) == j
    decreases j - i
  {
    if i < j { SpaceEnds(t, i + 1, j); }
  }

  lemma {:induction false} DigitsStop(t: Text, i: nat)
    requires i <= |t|
    ensures Digits(t, i, |t|) < |t| ==> !IsDigit(t[Digits(t, i, |t|)])
    decreases |t| - i
  {
    if i < |t| && IsDigit(t[i]) { DigitsStop(t, i + 1); }
  }

  lemma {:induction false} DaysFilled(t: Text, i: nat)
    requires i <= |t| && ReadDays(t, i).Some?
    ensures DaysFill(t, i, ReadDays(t, i).value)
    decreases |t| - i
  {
    if i + 1 < |t| {
      DaysFilled(t, i + 2);
      var days, rest := ReadDays(t, i).value, ReadDays(t, i + 2).value;
      assert days == [t[i] - ZERO] + rest;
      forall k | 0 < k < |days| ensures 0 <= days[k] <= 6 && t[i + 2 * k] == 0x30 + days[k] {
        assert days[k] == rest[k - 1] && t[i + 2 + 2 * (k - 1)] == 0x30 + rest[k - 1];
      }
      forall k | 0 < k < |days| - 1 ensures t[i + 2 * k + 1] == 0x2C {
        assert t[i + 2 + 2 * (k - 1) + 1] == 0x2C;
      }
    }
  }

  lemma {:induction false} FilledReads(t: Text, i: nat, days: seq<int>)
    requires DaysFill(t, i, days)
    ensures ReadDays(t, i) == Some(days)
    decreases |days|
  {
    assert t[i + 2 * 0] == 0x30 + days[0];
    if |days| > 1 {
      var rest := days[1..];
      assert t[i + 2 * 0 + 1] == 0x2C;
      forall k | 0 <= k < |rest| ensures 0 <= rest[k] <= 6 && t[i + 2 + 2 * k] == 0x30 + rest[k] {
        assert t[i + 2 * (k + 1)] == 0x30 + days[k + 1];
      }
      forall k | 0 <= k < |rest| - 1 ensures t[i + 2 + 2 * k + 1] == 0x2C {
        assert t[i + 2 * (k + 1) + 1] == 0x2C;
      }
      FilledReads(t, i + 2, rest);
      HeadTail(days);
    } else {
      assert days == [days[0]];
    }
  }

  lemma NumberRead(t: Text, i: nat, j: nat)
    requires AllDigits(t, i, j) && (j < |t| ==> !IsDigit(t[j]))
    ensures ReadNumber(t, i) == Good(NumberAt(t, i, j), j)
  {
    DigitsEnd(t, i, j);
  }

  lemma GapRead(t: Text, i: nat, j: nat)
    requires AllBlank(t, i, j) && (j < |t| ==> !IsTrimmed(t[j]))
    ensures ReadGap(t, i) == Some(j)
  {
    SpaceEnds(t, i, j);
  }

  /** Exactly the lines of that form are read, as the numbers and days they hold. */
  lemma ReadCronIff(line: Text, c: Cron)
    ensures ReadCron(line) == Some(c) <==> exists m :: IsLine(Trim(line), c, m)
  {
    hide ReadNumber, ReadGap, ReadDays, NumberAt, Trim, IsTrimmed;
    if ReadCron(line) == Some(c) { var m := LineRead(line); }
    if m :| IsLine(Trim(line), c, m) { LineReads(line, c, m); }
  }

  lemma NumberFound(t: Text, i: nat)
    requires i <= |t| && ReadNumber(t, i).Good?
    ensures AllDigits(t, i, ReadNumber(t, i).next) && ReadNumber(t, i).value == NumberAt(t, i, ReadNumber(t, i).next)
  {
    DigitsAreDigits(t, i, |t|);
  }

  lemma GapFound(t: Text, i: nat)
    requires i <= |t| && ReadGap(t, i).Some?
    ensures AllBlank(t, i, ReadGap(t, i).value)
  {
  }

  lemma LineRead(line: Text) returns (m: Marks)
    requires ReadCron(line).Some?
    ensures IsLine(Trim(line), ReadCron(line).value, m)
  {
    hide ReadNumber, ReadGap, ReadDays, NumberAt, Trim, IsTrimmed, DaysFill, AllDigits, AllBlank;
    var t := Trim(line);
    var minute := ReadNumber(t, 0);
    NumberFound(t, 0);
    var gap := ReadGap(t, minute.next);
    GapFound(t, minute.next);
    var hour := ReadNumber(t, gap.value);
    NumberFound(t, gap.value);
    var first := ReadGap(t, hour.next);
    GapFound(t, hour.next);
    var second := ReadGap(t, first.value + 1);
    GapFound(t, first.value + 1);
    var days := ReadGap(t, second.value + 1);
    GapFound(t, second.value + 1);
    m := Marks(minute.next, gap.value, hour.next, first.value, second.value, days.value);
    DaysFilled(t, m.days);
  }

  lemma LineReads(line: Text, c: Cron, m: Marks)
    requires IsLine(Trim(line), c, m)
    ensures ReadCron(line) == Some(c)
  {
    hide *;
    LineRuns(Trim(line), c, m);
    LineAssembles(line, c, m);
  }

  /** A blank is no digit, and a digit or a star no blank. */
  lemma RunsEnd(t: Text)
    ensures forall k :: 0 <= k < |t| ==> !(IsTrimmed(t[k]) && (IsDigit(t[k]) || t[k] == 0x2A))
  {
  }

  lemma DaysStart(t: Text, i: nat, days: seq<int>)
    requires DaysFill(t, i, days)
    ensures i < |t| && IsDigit(t[i])
  {
    assert t[i + 2 * 0] == 0x30 + days[0];
  }

  lemma LineRuns(t: Text, c: Cron, m: Marks)
    requires IsLine(t, c, m)
    ensures m.minute < m.gap < m.hour < m.first < m.second < m.days < |t|
    ensures ReadNumber(t, 0) == Good(c.minute, m.minute) && ReadGap(t, m.minute) == Some(m.gap)
    ensures ReadNumber(t, m.gap) == Good(c.hour, m.hour) && ReadGap(t, m.hour) == Some(m.first)
    ensures t[m.first] == 0x2A && ReadGap(t, m.first + 1) == Some(m.second)
    ensures t[m.second] == 0x2A && ReadGap(t, m.second + 1) == Some(m.days)
    ensures ReadDays(t, m.days) == Some(c.days) && c.minute <= 59 && c.hour <= 23
  {
    hide ReadNumber, ReadGap, ReadDays, NumberAt, DaysFill, IsTrimmed;
    RunsEnd(t);
    DaysStart(t, m.days, c.days);
    NumberRead(t, 0, m.minute);
    GapRead(t, m.minute, m.gap);
    NumberRead(t, m.gap, m.hour);
    GapRead(t, m.hour, m.first);
    GapRead(t, m.first + 1, m.second);
    GapRead(t, m.second + 1, m.days);
    FilledReads(t, m.days, c.days);
  }

  lemma LineAssembles(line: Text, c: Cron, m: Marks)
    requires var t := Trim(line);
             && m.minute < m.gap < m.hour < m.first < m.second < m.days < |t|
             && ReadNumber(t, 0) == Good(c.minute, m.minute) && ReadGap(t, m.minute) == Some(m.gap)
             && ReadNumber(t, m.gap) == Good(c.hour, m.hour) && ReadGap(t, m.hour) == Some(m.first)
             && t[m.first] == 0x2A && ReadGap(t, m.first + 1) == Some(m.second)
             && t[m.second] == 0x2A && ReadGap(t, m.second + 1) == Some(m.days)
             && ReadDays(t, m.days) == Some(c.days) && c.minute <= 59 && c.hour <= 23
    ensures ReadCron(line) == Some(c)
  {
    hide ReadNumber, ReadGap, ReadDays, Trim;
  }

  /** A line written out. */
  lemma LineSpelled()
    ensures CronText(Cron(5, 17, [1, 3])) == Units("5 17 * * 1,3")
  {
    assert Join([1, 3]) == Decimal(1) + [COMMA] + Join([3]) by { assert [1, 3][1..] == [3]; }
  }

  // ----- The shift is undone -----

  /** Moving a time of day forth and back. */
  lemma MovedBack(day: int, hour: int, minute: int, step: int)
    requires 0 <= day <= 6 && IsTime(hour, minute)
    ensures var there := Moved(hour, minute, step);
            var back := Moved(HourOf(there), MinuteOf(there), -step);
            && ShiftDay(ShiftDay(day, there), back) == day && HourOf(back) == hour && MinuteOf(back) == minute
  {
    var there := Moved(hour, minute, step);
    var back := Moved(HourOf(there), MinuteOf(there), -step);
    TimeOfDay(there);
    WholeDays(-(there / DAY), hour * 60 + minute);
    assert back == -(there / DAY) * DAY + (hour * 60 + minute);
    DayBack(day, there / DAY);
  }

  lemma TimeOfDay(moved: int)
    ensures HourOf(moved) * 60 + MinuteOf(moved) == moved % DAY == moved - moved / DAY * DAY
  {
  }

  lemma DayBack(day: int, more: int)
    requires 0 <= day <= 6
    ensures ((day + more) % 7 + -more) % 7 == day
  {
    NextDays(day + more, -more);
  }

  lemma {:induction false} DayListHolds(days: set<int>, d: nat)
    requires d <= 7 && forall x :: x in days ==> 0 <= x <= 6
    ensures forall x :: x in DayList(days, d) <==> x in days && x >= d
    decreases 7 - d
  {
    if d < 7 {
      DayListHolds(days, d + 1);
      assert forall x :: x in days && x >= d <==> (x == d && d in days) || (x in days && x >= d + 1);
    }
  }

  ghost predicate Increasing(s: seq<int>) {
    forall i, j :: 0 <= i < j < |s| ==> s[i] < s[j]
  }

  lemma LeastFirst(least: int, rest: seq<int>)
    requires Increasing(rest) && forall x :: x in rest ==> least < x
    ensures Increasing([least] + rest)
  {
    var s := [least] + rest;
    forall i, j | 0 <= i < j < |s| ensures s[i] < s[j] {
      assert s[j] == rest[j - 1] && rest[j - 1] in rest;
    }
  }

  lemma {:induction false} DayListIncreases(days: set<int>, d: nat)
    requires d <= 7 && forall x :: x in days ==> 0 <= x <= 6
    ensures Increasing(DayList(days, d))
    decreases 7 - d
  {
    hide Increasing;
    if d == 7 {
      NoneIncreases();
    } else {
      var rest := DayList(days, d + 1);
      DayListHolds(days, d + 1);
      DayListIncreases(days, d + 1);
      LeastFirst(d, rest);
      assert [] + rest == rest;
    }
  }

  lemma NoneIncreases()
    ensures Increasing([])
  {
  }

  lemma ShiftBack(days: seq<int>, hour: int, minute: int, step: int)
    requires AreDays(days) && IsTime(hour, minute)
    ensures var s := Shift(days, hour, minute, step);
            Shift(s.days, s.hour, s.minute, -step) == Schedule(DayList(SetOf(days), 0), hour, minute)
  {
    var there := Moved(hour, minute, step);
    var s := Shift(days, hour, minute, step);
    var back := Moved(s.hour, s.minute, -step);
    MovedBack(0, hour, minute, step);
    DayListHolds(Shifted(days, there), 0);
    forall d ensures d in Shifted(s.days, back) <==> d in SetOf(days) {
      BackAgain(days, s.days, d, hour, minute, step);
    }
    assert Shifted(s.days, back) == SetOf(days);
  }

  lemma BackAgain(days: seq<int>, there: seq<int>, d: int, hour: int, minute: int, step: int)
    requires AreDays(days) && IsTime(hour, minute)
    requires forall x :: x in there <==> x in Shifted(days, Moved(hour, minute, step))
    ensures var moved := Moved(hour, minute, step);
            d in Shifted(there, Moved(HourOf(moved), MinuteOf(moved), -step)) <==> d in SetOf(days)
  {
    var moved := Moved(hour, minute, step);
    var back := Moved(HourOf(moved), MinuteOf(moved), -step);
    if d in days {
      MovedBack(d, hour, minute, step);
      assert ShiftDay(d, moved) in there;
    }
    if d in Shifted(there, back) {
      var x :| x in there && ShiftDay(x, back) == d;
      var y :| y in days && ShiftDay(y, moved) == x;
      MovedBack(y, hour, minute, step);
    }
  }

  /** Round trip through the stored line: the sorted set of days and the same time, whatever the
      offset and whenever either conversion is made. */
  lemma RoundTrip(days: seq<int>, hour: int, minute: int, offset: int)
    requires days != [] && AreDays(days) && IsTime(hour, minute)
    ensures LocalOf(UtcLine(days, hour, minute, offset), offset)
            == Some(Schedule(DayList(SetOf(days), 0), hour, minute))
    ensures var sorted := DayList(SetOf(days), 0);
            && (forall d :: d in sorted <==> d in days)
            && (forall i, j :: 0 <= i < j < |sorted| ==> sorted[i] < sorted[j])
  {
    hide ReadCron, CronText, DayList, Shifted, HourOf, MinuteOf;
    DayListHolds(SetOf(days), 0);
    DayListIncreases(SetOf(days), 0);
    var s := Shift(days, hour, minute, -offset);
    ShiftedDays(days, Moved(hour, minute, -offset));
    CronReadsBack(Cron(s.minute, s.hour, s.days));
    ShiftBack(days, hour, minute, -offset);
  }

  lemma ShiftedDays(days: seq<int>, moved: int)
    requires days != []
    ensures var list := DayList(Shifted(days, moved), 0);
            list != [] && AreDays(list) && SetOf(list) == Shifted(days, moved)
  {
    hide DayList, ShiftDay;
    var list := DayList(Shifted(days, moved), 0);
    ShiftedInWeek(days, moved);
    DayListHolds(Shifted(days, moved), 0);
    assert ShiftDay(days[0], moved) in list;
    assert forall d :: d in SetOf(list) <==> d in Shifted(days, moved);
  }

  lemma ShiftedInWeek(days: seq<int>, moved: int)
    ensures forall d :: d in Shifted(days, moved) ==> 0 <= d <= 6
    ensures forall d :: d in days ==> ShiftDay(d, moved) in Shifted(days, moved)
  {
  }

  /** Minutes into the week, from Sunday 00:00. */
  function WeekMinute(day: int, hour: int, minute: int): int {
    day * DAY + hour * 60 + minute
  }

  /** Every day's instant moves by exactly the offset, around the week. */
  lemma InstantMoves(day: int, hour: int, minute: int, step: int)
    requires 0 <= day <= 6 && IsTime(hour, minute)
    ensures var moved := Moved(hour, minute, step);
            WeekMinute(ShiftDay(day, moved), HourOf(moved), MinuteOf(moved))
                == (WeekMinute(day, hour, minute) + step) % WEEK
  {
    var moved := Moved(hour, minute, step);
    TimeOfDay(moved);
    AroundTheWeek(day + moved / DAY, moved % DAY);
    assert WeekMinute(day, hour, minute) + step == (day + moved / DAY) * DAY + moved % DAY;
  }

  lemma AroundTheWeek(n: int, time: int)
    requires 0 <= time < DAY
    ensures (n * DAY + time) % WEEK == n % 7 * DAY + time
  {
    assert n == n / 7 * 7 + n % 7;
    var q, r := n / 7, n % 7 * DAY + time;
    assert n * DAY + time == q * WEEK + r && 0 <= r < WEEK;
  }

  /** The schedule stored means the same instants of the week, and as many of them. */
  lemma SameInstants(days: seq<int>, hour: int, minute: int, offset: int)
    requires AreDays(days) && IsTime(hour, minute)
    ensures var s := Shift(days, hour, minute, -offset);
            && (set d | d in s.days :: WeekMinute(d, s.hour, s.minute))
               == (set d | d in days :: (WeekMinute(d, hour, minute) - offset) % WEEK)
            && |s.days| == |SetOf(days)|
  {
    hide DayList, ShiftDay, HourOf, MinuteOf, WeekMinute, Moved;
    var moved := Moved(hour, minute, -offset);
    ShiftedInWeek(days, moved);
    DayListHolds(Shifted(days, moved), 0);
    InstantsMove(days, DayList(Shifted(days, moved), 0), hour, minute, -offset);
    ShiftedCount(SetOf(days), 7, moved);
    assert Below(SetOf(days), 7) == SetOf(days);
    assert Shifted(days, moved) == ShiftedSet(SetOf(days), moved);
    ListCount(Shifted(days, moved), 0);
    assert Shifted(days, moved) == set x | x in Shifted(days, moved) && x >= 0;
  }

  lemma InstantsMove(days: seq<int>, there: seq<int>, hour: int, minute: int, step: int)
    requires AreDays(days) && IsTime(hour, minute)
    requires forall x :: x in there <==> x in Shifted(days, Moved(hour, minute, step))
    ensures var moved := Moved(hour, minute, step);
            (set d | d in there :: WeekMinute(d, HourOf(moved), MinuteOf(moved)))
            == (set d | d in days :: (WeekMinute(d, hour, minute) + step) % WEEK)
  {
    hide WeekMinute, ShiftDay, HourOf, MinuteOf;
    var moved := Moved(hour, minute, step);
    forall d | d in days
      ensures ShiftDay(d, moved) in there
      ensures WeekMinute(ShiftDay(d, moved), HourOf(moved), MinuteOf(moved))
              == (WeekMinute(d, hour, minute) + step) % WEEK
    {
      InstantMoves(d, hour, minute, step);
      assert ShiftDay(d, moved) in Shifted(days, moved);
    }
  }

  function ShiftedSet(days: set<int>, moved: int): set<int> {
    set d | d in days :: ShiftDay(d, moved)
  }

  lemma ShiftInjective(a: int, b: int, moved: int)
    requires 0 <= a <= 6 && 0 <= b <= 6 && ShiftDay(a, moved) == ShiftDay(b, moved)
    ensures a == b
  {
  }

  function Below(days: set<int>, bound: int): set<int> {
    set d | d in days && d < bound
  }

  /** No two weekdays land on the same one. */
  lemma {:induction false} ShiftedCount(days: set<int>, bound: nat, moved: int)
    requires bound <= 7 && forall d :: d in days ==> 0 <= d <= 6
    ensures |ShiftedSet(Below(days, bound), moved)| == |Below(days, bound)|
    decreases bound
  {
    if bound == 0 {
      assert Below(days, 0) == {} && ShiftedSet(Below(days, 0), moved) == {};
    } else {
      hide ShiftDay;
      var x, rest := bound - 1, Below(days, bound - 1);
      ShiftedCount(days, bound - 1, moved);
      if x in days {
        forall d | d in rest ensures ShiftDay(d, moved) != ShiftDay(x, moved) {
          if ShiftDay(d, moved) == ShiftDay(x, moved) { ShiftInjective(d, x, moved); }
        }
        assert Below(days, bound) == rest + {x};
        assert ShiftedSet(Below(days, bound), moved) == ShiftedSet(rest, moved) + {ShiftDay(x, moved)};
      } else {
        assert Below(days, bound) == rest;
      }
    }
  }

  lemma {:induction false} ListCount(days: set<int>, d: nat)
    requires d <= 7 && forall x :: x in days ==> 0 <= x <= 6
    ensures |DayList(days, d)| == |set x | x in days && x >= d|
    decreases 7 - d
  {
    if d == 7 {
      assert (set x | x in days && x >= d) == {};
    } else {
      ListCount(days, d + 1);
      var later := set x | x in days && x >= d + 1;
      if d in days {
        assert (set x | x in days && x >= d) == later + {d};
      } else {
        assert (set x | x in days && x >= d) == later;
      }
    }
  }
}
