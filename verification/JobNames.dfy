/** Names of runtime jobs: `unity-<YYYY-MM-DD-HH-MM-SS>-u<id><environment suffix>`. */
module JobNames {
  import opened Prelude
  import opened Ordering

  // ---- calendar time ----

  datatype Stamp = Stamp(year: nat, month: nat, day: nat, hour: nat, minute: nat, second: nat)

  predicate IsLeap(year: nat) {
    year % 4 == 0 && (year % 100 != 0 || year % 400 == 0)
  }

  function DaysInYear(year: nat): nat {
    if IsLeap(year) then 366 else 365
  }

  function DaysInMonth(year: nat, month: nat): nat {
    if month == 2 then if IsLeap(year) then 29 else 28
    else if month in {4, 6, 9, 11} then 30
    else 31
  }

  /** What the source's date parser accepts. */
  predicate IsDate(s: Stamp) {
    && 1 <= s.year <= 9999 && 1 <= s.month <= 12 && 1 <= s.day <= DaysInMonth(s.year, s.month)
    && s.hour < 24 && s.minute < 60 && s.second < 60
  }

  function DaysBeforeYear(year: nat): int
    requires year >= 1
  {
    var y := year - 1;
    365 * y + y / 4 - y / 100 + y / 400
  }

  function DaysBeforeMonth(year: nat, month: nat): nat
    requires month >= 1
  {
    if month == 1 then 0 else DaysBeforeMonth(year, month - 1) + DaysInMonth(year, month - 1)
  }

  function DayNumber(s: Stamp): int
    requires IsDate(s)
  {
    DaysBeforeYear(s.year) + DaysBeforeMonth(s.year, s.month) + s.day
  }

  /** Seconds since the start of the calendar. */
  function Seconds(s: Stamp): int
    requires IsDate(s)
  {
    (DayNumber(s) * 24 + s.hour) * 3600 + s.minute * 60 + s.second
  }

  lemma MultiplesUpTo(y: nat)
    ensures (y + 1) / 4 == y / 4 + if (y + 1) % 4 == 0 then 1 else 0
    ensures (y + 1) / 100 == y / 100 + if (y + 1) % 100 == 0 then 1 else 0
    ensures (y + 1) / 400 == y / 400 + if (y + 1) % 400 == 0 then 1 else 0
  {
  }

  lemma CenturiesAreFourfold(year: nat)
    ensures year % 100 == 0 ==> year % 4 == 0
    ensures year % 400 == 0 ==> year % 100 == 0
  {
    assert year == 4 * (25 * (year / 100)) + year % 100;
    assert year == 100 * (4 * (year / 400)) + year % 400;
  }

  lemma YearLength(year: nat)
    requires year >= 1
    ensures DaysBeforeYear(year + 1) == DaysBeforeYear(year) + DaysInYear(year)
  {
    MultiplesUpTo(year - 1);
    CenturiesAreFourfold(year);
  }

  lemma {:induction false} YearsAscend(a: nat, b: nat)
    requires 1 <= a < b
    ensures DaysBeforeYear(a) + DaysInYear(a) <= DaysBeforeYear(b)
    decreases b - a
  {
    YearLength(b - 1);
    if a < b - 1 {
      YearsAscend(a, b - 1);
    }
  }

  lemma {:induction false} MonthsAscend(year: nat, a: nat, b: nat)
    requires 1 <= a < b
    ensures DaysBeforeMonth(year, a) + DaysInMonth(year, a) <= DaysBeforeMonth(year, b)
    decreases b - a
  {
    if a < b - 1 {
      MonthsAscend(year, a, b - 1);
    }
  }

  lemma {:induction false} YearIsThirteenMonths(year: nat)
    ensures DaysBeforeMonth(year, 13) == DaysInYear(year)
  {
    assert DaysBeforeMonth(year, 2) == 31;
    assert DaysBeforeMonth(year, 3) == 31 + DaysInMonth(year, 2);
    FourMonths(year, 3);
    FourMonths(year, 7);
    assert DaysBeforeMonth(year, 13) == DaysBeforeMonth(year, 11) + 61;
  }

  lemma FourMonths(year: nat, month: nat)
    requires month == 3 || month == 7
    ensures DaysBeforeMonth(year, month + 4) == DaysBeforeMonth(year, month) + if month == 3 then 122 else 123
  {
    assert DaysBeforeMonth(year, month + 2) == DaysBeforeMonth(year, month) + if month == 3 then 61 else 62;
  }

  /** Field by field, the most significant first. */
  predicate Earlier(s: Stamp, t: Stamp) {
    s.year < t.year || (s.year == t.year &&
    (s.month < t.month || (s.month == t.month &&
    (s.day < t.day || (s.day == t.day &&
    (s.hour < t.hour || (s.hour == t.hour &&
    (s.minute < t.minute || (s.minute == t.minute && s.second < t.second)))))))))
  }

  lemma DaysAscend(s: Stamp, t: Stamp)
    requires IsDate(s) && IsDate(t)
    requires s.year < t.year || (s.year == t.year && (s.month < t.month || (s.month == t.month && s.day < t.day)))
    ensures DayNumber(s) < DayNumber(t)
  {
    if s.year < t.year {
      YearsAscend(s.year, t.year);
      MonthsAscend(s.year, s.month, 13);
      YearIsThirteenMonths(s.year);
    } else if s.month < t.month {
      MonthsAscend(s.year, s.month, t.month);
    }
  }

  /** Comparing stamps field by field is comparing moments. */
  lemma EarlierIsSooner(s: Stamp, t: Stamp)
    requires IsDate(s) && IsDate(t)
    ensures Earlier(s, t) <==> Seconds(s) < Seconds(t)
  {
    if Earlier(s, t) {
      SoonerSeconds(s, t);
    } else if s != t {
      SoonerSeconds(t, s);
    }
  }

  lemma SoonerSeconds(s: Stamp, t: Stamp)
    requires IsDate(s) && IsDate(t) && Earlier(s, t)
    ensures Seconds(s) < Seconds(t)
  {
    if s.year != t.year || s.month != t.month || s.day != t.day {
      DaysAscend(s, t);
    }
  }

  // ---- text ----

  function Digit(n: nat): char
    requires n < 10
  {
    (48 + n) as char
  }

  function Two(n: nat): string
    requires n < 100
  {
    [Digit(n / 10), Digit(n % 10)]
  }

  function YearText(s: Stamp): string
    requires IsDate(s)
  {
    Two(s.year / 100) + Two(s.year % 100)
  }

  /** `strftime("%Y-%m-%d-%H-%M-%S")`. */
  function Text(s: Stamp): string
    requires IsDate(s)
  {
    Dashed(YearText(s), Dashed(Two(s.month),
        Dashed(Two(s.day), Dashed(Two(s.hour), Dashed(Two(s.minute), Two(s.second))))))
  }

  function Dashed(a: string, b: string): string {
    a + "-" + b
  }

  /** The name of a job created at `s`; `rest` is the random id and the environment suffix. */
  function JobName(s: Stamp, rest: string): string
    requires IsDate(s)
  {
    Dashed("unity", Dashed(Text(s), rest))
  }

  /** A name from its day on. */
  function Tail(s: Stamp, rest: string): string
    requires IsDate(s)
  {
    Dashed(Two(s.day), Dashed(Two(s.hour), Dashed(Two(s.minute), Dashed(Two(s.second), rest))))
  }

  predicate IsDigit(c: char) {
    '0' <= c <= '9'
  }

  /** `split("-")`. */
  function Parts(s: string): (parts: seq<string>)
    ensures parts != []
  {
    if s == "" then [""]
    else if s[0] == '-' then [""] + Parts(s[1..])
    else var parts := Parts(s[1..]); [[s[0]] + parts[0]] + parts[1..]
  }

  predicate IsNumber(part: string) {
    AreDigits(part, 2) || AreDigits(part, 4)
  }

  function Numbers(parts: seq<string>): seq<string> {
    if parts == [] then [] else (if IsNumber(parts[0]) then [parts[0]] else []) + Numbers(parts[1..])
  }

  function Pair(part: string, at: nat): nat
    requires at + 1 < |part| && IsDigit(part[at]) && IsDigit(part[at + 1])
  {
    (part[at] as int - 48) * 10 + (part[at + 1] as int - 48)
  }

  predicate AreDigits(part: string, size: nat) {
    |part| == size && forall i :: 0 <= i < size ==> IsDigit(part[i])
  }

  /** What `strptime` makes of numeric parts; it raises (None) on anything but a date. */
  function DateFrom(n: seq<string>): (date: Option<Stamp>)
    ensures date.Some? ==> IsDate(date.value)
  {
    if |n| == 6 && AreDigits(n[0], 4) && AreDigits(n[1], 2) && AreDigits(n[2], 2) && AreDigits(n[3], 2)
        && AreDigits(n[4], 2) && AreDigits(n[5], 2) then
      var s := Stamp(Pair(n[0], 0) * 100 + Pair(n[0], 2), Pair(n[1], 0), Pair(n[2], 0), Pair(n[3], 0), Pair(n[4], 0),
          Pair(n[5], 0));
      if IsDate(s) then Some(s) else None
    else
      None
  }

  /** The date of a name, from its numeric parts. */
  function DateOf(name: string): (date: Option<Stamp>)
    ensures date.Some? ==> IsDate(date.value)
  {
    DateFrom(Numbers(Parts(name)))
  }

  lemma {:induction false} PartsOfDashed(a: string, b: string)
    requires '-' !in a
    ensures Parts(Dashed(a, b)) == [a] + Parts(b)
  {
    if a == "" {
      assert Dashed(a, b)[1..] == b;
    } else {
      PartsOfDashed(a[1..], b);
      assert Dashed(a, b)[1..] == Dashed(a[1..], b);
      assert a == [a[0]] + a[1..];
    }
  }

  lemma NumbersOfDashed(a: string, b: string)
    requires '-' !in a
    ensures Numbers(Parts(Dashed(a, b))) == (if IsNumber(a) then [a] else []) + Numbers(Parts(b))
  {
    PartsOfDashed(a, b);
  }

  lemma TwoIsNumber(n: nat)
    requires n < 100
    ensures '-' !in Two(n) && IsNumber(Two(n)) && Pair(Two(n), 0) == n
  {
  }

  lemma TailNumbers(s: Stamp, rest: string)
    requires IsDate(s)
    ensures Numbers(Parts(Tail(s, rest))) == [Two(s.day), Two(s.hour), Two(s.minute), Two(s.second)]
            + Numbers(Parts(rest))
  {
    var seconds := Dashed(Two(s.second), rest);
    var minutes := Dashed(Two(s.minute), seconds);
    NumbersOfDashed(Two(s.day), Dashed(Two(s.hour), minutes));
    NumbersOfDashed(Two(s.hour), minutes);
    NumbersOfDashed(Two(s.minute), seconds);
    NumbersOfDashed(Two(s.second), rest);
  }

  lemma StampNumbers(s: Stamp, rest: string)
    requires IsDate(s)
    ensures Numbers(Parts(JobName(s, rest))) == [YearText(s), Two(s.month)] + Numbers(Parts(Tail(s, rest)))
  {
    var months := Dashed(Two(s.month), Tail(s, rest));
    assert JobName(s, rest) == Dashed("unity", Dashed(YearText(s), months));
    NumbersOfDashed("unity", Dashed(YearText(s), months));
    assert !IsNumber("unity");
    NumbersOfDashed(YearText(s), months);
    NumbersOfDashed(Two(s.month), Tail(s, rest));
  }

  function PartsOf(s: Stamp): seq<string>
    requires IsDate(s)
  {
    [YearText(s), Two(s.month), Two(s.day), Two(s.hour), Two(s.minute), Two(s.second)]
  }

  lemma NameNumbers(s: Stamp, rest: string)
    requires IsDate(s)
    ensures Numbers(Parts(JobName(s, rest))) == PartsOf(s) + Numbers(Parts(rest))
  {
    StampNumbers(s, rest);
    TailNumbers(s, rest);
  }

  lemma DateOfParts(s: Stamp, more: seq<string>)
    requires IsDate(s)
    ensures DateFrom(PartsOf(s) + more) == if more == [] then Some(s) else None
  {
    if more == [] {
      assert PartsOf(s) + more == PartsOf(s);
      assert Pair(YearText(s), 0) == s.year / 100 && Pair(YearText(s), 2) == s.year % 100;
      TwoIsNumber(s.month);
      TwoIsNumber(s.day);
      TwoIsNumber(s.hour);
      TwoIsNumber(s.minute);
      TwoIsNumber(s.second);
    }
  }

  /** A job's date is read back from its name exactly if the id and suffix have no part that looks like a date field. */
  lemma DateOfJobName(s: Stamp, rest: string)
    requires IsDate(s)
    ensures DateOf(JobName(s, rest)) == (if Numbers(Parts(rest)) == [] then Some(s) else None)
  {
    NameNumbers(s, rest);
    DateOfParts(s, Numbers(Parts(rest)));
  }

  // ---- the order of names is the order of time ----

  lemma {:induction false} SamePrefix(prefix: string, x: string, y: string)
    ensures Before(prefix + x, prefix + y) <==> Before(x, y)
  {
    if prefix == "" {
      assert prefix + x == x && prefix + y == y;
    } else {
      SamePrefix(prefix[1..], x, y);
      assert (prefix + x)[1..] == prefix[1..] + x && (prefix + y)[1..] == prefix[1..] + y;
    }
  }

  lemma PairOrder(a: nat, b: nat, x: string, y: string)
    requires a < 100 && b < 100
    ensures Before(Two(a) + x, Two(b) + y) <==> a < b || (a == b && Before(x, y))
  {
  }

  lemma FieldOrder(a: nat, b: nat, x: string, y: string)
    requires a < 100 && b < 100
    ensures Before(Dashed(Two(a), x), Dashed(Two(b), y)) <==> a < b || (a == b && Before(x, y))
  {
    assert Dashed(Two(a), x) == Two(a) + ("-" + x) && Dashed(Two(b), y) == Two(b) + ("-" + y);
    PairOrder(a, b, "-" + x, "-" + y);
    SamePrefix("-", x, y);
  }

  /** Of two job names, the one of the earlier job comes first; only equal stamps leave the order to the rest. */
  lemma NamesFollowTime(s: Stamp, x: string, t: Stamp, y: string)
    requires IsDate(s) && IsDate(t)
    ensures Before(JobName(s, x), JobName(t, y)) <==> Seconds(s) < Seconds(t) || (s == t && Before(x, y))
  {
    EarlierIsSooner(s, t);
    TimeText(s, x, t, y);
    var seconds, seconds' := Dashed(Two(s.second), x), Dashed(Two(t.second), y);
    var days, days' := Tail(s, x), Tail(t, y);
    var months, months' := Dashed(Two(s.month), days), Dashed(Two(t.month), days');
    FieldOrder(s.month, t.month, days, days');
    assert Dashed(Two(s.year % 100), months) == Two(s.year % 100) + "-" + months;
    FieldOrder(s.year % 100, t.year % 100, months, months');
    PairOrder(s.year / 100, t.year / 100, Dashed(Two(s.year % 100), months), Dashed(Two(t.year % 100), months'));
    NameText(s, x);
    NameText(t, y);
    SamePrefix("unity-", Two(s.year / 100) + Dashed(Two(s.year % 100), months),
        Two(t.year / 100) + Dashed(Two(t.year % 100), months'));
  }

  lemma NameText(s: Stamp, rest: string)
    requires IsDate(s)
    ensures JobName(s, rest) == "unity-"
            + (Two(s.year / 100) + Dashed(Two(s.year % 100), Dashed(Two(s.month), Tail(s, rest))))
  {
  }

  lemma TimeText(s: Stamp, x: string, t: Stamp, y: string)
    requires IsDate(s) && IsDate(t)
    ensures Before(Tail(s, x), Tail(t, y)) <==>
              s.day < t.day || (s.day == t.day &&
              (s.hour < t.hour || (s.hour == t.hour &&
              (s.minute < t.minute || (s.minute == t.minute &&
              (s.second < t.second || (s.second == t.second && Before(x, y))))))))
  {
    var seconds, seconds' := Dashed(Two(s.second), x), Dashed(Two(t.second), y);
    var minutes, minutes' := Dashed(Two(s.minute), seconds), Dashed(Two(t.minute), seconds');
    var hours, hours' := Dashed(Two(s.hour), minutes), Dashed(Two(t.hour), minutes');
    FieldOrder(s.second, t.second, x, y);
    FieldOrder(s.minute, t.minute, seconds, seconds');
    FieldOrder(s.hour, t.hour, minutes, minutes');
    FieldOrder(s.day, t.day, hours, hours');
  }
}
