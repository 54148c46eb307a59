/** Monthly partitions of the audit log: their names and bounds as text, the months a migration or a periodic job
    creates, and which instants they cover. Instants are milliseconds since the start of year 0 of the proleptic
    calendar, months are counted from the same point. */
module Partitions {
  import opened Wrappers

  type Instant = nat
  type Month = nat

  const DAY_MS := 86_400_000

  function Year(k: Month): nat { k / 12 }

  function MonthIndex(k: Month): nat { k % 12 }

  lemma YearAndIndex(k: Month)
    ensures k == Year(k) * 12 + MonthIndex(k) && MonthIndex(k) < 12
  {
  }

  lemma YearsInOrder(j: Month, k: Month)
    requires j <= k
    ensures Year(j) <= Year(k)
  {
  }

  // ---- Calendar ----

  predicate Leap(year: nat) {
    year % 4 == 0 && (year % 100 != 0 || year % 400 == 0)
  }

  function DaysIn(k: Month): (days: nat)
    ensures 28 <= days <= 31
  {
    var m := MonthIndex(k);
    if m == 1 then (if Leap(Year(k)) then 29 else 28) else if m in {3, 5, 8, 10} then 30 else 31
  }

  /** First instant of a month. */
  function StartOf(k: Month): Instant {
    if k == 0 then 0 else StartOf(k - 1) + DaysIn(k - 1) * DAY_MS
  }

  lemma {:induction false} StartsRise(j: Month, k: Month)
    requires j < k
    ensures StartOf(j) < StartOf(k)
  {
    hide DaysIn;
    assert DaysIn(k - 1) * DAY_MS > 0;
    if j < k - 1 { StartsRise(j, k - 1); }
  }

  lemma MonthLengths(year: nat, m: nat)
    requires m < 12
    ensures DaysIn(12 * year + m) == [31, if Leap(year) then 29 else 28, 31, 30, 31, 30, 31, 31, 30, 31, 30, 31][m]
  {
    assert Year(12 * year + m) == year && MonthIndex(12 * year + m) == m;
    hide Leap;
  }

  lemma NextStart(k: Month)
    ensures StartOf(k + 1) == StartOf(k) + DaysIn(k) * DAY_MS
  {
  }

  /** The days from the start of a year to the start of its n-th month. */
  function DaysBefore(year: nat, n: nat): nat {
    if n == 0 then 0 else DaysBefore(year, n - 1) + DaysIn(12 * year + n - 1)
  }

  lemma {:induction false} StartIs(year: nat, n: nat)
    ensures StartOf(12 * year + n) == StartOf(12 * year) + DaysBefore(year, n) * DAY_MS
  {
    hide DaysIn, StartOf;
    if n > 0 {
      StartIs(year, n - 1);
      NextStart(12 * year + n - 1);
    }
  }

  lemma {:induction false} DaysTo(year: nat, n: nat)
    requires n <= 12
    ensures var leap := if Leap(year) then 1 else 0;
            DaysBefore(year, n) == [0, 31, 59, 90, 120, 151, 181, 212, 243, 273, 304, 334, 365][n]
                                   + if n >= 2 then leap else 0
    decreases n
  {
    hide DaysIn, Leap;
    if n > 0 {
      DaysTo(year, n - 1);
      MonthLengths(year, n - 1);
    }
  }

  /** A year has 366 days if it is divisible by 4, but not a full century unless divisible by 400, and 365 otherwise. */
  lemma YearLength(year: nat)
    ensures var days := if year % 4 == 0 && (year % 100 != 0 || year % 400 == 0) then 366 else 365;
            StartOf(12 * (year + 1)) == StartOf(12 * year) + days * 86_400_000
  {
    hide StartOf, DaysIn;
    StartIs(year, 12);
    DaysTo(year, 12);
  }

  lemma StartsAgree(j: Month, k: Month)
    ensures StartOf(j) <= StartOf(k) <==> j <= k
  {
    hide StartOf;
    if j < k { StartsRise(j, k); }
    if k < j { StartsRise(k, j); }
  }

  function MonthFrom(t: Instant, k: Month): (r: Month)
    requires StartOf(k) <= t
    ensures StartOf(r) <= t < StartOf(r + 1)
    decreases t - StartOf(k)
  {
    if t < StartOf(k + 1) then k else MonthFrom(t, k + 1)
  }

  /** The month an instant falls in. */
  function MonthOf(t: Instant): (k: Month)
    ensures StartOf(k) <= t < StartOf(k + 1)
  {
    MonthFrom(t, 0)
  }

  lemma MonthIsUnique(t: Instant, k: Month)
    ensures StartOf(k) <= t < StartOf(k + 1) <==> k == MonthOf(t)
  {
    var m := MonthOf(t);
    if k < m && k + 1 != m { StartsRise(k + 1, m); }
    if m < k && m + 1 != k { StartsRise(m + 1, k); }
  }

  lemma MonthsInOrder(a: Instant, b: Instant)
    requires a <= b
    ensures MonthOf(a) <= MonthOf(b)
  {
    if MonthOf(b) + 1 < MonthOf(a) { StartsRise(MonthOf(b) + 1, MonthOf(a)); }
  }

  // ---- Text ----

  function Digit(n: nat): char
    requires n < 10
  {
    '0' + n as char
  }

  predicate IsDigit(c: char) { '0' <= c <= '9' }

  predicate AllDigits(s: string) { forall i :: 0 <= i < |s| ==> IsDigit(s[i]) }

  function Decimal(n: nat): (s: string)
    ensures s != "" && AllDigits(s)
  {
    if n < 10 then [Digit(n)] else Decimal(n / 10) + [Digit(n % 10)]
  }

  function Pad(n: nat, width: nat): (s: string)
    ensures AllDigits(s)
  {
    if |Decimal(n)| >= width then Decimal(n) else seq(width - |Decimal(n)|, _ => '0') + Decimal(n)
  }

  function ParseDigits(s: string): nat
    requires AllDigits(s)
  {
    if s == "" then 0 else 10 * ParseDigits(s[..|s| - 1]) + (s[|s| - 1] as nat - '0' as nat)
  }

  function Parse(s: string): Option<nat> {
    if s != "" && AllDigits(s) then Some(ParseDigits(s)) else None
  }

  lemma {:induction false} ParseDecimal(n: nat)
    ensures ParseDigits(Decimal(n)) == n
  {
    if n >= 10 {
      ParseDecimal(n / 10);
      assert Decimal(n)[..|Decimal(n)| - 1] == Decimal(n / 10);
    }
  }

  lemma {:induction false} ParseZeros(zeros: nat, s: string)
    requires AllDigits(s)
    ensures AllDigits(seq(zeros, _ => '0') + s) && ParseDigits(seq(zeros, _ => '0') + s) == ParseDigits(s)
    decreases |s|, zeros
  {
    var t := seq(zeros, _ => '0') + s;
    if s != "" {
      ParseZeros(zeros, s[..|s| - 1]);
      assert t[..|t| - 1] == seq(zeros, _ => '0') + s[..|s| - 1];
    } else if zeros > 0 {
      ParseZeros(zeros - 1, "");
      assert t[..|t| - 1] == seq(zeros - 1, _ => '0') + "";
    }
  }

  lemma ParsePad(n: nat, width: nat)
    ensures ParseDigits(Pad(n, width)) == n
  {
    ParseDecimal(n);
    if |Decimal(n)| < width { ParseZeros(width - |Decimal(n)|, Decimal(n)); }
  }

  lemma DecimalLength(n: nat)
    ensures |Decimal(n)| <= 2 <==> n <= 99
    ensures |Decimal(n)| == 4 <==> 1000 <= n <= 9999
    ensures |Decimal(n)| <= 4 <==> n <= 9999
  {
  }

  lemma PadTwo(n: nat)
    requires n <= 99
    ensures |Pad(n, 2)| == 2
  {
    DecimalLength(n);
  }

  // ---- One slice ----

  datatype MonthSlice = MonthSlice(partitionName: string, fromInclusive: string, toExclusive: string)

  const PREFIX := "audit_logs_p"

  /** Date.UTC: the month index may run over the year, and years below 100 mean the twentieth century. */
  function UtcMonthStart(year: nat, monthIndex0: nat): Month {
    (if year <= 99 then 1900 + year else year) * 12 + monthIndex0
  }

  lemma UtcMonthStartIs(k: Month)
    requires Year(k) >= 100
    ensures UtcMonthStart(Year(k), MonthIndex(k)) == k && UtcMonthStart(Year(k), MonthIndex(k) + 1) == k + 1
  {
  }

  lemma UtcMonthStartYear(year: nat, monthIndex0: nat)
    ensures Year(UtcMonthStart(year, monthIndex0)) >= 100
  {
  }

  /** The date part of the ISO form, the first ten characters: years above 9999 take a sign and six digits. */
  function IsoDate(k: Month): string {
    var date := "-" + Pad(MonthIndex(k) + 1, 2) + "-01";
    if Year(k) <= 9999 then Pad(Year(k), 4) + date else (['+'] + Pad(Year(k), 6) + date)[..10]
  }

  function PartitionName(k: Month): string {
    PREFIX + Decimal(Year(k)) + "_" + Pad(MonthIndex(k) + 1, 2)
  }

  function SliceForUtcMonth(k: Month): MonthSlice {
    var y, m := Year(k), MonthIndex(k);
    MonthSlice(PartitionName(k), IsoDate(UtcMonthStart(y, m)), IsoDate(UtcMonthStart(y, m + 1)))
  }

  predicate SafePartitionName(name: string) {
    && |name| == 19 && name[..12] == PREFIX && AllDigits(name[12..16]) && name[16] == '_' && AllDigits(name[17..])
  }

  /** The month a partition name stands for. */
  function MonthOfName(name: string): Option<Month> {
    if |name| < 16 || name[..12] != PREFIX || name[|name| - 3] != '_' then None
    else
      var year, month := Parse(name[12..|name| - 3]), Parse(name[|name| - 2..]);
      if year.None? || month.None? || !(1 <= month.value <= 12) then None else Some(year.value * 12 + month.value - 1)
  }

  /** The month a bound begins, read as the database reads YYYY-MM-DD. */
  function MonthOfDate(date: string): Option<Month> {
    if |date| != 10 || date[4] != '-' || date[7..] != "-01" then None
    else
      var year, month := Parse(date[..4]), Parse(date[5..7]);
      if year.None? || month.None? || !(1 <= month.value <= 12) then None else Some(year.value * 12 + month.value - 1)
  }

  lemma NameParts(year: string, month: string)
    requires |month| == 2
    ensures var name := PREFIX + year + "_" + month;
            && |name| == 15 + |year| && name[..12] == PREFIX && name[12..|name| - 3] == year
            && name[|name| - 3] == '_' && name[|name| - 2..] == month
  {
  }

  /** Names tell months apart, whatever the year, and pass the check exactly for years of four digits. */
  lemma NameRoundTrip(k: Month)
    ensures MonthOfName(PartitionName(k)) == Some(k)
    ensures SafePartitionName(PartitionName(k)) <==> 1000 <= Year(k) <= 9999
  {
    hide Year, MonthIndex, Decimal, Pad, ParseDigits;
    var year, month, name := Decimal(Year(k)), Pad(MonthIndex(k) + 1, 2), PartitionName(k);
    YearAndIndex(k);
    DecimalLength(MonthIndex(k) + 1);
    DecimalLength(Year(k));
    ParseDecimal(Year(k));
    ParsePad(MonthIndex(k) + 1, 2);
    PadTwo(MonthIndex(k) + 1);
    NameParts(year, month);
    if |year| == 4 { assert name[12..16] == year && name[17..] == month; }
  }

  lemma DateParts(year: string, month: string)
    requires |month| == 2
    ensures var date := year + ("-" + month + "-01");
            && |date| == |year| + 6
            && (|year| == 4 ==> date[..4] == year && date[4] == '-' && date[5..7] == month && date[7..] == "-01")
            && (|year| >= 5 ==> date[..10][4] == year[4])
  {
  }

  /** Bounds name their month exactly up to year 9999. */
  lemma DateRoundTrip(k: Month)
    ensures MonthOfDate(IsoDate(k)) == if Year(k) <= 9999 then Some(k) else None
  {
    var month := Pad(MonthIndex(k) + 1, 2);
    YearAndIndex(k);
    DecimalLength(MonthIndex(k) + 1);
    DecimalLength(Year(k));
    ParsePad(MonthIndex(k) + 1, 2);
    assert |month| == 2;
    if Year(k) <= 9999 {
      ParsePad(Year(k), 4);
      assert |Pad(Year(k), 4)| == 4;
      hide Year, MonthIndex, Pad, Decimal, ParseDigits;
      DateParts(Pad(Year(k), 4), month);
    } else {
      var year := ['+'] + Pad(Year(k), 6);
      assert |year| >= 7 && IsDigit(year[4]);
      hide Year, MonthIndex, Pad, Decimal, ParseDigits;
      DateParts(year, month);
    }
  }

  // ---- What a slice covers ----

  predicate Covers(s: MonthSlice, t: Instant) {
    var from, upto := MonthOfDate(s.fromInclusive), MonthOfDate(s.toExclusive);
    from.Some? && upto.Some? && StartOf(from.value) <= t < StartOf(upto.value)
  }

  /** Years a slice and its upper bound can be written for. */
  predicate Writable(k: Month) { 1000 <= Year(k) && Year(k + 1) <= 9999 }

  lemma SliceCovers(k: Month, t: Instant)
    requires Writable(k)
    ensures Covers(SliceForUtcMonth(k), t) <==> MonthOf(t) == k
  {
    hide Year, MonthIndex, IsoDate, MonthOfDate, UtcMonthStart, StartOf, MonthOf, PartitionName;
    YearsInOrder(k, k + 1);
    UtcMonthStartIs(k);
    DateRoundTrip(k);
    DateRoundTrip(k + 1);
    MonthIsUnique(t, k);
  }
}
