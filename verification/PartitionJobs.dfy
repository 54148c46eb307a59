/** The scripts that decide which monthly partitions exist: the one-off migration and the periodic creation. */
module PartitionJobs {
  import opened Wrappers
  import opened Partitions

  /** The month a date counts as once its day is dropped. */
  function FirstMonth(t: Instant): Month {
    UtcMonthStart(Year(MonthOf(t)), MonthIndex(MonthOf(t)))
  }

  /** The month some months after that of the date. */
  function MonthsAhead(t: Instant, months: nat): Month {
    UtcMonthStart(Year(MonthOf(t)), MonthIndex(MonthOf(t)) + months)
  }

  lemma FirstMonthIs(t: Instant)
    requires Year(MonthOf(t)) >= 100
    ensures FirstMonth(t) == MonthOf(t) && forall n: nat :: MonthsAhead(t, n) == MonthOf(t) + n
  {
  }

  function SlicesOf(months: seq<Month>): (r: seq<MonthSlice>)
    ensures |r| == |months| && forall i :: 0 <= i < |r| ==> r[i] == SliceForUtcMonth(months[i])
  {
    seq(|months|, i requires 0 <= i < |months| => SliceForUtcMonth(months[i]))
  }

  /** Consecutive months, both ends included. */
  function Through(from: Month, last: Month): (r: seq<Month>)
    ensures |r| == if last < from then 0 else last - from + 1
    ensures forall i :: 0 <= i < |r| ==> r[i] == from + i
  {
    if last < from then [] else seq(last - from + 1, i requires 0 <= i => from + i)
  }

  predicate Distinct(months: seq<Month>) {
    forall i, j :: 0 <= i < j < |months| ==> months[i] != months[j]
  }

  // ---- What a set of slices covers ----

  /** Partitions of different months: an instant is in the one of its month and in no other. */
  lemma SlicesCover(months: seq<Month>, t: Instant, i: nat)
    requires i < |months| && Writable(months[i])
    ensures Covers(SlicesOf(months)[i], t) <==> MonthOf(t) == months[i]
  {
    SliceCovers(months[i], t);
  }

  lemma Adjacent(k: Month)
    requires Year(k) >= 100
    ensures SliceForUtcMonth(k).toExclusive == SliceForUtcMonth(k + 1).fromInclusive == IsoDate(k + 1)
  {
    hide Year, MonthIndex, UtcMonthStart, IsoDate, PartitionName;
    YearsInOrder(k, k + 1);
    UtcMonthStartIs(k);
    UtcMonthStartIs(k + 1);
  }

  lemma NamesDiffer(j: Month, k: Month)
    requires j != k
    ensures SliceForUtcMonth(j).partitionName != SliceForUtcMonth(k).partitionName
  {
    hide PartitionName, MonthOfName, SafePartitionName, IsoDate, Year, MonthIndex;
    NameRoundTrip(j);
    NameRoundTrip(k);
  }

  /** The instant lies in one slice, and in one only. */
  ghost predicate InExactlyOne(s: seq<MonthSlice>, t: Instant) {
    exists i :: 0 <= i < |s| && Covers(s[i], t) && forall j :: 0 <= j < |s| && Covers(s[j], t) ==> j == i
  }

  lemma NamesAllDiffer(months: seq<Month>)
    requires Distinct(months)
    ensures forall i, j :: 0 <= i < j < |months| ==>
            SlicesOf(months)[i].partitionName != SlicesOf(months)[j].partitionName
  {
    hide SliceForUtcMonth;
    forall i, j | 0 <= i < j < |months| ensures SlicesOf(months)[i].partitionName != SlicesOf(months)[j].partitionName {
      NamesDiffer(months[i], months[j]);
    }
  }

  /** The slices of consecutive months tile time: each ends where the next begins, and their names differ. */
  lemma ConsecutiveTile(from: Month, last: Month)
    requires Year(from) >= 100
    ensures var s := SlicesOf(Through(from, last));
            && (forall i :: 0 <= i < |s| - 1 ==> s[i].toExclusive == s[i + 1].fromInclusive)
            && (forall i, j :: 0 <= i < j < |s| ==> s[i].partitionName != s[j].partitionName)
  {
    hide SliceForUtcMonth, Year;
    var months := Through(from, last);
    NamesAllDiffer(months);
    forall i | 0 <= i < |months| - 1 ensures SlicesOf(months)[i].toExclusive == SlicesOf(months)[i + 1].fromInclusive {
      YearsInOrder(from, months[i]);
      Adjacent(months[i]);
    }
  }

  /** Every instant from the first month to the last is in exactly one. */
  lemma ConsecutiveCover(from: Month, last: Month, t: Instant)
    requires 1000 <= Year(from) && Year(last + 1) <= 9999 && StartOf(from) <= t < StartOf(last + 1)
    ensures InExactlyOne(SlicesOf(Through(from, last)), t)
  {
    hide StartOf, MonthOf, InExactlyOne, Writable, Year;
    Within(from, last, t);
    AllWritable(from, last);
    CoveredOnce(Through(from, last), t, MonthOf(t) - from);
  }

  lemma AllWritable(from: Month, last: Month)
    requires 1000 <= Year(from) && Year(last + 1) <= 9999
    ensures forall k :: k in Through(from, last) ==> Writable(k)
  {
  }

  lemma Within(from: Month, last: Month, t: Instant)
    ensures StartOf(from) <= t < StartOf(last + 1) <==> from <= MonthOf(t) <= last
  {
    hide StartOf, MonthOf;
    var k := MonthOf(t);
    StartsAgree(k + 1, from);
    StartsAgree(from, k);
    StartsAgree(last + 1, k);
    StartsAgree(k + 1, last + 1);
  }

  lemma CoveredOnce(months: seq<Month>, t: Instant, i: nat)
    requires i < |months| && months[i] == MonthOf(t) && Distinct(months)
    requires forall j :: 0 <= j < |months| ==> Writable(months[j])
    ensures InExactlyOne(SlicesOf(months), t)
  {
    hide SliceForUtcMonth, Covers, MonthOf, StartOf, Writable;
    forall j | 0 <= j < |months| ensures Covers(SlicesOf(months)[j], t) <==> MonthOf(t) == months[j] {
      SlicesCover(months, t, j);
    }
  }

  method EnumerateUtcMonths(start: Instant, end: Instant) returns (out: seq<MonthSlice>)
    ensures out == SlicesOf(Through(FirstMonth(start), FirstMonth(end)))
  {
    hide Year, MonthIndex, UtcMonthStart, StartOf, MonthOf, SliceForUtcMonth;
    out := [];
    var cur := UtcMonthStart(Year(MonthOf(start)), MonthIndex(MonthOf(start)));
    var endM := UtcMonthStart(Year(MonthOf(end)), MonthIndex(MonthOf(end)));
    UtcMonthStartYear(Year(MonthOf(start)), MonthIndex(MonthOf(start)));
    StartsAgree(cur, endM);
    ghost var from := cur;
    while StartOf(cur) <= StartOf(endM)
      invariant from <= cur && Year(cur) >= 100
      invariant cur <= endM + 1 || cur == from
      invariant StartOf(cur) <= StartOf(endM) <==> cur <= endM
      invariant out == SlicesOf(seq(cur - from, i requires 0 <= i => from + i))
      decreases if cur <= endM then endM + 1 - cur else 0
    {
      out := out + [SliceForUtcMonth(cur)];
      UtcMonthStartIs(cur);
      UtcMonthStartYear(Year(cur), MonthIndex(cur) + 1);
      cur := UtcMonthStart(Year(cur), MonthIndex(cur) + 1);
      StartsAgree(cur, endM);
    }
    assert seq(cur - from, i requires 0 <= i => from + i) == Through(from, endM);
  }

  /** Between two dates of four-digit years, every instant is in exactly one of the enumerated slices. */
  lemma EnumerationTiles(start: Instant, end: Instant, t: Instant)
    requires start <= t <= end && 1000 <= Year(MonthOf(start)) && Year(MonthOf(end) + 1) <= 9999
    ensures InExactlyOne(SlicesOf(Through(FirstMonth(start), FirstMonth(end))), t)
  {
    hide FirstMonth, Year, MonthOf, StartOf, InExactlyOne, SlicesOf;
    MonthsInOrder(start, t);
    MonthsInOrder(t, end);
    Within(MonthOf(start), MonthOf(end), t);
    FirstMonthIs(start);
    YearsInOrder(MonthOf(start), MonthOf(end));
    YearsInOrder(MonthOf(end), MonthOf(end) + 1);
    YearsInOrder(MonthOf(start), MonthOf(end) + 1);
    FirstMonthIs(end);
    ConsecutiveCover(MonthOf(start), MonthOf(end), t);
  }

  // ---- The migration ----

  /** The first slice of each name. */
  function FirstOfEachName(slices: seq<MonthSlice>): seq<MonthSlice> {
    if slices == [] then []
    else
      var before, s := slices[..|slices| - 1], slices[|slices| - 1];
      FirstOfEachName(before) + if exists i :: 0 <= i < |before| && before[i].partitionName == s.partitionName then []
          else [s]
  }

  lemma {:induction false} NothingToDrop(slices: seq<MonthSlice>)
    requires forall i, j :: 0 <= i < j < |slices| ==> slices[i].partitionName != slices[j].partitionName
    ensures FirstOfEachName(slices) == slices
  {
    if slices != [] {
      var before := slices[..|slices| - 1];
      NothingToDrop(before);
      assert slices == before + [slices[|slices| - 1]];
    }
  }

  method DropRepeatedNames(slices: seq<MonthSlice>) returns (unique: seq<MonthSlice>)
    ensures unique == FirstOfEachName(slices)
  {
    var seen: set<string> := {};
    unique := [];
    for k := 0 to |slices|
      invariant forall name :: name in seen <==> exists i :: 0 <= i < k && slices[i].partitionName == name
      invariant unique == FirstOfEachName(slices[..k])
    {
      var s := slices[k];
      var before := slices[..k];
      assert slices[..k + 1][..k] == before && slices[..k + 1][k] == s;
      assert s.partitionName in seen <==> exists i :: 0 <= i < |before| && before[i].partitionName == s.partitionName;
      if s.partitionName !in seen {
        seen := seen + {s.partitionName};
        unique := unique + [s];
      }
    }
    assert slices[..|slices|] == slices;
  }

  /** The months the migration wants: from the oldest entry to three months past the newest; with no entries, this month
      and the next two. */
  function MigrationMonths(bounds: Option<(Instant, Instant)>, now: Instant): seq<Month> {
    match bounds
    case None => [MonthsAhead(now, 0), MonthsAhead(now, 1), MonthsAhead(now, 2)]
    case Some((min, max)) =>
      Through(FirstMonth(min), FirstMonth(max)) + Through(MonthsAhead(max, 1), MonthsAhead(max, 3))
  }

  lemma MigrationIsConsecutive(bounds: Option<(Instant, Instant)>, now: Instant)
    requires bounds.Some? ==> bounds.value.0 <= bounds.value.1
    requires Year(MonthOf(if bounds.Some? then bounds.value.0 else now)) >= 100
    ensures MigrationMonths(bounds, now)
         == if bounds.Some? then Through(MonthOf(bounds.value.0), MonthOf(bounds.value.1) + 3)
            else Through(MonthOf(now), MonthOf(now) + 2)
  {
    hide Year, MonthOf, FirstMonth, MonthsAhead;
    if bounds.Some? {
      var (min, max) := bounds.value;
      MonthsInOrder(min, max);
      YearsInOrder(MonthOf(min), MonthOf(max));
      FirstMonthIs(min);
      FirstMonthIs(max);
    } else {
      FirstMonthIs(now);
    }
  }

  /** The slices before deduplication. */
  method WantedSlices(bounds: Option<(Instant, Instant)>, now: Instant) returns (slices: seq<MonthSlice>)
    requires bounds.Some? ==> Year(MonthOf(bounds.value.1)) >= 100
    ensures slices == SlicesOf(MigrationMonths(bounds, now))
  {
    hide SliceForUtcMonth, StartOf, MonthOf;
    if bounds.None? {
      slices := [SliceForUtcMonth(MonthsAhead(now, 0)), SliceForUtcMonth(MonthsAhead(now, 1)),
                 SliceForUtcMonth(MonthsAhead(now, 2))];
    } else {
      var (min, max) := bounds.value;
      slices := EnumerateUtcMonths(min, max);
      var futureEnd := StartOf(MonthsAhead(max, 3));
      var futureStart := StartOf(MonthsAhead(max, 1));
      StartFallsIn(MonthsAhead(max, 3));
      StartFallsIn(MonthsAhead(max, 1));
      var future := EnumerateUtcMonths(futureStart, futureEnd);
      slices := slices + future;
    }
  }

  predicate FourDigits(k: Month) { 1000 <= Year(k) <= 9999 }

  /** Partitions are created one by one; a name the check refuses stops the script. */
  method CreateAll(slices: seq<MonthSlice>, ghost months: seq<Month>) returns (created: seq<MonthSlice>, threw: bool)
    requires slices == SlicesOf(months)
    ensures threw <==> exists k :: k in months && !FourDigits(k)
    ensures !threw ==> created == slices
  {
    hide SliceForUtcMonth, SafePartitionName, FourDigits;
    created, threw := [], false;
    for i := 0 to |slices|
      invariant created == slices[..i] && !threw
      invariant forall k :: 0 <= k < i ==> FourDigits(months[k])
    {
      SafeSlice(months[i]);
      if !SafePartitionName(slices[i].partitionName) {
        assert months[i] in months;
        return created, true;
      }
      created := created + [slices[i]];
    }
  }

  /** Dedupe finds nothing, and a month whose year has not four digits stops the migration. */
  method MigrationSlices(bounds: Option<(Instant, Instant)>, now: Instant)
    returns (created: seq<MonthSlice>, threw: bool)
    requires bounds.Some? ==> bounds.value.0 <= bounds.value.1
    requires Year(MonthOf(if bounds.Some? then bounds.value.0 else now)) >= 100
    ensures threw <==> exists k :: k in MigrationMonths(bounds, now) && !FourDigits(k)
    ensures !threw ==> created == SlicesOf(MigrationMonths(bounds, now))
  {
    ghost var months := MigrationMonths(bounds, now);
    MigrationIsConsecutive(bounds, now);
    if bounds.Some? { MonthsInOrder(bounds.value.0, bounds.value.1); }
    var slices := WantedSlices(bounds, now);
    NamesAllDiffer(months);
    NothingToDrop(slices);
    hide MigrationMonths, MonthOf, SliceForUtcMonth, FirstOfEachName;
    var unique := DropRepeatedNames(slices);
    created, threw := CreateAll(unique, months);
  }

  lemma SafeSlice(k: Month)
    ensures SafePartitionName(SliceForUtcMonth(k).partitionName) <==> FourDigits(k)
  {
    NameRoundTrip(k);
  }

  lemma StartFallsIn(k: Month)
    ensures MonthOf(StartOf(k)) == k
  {
    StartsRise(k, k + 1);
    MonthIsUnique(StartOf(k), k);
  }

  /** Every audit entry moved has exactly one partition, and so has every instant for three months after the newest. */
  lemma MigrationCovers(min: Instant, max: Instant, now: Instant, t: Instant)
    requires min <= max && min <= t < StartOf(MonthOf(max) + 4)
    requires 1000 <= Year(MonthOf(min)) && Year(MonthOf(max) + 4) <= 9999
    ensures InExactlyOne(SlicesOf(MigrationMonths(Some((min, max)), now)), t)
  {
    hide Year, MonthOf, StartOf, MigrationMonths, InExactlyOne, SlicesOf;
    MigrationIsConsecutive(Some((min, max)), now);
    MonthsInOrder(min, max);
    ConsecutiveCover(MonthOf(min), MonthOf(max) + 3, t);
  }
}
