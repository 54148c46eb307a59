/** The periodic job that keeps partitions ahead of the clock, and how rarely it may run. */
module PartitionRolling {
  import opened Partitions
  import opened PartitionJobs

  /** Creating a partition that is there already is no error and changes nothing. */
  function WithMonth(months: seq<Month>, k: Month): seq<Month> {
    if k in months then months else months + [k]
  }

  /** A call makes sure of its month and the next two. */
  function Ensured(months: seq<Month>, k: Month): seq<Month> {
    WithMonth(WithMonth(WithMonth(months, k), k + 1), k + 2)
  }

  /** Months with a partition after calls in these months, starting from none. */
  function After(calls: seq<Month>): seq<Month> {
    if calls == [] then [] else Ensured(After(calls[..|calls| - 1]), calls[|calls| - 1])
  }

  /** Some call made sure of this month. */
  ghost predicate Reached(calls: seq<Month>, k: Month) {
    exists i :: 0 <= i < |calls| && calls[i] <= k <= calls[i] + 2
  }

  lemma ReachedNext(calls: seq<Month>, c: Month, k: Month)
    ensures Reached(calls + [c], k) <==> Reached(calls, k) || c <= k <= c + 2
  {
    var all := calls + [c];
    if Reached(calls, k) {
      var i :| 0 <= i < |calls| && calls[i] <= k <= calls[i] + 2;
      assert all[i] <= k <= all[i] + 2;
    }
    if c <= k <= c + 2 { assert all[|calls|] <= k <= all[|calls|] + 2; }
    if Reached(all, k) {
      var i :| 0 <= i < |all| && all[i] <= k <= all[i] + 2;
      assert i < |calls| ==> calls[i] <= k <= calls[i] + 2;
    }
  }

  lemma {:induction false} AfterHolds(calls: seq<Month>, k: Month)
    ensures k in After(calls) <==> Reached(calls, k)
    ensures Distinct(After(calls))
  {
    hide Reached, Ensured, Distinct;
    if calls == [] {
      NothingReached(k);
    } else {
      var before, c := calls[..|calls| - 1], calls[|calls| - 1];
      AfterHolds(before, k);
      EnsuredHolds(After(before), c, k);
      assert calls == before + [c];
      ReachedNext(before, c, k);
    }
  }

  lemma NothingReached(k: Month)
    ensures !Reached([], k) && Distinct([])
  {
  }

  lemma EnsuredHolds(months: seq<Month>, k: Month, x: Month)
    requires Distinct(months)
    ensures Distinct(Ensured(months, k)) && (x in Ensured(months, k) <==> x in months || k <= x <= k + 2)
  {
  }

  ghost predicate InOrder(calls: seq<Month>) {
    forall i, j :: 0 <= i < j < |calls| ==> calls[i] <= calls[j]
  }

  ghost predicate Steps(calls: seq<Month>, gap: nat) {
    forall i :: 0 <= i < |calls| - 1 ==> calls[i + 1] <= calls[i] + gap
  }

  lemma {:induction false} LatestBefore(calls: seq<Month>, k: Month) returns (i: nat)
    requires calls != [] && InOrder(calls) && calls[0] <= k
    ensures i < |calls| && calls[i] <= k && (i + 1 < |calls| ==> k < calls[i + 1])
  {
    i := 0;
    while i + 1 < |calls| && calls[i + 1] <= k
      invariant i < |calls| && calls[i] <= k
    {
      i := i + 1;
    }
  }

  /** No month from the first call to two past the last is missing. */
  ghost predicate NoGap(calls: seq<Month>)
    requires calls != []
  {
    forall k: Month :: calls[0] <= k <= calls[|calls| - 1] + 2 ==> k in After(calls)
  }

  lemma SmallStepsReach(calls: seq<Month>, k: Month)
    requires calls != [] && InOrder(calls) && Steps(calls, 3) && calls[0] <= k <= calls[|calls| - 1] + 2
    ensures Reached(calls, k)
  {
    var i := LatestBefore(calls, k);
    if i + 1 < |calls| { assert calls[i + 1] <= calls[i] + 3; }
    assert calls[i] <= k <= calls[i] + 2;
  }

  lemma BigStepMisses(calls: seq<Month>, i: nat)
    requires i + 1 < |calls| && InOrder(calls) && calls[i + 1] > calls[i] + 3
    ensures calls[0] <= calls[i] + 3 <= calls[|calls| - 1] + 2 && !Reached(calls, calls[i] + 3)
  {
  }

  /** The partitions leave no gap exactly when consecutive calls are at most three months apart. */
  lemma NoGapIff(calls: seq<Month>)
    requires calls != [] && InOrder(calls)
    ensures NoGap(calls) <==> Steps(calls, 3)
  {
    hide After, Reached, InOrder;
    if Steps(calls, 3) {
      forall k: Month | calls[0] <= k <= calls[|calls| - 1] + 2 ensures k in After(calls) {
        SmallStepsReach(calls, k);
        AfterHolds(calls, k);
      }
    } else {
      var i :| 0 <= i < |calls| - 1 && calls[i + 1] > calls[i] + 3;
      BigStepMisses(calls, i);
      AfterHolds(calls, calls[i] + 3);
    }
  }

  /** At every instant between two calls, the partition of that instant was made by a call before it. */
  ghost predicate ClockCovered(calls: seq<Instant>) {
    forall i, t: Instant :: 0 <= i < |calls| - 1 && calls[i] <= t <= calls[i + 1] ==>
        MonthOf(t) in After(CallMonths(calls[..i + 1]))
  }

  function CallMonths(calls: seq<Instant>): (months: seq<Month>)
    ensures |months| == |calls| && forall i :: 0 <= i < |months| ==> months[i] == MonthOf(calls[i])
  {
    seq(|calls|, i requires 0 <= i < |calls| => MonthOf(calls[i]))
  }

  lemma CallsInOrder(calls: seq<Instant>)
    requires forall i, j :: 0 <= i < j < |calls| ==> calls[i] <= calls[j]
    ensures InOrder(CallMonths(calls))
  {
    forall i, j | 0 <= i < j < |calls| ensures CallMonths(calls)[i] <= CallMonths(calls)[j] {
      MonthsInOrder(calls[i], calls[j]);
    }
  }

  /** New entries always find their partition exactly when consecutive calls are at most two months apart. */
  lemma ClockCoveredIff(calls: seq<Instant>)
    requires forall i, j :: 0 <= i < j < |calls| ==> calls[i] <= calls[j]
    ensures ClockCovered(calls) <==> Steps(CallMonths(calls), 2)
  {
    hide MonthOf, After;
    var months := CallMonths(calls);
    CallsInOrder(calls);
    if Steps(months, 2) {
      forall i, t: Instant | 0 <= i < |calls| - 1 && calls[i] <= t <= calls[i + 1]
        ensures MonthOf(t) in After(CallMonths(calls[..i + 1]))
      {
        MonthsInOrder(calls[i], t);
        MonthsInOrder(t, calls[i + 1]);
        var earlier := CallMonths(calls[..i + 1]);
        AfterHolds(earlier, MonthOf(t));
        assert months[i + 1] <= months[i] + 2;
        assert earlier[i] <= MonthOf(t) <= earlier[i] + 2;
      }
    }
    if ClockCovered(calls) {
      forall i | 0 <= i < |calls| - 1 ensures months[i + 1] <= months[i] + 2 {
        var earlier := CallMonths(calls[..i + 1]);
        assert calls[i] <= calls[i + 1] && MonthOf(calls[i + 1]) in After(earlier);
        AfterHolds(earlier, MonthOf(calls[i + 1]));
        var j :| 0 <= j < |earlier| && earlier[j] <= months[i + 1] <= earlier[j] + 2;
        assert earlier[j] == months[j] && (j == i || months[j] <= months[i]);
      }
    }
  }

  /** With calls at most three months apart in years of four digits, every instant from the month of the first call to
      the second month after the last has exactly one partition. */
  lemma RollingCovers(calls: seq<Instant>, t: Instant)
    requires calls != [] && (forall i, j :: 0 <= i < j < |calls| ==> calls[i] <= calls[j])
             && Steps(CallMonths(calls), 3)
    requires 1000 <= Year(MonthOf(calls[0])) && Year(MonthOf(calls[|calls| - 1]) + 3) <= 9999
    requires StartOf(MonthOf(calls[0])) <= t < StartOf(MonthOf(calls[|calls| - 1]) + 3)
    ensures InExactlyOne(SlicesOf(After(CallMonths(calls))), t)
  {
    hide MonthOf, StartOf, After, Year, InExactlyOne, Writable;
    var months := CallMonths(calls);
    var first, last := months[0], months[|months| - 1];
    CallsInOrder(calls);
    NoGapIff(months);
    Within(first, last + 2, t);
    AfterHolds(months, MonthOf(t));
    var i :| 0 <= i < |After(months)| && After(months)[i] == MonthOf(t);
    forall j | 0 <= j < |After(months)| ensures Writable(After(months)[j]) {
      AfterHolds(months, After(months)[j]);
      YearsInOrder(first, After(months)[j]);
      YearsInOrder(After(months)[j] + 1, last + 3);
      WritableIs(After(months)[j]);
    }
    CoveredOnce(After(months), t, i);
  }

  lemma WritableIs(k: Month)
    ensures Writable(k) <==> 1000 <= Year(k) && Year(k + 1) <= 9999
  {
  }

  // ---- The job ----

  class AuditLogTable {
    var partitions: seq<MonthSlice>
    ghost var months: seq<Month>

    ghost predicate Valid()
      reads this
    {
      partitions == SlicesOf(months) && Distinct(months)
    }

    constructor ()
      ensures Valid() && months == []
    {
      partitions, months := [], [];
    }

    /** CREATE TABLE after the name check, with "already exists" ignored. */
    method CreatePartition(s: MonthSlice, ghost k: Month) returns (threw: bool)
      requires Valid() && s == SliceForUtcMonth(k)
      modifies this
      ensures threw <==> !FourDigits(k)
      ensures Valid() && months == if threw then old(months) else WithMonth(old(months), k)
    {
      hide SliceForUtcMonth, FourDigits, SafePartitionName;
      SafeSlice(k);
      if !SafePartitionName(s.partitionName) { return true; }
      threw := false;
      assert |partitions| == |months|;
      var i := 0;
      while i < |partitions|
        invariant partitions == old(partitions) && months == old(months)
        invariant i <= |partitions| && forall j :: 0 <= j < i ==> months[j] != k
      {
        if months[i] != k { NamesDiffer(months[i], k); }
        if partitions[i].partitionName == s.partitionName {
          assert months[i] == k;
          return;
        }
        i := i + 1;
      }
      partitions, months := partitions + [s], months + [k];
    }

    /** A year that has not four digits stops the job where it is met; the months before it stay. */
    method EnsureAuditLogPartitions(now: Instant) returns (threw: bool)
      requires Valid() && Year(MonthOf(now)) >= 100
      modifies this
      ensures Valid()
      ensures threw <==> !(FourDigits(MonthOf(now)) && FourDigits(MonthOf(now) + 1) && FourDigits(MonthOf(now) + 2))
      ensures var k := MonthOf(now);
              months == if !FourDigits(k) then old(months)
                        else if !FourDigits(k + 1) then WithMonth(old(months), k)
                        else if !FourDigits(k + 2) then WithMonth(WithMonth(old(months), k), k + 1)
                        else Ensured(old(months), k)
    {
      hide SliceForUtcMonth, MonthOf, Year, MonthIndex, FourDigits;
      var slices: seq<MonthSlice> := [];
      FirstMonthIs(now);
      for i := 0 to 3
        invariant |slices| == i && forall j :: 0 <= j < i ==> slices[j] == SliceForUtcMonth(MonthOf(now) + j)
      {
        slices := slices + [SliceForUtcMonth(UtcMonthStart(Year(MonthOf(now)), MonthIndex(MonthOf(now)) + i))];
        assert MonthsAhead(now, i) == MonthOf(now) + i;
      }
      ghost var was, k := months, MonthOf(now);
      threw := false;
      for i := 0 to 3
        invariant Valid() && !threw
        invariant (i >= 1 ==> FourDigits(k)) && (i >= 2 ==> FourDigits(k + 1)) && (i >= 3 ==> FourDigits(k + 2))
        invariant months == if i == 0 then was else if i == 1 then WithMonth(was, k)
                            else if i == 2 then WithMonth(WithMonth(was, k), k + 1) else Ensured(was, k)
      {
        threw := CreatePartition(slices[i], k + i);
        if threw { return; }
      }
    }
  }
}
