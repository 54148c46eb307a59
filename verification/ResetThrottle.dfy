/** The throttle on password-reset links for one account: a minimum interval since the latest link and a daily cap, both
    read from rows that resets mark used and that the cleanup job deletes. */
module ResetThrottle {
  import opened Wrappers
  import opened Windows

  type Time = int

  const DAY_MS := 86_400_000

  datatype Policy = Policy(minIntervalMs: nat, maxPerDay: nat, ttlMs: nat, retentionMs: nat)
  {
    predicate Valid() { maxPerDay >= 1 && ttlMs >= 1 }

    /** How long a row is sure to stay: it may go once expired, or once used and past the retention. */
    function Visible(): nat { if ttlMs < retentionMs then ttlMs else retentionMs }

    /** The shortest time between two links when rows are remembered this long. */
    function Gap(memory: nat): nat { if minIntervalMs <= memory then minIntervalMs else memory + 1 }
  }

  /** The values shipped in the configuration. */
  const DEFAULTS := Policy(15 * 60_000, 3, 60 * 60_000, 30 * DAY_MS)

  datatype Row = Row(createdAt: Time, expiresAt: Time, used: bool)

  /** rows in order of insertion; issued: when links went out. */
  datatype State = State(now: Time, rows: seq<Row>, issued: seq<Time>)

  function Start(now: Time): State { State(now, [], []) }

  /** Latest row by creation. */
  function LatestAt(rows: seq<Row>): (r: Option<Time>)
    ensures r.None? <==> rows == []
    ensures forall i :: 0 <= i < |rows| ==> rows[i].createdAt <= r.value
    ensures r.Some? ==> exists i :: 0 <= i < |rows| && rows[i].createdAt == r.value
  {
    if rows == [] then None
    else
      var rest := LatestAt(rows[1..]);
      assert rest.Some? ==> exists i ::
        0 <= i < |rows[1..]| && rows[1..][i].createdAt == rest.value && rows[i + 1].createdAt == rest.value;
      if rest.None? || rest.value < rows[0].createdAt then Some(rows[0].createdAt) else rest
  }

  function CountSince(rows: seq<Row>, since: Time): (n: nat)
    ensures n <= |rows|
  {
    if rows == [] then 0 else CountSince(rows[1..], since) + if rows[0].createdAt >= since then 1 else 0
  }

  predicate MayIssue(p: Policy, rows: seq<Row>, now: Time) {
    && (LatestAt(rows).None? || now - LatestAt(rows).value >= p.minIntervalMs)
    && CountSince(rows, now - DAY_MS) < p.maxPerDay
  }

  function MarkUsed(rows: seq<Row>): (r: seq<Row>)
    ensures |r| == |rows| && forall i :: 0 <= i < |r| ==> r[i] == rows[i].(used := true)
  {
    seq(|rows|, i requires 0 <= i < |rows| => rows[i].(used := true))
  }

  predicate Stale(p: Policy, r: Row, now: Time) {
    r.expiresAt < now || (r.used && r.createdAt < now - p.retentionMs)
  }

  function Purged(p: Policy, rows: seq<Row>, now: Time): (r: seq<Row>)
    ensures |r| <= |rows|
  {
    if rows == [] then []
    else (if Stale(p, rows[0], now) then [] else [rows[0]]) + Purged(p, rows[1..], now)
  }

  /** A reset request, a reset or change of the password (which uses up every link), a cleanup. */
  datatype Step = Forgot | UseAll | Purge
  datatype Event = Event(now: Time, step: Step)

  function Do(p: Policy, s: State, e: Event): State {
    match e.step
    case Forgot =>
      if MayIssue(p, s.rows, e.now) then State(e.now, s.rows + [Row(e.now, e.now + p.ttlMs, false)], s.issued + [e.now])
      else s.(now := e.now)
    case UseAll => State(e.now, MarkUsed(s.rows), s.issued)
    case Purge => State(e.now, Purged(p, s.rows, e.now), s.issued)
  }

  ghost predicate LegalRun(s: State, es: seq<Event>) {
    && (es != [] ==> s.now <= es[0].now)
    && forall i, j :: 0 <= i < j < |es| ==> es[i].now <= es[j].now
  }

  ghost function Run(p: Policy, s: State, es: seq<Event>): State
    decreases |es|
  {
    if es == [] then s else Run(p, Do(p, s, es[0]), es[1..])
  }

  // ---- What the rows still know ----

  /** Cleanups in the run spare rows up to this age: any age when there is no cleanup. */
  ghost predicate Remembers(p: Policy, memory: nat, es: seq<Event>) {
    forall i :: 0 <= i < |es| && es[i].step.Purge? ==> memory <= p.Visible()
  }

  /** Links no older than the memory are the last rows, in order. */
  ghost predicate Recalls(p: Policy, memory: nat, s: State) {
    && (forall i :: 0 <= i < |s.rows| ==> s.rows[i].expiresAt == s.rows[i].createdAt + p.ttlMs)
    && |s.rows| <= |s.issued|
    && (forall i :: 0 <= i < |s.issued| && s.issued[i] + memory >= s.now ==> Kept(s, i))
  }

  predicate Kept(s: State, i: nat)
    requires i < |s.issued| && |s.rows| <= |s.issued|
  {
    var gone := |s.issued| - |s.rows|;
    gone <= i && s.rows[i - gone].createdAt == s.issued[i]
  }

  ghost predicate Ordered(s: State) {
    && (forall i, j :: 0 <= i < j < |s.issued| ==> s.issued[i] <= s.issued[j])
    && (forall i :: 0 <= i < |s.issued| ==> s.issued[i] <= s.now)
  }

  ghost predicate Spaced(issued: seq<Time>, gap: nat) {
    forall i :: 0 <= i < |issued| - 1 ==> issued[i + 1] - issued[i] >= gap
  }

  ghost predicate Capped(p: Policy, issued: seq<Time>) {
    forall i, j :: 0 <= i && i + p.maxPerDay <= j < |issued| ==> issued[j] > issued[i] + DAY_MS
  }

  ghost predicate Inv(p: Policy, memory: nat, s: State) {
    Recalls(p, memory, s) && Ordered(s) && Spaced(s.issued, p.Gap(memory)) && (memory >= DAY_MS ==> Capped(p, s.issued))
  }

  lemma {:induction false} CountLast(rows: seq<Row>, since: Time, n: nat)
    requires n <= |rows| && forall i :: |rows| - n <= i < |rows| ==> rows[i].createdAt >= since
    ensures CountSince(rows, since) >= n
  {
    if rows != [] {
      if n == |rows| { CountLast(rows[1..], since, n - 1); } else { CountLast(rows[1..], since, n); }
    }
  }

  lemma {:induction false} NonePurged(p: Policy, rows: seq<Row>, now: Time)
    requires forall i :: 0 <= i < |rows| ==> !Stale(p, rows[i], now)
    ensures Purged(p, rows, now) == rows
  {
    hide Stale;
    if rows != [] {
      NonePurged(p, rows[1..], now);
      assert rows == [rows[0]] + rows[1..];
    }
  }

  /** A cleanup that may not touch the last n rows leaves each of them as far from the end as it was. */
  lemma {:induction false} PurgedTail(p: Policy, rows: seq<Row>, now: Time, n: nat)
    requires 1 <= n <= |rows| && forall i :: |rows| - n <= i < |rows| ==> !Stale(p, rows[i], now)
    ensures var r := Purged(p, rows, now); n <= |r| && r[|r| - n] == rows[|rows| - n]
  {
    hide Stale;
    if n == |rows| {
      NonePurged(p, rows, now);
    } else {
      PurgedTail(p, rows[1..], now, n);
    }
  }

  /** A link that goes out comes late enough after the latest one, and has few enough before it. */
  lemma IssueIsApart(p: Policy, memory: nat, s: State, now: Time)
    requires p.Valid() && Inv(p, memory, s) && s.now <= now && MayIssue(p, s.rows, now) && s.issued != []
    ensures now - s.issued[|s.issued| - 1] >= p.Gap(memory)
    ensures memory >= DAY_MS && |s.issued| >= p.maxPerDay ==> now > s.issued[|s.issued| - p.maxPerDay] + DAY_MS
  {
    var n := |s.issued|;
    if s.issued[n - 1] + memory >= now {
      assert Kept(s, n - 1);
    }
    if memory >= DAY_MS && n >= p.maxPerDay && s.issued[n - p.maxPerDay] + DAY_MS >= now {
      var gone := n - |s.rows|;
      assert Kept(s, n - p.maxPerDay);
      forall i | |s.rows| - p.maxPerDay <= i < |s.rows| ensures s.rows[i].createdAt >= now - DAY_MS {
        assert s.issued[i + gone] >= s.issued[n - p.maxPerDay];
        assert Kept(s, i + gone);
      }
      CountLast(s.rows, now - DAY_MS, p.maxPerDay);
    }
  }

  lemma IssueRecalls(p: Policy, memory: nat, s: State, now: Time)
    requires Recalls(p, memory, s) && Ordered(s) && s.now <= now
    ensures var t := State(now, s.rows + [Row(now, now + p.ttlMs, false)], s.issued + [now]);
            Recalls(p, memory, t) && Ordered(t)
  {
  }

  lemma LaterRecalls(p: Policy, memory: nat, s: State, now: Time)
    requires Recalls(p, memory, s) && s.now <= now
    ensures Recalls(p, memory, s.(now := now))
  {
  }

  lemma IssueCapped(p: Policy, issued: seq<Time>, now: Time)
    requires p.Valid() && Capped(p, issued) && (forall i, j :: 0 <= i < j < |issued| ==> issued[i] <= issued[j])
    requires |issued| >= p.maxPerDay ==> now > issued[|issued| - p.maxPerDay] + DAY_MS
    ensures Capped(p, issued + [now])
  {
  }

  lemma {:induction false} PurgedFrom(p: Policy, rows: seq<Row>, now: Time)
    ensures forall x :: x in Purged(p, rows, now) <==> x in rows && !Stale(p, x, now)
  {
    if rows != [] { PurgedFrom(p, rows[1..], now); }
  }

  lemma ForgotKeeps(p: Policy, memory: nat, s: State, now: Time)
    requires p.Valid() && Inv(p, memory, s) && s.now <= now
    ensures Inv(p, memory, Do(p, s, Event(now, Forgot)))
  {
    hide MayIssue, Recalls, Capped;
    if MayIssue(p, s.rows, now) {
      if s.issued != [] { IssueIsApart(p, memory, s, now); }
      IssueRecalls(p, memory, s, now);
      if memory >= DAY_MS { IssueCapped(p, s.issued, now); }
    } else {
      LaterRecalls(p, memory, s, now);
    }
  }

  /** A cleanup keeps a row that is young enough, and those after it. */
  lemma PurgeKept(p: Policy, memory: nat, s: State, now: Time, i: nat)
    requires Recalls(p, memory, s) && Ordered(s) && s.now <= now && memory <= p.Visible()
    requires i < |s.issued| && s.issued[i] + memory >= now
    ensures var t := State(now, Purged(p, s.rows, now), s.issued);
            |t.rows| <= |t.issued| && Kept(t, i)
  {
    var gone := |s.issued| - |s.rows|;
    assert Kept(s, i);
    forall k | i - gone <= k < |s.rows| ensures !Stale(p, s.rows[k], now) {
      assert s.issued[k + gone] >= s.issued[i];
      assert Kept(s, k + gone);
    }
    hide Recalls, Ordered, Purged;
    PurgedTail(p, s.rows, now, |s.issued| - i);
  }

  lemma PurgeKeeps(p: Policy, memory: nat, s: State, now: Time)
    requires Inv(p, memory, s) && s.now <= now && memory <= p.Visible()
    ensures Inv(p, memory, Do(p, s, Event(now, Purge)))
  {
    var t := Do(p, s, Event(now, Purge));
    PurgedFrom(p, s.rows, now);
    forall i | 0 <= i < |t.rows| ensures t.rows[i].expiresAt == t.rows[i].createdAt + p.ttlMs {
      assert t.rows[i] in s.rows;
    }
    forall i | 0 <= i < |s.issued| && s.issued[i] + memory >= now ensures Kept(t, i) {
      PurgeKept(p, memory, s, now, i);
    }
  }

  lemma UseAllKeeps(p: Policy, memory: nat, s: State, now: Time)
    requires Inv(p, memory, s) && s.now <= now
    ensures Inv(p, memory, Do(p, s, Event(now, UseAll)))
  {
  }

  lemma {:induction false} RunKeeps(p: Policy, memory: nat, s: State, es: seq<Event>)
    requires p.Valid() && Inv(p, memory, s) && LegalRun(s, es) && Remembers(p, memory, es)
    ensures Inv(p, memory, Run(p, s, es))
    decreases |es|
  {
    if es != [] {
      var e := es[0];
      match e.step {
        case Forgot => ForgotKeeps(p, memory, s, e.now);
        case UseAll => UseAllKeeps(p, memory, s, e.now);
        case Purge => PurgeKeeps(p, memory, s, e.now);
      }
      RunKeeps(p, memory, Do(p, s, e), es[1..]);
    }
  }

  lemma StartOk(p: Policy, memory: nat, now: Time)
    ensures Inv(p, memory, Start(now))
  {
  }

  // ---- The promises, and when they hold ----

  /** Links in the closed day from w. */
  ghost function LinksInDay(issued: seq<Time>, w: Time): nat { |InWindow(issued, w, DAY_MS + 1)| }

  lemma CappedBoundsWindow(p: Policy, issued: seq<Time>, w: Time)
    requires Capped(p, issued) && forall i, j :: 0 <= i < j < |issued| ==> issued[i] <= issued[j]
    ensures LinksInDay(issued, w) <= p.maxPerDay
  {
    assert Spread(issued, p.maxPerDay, DAY_MS + 1);
    SpreadBoundsWindow(issued, p.maxPerDay, w, DAY_MS + 1);
  }

  /** Without cleanups, over any run: links of an account are at least the interval apart, and no closed day holds more
      than the cap. */
  lemma {:induction false} WithoutCleanups(p: Policy, start: Time, es: seq<Event>, w: Time)
    requires p.Valid() && LegalRun(Start(start), es) && forall i :: 0 <= i < |es| ==> !es[i].step.Purge?
    ensures var issued := Run(p, Start(start), es).issued;
            Spaced(issued, p.minIntervalMs) && LinksInDay(issued, w) <= p.maxPerDay
  {
    var memory := DAY_MS + p.minIntervalMs;
    StartOk(p, memory, start);
    RunKeeps(p, memory, Start(start), es);
    CappedBoundsWindow(p, Run(p, Start(start), es).issued, w);
  }

  lemma {:induction false} GapsAdd(issued: seq<Time>, gap: nat, i: nat, n: nat)
    requires Spaced(issued, gap) && i + n < |issued|
    ensures issued[i + n] - issued[i] >= n * gap
    decreases n
  {
    if n > 0 { GapsAdd(issued, gap, i, n - 1); }
  }

  lemma GapsCap(p: Policy, issued: seq<Time>, gap: nat)
    requires Spaced(issued, gap) && p.maxPerDay * gap > DAY_MS && forall i, j :: 0 <= i < j < |issued| ==>
             issued[i] <= issued[j]
    ensures Capped(p, issued)
  {
    forall i, j | 0 <= i && i + p.maxPerDay <= j < |issued| ensures issued[j] > issued[i] + DAY_MS {
      GapsAdd(issued, gap, i, p.maxPerDay);
    }
  }

  /** With cleanups, over any run. */
  lemma WithCleanups(p: Policy, start: Time, es: seq<Event>, w: Time)
    requires p.Valid() && LegalRun(Start(start), es)
    ensures var issued := Run(p, Start(start), es).issued;
            && Spaced(issued, p.Gap(p.Visible()))
            && (p.Visible() >= DAY_MS || p.maxPerDay * p.Gap(p.Visible()) > DAY_MS ==>
                LinksInDay(issued, w) <= p.maxPerDay)
  {
    StartOk(p, p.Visible(), start);
    RunKeeps(p, p.Visible(), Start(start), es);
    var issued := Run(p, Start(start), es).issued;
    if p.Visible() < DAY_MS && p.maxPerDay * p.Gap(p.Visible()) > DAY_MS { GapsCap(p, issued, p.Gap(p.Visible())); }
    if Capped(p, issued) { CappedBoundsWindow(p, issued, w); }
  }

  // ---- The runs that break them ----

  /** Rows are the last links, and the latest of them leads the clock nowhere. */
  ghost predicate Tail(p: Policy, s: State) {
    && Ordered(s) && |s.rows| <= |s.issued|
    && (forall k :: 0 <= k < |s.rows| ==>
          s.rows[k].createdAt == s.issued[|s.issued| - |s.rows| + k]
            && s.rows[k].expiresAt == s.rows[k].createdAt + p.ttlMs)
  }

  function Again(now: Time): seq<Event> {
    [Event(now, UseAll), Event(now, Purge), Event(now, Forgot)]
  }

  /** Purging used rows in order of creation leaves the young ones, which are the last. */
  lemma {:induction false} PurgedUsed(p: Policy, rows: seq<Row>, now: Time)
    requires forall k :: 0 <= k < |rows| ==> rows[k].used && rows[k].expiresAt == rows[k].createdAt + p.ttlMs
    requires forall i, j :: 0 <= i < j < |rows| ==> rows[i].createdAt <= rows[j].createdAt
    ensures var r := Purged(p, rows, now);
            r == rows[|rows| - |r|..] && forall k :: 0 <= k < |r| ==> r[k].createdAt >= now - p.Visible()
  {
    if rows != [] {
      PurgedUsed(p, rows[1..], now);
      if !Stale(p, rows[0], now) {
        NonePurged(p, rows, now);
      }
    }
  }

  lemma NoneRecent(rows: seq<Row>, p: Policy, now: Time)
    requires |rows| < p.maxPerDay && forall k :: 0 <= k < |rows| ==> now - rows[k].createdAt >= p.minIntervalMs
    ensures MayIssue(p, rows, now)
  {
  }

  lemma RowsLeft(p: Policy, s: State, now: Time, k: nat)
    requires Tail(p, s) && k < |Purged(p, MarkUsed(s.rows), now)|
    ensures var rows := Purged(p, MarkUsed(s.rows), now);
            && |rows| <= |s.rows|
            && rows[k].createdAt == s.issued[|s.issued| - |rows| + k]
            && rows[k].expiresAt == rows[k].createdAt + p.ttlMs
            && now - p.Visible() <= rows[k].createdAt <= s.issued[|s.issued| - 1]
  {
    hide Purged, Stale;
    var used := MarkUsed(s.rows);
    PurgedUsed(p, used, now);
    var rows := Purged(p, used, now);
    assert rows[k] == used[|used| - |rows| + k];
  }

  /** After using every link and cleaning up, what is left of the rows lets another link out after the gap. */
  lemma RoomForOne(p: Policy, s: State, now: Time)
    requires p.Valid() && Tail(p, s) && s.now <= now
    requires s.issued != [] ==> now >= s.issued[|s.issued| - 1] + p.Gap(p.Visible())
    requires |s.issued| < p.maxPerDay || (|s.issued| == p.maxPerDay && s.issued[0] < now - p.Visible())
    ensures MayIssue(p, Purged(p, MarkUsed(s.rows), now), now)
  {
    var rows := Purged(p, MarkUsed(s.rows), now);
    hide Purged, MayIssue;
    forall k | 0 <= k < |rows| ensures now - rows[k].createdAt >= p.minIntervalMs {
      RowsLeft(p, s, now, k);
    }
    if |rows| == p.maxPerDay { RowsLeft(p, s, now, 0); }
    NoneRecent(rows, p, now);
  }

  lemma AnotherOne(p: Policy, s: State, now: Time)
    requires p.Valid() && Tail(p, s) && s.now <= now
    requires s.issued != [] ==> now >= s.issued[|s.issued| - 1] + p.Gap(p.Visible())
    requires |s.issued| < p.maxPerDay || (|s.issued| == p.maxPerDay && s.issued[0] < now - p.Visible())
    ensures var t := Run(p, s, Again(now));
            Tail(p, t) && t.issued == s.issued + [now] && t.now == now
  {
    hide Purged, MayIssue, Run, MarkUsed, Again;
    RoomForOne(p, s, now);
    AgainIs(p, s, now);
    var rows := Purged(p, MarkUsed(s.rows), now);
    forall k | 0 <= k < |rows|
      ensures rows[k].createdAt == s.issued[|s.issued| - |rows| + k] && rows[k].expiresAt == rows[k].createdAt + p.ttlMs
    {
      RowsLeft(p, s, now, k);
    }
  }

  lemma AgainIs(p: Policy, s: State, now: Time)
    requires MayIssue(p, Purged(p, MarkUsed(s.rows), now), now)
    ensures Run(p, s, Again(now))
         == State(now, Purged(p, MarkUsed(s.rows), now) + [Row(now, now + p.ttlMs, false)], s.issued + [now])
  {
    hide Purged, MarkUsed, MayIssue;
    var es := Again(now);
    assert es[1..] == [Event(now, Purge), Event(now, Forgot)] && es[1..][1..] == [Event(now, Forgot)]
           && es[1..][1..][1..] == [];
    var s1 := Do(p, s, es[0]);
    var s2 := Do(p, s1, es[1]);
    assert Run(p, s2, [Event(now, Forgot)]) == Do(p, s2, Event(now, Forgot));
  }

  lemma {:induction false} RunConcat(p: Policy, s: State, es: seq<Event>, fs: seq<Event>)
    ensures Run(p, s, es + fs) == Run(p, Run(p, s, es), fs)
    decreases |es|
  {
    if es == [] {
      assert es + fs == fs;
    } else {
      RunConcat(p, Do(p, s, es[0]), es[1..], fs);
      assert (es + fs)[1..] == es[1..] + fs;
    }
  }

  /** n links, the gap apart. */
  function Relentless(n: nat, gap: nat): (es: seq<Event>)
    ensures forall i :: 0 <= i < |es| ==> 0 <= es[i].now && (n > 0 ==> es[i].now <= (n - 1) * gap)
    ensures forall i, j :: 0 <= i < j < |es| ==> es[i].now <= es[j].now
  {
    if n == 0 then []
    else
      assert n > 1 ==> (n - 2) * gap <= (n - 1) * gap;
      Relentless(n - 1, gap) + Again((n - 1) * gap)
  }

  lemma {:induction false} RelentlessIssues(p: Policy, n: nat)
    requires p.Valid() && n <= p.maxPerDay
    ensures var t := Run(p, Start(0), Relentless(n, p.Gap(p.Visible())));
            && Tail(p, t) && |t.issued| == n && t.now == (if n == 0 then 0 else (n - 1) * p.Gap(p.Visible()))
            && forall i :: 0 <= i < n ==> t.issued[i] == i * p.Gap(p.Visible())
  {
    if n > 0 {
      var gap := p.Gap(p.Visible());
      RelentlessIssues(p, n - 1);
      var s, es := Run(p, Start(0), Relentless(n - 1, gap)), Relentless(n - 1, gap);
      if n > 1 { assert (n - 1) * gap == (n - 2) * gap + gap; }
      AnotherOne(p, s, (n - 1) * gap);
      RunConcat(p, Start(0), es, Again((n - 1) * gap));
    }
  }

  /** One link more than the cap, within a day: the rows of the first are gone when the last is asked for. */
  lemma OneTooMany(p: Policy) returns (es: seq<Event>)
    requires p.Valid() && p.Visible() < DAY_MS && p.maxPerDay * p.Gap(p.Visible()) <= DAY_MS
    ensures LegalRun(Start(0), es) && LinksInDay(Run(p, Start(0), es).issued, 0) >= p.maxPerDay + 1
  {
    hide Run, Tail, Relentless, Again, LegalRun;
    var n, gap := p.maxPerDay, p.Gap(p.Visible());
    var first := Relentless(n, gap);
    var s := Run(p, Start(0), first);
    var last := LastTime(p);
    RelentlessIssues(p, n);
    GapTimes(n - 1, n, gap);
    assert s.issued[0] == 0 * gap == 0;
    AnotherOne(p, s, last);
    es := first + Again(last);
    RunConcat(p, Start(0), first, Again(last));
    ThenAgainLegal(first, last);
    AllWithinADay(s.issued + [last], n, gap);
  }

  /** When the last link is asked for: after the gap, and once the first row may be gone. */
  function LastTime(p: Policy): (t: Time)
    requires p.Valid()
    ensures t >= p.maxPerDay * p.Gap(p.Visible()) && t > p.Visible()
    ensures p.Visible() < DAY_MS && p.maxPerDay * p.Gap(p.Visible()) <= DAY_MS ==> t <= DAY_MS
  {
    var end := p.maxPerDay * p.Gap(p.Visible());
    if end > p.Visible() then end else p.Visible() + 1
  }

  lemma AllWithinADay(issued: seq<Time>, n: nat, gap: nat)
    requires |issued| == n + 1 && n * gap <= DAY_MS && 0 <= issued[n] <= DAY_MS
    requires forall i :: 0 <= i < n ==> issued[i] == i * gap
    ensures LinksInDay(issued, 0) >= n + 1
  {
    forall i | 0 <= i < n ensures 0 <= issued[i] <= DAY_MS {
      GapTimes(i, n, gap);
    }
    SpanFills(InWindow(issued, 0, DAY_MS + 1), 0, n + 1);
  }

  lemma GapTimes(i: nat, n: nat, gap: nat)
    requires i <= n
    ensures 0 <= i * gap <= n * gap
    ensures i + 1 == n ==> n * gap == i * gap + gap
  {
  }

  ghost predicate DailyCap(p: Policy) {
    forall start, es, w :: LegalRun(Start(start), es) ==> LinksInDay(Run(p, Start(start), es).issued, w) <= p.maxPerDay
  }

  ghost predicate MinInterval(p: Policy) {
    forall start, es :: LegalRun(Start(start), es) ==> Spaced(Run(p, Start(start), es).issued, p.minIntervalMs)
  }

  /** The cap holds over every run exactly when rows outlive a day, or the gap alone keeps more than the cap from
      fitting. */
  lemma DailyCapIff(p: Policy)
    requires p.Valid()
    ensures DailyCap(p) <==> p.Visible() >= DAY_MS || p.maxPerDay * p.Gap(p.Visible()) > DAY_MS
  {
    if p.Visible() >= DAY_MS || p.maxPerDay * p.Gap(p.Visible()) > DAY_MS {
      forall start, es, w | LegalRun(Start(start), es)
        ensures LinksInDay(Run(p, Start(start), es).issued, w) <= p.maxPerDay
      {
        WithCleanups(p, start, es, w);
      }
    } else {
      var es := OneTooMany(p);
      assert LegalRun(Start(0), es);
    }
  }

  /** The interval holds over every run exactly when rows outlive it. */
  lemma MinIntervalIff(p: Policy)
    requires p.Valid()
    ensures MinInterval(p) <==> p.minIntervalMs <= p.Visible() + 1
  {
    if p.minIntervalMs <= p.Visible() + 1 {
      forall start, es | LegalRun(Start(start), es) ensures Spaced(Run(p, Start(start), es).issued, p.minIntervalMs) {
        WithCleanups(p, start, es, 0);
      }
    } else {
      var es := TooSoon(p);
      assert !Spaced(Run(p, Start(0), es).issued, p.minIntervalMs);
    }
  }

  lemma ThenAgainLegal(es: seq<Event>, now: Time)
    requires LegalRun(Start(0), es) && forall i :: 0 <= i < |es| ==> es[i].now <= now
    requires 0 <= now
    ensures LegalRun(Start(0), es + Again(now))
  {
  }

  lemma TooSoon(p: Policy) returns (es: seq<Event>)
    requires p.Valid() && p.minIntervalMs > p.Visible() + 1
    ensures LegalRun(Start(0), es) && !Spaced(Run(p, Start(0), es).issued, p.minIntervalMs)
  {
    var gap := p.Gap(p.Visible());
    RelentlessIssues(p, 1);
    ThenAgainLegal(Relentless(1, gap), gap);
    hide Run, Tail, Relentless, Again, LegalRun;
    var s := Run(p, Start(0), Relentless(1, gap));
    assert s.issued[0] == 0;
    AnotherOne(p, s, gap);
    es := Relentless(1, gap) + Again(gap);
    RunConcat(p, Start(0), Relentless(1, gap), Again(gap));
    var issued := Run(p, Start(0), es).issued;
    assert issued[1] - issued[0] == gap;
  }

  /** With the shipped values the interval is kept and the daily cap is not: links last an hour, so a cleanup forgets
      them. */
  lemma DefaultsKeepOnlyTheInterval()
    ensures MinInterval(DEFAULTS) && !DailyCap(DEFAULTS)
  {
    MinIntervalIff(DEFAULTS);
    DailyCapIff(DEFAULTS);
  }
}
