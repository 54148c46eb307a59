/** The fixed-window rate limiter: one counter per bucket in Redis, increased by a script that starts its life on the
    first increment, and refused when it passes the limit or when Redis does not answer. */
module RateLimit {
  import opened Wrappers
  import opened Windows

  /** Milliseconds on the clock of Redis. */
  type Time = int

  /** graced: a key can still be read in the very millisecond its life ends. */
  datatype Limit = Limit(maxAttempts: nat, windowMs: nat, graced: bool)
  {
    predicate Positive() { maxAttempts >= 1 && windowMs >= 1 }

    /** Instants a counter lives. */
    function Life(): nat { windowMs + if graced then 1 else 0 }
  }

  datatype Counter = Counter(count: nat, expiresAt: Time)

  predicate Alive(l: Limit, c: Option<Counter>, now: Time) {
    c.Some? && (now < c.value.expiresAt || (l.graced && now == c.value.expiresAt))
  }

  /** The script: INCR, and PEXPIRE when the count it left is 1. */
  function Incr(l: Limit, c: Option<Counter>, now: Time): Counter {
    if Alive(l, c, now) then Counter(c.value.count + 1, c.value.expiresAt) else Counter(1, now + l.windowMs)
  }

  /** What a request sees of Redis: an answer; none in time or an error, with the script run or not; no connection. */
  datatype Reply = Answered | Lost(ran: bool) | NotReady

  datatype Verdict = Admitted | TooMany | Unavailable

  predicate Ran(r: Reply) { r.Answered? || (r.Lost? && r.ran) }

  function Judge(l: Limit, count: nat, r: Reply): Verdict {
    if !r.Answered? then Unavailable else if count > l.maxAttempts then TooMany else Admitted
  }

  /** An admitted request: when, in which window, and as which of its requests. */
  datatype Hit = Hit(time: Time, window: nat, rank: nat)

  /** The counter, and the history around it: when each window opened, when the script ran, what was admitted. */
  datatype State = State(now: Time, counter: Option<Counter>, opens: seq<Time>, ran: seq<Time>, hits: seq<Hit>)

  datatype Event = Event(now: Time, reply: Reply)

  function Do(l: Limit, s: State, e: Event): State {
    if !Ran(e.reply) then s.(now := e.now)
    else
      var c := Incr(l, s.counter, e.now);
      var opens := if Alive(l, s.counter, e.now) then s.opens else s.opens + [e.now];
      var hits := if Judge(l, c.count, e.reply).Admitted? then s.hits
          + [Hit(e.now, if opens == [] then 0 else |opens| - 1, c.count)]
                  else s.hits;
      State(e.now, Some(c), opens, s.ran + [e.now], hits)
  }

  ghost predicate LegalRun(s: State, es: seq<Event>) {
    && (es != [] ==> s.now <= es[0].now)
    && forall i, j :: 0 <= i < j < |es| ==> es[i].now <= es[j].now
  }

  ghost function Run(l: Limit, s: State, es: seq<Event>): State
    decreases |es|
  {
    if es == [] then s else Run(l, Do(l, s, es[0]), es[1..])
  }

  function Start(now: Time): State { State(now, None, [], [], []) }

  function Times(hits: seq<Hit>): (ts: seq<Time>)
    ensures |ts| == |hits| && forall i :: 0 <= i < |ts| ==> ts[i] == hits[i].time
  {
    seq(|hits|, i requires 0 <= i < |hits| => hits[i].time)
  }

  // ---- Invariant ----

  predicate Before(a: Hit, b: Hit) {
    a.window < b.window || (a.window == b.window && a.rank < b.rank)
  }

  ghost predicate HitOk(l: Limit, opens: seq<Time>, h: Hit) {
    && h.window < |opens| && 1 <= h.rank <= l.maxAttempts
    && opens[h.window] <= h.time < opens[h.window] + l.Life()
    && (h.rank == 1 ==> h.time == opens[h.window])
  }

  ghost predicate WindowsOk(l: Limit, s: State) {
    && (forall k :: 0 <= k < |s.opens| ==> s.opens[k] <= s.now)
    && (forall k, m :: 0 <= k < m < |s.opens| ==> s.opens[m] >= s.opens[k] + l.Life())
    && (s.counter.Some? <==> s.opens != [])
    && (s.counter.Some? ==> s.counter.value.expiresAt == s.opens[|s.opens| - 1] + l.windowMs)
  }

  function CountOf(c: Option<Counter>): nat { if c.Some? then c.value.count else 0 }

  /** Hits come window by window, in the order of their ranks; those of the last window are among its first count. */
  ghost predicate HitsFit(l: Limit, opens: seq<Time>, hits: seq<Hit>, now: Time, count: nat) {
    && (forall i :: 0 <= i < |hits| ==> HitOk(l, opens, hits[i]) && hits[i].time <= now)
    && (forall i, j :: 0 <= i < j < |hits| ==> Before(hits[i], hits[j]) && hits[i].time <= hits[j].time)
    && (forall i :: 0 <= i < |hits| && hits[i].window == |opens| - 1 ==> hits[i].rank <= count)
  }

  ghost predicate HitsOk(l: Limit, s: State) {
    HitsFit(l, s.opens, s.hits, s.now, CountOf(s.counter))
  }

  /** The count is the number of scripts run since the last window opened. */
  ghost predicate CountOk(s: State) {
    s.counter.Some? ==>
      && s.opens != [] && 1 <= s.counter.value.count <= |s.ran|
      && forall i :: |s.ran| - s.counter.value.count <= i < |s.ran| ==> s.opens[|s.opens| - 1] <= s.ran[i] <= s.now
  }

  ghost predicate Inv(l: Limit, s: State) {
    WindowsOk(l, s) && HitsOk(l, s) && CountOk(s)
  }

  lemma DoKeeps(l: Limit, s: State, e: Event)
    requires l.Positive() && Inv(l, s) && s.now <= e.now
    ensures Inv(l, Do(l, s, e))
  {
    hide WindowsOk, HitsOk, CountOk, Do;
    if Ran(e.reply) {
      WindowsKept(l, s, e);
      HitsKept(l, s, e);
      CountKept(l, s, e);
    } else {
      NothingRan(l, s, e);
    }
  }

  lemma NothingRan(l: Limit, s: State, e: Event)
    requires Inv(l, s) && s.now <= e.now && !Ran(e.reply)
    ensures Inv(l, Do(l, s, e))
  {
  }

  lemma WindowsKept(l: Limit, s: State, e: Event)
    requires l.Positive() && WindowsOk(l, s) && s.now <= e.now && Ran(e.reply)
    ensures WindowsOk(l, Do(l, s, e))
  {
    hide Judge;
    var t := Do(l, s, e);
    if Alive(l, s.counter, e.now) {
      assert t.opens == s.opens;
    } else if s.opens != [] {
      var last := |s.opens| - 1;
      assert e.now >= s.opens[last] + l.Life();
      assert forall k :: 0 <= k < last ==> s.opens[last] >= s.opens[k] + l.Life();
    }
  }

  predicate Admits(l: Limit, r: Reply, count: nat) { r.Answered? && count <= l.maxAttempts }

  function WithHit(hits: seq<Hit>, admitted: bool, h: Hit): seq<Hit> {
    if admitted then hits + [h] else hits
  }

  /** What is there to know about the windows when the script has run. */
  lemma WindowNow(l: Limit, s: State, e: Event)
    requires l.Positive() && WindowsOk(l, s) && CountOk(s) && s.now <= e.now && Ran(e.reply)
    ensures var t := Do(l, s, e);
            && t.now == e.now && t.counter.Some? && t.opens != [] && t.counter.value.count >= 1
            && (t.counter.value.count == 1 ==> t.opens[|t.opens| - 1] == e.now)
            && t.opens[|t.opens| - 1] <= e.now < t.opens[|t.opens| - 1] + l.Life()
            && (if |t.opens| == |s.opens| then t.opens == s.opens && s.counter.Some?
                && t.counter.value.count == s.counter.value.count + 1
                else t.opens == s.opens + [e.now] && t.counter.value.count == 1)
            && t.hits == WithHit(s.hits, Admits(l, e.reply, t.counter.value.count),
                                 Hit(e.now, |t.opens| - 1, t.counter.value.count))
  {
  }

  /** The next of a window, admitted or not. */
  lemma FitOneMore(l: Limit, opens: seq<Time>, hits: seq<Hit>, now: Time, count: nat, admitted: bool)
    requires HitsFit(l, opens, hits, now, count) && opens != []
    requires var h := Hit(now, |opens| - 1, count + 1); admitted ==> HitOk(l, opens, h)
    ensures HitsFit(l, opens, WithHit(hits, admitted, Hit(now, |opens| - 1, count + 1)), now, count + 1)
  {
  }

  lemma HitsKept(l: Limit, s: State, e: Event)
    requires l.Positive() && WindowsOk(l, s) && HitsOk(l, s) && CountOk(s) && s.now <= e.now && Ran(e.reply)
    ensures HitsOk(l, Do(l, s, e))
  {
    hide HitsFit, WindowsOk, CountOk, Alive, Judge, Do, WithHit, Incr;
    WindowNow(l, s, e);
    var t := Do(l, s, e);
    KeptSoFar(l, s.opens, s.hits, s.now, CountOf(s.counter), e.now, t.opens, t.counter.value.count);
    FitOneMore(l, t.opens, s.hits, e.now, t.counter.value.count - 1, Admits(l, e.reply, t.counter.value.count));
  }

  /** The hits so far fit the windows as they are now, in both cases. */
  lemma KeptSoFar(l: Limit, opens: seq<Time>, hits: seq<Hit>, now: Time, count: nat, later: Time, nowOpens: seq<Time>,
                  nowCount: nat)
    requires HitsFit(l, opens, hits, now, count) && now <= later && nowCount >= 1
    requires if |nowOpens| == |opens| then nowOpens == opens && nowCount == count + 1
             else nowOpens == opens + [later] && nowCount == 1
    ensures HitsFit(l, nowOpens, hits, later, nowCount - 1)
  {
  }

  lemma CountKept(l: Limit, s: State, e: Event)
    requires l.Positive() && WindowsOk(l, s) && CountOk(s) && s.now <= e.now && Ran(e.reply)
    ensures CountOk(Do(l, s, e))
  {
  }

  lemma {:induction false} RunKeeps(l: Limit, s: State, es: seq<Event>)
    requires l.Positive() && Inv(l, s) && LegalRun(s, es)
    ensures Inv(l, Run(l, s, es))
    decreases |es|
  {
    if es != [] {
      DoKeeps(l, s, es[0]);
      RunKeeps(l, Do(l, s, es[0]), es[1..]);
    }
  }

  lemma StartOk(l: Limit, now: Time)
    ensures Inv(l, Start(now))
  {
  }

  // ---- How much gets through ----

  /** Between two admitted requests of one window, or of neighbouring windows, only so many fit. */
  lemma {:induction false} Between(l: Limit, s: State, i: nat, j: nat)
    requires HitsOk(l, s) && i <= j < |s.hits|
    ensures s.hits[i].window <= s.hits[j].window
    ensures s.hits[i].window == s.hits[j].window ==> j - i <= s.hits[j].rank - s.hits[i].rank
    ensures s.hits[i].window + 1 == s.hits[j].window ==> j - i <= l.maxAttempts - s.hits[i].rank + s.hits[j].rank
    decreases j
  {
    if i < j {
      Between(l, s, i, j - 1);
      assert Before(s.hits[j - 1], s.hits[j]) && HitOk(l, s.opens, s.hits[j]) && HitOk(l, s.opens, s.hits[j - 1]);
    }
  }

  lemma FarApart(l: Limit, s: State, i: nat, j: nat)
    requires l.Positive() && Inv(l, s) && i + 2 * l.maxAttempts - 1 <= j < |s.hits|
    ensures s.hits[j].time >= s.hits[i].time + l.windowMs
  {
    Between(l, s, i, j);
    var a, b := s.hits[i], s.hits[j];
    assert HitOk(l, s.opens, a) && HitOk(l, s.opens, b);
    if b.window > a.window + 1 {
      assert s.opens[a.window + 1] >= s.opens[a.window] + l.Life()
             && s.opens[b.window] >= s.opens[a.window + 1] + l.Life();
    }
  }

  lemma NextWindowLater(l: Limit, s: State, i: nat, j: nat)
    requires l.Positive() && Inv(l, s) && i + l.maxAttempts <= j < |s.hits|
    ensures s.hits[j].time >= s.hits[i].time + 1
  {
    Between(l, s, i, j);
    assert HitOk(l, s.opens, s.hits[i]) && HitOk(l, s.opens, s.hits[j]);
  }

  /** Over any run, lost replies included: windows open at least windowMs apart, each admits at most maxAttempts, and no
      half-open interval of windowMs holds more than 2 maxAttempts - 1 admitted requests. */
  lemma AtMostTwiceLessOne(l: Limit, start: Time, es: seq<Event>, w: Time)
    requires l.Positive() && LegalRun(Start(start), es)
    ensures var s := Run(l, Start(start), es);
            && (forall k, m :: 0 <= k < m < |s.opens| ==> s.opens[m] >= s.opens[k] + l.windowMs)
            && (forall i, j :: 0 <= i < j < |s.hits| && s.hits[i].window == s.hits[j].window ==>
                1 <= s.hits[i].rank < s.hits[j].rank <= l.maxAttempts)
            && |InWindow(Times(s.hits), w, l.windowMs)| <= 2 * l.maxAttempts - 1
  {
    var s := Run(l, Start(start), es);
    RunKeeps(l, Start(start), es);
    forall i, j | 0 <= i && i + (2 * l.maxAttempts - 1) <= j < |s.hits|
        ensures s.hits[j].time >= s.hits[i].time + l.windowMs {
      FarApart(l, s, i, j);
    }
    assert Spread(Times(s.hits), 2 * l.maxAttempts - 1, l.windowMs);
    SpreadBoundsWindow(Times(s.hits), 2 * l.maxAttempts - 1, w, l.windowMs);
    forall i, j | 0 <= i < j < |s.hits| && s.hits[i].window == s.hits[j].window
      ensures 1 <= s.hits[i].rank < s.hits[j].rank <= l.maxAttempts
    {
      assert Before(s.hits[i], s.hits[j]) && HitOk(l, s.opens, s.hits[i]) && HitOk(l, s.opens, s.hits[j]);
    }
  }

  /** A request is refused for its number only when the script already ran maxAttempts times in the
      windowMs before it. */
  lemma RefusedOnlyAfterMax(l: Limit, start: Time, es: seq<Event>, now: Time)
    requires l.Positive() && LegalRun(Start(start), es) && Run(l, Start(start), es).now <= now
    ensures var s := Run(l, Start(start), es);
            Judge(l, Incr(l, s.counter, now).count, Answered) == TooMany ==>
              |InWindow(s.ran, now - l.windowMs, l.windowMs + 1)| >= l.maxAttempts
  {
    var s := Run(l, Start(start), es);
    RunKeeps(l, Start(start), es);
    if Judge(l, Incr(l, s.counter, now).count, Answered) == TooMany {
      var xs := InWindow(s.ran, now - l.windowMs, l.windowMs + 1);
      SpanFills(xs, |s.ran| - l.maxAttempts, l.maxAttempts);
    }
  }

  // ---- How sharp that is ----

  lemma {:induction false} RunConcat(l: Limit, s: State, es: seq<Event>, fs: seq<Event>)
    ensures Run(l, s, es + fs) == Run(l, Run(l, s, es), fs)
    decreases |es|
  {
    if es == [] {
      assert es + fs == fs;
    } else {
      RunConcat(l, Do(l, s, es[0]), es[1..], fs);
      assert (es + fs)[1..] == es[1..] + fs;
    }
  }

  function Burst(n: nat, now: Time): seq<Event> { seq(n, _ => Event(now, Answered)) }

  /** n answered requests at one instant, in a live window with room for them, are all admitted. */
  lemma {:induction false} BurstAdmitted(l: Limit, s: State, n: nat, now: Time)
    requires Alive(l, s.counter, now) && s.counter.value.count + n <= l.maxAttempts
    ensures var t := Run(l, s, Burst(n, now));
            && t.counter == Some(Counter(s.counter.value.count + n, s.counter.value.expiresAt))
            && Times(t.hits) == Times(s.hits) + seq(n, _ => now)
    decreases n
  {
    if n > 0 {
      var e := Event(now, Answered);
      var s1 := Do(l, s, e);
      assert Times(s1.hits) == Times(s.hits) + [now];
      BurstAdmitted(l, s1, n - 1, now);
      assert Burst(n, now)[0] == e && Burst(n, now)[1..] == Burst(n - 1, now);
      assert [now] + seq(n - 1, _ => now) == seq(n, _ => now);
    }
  }

  /** With no live window, the first of them opens one. */
  lemma OpeningBurst(l: Limit, s: State, n: nat, now: Time)
    requires l.Positive() && !Alive(l, s.counter, now) && 1 <= n <= l.maxAttempts
    ensures var t := Run(l, s, Burst(n, now));
            && t.counter == Some(Counter(n, now + l.windowMs))
            && Times(t.hits) == Times(s.hits) + seq(n, _ => now)
  {
    var e := Event(now, Answered);
    var s1 := Do(l, s, e);
    assert Times(s1.hits) == Times(s.hits) + [now];
    if n > 1 { BurstAdmitted(l, s1, n - 1, now); }
    assert Burst(n, now)[0] == e && Burst(n, now)[1..] == Burst(n - 1, now);
    assert [now] + seq(n - 1, _ => now) == seq(n, _ => now);
  }

  /** One request opens a window; the rest of its share comes at its very end, and a whole new share right after. */
  function Worst(l: Limit): seq<Event>
    requires l.Positive()
  {
    Burst(1, 0) + Burst(l.maxAttempts - 1, l.Life() - 1) + Burst(l.maxAttempts, l.Life())
  }

  lemma WorstFirst(l: Limit)
    requires l.Positive() && l.windowMs >= 2
    ensures var t := Run(l, Start(0), Burst(1, 0) + Burst(l.maxAttempts - 1, l.Life() - 1));
            && t.counter == Some(Counter(l.maxAttempts, l.windowMs))
            && Times(t.hits) == seq(1, _ => 0) + seq(l.maxAttempts - 1, _ => l.Life() - 1)
  {
    OpeningBurst(l, Start(0), 1, 0);
    var s := Run(l, Start(0), Burst(1, 0));
    assert Times(Start(0).hits) == [];
    hide Run, Burst;
    BurstAdmitted(l, s, l.maxAttempts - 1, l.Life() - 1);
    RunConcat(l, Start(0), Burst(1, 0), Burst(l.maxAttempts - 1, l.Life() - 1));
  }

  lemma WorstTimes(l: Limit)
    requires l.Positive() && l.windowMs >= 2
    ensures Times(Run(l, Start(0), Worst(l)).hits)
            == seq(1, _ => 0) + seq(l.maxAttempts - 1, _ => l.Life() - 1) + seq(l.maxAttempts, _ => l.Life())
  {
    hide Run, Burst;
    WorstFirst(l);
    var first := Burst(1, 0) + Burst(l.maxAttempts - 1, l.Life() - 1);
    OpeningBurst(l, Run(l, Start(0), first), l.maxAttempts, l.Life());
    RunConcat(l, Start(0), first, Burst(l.maxAttempts, l.Life()));
  }

  lemma WorstIsLegal(l: Limit)
    requires l.Positive()
    ensures LegalRun(Start(0), Worst(l))
  {
  }

  lemma WorstCase(l: Limit)
    requires l.Positive() && l.windowMs >= 2
    ensures LegalRun(Start(0), Worst(l))
    ensures |InWindow(Times(Run(l, Start(0), Worst(l)).hits), l.Life() - 1, l.windowMs)| >= 2 * l.maxAttempts - 1
  {
    hide Run, Burst, Worst, LegalRun;
    WorstTimes(l);
    WorstIsLegal(l);
    SpanFills(InWindow(Times(Run(l, Start(0), Worst(l)).hits), l.Life() - 1, l.windowMs), 1, 2 * l.maxAttempts - 1);
  }

  ghost predicate SlidingLimit(l: Limit) {
    forall start, es, w :: LegalRun(Start(start), es) ==>
        |InWindow(Times(Run(l, Start(start), es).hits), w, l.windowMs)| <= l.maxAttempts
  }

  /** maxAttempts is a limit per fixed window. As a limit on every interval of windowMs it holds only where the two
      cannot differ: one attempt, or a window of one millisecond. */
  lemma SlidingLimitIff(l: Limit)
    requires l.Positive()
    ensures SlidingLimit(l) <==> l.maxAttempts == 1 || l.windowMs == 1
  {
    if l.maxAttempts == 1 || l.windowMs == 1 {
      forall start, es, w | LegalRun(Start(start), es)
        ensures |InWindow(Times(Run(l, Start(start), es).hits), w, l.windowMs)| <= l.maxAttempts
      {
        AtMostTwiceLessOne(l, start, es, w);
        if l.windowMs == 1 { OneInstant(l, start, es, w); }
      }
    } else {
      WorstCase(l);
      assert LegalRun(Start(0), Worst(l));
    }
  }

  lemma OneInstant(l: Limit, start: Time, es: seq<Event>, w: Time)
    requires l.Positive() && LegalRun(Start(start), es)
    ensures |InWindow(Times(Run(l, Start(start), es).hits), w, 1)| <= l.maxAttempts
  {
    var s := Run(l, Start(start), es);
    RunKeeps(l, Start(start), es);
    forall i, j | 0 <= i && i + l.maxAttempts <= j < |s.hits| ensures s.hits[j].time >= s.hits[i].time + 1 {
      NextWindowLater(l, s, i, j);
    }
    assert Spread(Times(s.hits), l.maxAttempts, 1);
    SpreadBoundsWindow(Times(s.hits), l.maxAttempts, w, 1);
  }

  // ---- The middleware's check ----

  class RateLimiter {
    var counter: Option<Counter>

    constructor ()
      ensures counter == None
    {
      counter := None;
    }

    /** Fails closed: without an answer from Redis the request is refused. */
    method CheckRedisLimit(l: Limit, now: Time, reply: Reply) returns (verdict: Verdict)
      modifies this
      ensures counter == if Ran(reply) then Some(Incr(l, old(counter), now)) else old(counter)
      ensures verdict == Admitted <==> reply == Answered && Incr(l, old(counter), now).count <= l.maxAttempts
      ensures verdict == TooMany <==> reply == Answered && Incr(l, old(counter), now).count > l.maxAttempts
    {
      if reply.NotReady? { return Unavailable; }
      var current := 0;
      if reply.Answered? || reply.ran {
        if counter.Some? && (now < counter.value.expiresAt || (l.graced && now == counter.value.expiresAt)) {
          counter := Some(Counter(counter.value.count + 1, counter.value.expiresAt));
        } else {
          counter := Some(Counter(1, now + l.windowMs));
        }
        current := counter.value.count;
      }
      if reply.Lost? { return Unavailable; }
      verdict := if current > l.maxAttempts then TooMany else Admitted;
    }
  }
}
