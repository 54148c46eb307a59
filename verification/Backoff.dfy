/** Retry timing of the outboxes: how far in the future a failing event is pushed, and how often it can have failed by
    a given time. */
module Backoff {
  import opened Wrappers
  import opened Outbox

  /** Sum of the first n delays. */
  function TotalDelay(n: nat): nat {
    if n == 0 then 0 else TotalDelay(n - 1) + DelayMs(n)
  }

  lemma {:induction false} Pow2Grows(n: nat)
    ensures Pow2(n) >= 1 && (n >= 6 ==> Pow2(n) >= 64)
  {
    if n == 6 {
      assert Pow2(6) == 2 * Pow2(5) == 4 * Pow2(4) == 8 * Pow2(3) == 16 * Pow2(2) == 32 * Pow2(1) == 64 * Pow2(0);
    } else if n > 0 {
      Pow2Grows(n - 1);
    }
  }

  /** The delays never shrink, and reach five minutes exactly from the seventh failure on. */
  lemma DelayShape(n: nat)
    requires n >= 1
    ensures DelayMs(n) <= DelayMs(n + 1) <= 300_000
    ensures DelayMs(n) == 300_000 <==> n >= 7
  {
    Pow2Grows(n - 1);
    if n < 7 { assert Pow2(1) == 2 && Pow2(2) == 4 && Pow2(3) == 8 && Pow2(4) == 16 && Pow2(5) == 32; }
  }

  /** Closed form: 5 (2^n - 1) seconds up to six failures, five minutes more for each one after that. */
  lemma {:induction false} TotalDelayClosed(n: nat)
    ensures TotalDelay(n) == 1000 * if n <= 6 then 5 * (Pow2(n) - 1) else 315 + 300 * (n - 6)
  {
    if n > 0 {
      TotalDelayClosed(n - 1);
      DelayShape(n);
      assert Pow2(1) == 2 && Pow2(2) == 4 && Pow2(3) == 8 && Pow2(4) == 16 && Pow2(5) == 32 && Pow2(6) == 64;
    }
  }

  // ---- One worker ----

  ghost predicate Alone(w: Worker, e: Event, at: At) {
    match e.step
    case Select(v, _) => v == w
    case Start(v) => v == w
    case Await(v, r) => v == w && (at.Delaying? ==> r == Ok) && (at.Failing? ==> r != Error(true))
    case Crash(v) => v == w && !at.Delaying?
    case _ => true
  }

  /** A run of a single worker in which recording a failure is all or nothing. */
  ghost predicate AloneRun(w: Worker, s: System, es: seq<Event>)
    requires LegalRun(s, es)
    decreases |es|
  {
    es == [] || (Alone(w, es[0], LocalOf(s, w).at) && AloneRun(w, Do(s, es[0]), es[1..]))
  }

  ghost predicate Holds(l: Local, id: Id) {
    (exists i :: 0 <= i < |l.todo| && l.todo[i].id == id)
    || (l.at.Sending? && l.at.id == id) || l.at == MarkingPublished(id) || l.at == MarkingExpired(id)
    || l.at == Failing(id)
  }

  ghost predicate OnTime(row: Row) {
    row.availableAt >= row.createdAt + TotalDelay(row.attempts)
  }

  /** Every row waits at least as long as its failures so far require, and its last failure came no earlier than the
      delays before it add up to. */
  ghost predicate Timely(w: Worker, s: System) {
    && (forall v :: v in s.workers && v != w ==> s.workers[v] == IDLE)
    && (forall i, j :: 0 <= i < j < |LocalOf(s, w).todo| ==> LocalOf(s, w).todo[i].id != LocalOf(s, w).todo[j].id)
    && (forall i :: 0 <= i < |LocalOf(s, w).todo| ==> !Busy(LocalOf(s, w).at, LocalOf(s, w).todo[i].id))
    && (forall id :: id in s.store.table ==> RowTimely(s.now, LocalOf(s, w), id, s.store.table[id]))
  }

  ghost predicate RowTimely(now: Time, l: Local, id: Id, row: Row) {
    if l.at.Delaying? && l.at.id == id then
      row.attempts == l.at.attempts && row.attempts >= 1 && now >= row.createdAt + TotalDelay(row.attempts - 1)
    else
      && OnTime(row) && (Holds(l, id) ==> row.availableAt <= now)
      && (row.attempts >= 1 ==> now >= row.createdAt + TotalDelay(row.attempts - 1))
  }

  ghost predicate Busy(at: At, id: Id) {
    (at.Sending? && at.id == id) || at == MarkingPublished(id) || at == MarkingExpired(id) || at == Failing(id)
      || (at.Delaying? && at.id == id)
  }

  lemma StartTimely(w: Worker, s: System, e: Event)
    requires Timely(w, s) && Enabled(s, e) && e.step == Start(w)
    ensures Timely(w, Do(s, e))
  {
  }

  /** One await and one row. */
  lemma AwaitRow(now: Time, later: Time, st: Store, l: Local, r: Result, id: Id)
    requires id in st.table && RowTimely(now, l, id, st.table[id]) && now <= later && l.at != Next
    requires (l.at.Delaying? ==> r == Ok) && (l.at.Failing? ==> r != Error(true))
    requires forall i :: 0 <= i < |l.todo| ==> !Busy(l.at, l.todo[i].id)
    ensures var t := Effect(st, l.at, r, later);
            id in t.table && RowTimely(later, Resume(st, l, r), id, t.table[id])
  {
    hide DelayMs;
    assert Resume(st, l, r) == IDLE || Resume(st, l, r).todo == l.todo;
    if l.at == Failing(id) { assert Holds(l, id); }
  }

  lemma EffectKeepsKeys(st: Store, at: At, r: Result, now: Time)
    ensures Effect(st, at, r, now).table.Keys == st.table.Keys
  {
  }

  lemma ResumeShape(st: Store, l: Local, r: Result)
    requires l.at != Next && forall i :: 0 <= i < |l.todo| ==> !Busy(l.at, l.todo[i].id)
    ensures var m := Resume(st, l, r);
            m == IDLE || (m.todo == l.todo && forall i :: 0 <= i < |m.todo| ==> !Busy(m.at, m.todo[i].id))
  {
  }

  lemma AwaitTimely(w: Worker, s: System, e: Event)
    requires Timely(w, s) && Enabled(s, e) && e.step.Await? && e.step.worker == w && Alone(w, e, LocalOf(s, w).at)
    ensures Timely(w, Do(s, e))
  {
    hide Effect, Resume, RowTimely, Busy;
    var l, t := LocalOf(s, w), Do(s, e);
    ResumeShape(s.store, l, e.step.result);
    EffectKeepsKeys(s.store, l.at, e.step.result, e.now);
    forall id | id in t.store.table ensures RowTimely(t.now, LocalOf(t, w), id, t.store.table[id]) {
      assert id in s.store.table.Keys;
      AwaitRow(s.now, e.now, s.store, l, e.step.result, id);
    }
  }

  lemma OtherTimely(w: Worker, s: System, e: Event)
    requires Inv(s) && Timely(w, s) && Enabled(s, e) && Alone(w, e, LocalOf(s, w).at) && !e.step.Start?
             && !e.step.Await?
    ensures Timely(w, Do(s, e))
  {
    var l, t := LocalOf(s, w), Do(s, e);
    forall id | id in t.store.table ensures RowTimely(t.now, LocalOf(t, w), id, t.store.table[id]) {
      if id in s.store.table { assert RowTimely(s.now, l, id, s.store.table[id]); }
    }
  }

  /** With one worker and failures recorded in one piece, over any run, an event that failed n times becomes available
      no earlier than its creation plus the first n delays. */
  lemma {:induction false} BackoffOverRuns(w: Worker, s: System, es: seq<Event>)
    requires Inv(s) && Timely(w, s) && LegalRun(s, es) && AloneRun(w, s, es)
    ensures Timely(w, Run(s, es))
    decreases |es|
  {
    if es != [] {
      DoKeeps(s, es[0]);
      if es[0].step.Start? { StartTimely(w, s, es[0]); }
      else if es[0].step.Await? { AwaitTimely(w, s, es[0]); }
      else { OtherTimely(w, s, es[0]); }
      BackoffOverRuns(w, Do(s, es[0]), es[1..]);
    }
  }

  /** The most failures an event of this age can have: the n-th needs the first n - 1 delays to have passed. */
  function MostAttempts(age: int): nat {
    if age < 5_000 then 1
    else if age < 15_000 then 2
    else if age < 35_000 then 3
    else if age < 75_000 then 4
    else if age < 155_000 then 5
    else if age < 315_000 then 6
    else 7 + (age - 315_000) / 300_000
  }

  lemma MostAttemptsIff(age: nat, n: nat)
    requires n >= 1
    ensures n <= MostAttempts(age) <==> TotalDelay(n - 1) <= age
  {
    TotalDelayClosed(n - 1);
    assert Pow2(1) == 2 && Pow2(2) == 4 && Pow2(3) == 8 && Pow2(4) == 16 && Pow2(5) == 32 && Pow2(6) == 64;
  }

  lemma AttemptsBound(age: int, n: nat)
    requires n >= 1 ==> TotalDelay(n - 1) <= age
    ensures n <= MostAttempts(age)
  {
    if n >= 1 { MostAttemptsIff(age, n); }
  }

  /** Attempts are bounded at any time: at every point of a lone worker's run, whatever it is doing, no event still in
      the table has more failures than its age admits. */
  lemma FailuresTakeTime(w: Worker, s: System, es: seq<Event>, id: Id)
    requires Inv(s) && Timely(w, s) && LegalRun(s, es) && AloneRun(w, s, es) && id in Run(s, es).store.table
    ensures var t := Run(s, es);
            var row := t.store.table[id];
            && (row.attempts >= 1 ==> t.now >= row.createdAt + TotalDelay(row.attempts - 1))
            && row.attempts <= MostAttempts(t.now - row.createdAt)
  {
    hide Inv, LegalRun, Run, AloneRun, TotalDelay, MostAttempts;
    BackoffOverRuns(w, s, es);
    var t := Run(s, es);
    assert RowTimely(t.now, LocalOf(t, w), id, t.store.table[id]);
    AttemptsBound(t.now - t.store.table[id].createdAt, t.store.table[id].attempts);
  }

  // ---- Exactly when the guarantee holds ----

  /** Workers 0 to n - 1 run; when recordings are whole, a failure is recorded with its delay or not at all. */
  ghost predicate Allowed(n: nat, whole: bool, s: System, e: Event) {
    match e.step
    case Select(v, _) => v < n
    case Start(v) => v < n
    case Await(v, r) =>
      v < n && (whole ==> (LocalOf(s, v).at.Delaying? ==> r == Ok) && (LocalOf(s, v).at.Failing? ==> r != Error(true)))
    case Crash(v) => v < n && (whole ==> !LocalOf(s, v).at.Delaying?)
    case _ => true
  }

  ghost predicate AllowedRun(n: nat, whole: bool, s: System, es: seq<Event>)
    requires LegalRun(s, es)
    decreases |es|
  {
    es == [] || (Allowed(n, whole, s, es[0]) && AllowedRun(n, whole, Do(s, es[0]), es[1..]))
  }

  /** Nobody is about to set the next try of this event. */
  ghost predicate AtRest(s: System, id: Id) {
    forall w :: w in s.workers ==> !(s.workers[w].at.Delaying? && s.workers[w].at.id == id)
  }

  ghost predicate RestingOnTime(s: System) {
    forall id :: id in s.store.table && AtRest(s, id) ==> OnTime(s.store.table[id])
  }

  ghost predicate BackoffHolds(n: nat, whole: bool) {
    forall now, es :: LegalRun(Nothing(now), es) && AllowedRun(n, whole, Nothing(now), es) ==>
        RestingOnTime(Run(Nothing(now), es))
  }

  lemma {:induction false} AllowedIsAlone(n: nat, whole: bool, s: System, es: seq<Event>)
    requires LegalRun(s, es) && AllowedRun(n, whole, s, es) && (n == 0 || (n == 1 && whole))
    ensures AloneRun(0, s, es)
    decreases |es|
  {
    if es != [] { AllowedIsAlone(n, whole, Do(s, es[0]), es[1..]); }
  }

  lemma TimelyRests(s: System)
    requires Timely(0, s)
    ensures RestingOnTime(s)
  {
    forall id | id in s.store.table && AtRest(s, id) ensures OnTime(s.store.table[id]) {
      assert RowTimely(s.now, LocalOf(s, 0), id, s.store.table[id]);
    }
  }

  /** From an empty outbox, over every run of n workers, events at rest wait as long as their failures require if and
      only if there is no worker, or one and it records failures in one piece. */
  lemma BackoffIff(n: nat, whole: bool)
    ensures BackoffHolds(n, whole) <==> n == 0 || (n == 1 && whole)
  {
    if n == 0 || (n == 1 && whole) {
      forall now, es | LegalRun(Nothing(now), es) && AllowedRun(n, whole, Nothing(now), es)
        ensures RestingOnTime(Run(Nothing(now), es))
      {
        AllowedIsAlone(n, whole, Nothing(now), es);
        EmptyOutboxOk(now);
        BackoffOverRuns(0, Nothing(now), es);
        TimelyRests(Run(Nothing(now), es));
      }
    } else if n == 1 {
      var es := TornRecording();
      assert LegalRun(Nothing(0), es);
    } else {
      var es := TwoWorkersWaitLess(n, whole);
      assert LegalRun(Nothing(0), es);
    }
  }

  // ---- The runs that break it ----

  ghost predicate Reaches(n: nat, whole: bool, es: seq<Event>, t: System) {
    LegalRun(Nothing(0), es) && AllowedRun(n, whole, Nothing(0), es) && Run(Nothing(0), es) == t
  }

  lemma {:induction false} OneMore(n: nat, whole: bool, s: System, es: seq<Event>, e: Event)
    requires LegalRun(s, es) && AllowedRun(n, whole, s, es) && Enabled(Run(s, es), e)
             && Allowed(n, whole, Run(s, es), e)
    ensures LegalRun(s, es + [e]) && AllowedRun(n, whole, s, es + [e]) && Run(s, es + [e]) == Do(Run(s, es), e)
    decreases |es|
  {
    if es == [] {
      assert es + [e] == [e];
    } else {
      OneMore(n, whole, Do(s, es[0]), es[1..], e);
      assert (es + [e])[1..] == es[1..] + [e];
    }
  }

  ghost predicate Moves(n: nat, whole: bool, s: System, a: Step, t: System) {
    Enabled(s, Event(0, a)) && Allowed(n, whole, s, Event(0, a)) && Do(s, Event(0, a)) == t
  }

  lemma Then(n: nat, whole: bool, es: seq<Event>, s: System, a: Step, t: System) returns (fs: seq<Event>)
    requires Reaches(n, whole, es, s) && Moves(n, whole, s, a, t)
    ensures Reaches(n, whole, fs, t)
  {
    OneMore(n, whole, Nothing(0), es, Event(0, a));
    fs := es + [Event(0, a)];
  }

  const ONE_EVENT := [Item(0, 0, None)]
  const READ := Local(ONE_EVENT, Next)
  const SENDING := Local([], Sending(0, Request(0, None, 0)))
  const FAILING := Local([], At.Failing(0))

  /** The one event, with its failures and the instant of its next try, and what the workers are doing. */
  ghost function OneRow(status: Status, attempts: nat, availableAt: Time): Store {
    Store(map[0 := Row(status, attempts, availableAt, None, 0, None)], map[0 := Item(0, 0, None)], {}, {}, {})
  }
  ghost function Solo(st: Store, a: Local): System { System(0, st, map[0 := a]) }
  ghost function Both(st: Store, a: Local, b: Local): System { System(0, st, map[0 := a, 1 := b]) }

  lemma InsertAndRead(n: nat, whole: bool) returns (es: seq<Event>)
    requires n >= 1
    ensures Reaches(n, whole, es, Solo(OneRow(Pending, 0, 0), READ))
  {
    var st := OneRow(Pending, 0, 0);
    var inserted := System(0, st, map[]);
    assert Moves(n, whole, Nothing(0), Insert(0, None), inserted);
    assert Moves(n, whole, inserted, Select(0, ONE_EVENT), Solo(st, READ));
    es := [];
    assert Reaches(n, whole, es, Nothing(0));
    hide Reaches, Moves;
    es := Then(n, whole, es, Nothing(0), Insert(0, None), inserted);
    es := Then(n, whole, es, inserted, Select(0, ONE_EVENT), Solo(st, READ));
  }

  lemma SoloMoves()
    ensures var st := OneRow(Pending, 0, 0);
            && Moves(1, false, Solo(st, READ), Start(0), Solo(st, SENDING))
            && Moves(1, false, Solo(st, SENDING), Await(0, Error(false)), Solo(st, FAILING))
    ensures Moves(1, false, Solo(OneRow(Pending, 0, 0), FAILING), Await(0, Ok),
                  Solo(OneRow(Failed, 1, 0), Local([], Delaying(0, 1))))
    ensures Moves(1, false, Solo(OneRow(Failed, 1, 0), Local([], Delaying(0, 1))), Await(0, Error(false)),
                  Solo(OneRow(Failed, 1, 0), IDLE))
  {
    assert ONE_EVENT[1..] == [] && Begin(READ, 0) == SENDING;
  }

  /** One worker, but an error between the two statements: the failure is counted and the event is due at once. */
  lemma TornRecording() returns (es: seq<Event>)
    ensures LegalRun(Nothing(0), es) && AllowedRun(1, false, Nothing(0), es) && !RestingOnTime(Run(Nothing(0), es))
  {
    SoloMoves();
    var st := OneRow(Pending, 0, 0);
    var late := Local([], Delaying(0, 1));
    es := InsertAndRead(1, false);
    hide Moves, Solo, OneRow, Do, Enabled, Allowed;
    es := Then(1, false, es, Solo(st, READ), Start(0), Solo(st, SENDING));
    es := Then(1, false, es, Solo(st, SENDING), Await(0, Error(false)), Solo(st, FAILING));
    es := Then(1, false, es, Solo(st, FAILING), Await(0, Ok), Solo(OneRow(Failed, 1, 0), late));
    es := Then(1, false, es, Solo(OneRow(Failed, 1, 0), late), Await(0, Error(false)),
               Solo(OneRow(Failed, 1, 0), IDLE));
    TooEarly(Solo(OneRow(Failed, 1, 0), IDLE), 1, 0) by { SoloRests(1, 0); }
  }

  lemma SoloRests(attempts: nat, availableAt: Time)
    ensures var s := Solo(OneRow(Failed, attempts, availableAt), IDLE);
            0 in s.store.table && AtRest(s, 0) && s.store.table[0] == Row(Failed, attempts, availableAt, None, 0, None)
  {
  }

  lemma BothRest(attempts: nat, availableAt: Time)
    ensures var s := Both(OneRow(Failed, attempts, availableAt), IDLE, IDLE);
            0 in s.store.table && AtRest(s, 0) && s.store.table[0] == Row(Failed, attempts, availableAt, None, 0, None)
  {
  }

  lemma TooEarly(s: System, attempts: nat, availableAt: Time)
    requires 0 in s.store.table && AtRest(s, 0) && s.store.table[0] == Row(Failed, attempts, availableAt, None, 0, None)
    requires (attempts == 1 && availableAt < 5_000) || (attempts == 2 && availableAt < 15_000)
    ensures !RestingOnTime(s)
  {
    assert Pow2(0) == 1 && Pow2(1) == 2;
    assert TotalDelay(1) == DelayMs(1) == 5_000 && TotalDelay(2) == DelayMs(1) + DelayMs(2) == 15_000;
    assert !OnTime(s.store.table[0]);
  }

  lemma BothRead(n: nat, whole: bool)
    requires n >= 2
    ensures var st := OneRow(Pending, 0, 0);
            && Moves(n, whole, Solo(st, READ), Select(1, ONE_EVENT), Both(st, READ, READ))
            && Moves(n, whole, Both(st, READ, READ), Start(0), Both(st, SENDING, READ))
            && Moves(n, whole, Both(st, SENDING, READ), Start(1), Both(st, SENDING, SENDING))
  {
    assert ONE_EVENT[1..] == [] && Begin(READ, 0) == SENDING;
  }

  lemma BothFail(n: nat, whole: bool)
    requires n >= 2
    ensures var st := OneRow(Pending, 0, 0);
            && Moves(n, whole, Both(st, SENDING, SENDING), Await(0, Error(false)), Both(st, FAILING, SENDING))
            && Moves(n, whole, Both(st, FAILING, SENDING), Await(1, Error(false)), Both(st, FAILING, FAILING))
  {
  }

  lemma FirstRecords(n: nat, whole: bool)
    requires n >= 2
    ensures Moves(n, whole, Both(OneRow(Pending, 0, 0), FAILING, FAILING), Await(0, Ok),
                  Both(OneRow(Failed, 1, 0), Local([], Delaying(0, 1)), FAILING))
    ensures Moves(n, whole, Both(OneRow(Failed, 1, 0), Local([], Delaying(0, 1)), FAILING), Await(0, Ok),
                  Both(OneRow(Failed, 1, 5_000), IDLE, FAILING))
  {
    assert Pow2(0) == 1 && DelayMs(1) == 5_000;
  }

  lemma SecondRecords(n: nat, whole: bool)
    requires n >= 2
    ensures Moves(n, whole, Both(OneRow(Failed, 1, 5_000), IDLE, FAILING), Await(1, Ok),
                  Both(OneRow(Failed, 2, 5_000), IDLE, Local([], Delaying(0, 2))))
    ensures Moves(n, whole, Both(OneRow(Failed, 2, 5_000), IDLE, Local([], Delaying(0, 2))), Await(1, Ok),
                  Both(OneRow(Failed, 2, 10_000), IDLE, IDLE))
  {
    assert Pow2(0) == 1 && Pow2(1) == 2 && DelayMs(2) == 10_000;
  }

  /** Two workers that select the same event and both fail count two failures while it waits for one delay only, even if
      each records its failure in one piece. */
  lemma TwoWorkersWaitLess(n: nat, whole: bool) returns (es: seq<Event>)
    requires n >= 2
    ensures LegalRun(Nothing(0), es) && AllowedRun(n, whole, Nothing(0), es) && !RestingOnTime(Run(Nothing(0), es))
  {
    BothRead(n, whole);
    BothFail(n, whole);
    FirstRecords(n, whole);
    SecondRecords(n, whole);
    var st, once, twice := OneRow(Pending, 0, 0), OneRow(Failed, 1, 0), OneRow(Failed, 2, 5_000);
    es := InsertAndRead(n, whole);
    hide Moves, Solo, Both, OneRow, Do, Enabled, Allowed;
    es := Then(n, whole, es, Solo(st, READ), Select(1, ONE_EVENT), Both(st, READ, READ));
    es := Then(n, whole, es, Both(st, READ, READ), Start(0), Both(st, SENDING, READ));
    es := Then(n, whole, es, Both(st, SENDING, READ), Start(1), Both(st, SENDING, SENDING));
    es := Then(n, whole, es, Both(st, SENDING, SENDING), Await(0, Error(false)), Both(st, FAILING, SENDING));
    es := Then(n, whole, es, Both(st, FAILING, SENDING), Await(1, Error(false)), Both(st, FAILING, FAILING));
    es := Then(n, whole, es, Both(st, FAILING, FAILING), Await(0, Ok), Both(once, Local([], Delaying(0, 1)), FAILING));
    es := Then(n, whole, es, Both(once, Local([], Delaying(0, 1)), FAILING), Await(0, Ok),
               Both(OneRow(Failed, 1, 5_000), IDLE, FAILING));
    es := Then(n, whole, es, Both(OneRow(Failed, 1, 5_000), IDLE, FAILING), Await(1, Ok),
               Both(twice, IDLE, Local([], Delaying(0, 2))));
    es := Then(n, whole, es, Both(twice, IDLE, Local([], Delaying(0, 2))), Await(1, Ok),
               Both(OneRow(Failed, 2, 10_000), IDLE, IDLE));
    TooEarly(Both(OneRow(Failed, 2, 10_000), IDLE, IDLE), 2, 10_000) by { BothRest(2, 10_000); }
  }
}
