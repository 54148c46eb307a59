/** The two transactional outboxes: rows inserted with the change they announce, workers that select, deliver and mark,
    with a failure possible at every statement, crashes, and a purge. An identity event has no time to live; an e-mail
    command has one. */
module Outbox {
  import opened Wrappers

  type Id = nat
  type Worker = nat
  type Time = int

  const MAX_TTL_MS := 7 * 86_400_000

  datatype Status = Pending | Failed | Published | Expired

  datatype Row = Row(status: Status, attempts: nat, availableAt: Time, publishedAt: Option<Time>, createdAt: Time,
                     ttl: Option<nat>)

  /** When an e-mail command stops being worth sending, as the job checks it. */
  function Deadline(createdAt: Time, ttl: nat): Time {
    createdAt + if ttl < MAX_TTL_MS then ttl else MAX_TTL_MS
  }

  function Pow2(n: nat): nat { if n == 0 then 1 else 2 * Pow2(n - 1) }

  /** Exponential backoff from five seconds, at most five minutes. */
  function DelayMs(attempts: nat): nat {
    var seconds := 5 * Pow2(if attempts == 0 then 0 else attempts - 1);
    1000 * if seconds < 300 then seconds else 300
  }

  /** What is sent for an event, when its sending was begun, and the instant a request to Media carries
      as its expiry. */
  datatype Request = Request(event: Id, expiresAt: Option<Time>, begunAt: Time)

  /** The expiry as the client of Media works it out. */
  function ExpiresAt(createdAt: Time, ttl: Option<nat>): Option<Time> {
    if ttl.None? then None
    else
      var week := createdAt + MAX_TTL_MS;
      var end := createdAt + ttl.value;
      Some(if week < end then week else end)
  }

  /** What a worker waits for. Recording a failure takes two statements. */
  datatype At =
    | Next
    | Sending(id: Id, request: Request)
    | MarkingPublished(id: Id)
    | MarkingExpired(id: Id)
    | Failing(id: Id)
    | Delaying(id: Id, attempts: nat)

  /** The selected rows as the worker read them. */
  datatype Item = Item(id: Id, createdAt: Time, ttl: Option<nat>)
  datatype Local = Local(todo: seq<Item>, at: At)
  const IDLE := Local([], Next)

  /** A failed statement or delivery may have taken effect all the same. */
  datatype Result = Ok | Error(applied: bool)

  /** The table, and the history around it: rows ever inserted, events delivered at least once (appended to the stream,
      or accepted by Media), commands marked expired, and the requests that delivered. */
  datatype Store = Store(
    table: map<Id, Row>,
    inserted: map<Id, Item>,
    delivered: set<Id>,
    expired: set<Id>,
    requests: set<Request>)

  datatype System = System(now: Time, store: Store, workers: map<Worker, Local>)

  /** An empty outbox. */
  function Nothing(now: Time): System { System(now, Store(map[], map[], {}, {}, {}), map[]) }

  function LocalOf(s: System, w: Worker): Local {
    if w in s.workers then s.workers[w] else IDLE
  }

  function SetRow(st: Store, id: Id, row: Row): Store {
    if id in st.table then st.(table := st.table[id := row]) else st
  }

  function RowOf(st: Store, id: Id): Row {
    if id in st.table then st.table[id] else Row(Pending, 0, 0, None, 0, None)
  }

  /** A worker turns to its next event: an e-mail command past its deadline is expired instead of sent. */
  function Begin(l: Local, now: Time): Local
    requires l.todo != []
  {
    var item := l.todo[0];
    var expired := item.ttl.Some? && Deadline(item.createdAt, item.ttl.value) <= now;
    Local(l.todo[1..],
          if expired then MarkingExpired(item.id)
          else Sending(item.id, Request(item.id, ExpiresAt(item.createdAt, item.ttl), now)))
  }

  function Resume(st: Store, l: Local, r: Result): Local {
    match l.at
    case Next => l
    case Sending(id, _) => l.(at := if r.Ok? then MarkingPublished(id) else Failing(id))
    case MarkingPublished(id) => l.(at := if r.Ok? then Next else Failing(id))
    case MarkingExpired(id) => l.(at := if r.Ok? then Next else Failing(id))
    // The count the first statement returns; 1 when the row is gone.
    case Failing(id) => if r.Ok? then l.(at := Delaying(id, if id in st.table then st.table[id].attempts + 1 else 1))
      else IDLE
    case Delaying(id, _) => if r.Ok? then l.(at := Next) else IDLE
  }

  function Effect(st: Store, at: At, r: Result, now: Time): Store {
    if r == Error(false) then st
    else match at
      case Next => st
      case Sending(id, q) => st.(delivered := st.delivered + {id}, requests := st.requests + {q})
      case MarkingPublished(id) => SetRow(st, id, RowOf(st, id).(status := Published, publishedAt := Some(now)))
      case MarkingExpired(id) =>
        SetRow(st, id, RowOf(st, id).(status := Expired)).(expired := if id in st.table then st.expired + {id}
                                                           else st.expired)
      case Failing(id) => SetRow(st, id, RowOf(st, id).(status := Failed, attempts := RowOf(st, id).attempts + 1))
      case Delaying(id, n) => SetRow(st, id, RowOf(st, id).(availableAt := now + DelayMs(n)))
  }

  predicate Due(st: Store, id: Id, now: Time) {
    id in st.table && (st.table[id].status == Pending || st.table[id].status == Failed)
      && st.table[id].availableAt <= now
  }

  predicate Selects(st: Store, items: seq<Item>, now: Time) {
    && (forall i :: 0 <= i < |items| ==>
          Due(st, items[i].id, now) && items[i].createdAt == st.table[items[i].id].createdAt
            && items[i].ttl == st.table[items[i].id].ttl)
    && (forall i, j :: 0 <= i < j < |items| ==> items[i].id != items[j].id)
  }

  function Stale(st: Store, staleBefore: Time): set<Id> {
    set id | id in st.table && st.table[id].status == Published
             && st.table[id].publishedAt.Some? && st.table[id].publishedAt.value < staleBefore
  }

  datatype Step =
    | Insert(id: Id, ttl: Option<nat>)
    | Select(worker: Worker, items: seq<Item>)
    | Start(worker: Worker)
    | Await(worker: Worker, result: Result)
    | Crash(worker: Worker)
    | Purge(retentionMs: nat)

  datatype Event = Event(now: Time, step: Step)

  predicate Enabled(s: System, e: Event) {
    && s.now <= e.now
    && match e.step
       case Insert(id, _) => id !in s.store.inserted && id !in s.store.table
       case Select(w, items) => LocalOf(s, w) == IDLE && Selects(s.store, items, e.now)
       case Start(w) => LocalOf(s, w).at == Next && LocalOf(s, w).todo != []
       case Await(w, _) => LocalOf(s, w).at != Next
       case Crash(_) => true
       case Purge(_) => true
  }

  function Do(s: System, e: Event): System
    requires Enabled(s, e)
  {
    var st := s.store;
    match e.step
    case Insert(id, ttl) =>
      System(e.now, st.(table := st.table[id := Row(Pending, 0, e.now, None, e.now, ttl)],
                        inserted := st.inserted[id := Item(id, e.now, ttl)]), s.workers)
    case Select(w, items) => System(e.now, st, s.workers[w := Local(items, Next)])
    case Start(w) => System(e.now, st, s.workers[w := Begin(LocalOf(s, w), e.now)])
    case Await(w, r) =>
      System(e.now, Effect(st, LocalOf(s, w).at, r, e.now), s.workers[w := Resume(st, LocalOf(s, w), r)])
    case Crash(w) => System(e.now, st, s.workers[w := IDLE])
    case Purge(retentionMs) => System(e.now, st.(table := st.table - Stale(st, e.now - retentionMs)), s.workers)
  }

  ghost predicate LegalRun(s: System, es: seq<Event>)
    decreases |es|
  {
    es == [] || (Enabled(s, es[0]) && LegalRun(Do(s, es[0]), es[1..]))
  }

  ghost function Run(s: System, es: seq<Event>): System
    requires LegalRun(s, es)
    decreases |es|
  {
    if es == [] then s else Run(Do(s, es[0]), es[1..])
  }

  // ---- At least once ----

  ghost predicate PastDeadline(st: Store, id: Id, now: Time) {
    id in st.inserted && st.inserted[id].ttl.Some?
      && Deadline(st.inserted[id].createdAt, st.inserted[id].ttl.value) <= now
  }

  /** The request carries the deadline its job checks, and was begun before it. */
  ghost predicate InTime(st: Store, q: Request) {
    && q.event in st.inserted
    && match st.inserted[q.event].ttl
       case None => q.expiresAt.None?
       case Some(ttl) =>
         q.expiresAt == Some(Deadline(st.inserted[q.event].createdAt, ttl)) && q.begunAt < q.expiresAt.value
  }

  ghost predicate Requested(st: Store, id: Id) { exists q :: q in st.requests && q.event == id }

  /** Whatever was delivered was requested in time. */
  ghost predicate RequestsOk(st: Store) {
    && (forall q :: q in st.requests ==> InTime(st, q) && q.event in st.delivered)
    && (forall id :: id in st.delivered ==> Requested(st, id))
  }

  ghost predicate TableOk(st: Store, now: Time) {
    && (forall id :: id in st.table ==>
          && id in st.inserted && st.inserted[id] == Item(id, st.table[id].createdAt, st.table[id].ttl)
          && (st.table[id].status == Published ==> id in st.delivered)
          && (st.table[id].status == Expired ==> id in st.expired))
    && (forall id :: id in st.inserted && id !in st.table ==> id in st.delivered)
    && (forall id :: id in st.expired ==> PastDeadline(st, id, now))
  }

  ghost predicate StoreOk(st: Store, now: Time) { TableOk(st, now) && RequestsOk(st) }

  ghost predicate LocalOk(st: Store, l: Local, now: Time) {
    && (forall i :: 0 <= i < |l.todo| ==> l.todo[i].id in st.inserted && st.inserted[l.todo[i].id] == l.todo[i])
    && (l.at != Next ==> l.at.id in st.inserted)
    && match l.at
       case Sending(id, q) => q.event == id && InTime(st, q)
       case MarkingPublished(id) => id in st.delivered
       case MarkingExpired(id) => PastDeadline(st, id, now)
       case _ => true
  }

  ghost predicate Inv(s: System) {
    StoreOk(s.store, s.now) && forall w :: w in s.workers ==> LocalOk(s.store, s.workers[w], s.now)
  }

  /** What other workers may rely on. */
  ghost predicate Grows(a: Store, b: Store) {
    a.delivered <= b.delivered && forall id :: id in a.inserted ==> id in b.inserted && b.inserted[id] == a.inserted[id]
  }

  lemma LocalOkGrows(a: Store, b: Store, l: Local, now: Time, later: Time)
    requires LocalOk(a, l, now) && Grows(a, b) && now <= later
    ensures LocalOk(b, l, later)
  {
  }

  lemma SentOk(st: Store, id: Id, q: Request)
    requires RequestsOk(st) && q.event == id && InTime(st, q)
    ensures RequestsOk(st.(delivered := st.delivered + {id}, requests := st.requests + {q}))
  {
    var t := st.(delivered := st.delivered + {id}, requests := st.requests + {q});
    forall d | d in t.delivered ensures Requested(t, d) {
      if d == id {
        assert q in t.requests;
      } else {
        assert Requested(st, d);
        var p :| p in st.requests && p.event == d;
        assert p in t.requests;
      }
    }
  }

  lemma RequestsStay(st: Store, t: Store)
    requires RequestsOk(st) && t.requests == st.requests && t.delivered == st.delivered
    requires forall id :: id in st.inserted ==> id in t.inserted && t.inserted[id] == st.inserted[id]
    ensures RequestsOk(t)
  {
    forall d | d in t.delivered ensures Requested(t, d) { assert Requested(st, d); }
    forall q | q in t.requests ensures InTime(t, q) { assert InTime(st, q); }
  }

  lemma EffectTableOk(st: Store, l: Local, r: Result, now: Time)
    requires TableOk(st, now) && LocalOk(st, l, now) && l.at != Next
    ensures TableOk(Effect(st, l.at, r, now), now)
  {
    hide DelayMs, InTime;
  }

  lemma EffectRequestsOk(st: Store, l: Local, r: Result, now: Time)
    requires RequestsOk(st) && LocalOk(st, l, now) && l.at != Next
    ensures RequestsOk(Effect(st, l.at, r, now))
  {
    hide RequestsOk, DelayMs, InTime;
    if l.at.Sending? {
      SentOk(st, l.at.id, l.at.request);
    } else {
      RequestsStay(st, Effect(st, l.at, r, now));
    }
  }

  lemma EffectGrows(st: Store, at: At, r: Result, now: Time)
    ensures Grows(st, Effect(st, at, r, now))
  {
  }

  lemma EffectLocalOk(st: Store, l: Local, r: Result, now: Time)
    requires LocalOk(st, l, now) && l.at != Next
    ensures LocalOk(Effect(st, l.at, r, now), Resume(st, l, r), now)
  {
    hide DelayMs;
  }

  lemma InsertTableOk(st: Store, t: Store, id: Id, row: Row, now: Time)
    requires TableOk(st, now) && id !in st.inserted && id !in st.table && row.status == Pending
    requires t.table == st.table[id := row] && t.inserted == st.inserted[id := Item(id, row.createdAt, row.ttl)]
    requires t.delivered == st.delivered && t.expired == st.expired
    ensures TableOk(t, now) && Grows(st, t)
  {
    hide Deadline;
    forall d | d in t.expired ensures PastDeadline(t, d, now) { assert PastDeadline(st, d, now); }
  }

  lemma InsertOk(st: Store, id: Id, row: Row, now: Time)
    requires StoreOk(st, now) && id !in st.inserted && id !in st.table && row.status == Pending
    ensures var t := st.(table := st.table[id := row], inserted := st.inserted[id := Item(id, row.createdAt, row.ttl)]);
            StoreOk(t, now) && Grows(st, t)
  {
    hide TableOk, RequestsOk;
    var t := st.(table := st.table[id := row], inserted := st.inserted[id := Item(id, row.createdAt, row.ttl)]);
    InsertTableOk(st, t, id, row, now);
    RequestsStay(st, t);
  }

  lemma PurgeOk(st: Store, staleBefore: Time, now: Time)
    requires StoreOk(st, now)
    ensures StoreOk(st.(table := st.table - Stale(st, staleBefore)), now)
  {
    RequestsStay(st, st.(table := st.table - Stale(st, staleBefore)));
    hide RequestsOk;
  }

  lemma AwaitStore(s: System, w: Worker, r: Result, now: Time)
    requires StoreOk(s.store, now) && LocalOk(s.store, LocalOf(s, w), now) && LocalOf(s, w).at != Next
    ensures var t := Effect(s.store, LocalOf(s, w).at, r, now);
            StoreOk(t, now) && Grows(s.store, t)
  {
    hide TableOk, RequestsOk, LocalOk, Effect;
    EffectTableOk(s.store, LocalOf(s, w), r, now);
    EffectRequestsOk(s.store, LocalOf(s, w), r, now);
    EffectGrows(s.store, LocalOf(s, w).at, r, now);
  }

  lemma DoStore(s: System, e: Event)
    requires Inv(s) && Enabled(s, e)
    ensures StoreOk(Do(s, e).store, e.now) && Grows(s.store, Do(s, e).store)
  {
    hide StoreOk, LocalOk, Effect, Resume, Begin, DelayMs;
    LaterOk(s.store, s.now, e.now);
    match e.step
    case Insert(id, ttl) => InsertOk(s.store, id, Row(Pending, 0, e.now, None, e.now, ttl), e.now);
    case Await(w, r) =>
      LocalOkGrows(s.store, s.store, LocalOf(s, w), s.now, e.now);
      AwaitStore(s, w, r, e.now);
    case Purge(retentionMs) => PurgeOk(s.store, e.now - retentionMs, e.now);
    case _ =>
  }

  lemma LaterOk(st: Store, now: Time, later: Time)
    requires StoreOk(st, now) && now <= later
    ensures StoreOk(st, later)
  {
    hide RequestsOk;
  }

  /** The worker that moves, and one that does not. */
  lemma DoLocal(s: System, e: Event, w: Worker)
    requires Inv(s) && Enabled(s, e) && w in Do(s, e).workers && Grows(s.store, Do(s, e).store)
    ensures LocalOk(Do(s, e).store, Do(s, e).workers[w], e.now)
  {
    hide DelayMs, Effect;
    if w in s.workers { LocalOkGrows(s.store, Do(s, e).store, s.workers[w], s.now, e.now); }
    if e.step.Await? && e.step.worker == w {
      LocalOkGrows(s.store, s.store, LocalOf(s, w), s.now, e.now);
      EffectLocalOk(s.store, LocalOf(s, w), e.step.result, e.now);
    }
  }

  lemma DoKeeps(s: System, e: Event)
    requires Inv(s) && Enabled(s, e)
    ensures Inv(Do(s, e)) && Grows(s.store, Do(s, e).store)
  {
    hide StoreOk, LocalOk, Grows, Effect, Resume;
    DoStore(s, e);
    forall w | w in Do(s, e).workers ensures LocalOk(Do(s, e).store, Do(s, e).workers[w], e.now) {
      DoLocal(s, e, w);
    }
  }

  /** With any number of workers, failures, crashes and purges: every event ever inserted was delivered at least once,
      or is still in the table to be tried again, or is an e-mail command marked expired no earlier
      than its deadline. */
  lemma {:induction false} AtLeastOnce(s: System, es: seq<Event>)
    requires Inv(s) && LegalRun(s, es)
    ensures var t := Run(s, es);
            && Inv(t) && Grows(s.store, t.store)
            && forall id :: id in t.store.inserted ==>
                 || id in t.store.delivered
                 || (id in t.store.table && (t.store.table[id].status == Pending || t.store.table[id].status == Failed))
                 || (id in t.store.expired && PastDeadline(t.store, id, t.now))
    decreases |es|
  {
    if es != [] {
      DoKeeps(s, es[0]);
      AtLeastOnce(Do(s, es[0]), es[1..]);
    }
  }

  /** An identity event never expires: it was appended to the stream or is still to be tried. */
  lemma IdentityAtLeastOnce(s: System, es: seq<Event>, id: Id)
    requires Inv(s) && LegalRun(s, es)
    requires id in Run(s, es).store.inserted && Run(s, es).store.inserted[id].ttl.None?
    ensures var st := Run(s, es).store;
            id in st.delivered || (id in st.table && (st.table[id].status == Pending || st.table[id].status == Failed))
  {
    AtLeastOnce(s, es);
  }

  /** Over any run, whatever was delivered went out in a request that carried the very deadline its job checked and was
      begun before it; an identity event carries none. */
  lemma RequestsInTime(s: System, es: seq<Event>)
    requires Inv(s) && LegalRun(s, es)
    ensures var st := Run(s, es).store;
            && (forall q :: q in st.requests ==> InTime(st, q))
            && (forall id :: id in st.delivered <==> Requested(st, id))
  {
    AtLeastOnce(s, es);
  }

  /** The deadline: as long after the creation as the time to live says, and a week at the most. */
  lemma DeadlineIs(createdAt: Time, ttl: nat)
    ensures Deadline(createdAt, ttl) == createdAt + if ttl <= 604_800_000 then ttl else 604_800_000
    ensures ExpiresAt(createdAt, Some(ttl)) == Some(Deadline(createdAt, ttl))
    ensures ExpiresAt(createdAt, None) == None
  {
  }

  /** The purge drops exactly the rows that were published before the retention. */
  lemma PurgeDrops(s: System, e: Event, id: Id)
    requires Enabled(s, e) && e.step.Purge?
    ensures var t := Do(s, e);
            && (id in t.store.table <==>
                 && id in s.store.table
                 && !(s.store.table[id].status == Published && s.store.table[id].publishedAt.Some?
                      && s.store.table[id].publishedAt.value < e.now - e.step.retentionMs))
            && (id in t.store.table ==> t.store.table[id] == s.store.table[id]) && t.workers == s.workers
  {
  }

  /** No event is forgotten while it is pending or failed: once its next try has come, any worker at rest may select it,
      and if it is not past its deadline and the two statements work, it is delivered and published. */
  lemma DueIsDelivered(s: System, w: Worker, id: Id, now: Time) returns (es: seq<Event>)
    requires Inv(s) && LocalOf(s, w) == IDLE && s.now <= now && id in s.store.table
    requires var row := s.store.table[id];
             && (row.status == Pending || row.status == Failed) && row.availableAt <= now
             && (row.ttl.Some? ==> Deadline(row.createdAt, row.ttl.value) > now)
    ensures LegalRun(s, es)
    ensures var t := Run(s, es);
            && id in t.store.delivered && id in t.store.table
            && t.store.table[id] == s.store.table[id].(status := Published, publishedAt := Some(now))
            && t.store.table == s.store.table[id := t.store.table[id]]
  {
    var row := s.store.table[id];
    var items := [Item(id, row.createdAt, row.ttl)];
    var e1, e2 := Event(now, Select(w, items)), Event(now, Start(w));
    var e3, e4 := Event(now, Await(w, Ok)), Event(now, Await(w, Ok));
    var s1 := Do(s, e1);
    var s2 := Do(s1, e2);
    var s3 := Do(s2, e3);
    var s4 := Do(s3, e4);
    hide Do, Enabled;
    es := [];
    es := Before(s3, e4, s4, es);
    es := Before(s2, e3, s4, es);
    es := Before(s1, e2, s4, es);
    es := Before(s, e1, s4, es);
  }

  lemma Before(s: System, e: Event, t: System, es: seq<Event>) returns (fs: seq<Event>)
    requires Enabled(s, e) && LegalRun(Do(s, e), es) && Run(Do(s, e), es) == t
    ensures LegalRun(s, fs) && Run(s, fs) == t
  {
    fs := [e] + es;
    assert fs[1..] == es;
  }

  lemma EmptyOutboxOk(now: Time)
    ensures Inv(Nothing(now))
  {
  }
}
