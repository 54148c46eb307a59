/** The order of the identity stream: what its consumers read, against the order in which the events were written. */
module IdentityStream {
  import opened Wrappers
  import opened Outbox

  /** The machine with two histories: events as they were written to the outbox, and as they were appended to the
      stream. */
  datatype Feed = Feed(sys: System, written: seq<Id>, stream: seq<Id>)

  function EmptyFeed(now: Time): Feed { Feed(Nothing(now), [], []) }

  function Written(e: Event): seq<Id> { if e.step.Insert? then [e.step.id] else [] }

  function Appended(s: System, e: Event): seq<Id> {
    match e.step
    case Await(w, r) => if LocalOf(s, w).at.Sending? && r != Error(false) then [LocalOf(s, w).at.id] else []
    case _ => []
  }

  function Move(f: Feed, e: Event): Feed
    requires Enabled(f.sys, e)
  {
    Feed(Do(f.sys, e), f.written + Written(e), f.stream + Appended(f.sys, e))
  }

  ghost function After(f: Feed, es: seq<Event>): Feed
    requires LegalRun(f.sys, es)
    decreases |es|
  {
    if es == [] then f else After(Move(f, es[0]), es[1..])
  }

  /** The table is read in order of creation, a batch at a time: no event that is due is passed over for
      a younger one. */
  ghost predicate PicksFirst(st: Store, items: seq<Item>, now: Time) {
    && (forall i, j :: 0 <= i < j < |items| ==> items[i].createdAt <= items[j].createdAt)
    && (forall id, i :: Due(st, id, now) && 0 <= i < |items| && st.table[id].createdAt < items[i].createdAt ==>
        Picked(items, id))
  }

  ghost predicate Picked(items: seq<Item>, id: Id) { exists j :: 0 <= j < |items| && items[j].id == id }

  /** Workers 0 to n - 1 run. Unless failures are postponed, no statement that sets the next try of an event takes
      effect; without ties no two events are written in one instant. */
  ghost predicate Allowed(n: nat, postpones: bool, ties: bool, s: System, e: Event) {
    match e.step
    case Insert(_, ttl) => ttl.None? && (!ties ==> forall id :: id in s.store.inserted ==>
                                         s.store.inserted[id].createdAt < e.now)
    case Select(w, items) => w < n && PicksFirst(s.store, items, e.now)
    case Start(w) => w < n
    case Await(w, r) => w < n && (!postpones && LocalOf(s, w).at.Delaying? ==> r == Error(false))
    case Crash(w) => w < n
    case Purge(_) => true
  }

  ghost predicate AllowedRun(n: nat, postpones: bool, ties: bool, s: System, es: seq<Event>)
    requires LegalRun(s, es)
    decreases |es|
  {
    es == [] || (Allowed(n, postpones, ties, s, es[0]) && AllowedRun(n, postpones, ties, Do(s, es[0]), es[1..]))
  }

  /** No event is appended after one that was written later. */
  ghost predicate InOrder(f: Feed) {
    forall i, j, a, b
      | 0 <= i < j < |f.stream| && 0 <= a < |f.written| && 0 <= b < |f.written|
      :: f.stream[i] == f.written[a] && f.stream[j] == f.written[b] ==> a <= b
  }

  /** The stream is the first k events written, each one or more times in a row. */
  ghost predicate Repeats(stream: seq<Id>, written: seq<Id>, k: nat) {
    if stream == [] then k == 0
    else
      && 0 < k <= |written| && stream[|stream| - 1] == written[k - 1]
      && (Repeats(stream[..|stream| - 1], written, k) || Repeats(stream[..|stream| - 1], written, k - 1))
  }

  lemma {:induction false} RepeatsGrows(stream: seq<Id>, written: seq<Id>, k: nat, more: seq<Id>)
    requires Repeats(stream, written, k)
    ensures Repeats(stream, written + more, k)
  {
    if stream != [] {
      var before := stream[..|stream| - 1];
      if Repeats(before, written, k) { RepeatsGrows(before, written, k, more); }
      else { RepeatsGrows(before, written, k - 1, more); }
    }
  }

  lemma RepeatsMore(stream: seq<Id>, written: seq<Id>, k: nat, p: nat)
    requires Repeats(stream, written, k) && p < |written| && (k == p || k == p + 1)
    ensures Repeats(stream + [written[p]], written, p + 1)
  {
    assert (stream + [written[p]])[..|stream|] == stream;
  }

  ghost predicate Distinct(written: seq<Id>) {
    forall i, j :: 0 <= i < j < |written| ==> written[i] != written[j]
  }

  lemma {:induction false} RepeatsPlaces(stream: seq<Id>, written: seq<Id>, k: nat, i: nat) returns (a: nat)
    requires Repeats(stream, written, k) && i < |stream|
    ensures a < k <= |written| && stream[i] == written[a] && (i == |stream| - 1 ==> a == k - 1)
    decreases |stream|
  {
    var before := stream[..|stream| - 1];
    if i == |stream| - 1 { a := k - 1; }
    else if Repeats(before, written, k) { a := RepeatsPlaces(before, written, k, i); }
    else { a := RepeatsPlaces(before, written, k - 1, i); }
  }

  lemma {:induction false} RepeatsRise(stream: seq<Id>, written: seq<Id>, k: nat, i: nat, j: nat, a: nat, b: nat)
    requires Repeats(stream, written, k) && Distinct(written) && i < j < |stream|
    requires a < |written| && b < |written| && stream[i] == written[a] && stream[j] == written[b]
    ensures a <= b
    decreases |stream|
  {
    var before := stream[..|stream| - 1];
    if j == |stream| - 1 {
      assert b == k - 1;
      var c := RepeatsPlaces(stream, written, k, i);
      assert c == a;
    } else if Repeats(before, written, k) {
      RepeatsRise(before, written, k, i, j, a, b);
    } else {
      RepeatsRise(before, written, k - 1, i, j, a, b);
    }
  }

  lemma RepeatsInOrder(f: Feed, k: nat)
    requires Repeats(f.stream, f.written, k) && Distinct(f.written)
    ensures InOrder(f)
  {
    forall i, j, a, b | 0 <= i < j < |f.stream| && 0 <= a < |f.written| && 0 <= b < |f.written|
                        && f.stream[i] == f.written[a] && f.stream[j] == f.written[b]
      ensures a <= b
    {
      RepeatsRise(f.stream, f.written, k, i, j, a, b);
    }
  }

  // ---- One worker that postpones nothing ----

  /** The event is published, or purged since. */
  ghost predicate Settled(st: Store, id: Id) { id in st.table ==> st.table[id].status == Published }

  /** The event is to be tried, now. */
  ghost predicate Ready(st: Store, id: Id) {
    && id in st.table && (st.table[id].status == Pending || st.table[id].status == Failed)
    && st.table[id].availableAt == st.table[id].createdAt
  }

  /** The order of writing is the order of creation. */
  ghost predicate Logged(s: System, written: seq<Id>) {
    && (forall i :: 0 <= i < |written| ==> written[i] in s.store.inserted)
    && (forall id :: id in s.store.inserted ==>
          id in written && s.store.inserted[id].ttl.None? && s.store.inserted[id].createdAt <= s.now)
    && (forall i, j :: 0 <= i < j < |written| ==>
          s.store.inserted[written[i]].createdAt < s.store.inserted[written[j]].createdAt)
  }

  /** The worker holds the events from p on, in the order written; it may be at the p-th. */
  ghost predicate Holds(written: seq<Id>, p: nat, l: Local) {
    var q := if l.at == Next then p else p + 1;
    && (l.at != Next ==> p < |written| && l.at.id == written[p] && !l.at.MarkingExpired?)
    && q + |l.todo| <= |written|
    && forall j :: 0 <= j < |l.todo| ==> l.todo[j].id == written[q + j]
  }

  /** A worker that failed to mark an event as published, though the statement took effect, still
      records the failure. */
  ghost predicate Recording(l: Local) { l.at.Failing? || l.at.Delaying? }

  /** The events before the p-th are settled, those after it ready. */
  ghost predicate RowsBut(st: Store, written: seq<Id>, p: nat) {
    && (forall i :: 0 <= i < p && i < |written| ==> Settled(st, written[i]))
    && (forall i :: p < i < |written| ==> Ready(st, written[i]))
  }

  ghost predicate RowAt(st: Store, l: Local, id: Id, appended: bool) {
    || Ready(st, id)
    || (Recording(l) && appended && Settled(st, id)
        && (id in st.table ==> st.table[id].availableAt == st.table[id].createdAt))
  }

  /** The worker has settled the first p events and the stream has got to the k-th. */
  ghost predicate Tidy(f: Feed, p: nat, k: nat) {
    var st, l := f.sys.store, LocalOf(f.sys, 0);
    && p <= |f.written| && p <= k <= p + 1
    && (forall v :: v in f.sys.workers && v != 0 ==> f.sys.workers[v] == IDLE)
    && (l.at.MarkingPublished? ==> k == p + 1)
    && Logged(f.sys, f.written) && Holds(f.written, p, l) && Repeats(f.stream, f.written, k)
    && RowsBut(st, f.written, p)
    && (p < |f.written| ==> RowAt(st, l, f.written[p], k == p + 1))
  }

  lemma LoggedDistinct(s: System, written: seq<Id>)
    requires Logged(s, written)
    ensures Distinct(written)
  {
  }

  lemma LoggedLater(s: System, t: System, written: seq<Id>)
    requires Logged(s, written) && t.store.inserted == s.store.inserted && t.now >= s.now
    ensures Logged(t, written)
  {
  }

  /** One more row at the end. */
  lemma InsertRows(st: Store, t: Store, written: seq<Id>, p: nat, id: Id, row: Row)
    requires t.table == st.table[id := row]
    requires RowsBut(st, written, p) && p <= |written| && id !in written && row.status == Pending
             && row.availableAt == row.createdAt
    ensures RowsBut(t, written + [id], p) && Ready(t, id)
  {
  }

  lemma InsertLogged(s: System, written: seq<Id>, e: Event)
    requires Logged(s, written) && Enabled(s, e) && e.step.Insert? && Allowed(1, false, false, s, e)
    ensures Logged(Do(s, e), written + [e.step.id]) && e.step.id !in written
  {
  }

  lemma InsertHolds(written: seq<Id>, p: nat, l: Local, id: Id)
    requires Holds(written, p, l)
    ensures Holds(written + [id], p, l)
  {
  }

  lemma InsertTidy(f: Feed, p: nat, k: nat, e: Event)
    requires Tidy(f, p, k) && Enabled(f.sys, e) && e.step.Insert? && Allowed(1, false, false, f.sys, e)
    ensures Tidy(Move(f, e), p, k)
  {
    hide Repeats, Logged, Holds, RowsBut, Allowed;
    var id := e.step.id;
    InsertLogged(f.sys, f.written, e);
    InsertHolds(f.written, p, LocalOf(f.sys, 0), id);
    InsertRows(f.sys.store, Do(f.sys, e).store, f.written, p, id, Row(Pending, 0, e.now, None, e.now, e.step.ttl));
    RepeatsGrows(f.stream, f.written, k, [id]);
    assert f.stream + [] == f.stream;
    var st, t, l := f.sys.store, Move(f, e).sys.store, LocalOf(f.sys, 0);
    assert LocalOf(Move(f, e).sys, 0) == l && Move(f, e).written == f.written + [id] && Move(f, e).stream == f.stream;
    if p < |f.written| {
      assert Move(f, e).written[p] == f.written[p];
      assert f.written[p] in t.table <==> f.written[p] in st.table;
      assert RowAt(t, l, f.written[p], k == p + 1);
    } else {
      assert Move(f, e).written[p] == id;
    }
  }

  lemma ReadyIsDue(s: System, written: seq<Id>, p: nat, i: nat, now: Time)
    requires StoreOk(s.store, s.now) && Logged(s, written) && s.now <= now && p <= i < |written|
    requires RowsBut(s.store, written, p) && Ready(s.store, written[p])
    ensures Due(s.store, written[i], now)
    ensures written[i] in s.store.inserted && s.store.table[written[i]].createdAt
            == s.store.inserted[written[i]].createdAt
  {
    assert Ready(s.store, written[i]);
  }

  lemma DuePlace(s: System, written: seq<Id>, p: nat, id: Id, now: Time) returns (x: nat)
    requires StoreOk(s.store, s.now) && Logged(s, written) && RowsBut(s.store, written, p) && Due(s.store, id, now)
    ensures p <= x < |written| && written[x] == id
  {
    assert id in s.store.inserted;
    x :| 0 <= x < |written| && written[x] == id;
  }

  /** In the first batch of a worker that holds nothing, the j-th event is the j-th that is ready. */
  lemma {:induction false} BatchIs(s: System, written: seq<Id>, p: nat, items: seq<Item>, now: Time, j: nat)
    requires StoreOk(s.store, s.now) && Logged(s, written) && s.now <= now && j < |items|
    requires p <= |written| && RowsBut(s.store, written, p) && (p < |written| ==> Ready(s.store, written[p]))
    requires Selects(s.store, items, now) && PicksFirst(s.store, items, now)
    ensures p + j < |written| && items[j].id == written[p + j]
    decreases j
  {
    hide StoreOk, Logged, RowsBut, Ready, Due;
    assert Due(s.store, items[j].id, now);
    var x := DuePlace(s, written, p, items[j].id, now);
    ReadyIsDue(s, written, p, x, now);
    forall h: nat | h < j ensures p + h < |written| && items[h].id == written[p + h] {
      BatchIs(s, written, p, items, now, h);
    }
    if x < p + j { NotTwice(s.store, written, p, items, now, j, x); }
    if x > p + j { NotPassedOver(s, written, p, items, now, j, x); }
  }

  lemma NotTwice(st: Store, written: seq<Id>, p: nat, items: seq<Item>, now: Time, j: nat, x: nat)
    requires Selects(st, items, now) && p <= x && j < |items|
    requires forall h: nat | h < j :: p + h < |written| && items[h].id == written[p + h]
    requires x < |written| && written[x] == items[j].id
    ensures x >= p + j
  {
    var h := if x < p + j then x - p else 0;
    assert h < j ==> items[h].id == written[p + h];
  }

  /** An older event that is due was picked earlier in the batch. */
  lemma PickedBefore(st: Store, items: seq<Item>, now: Time, id: Id, j: nat) returns (h: nat)
    requires Selects(st, items, now) && PicksFirst(st, items, now) && j < |items|
    requires Due(st, id, now) && st.table[id].createdAt < items[j].createdAt
    ensures h < j && items[h].id == id
  {
    hide Due;
    assert Picked(items, id);
    h :| h < |items| && items[h].id == id;
  }

  lemma NotPassedOver(s: System, written: seq<Id>, p: nat, items: seq<Item>, now: Time, j: nat, x: nat)
    requires StoreOk(s.store, s.now) && Logged(s, written) && s.now <= now && j < |items|
    requires p + j < |written| && RowsBut(s.store, written, p) && Ready(s.store, written[p])
    requires Selects(s.store, items, now) && PicksFirst(s.store, items, now)
    requires forall h: nat | h < j :: items[h].id == written[p + h]
    requires x < |written| && written[x] == items[j].id
    ensures x <= p + j
  {
    if x > p + j {
      ReadyIsDue(s, written, p, x, now);
      ReadyIsDue(s, written, p, p + j, now);
      var h := PickedBefore(s.store, items, now, written[p + j], j);
    }
  }

  lemma BatchHolds(s: System, written: seq<Id>, p: nat, items: seq<Item>, now: Time)
    requires StoreOk(s.store, s.now) && Logged(s, written) && s.now <= now
    requires p <= |written| && RowsBut(s.store, written, p) && (p < |written| ==> Ready(s.store, written[p]))
    requires Selects(s.store, items, now) && PicksFirst(s.store, items, now)
    ensures Holds(written, p, Local(items, Next))
  {
    hide StoreOk, Logged, RowsBut, Selects, PicksFirst, Ready;
    forall j | 0 <= j < |items| ensures p + j < |written| && items[j].id == written[p + j] {
      BatchIs(s, written, p, items, now, j);
    }
    if |items| > 0 { assert items[|items| - 1].id == written[p + (|items| - 1)]; }
  }

  lemma SelectTidy(f: Feed, p: nat, k: nat, e: Event)
    requires Inv(f.sys) && Tidy(f, p, k) && Enabled(f.sys, e) && e.step.Select? && Allowed(1, false, false, f.sys, e)
    ensures Tidy(Move(f, e), p, k)
  {
    hide Repeats, StoreOk, Selects, PicksFirst, RowsBut, Logged, Holds, Ready, Settled;
    BatchHolds(f.sys, f.written, p, e.step.items, e.now);
    LoggedLater(f.sys, Do(f.sys, e), f.written);
    assert f.stream + [] == f.stream && f.written + [] == f.written;
  }

  lemma StartHolds(st: Store, written: seq<Id>, p: nat, l: Local, now: Time)
    requires Holds(written, p, l) && l.at == Next && l.todo != [] && l.todo[0].ttl.None?
    ensures Holds(written, p, Begin(l, now)) && Begin(l, now).at.Sending?
  {
  }

  lemma StartTidy(f: Feed, p: nat, k: nat, e: Event)
    requires Inv(f.sys) && Tidy(f, p, k) && Enabled(f.sys, e) && e.step.Start? && Allowed(1, false, false, f.sys, e)
    ensures Tidy(Move(f, e), p, k)
  {
    var l := LocalOf(f.sys, 0);
    assert LocalOk(f.sys.store, l, f.sys.now);
    assert l.todo[0].ttl.None?;
    hide Repeats, RowsBut, Logged, Holds, Inv, LocalOk;
    StartHolds(f.sys.store, f.written, p, l, e.now);
    LoggedLater(f.sys, Do(f.sys, e), f.written);
    assert f.stream + [] == f.stream && f.written + [] == f.written;
  }

  /** The p-th event turns out settled. */
  lemma RowsOn(st: Store, written: seq<Id>, p: nat)
    requires p < |written| && RowsBut(st, written, p) && Settled(st, written[p])
    ensures RowsBut(st, written, p + 1) && (p + 1 < |written| ==> Ready(st, written[p + 1]))
  {
  }

  /** The worker stops where it is. */
  lemma StopTidy(f: Feed, g: Feed, p: nat, k: nat) returns (q: nat)
    requires Tidy(f, p, k) && g.written == f.written && g.stream == f.stream && g.sys.store == f.sys.store
    requires g.sys.now >= f.sys.now && g.sys.workers == f.sys.workers[0 := IDLE]
    ensures Tidy(g, q, k)
  {
    hide Repeats, Logged, RowsBut, Settled, Ready;
    LoggedLater(f.sys, g.sys, f.written);
    q := p;
    if p < |f.written| && !Ready(f.sys.store, f.written[p]) {
      RowsOn(f.sys.store, f.written, p);
      q := p + 1;
    }
  }

  lemma PurgeRows(st: Store, written: seq<Id>, p: nat, staleBefore: Time)
    requires RowsBut(st, written, p)
    ensures RowsBut(st.(table := st.table - Stale(st, staleBefore)), written, p)
  {
  }

  lemma PurgeTidy(f: Feed, p: nat, k: nat, e: Event)
    requires Tidy(f, p, k) && Enabled(f.sys, e) && e.step.Purge?
    ensures Tidy(Move(f, e), p, k)
  {
    hide Repeats, Logged, RowsBut, Holds;
    PurgeRows(f.sys.store, f.written, p, e.now - e.step.retentionMs);
    LoggedLater(f.sys, Do(f.sys, e), f.written);
    assert f.stream + [] == f.stream && f.written + [] == f.written;
  }

  // ---- Awaits ----

  /** A statement about one event leaves the rows of the others alone. */
  lemma AwaitRows(st: Store, written: seq<Id>, p: nat, at: At, r: Result, now: Time)
    requires RowsBut(st, written, p) && Distinct(written) && p < |written| && at != Next && at.id == written[p]
    ensures RowsBut(Effect(st, at, r, now), written, p)
  {
    var t := Effect(st, at, r, now);
    forall id | id != at.id ensures id in t.table <==> id in st.table {}
    forall id | id != at.id && id in st.table ensures t.table[id] == st.table[id] {}
    hide Effect;
  }

  lemma AwaitHolds(st: Store, written: seq<Id>, p: nat, l: Local, r: Result)
    requires Holds(written, p, l) && l.at != Next
    ensures p < |written| && l.at.id == written[p] && !l.at.MarkingExpired?
    ensures var m := Resume(st, l, r);
            && (m.at != Next || m == IDLE ==> Holds(written, p, m))
            && (m.at == Next ==> Holds(written, p + 1, m))
            && (m.at.MarkingPublished? ==> l.at.Sending? && r == Ok)
  {
  }

  /** What an await does to the event itself: it is settled, or the worker may leave it as it is. */
  lemma AwaitRow(st: Store, l: Local, r: Result, now: Time, appended: bool)
    requires l.at != Next && !l.at.MarkingExpired? && RowAt(st, l, l.at.id, appended)
             && (l.at.MarkingPublished? ==> appended)
    requires l.at.Delaying? ==> r == Error(false)
    ensures var t, m := Effect(st, l.at, r, now), Resume(st, l, r);
            if RowAt(t, m, l.at.id, appended) then m == IDLE || m.at != Next
            else m.at == Next && Settled(t, l.at.id) && appended
  {
  }

  lemma InsertedStays(st: Store, at: At, r: Result, now: Time)
    ensures Effect(st, at, r, now).inserted == st.inserted
  {
  }

  /** Whether the await is the one that appends. */
  ghost predicate Appends(at: At, r: Result) { at.Sending? && r != Error(false) }

  lemma AppendedRepeats(f: Feed, p: nat, k: nat, r: Result) returns (m: nat)
    requires Tidy(f, p, k) && LocalOf(f.sys, 0).at != Next
    ensures m == if Appends(LocalOf(f.sys, 0).at, r) then p + 1 else k
    ensures p < |f.written|
    ensures Repeats(f.stream + (if Appends(LocalOf(f.sys, 0).at, r) then [f.written[p]] else []), f.written, m)
  {
    hide Repeats, RowsBut, Logged;
    if Appends(LocalOf(f.sys, 0).at, r) {
      RepeatsMore(f.stream, f.written, k, p);
      m := p + 1;
    } else {
      assert f.stream + [] == f.stream;
      m := k;
    }
  }

  lemma AwaitMoves(f: Feed, p: nat, e: Event)
    requires Enabled(f.sys, e) && e.step.Await? && e.step.worker == 0
    requires p < |f.written| && LocalOf(f.sys, 0).at.id == f.written[p]
    ensures var l, g := LocalOf(f.sys, 0), Move(f, e);
            && g.written == f.written && g.sys.now == e.now >= f.sys.now
            && g.stream == f.stream + (if Appends(l.at, e.step.result) then [f.written[p]] else [])
            && g.sys.store == Effect(f.sys.store, l.at, e.step.result, e.now)
            && g.sys.workers == f.sys.workers[0 := Resume(f.sys.store, l, e.step.result)]
  {
    hide Effect, Resume;
    assert f.written + [] == f.written;
  }

  lemma AwaitTidy(f: Feed, p: nat, k: nat, e: Event) returns (q: nat, m: nat)
    requires Tidy(f, p, k) && Enabled(f.sys, e) && e.step.Await? && Allowed(1, false, false, f.sys, e)
    ensures Tidy(Move(f, e), q, m)
  {
    hide Repeats, Logged, RowsBut, RowAt, Settled, Ready, Effect, Resume, Holds, Distinct, Move;
    var st, l, r, g := f.sys.store, LocalOf(f.sys, 0), e.step.result, Move(f, e);
    m := AppendedRepeats(f, p, k, r);
    LoggedDistinct(f.sys, f.written);
    AwaitHolds(st, f.written, p, l, r);
    AwaitMoves(f, p, e);
    AwaitRows(st, f.written, p, l.at, r, e.now);
    SentRow(st, l, k == p + 1, m == p + 1);
    AwaitRow(st, l, r, e.now, m == p + 1);
    InsertedStays(st, l.at, r, e.now);
    LoggedLater(f.sys, g.sys, f.written);
    assert LocalOf(g.sys, 0) == Resume(st, l, r);
    q := p;
    if !RowAt(g.sys.store, LocalOf(g.sys, 0), f.written[p], m == p + 1) {
      RowsOn(g.sys.store, f.written, p);
      q := p + 1;
      if q < |f.written| { ReadyAt(g.sys.store, LocalOf(g.sys, 0), f.written[q], m == q + 1); }
    }
  }

  lemma ReadyAt(st: Store, l: Local, id: Id, appended: bool)
    requires Ready(st, id)
    ensures RowAt(st, l, id, appended)
  {
  }

  lemma SentRow(st: Store, l: Local, was: bool, appended: bool)
    requires l.at != Next && RowAt(st, l, l.at.id, was) && (was ==> appended)
    ensures RowAt(st, l, l.at.id, appended)
  {
  }

  lemma MoveTidy(f: Feed, p: nat, k: nat, e: Event) returns (q: nat, m: nat)
    requires Inv(f.sys) && Tidy(f, p, k) && Enabled(f.sys, e) && Allowed(1, false, false, f.sys, e)
    ensures Tidy(Move(f, e), q, m)
  {
    q, m := p, k;
    match e.step {
      case Insert(_, _) => InsertTidy(f, p, k, e);
      case Select(_, _) => SelectTidy(f, p, k, e);
      case Start(_) => StartTidy(f, p, k, e);
      case Await(_, _) => q, m := AwaitTidy(f, p, k, e);
      case Crash(_) =>
        hide Tidy;
        assert f.written + [] == f.written && f.stream + [] == f.stream;
        q := StopTidy(f, Move(f, e), p, k);
      case Purge(_) => PurgeTidy(f, p, k, e);
    }
  }

  lemma StartTidied(now: Time)
    ensures Inv(EmptyFeed(now).sys) && Tidy(EmptyFeed(now), 0, 0)
  {
    EmptyOutboxOk(now);
  }

  lemma {:induction false} RunTidy(f: Feed, p: nat, k: nat, es: seq<Event>) returns (q: nat, m: nat)
    requires Inv(f.sys) && Tidy(f, p, k) && LegalRun(f.sys, es) && AllowedRun(1, false, false, f.sys, es)
    ensures Tidy(After(f, es), q, m)
    decreases |es|
  {
    q, m := p, k;
    if es != [] {
      hide Inv, Tidy, Allowed, Enabled, Do;
      q, m := MoveTidy(f, p, k, es[0]);
      DoKeeps(f.sys, es[0]);
      q, m := RunTidy(Move(f, es[0]), q, m, es[1..]);
    }
  }

  /** Every event was published. */
  ghost predicate Drained(st: Store) { forall id :: id in st.table ==> st.table[id].status == Published }

  lemma TidyDrained(f: Feed, p: nat, k: nat)
    requires Tidy(f, p, k) && Drained(f.sys.store)
    ensures k == |f.written|
  {
    if p < |f.written| {
      assert !Ready(f.sys.store, f.written[p]);
      assert p + 1 < |f.written| ==> Ready(f.sys.store, f.written[p + 1]);
    }
  }

  /** With one worker that postpones nothing and no ties, whatever fails and wherever it crashes: at any time the stream
      is the first k events written, each one or more times in a row; and all of them once everything is published. */
  lemma StreamRepeatsLog(now: Time, es: seq<Event>) returns (k: nat)
    requires LegalRun(EmptyFeed(now).sys, es) && AllowedRun(1, false, false, EmptyFeed(now).sys, es)
    ensures var f := After(EmptyFeed(now), es);
            && Repeats(f.stream, f.written, k) && Distinct(f.written)
            && (Drained(f.sys.store) ==> k == |f.written|)
  {
    StartTidied(now);
    var p;
    p, k := RunTidy(EmptyFeed(now), 0, 0, es);
    var f := After(EmptyFeed(now), es);
    LoggedDistinct(f.sys, f.written);
    if Drained(f.sys.store) { TidyDrained(f, p, k); }
  }

  // ---- Exactly when the order is kept ----

  ghost predicate OrderHolds(n: nat, postpones: bool, ties: bool) {
    forall now, es :: LegalRun(EmptyFeed(now).sys, es) && AllowedRun(n, postpones, ties, EmptyFeed(now).sys, es) ==>
      InOrder(After(EmptyFeed(now), es))
  }

  lemma {:induction false} NoWorker(f: Feed, postpones: bool, ties: bool, es: seq<Event>)
    requires LegalRun(f.sys, es) && AllowedRun(0, postpones, ties, f.sys, es)
    ensures After(f, es).stream == f.stream
    decreases |es|
  {
    if es != [] {
      assert f.stream + [] == f.stream;
      NoWorker(Move(f, es[0]), postpones, ties, es[1..]);
    }
  }

  /** From an empty outbox, over every run of n workers that read the table in order of creation, no event is appended
      to the stream after a later one, exactly when there is no worker, or one, no failure is postponed and no two
      events are written in one instant. */
  lemma OrderIff(n: nat, postpones: bool, ties: bool)
    ensures OrderHolds(n, postpones, ties) <==> n == 0 || (n == 1 && !postpones && !ties)
  {
    hide LegalRun, AllowedRun, After, InOrder, Repeats;
    if n == 0 {
      forall now, es | LegalRun(EmptyFeed(now).sys, es) && AllowedRun(n, postpones, ties, EmptyFeed(now).sys, es)
        ensures InOrder(After(EmptyFeed(now), es))
      {
        NoWorker(EmptyFeed(now), postpones, ties, es);
        EmptyInOrder(After(EmptyFeed(now), es));
      }
    } else if n == 1 && !postpones && !ties {
      forall now, es | LegalRun(EmptyFeed(now).sys, es) && AllowedRun(n, postpones, ties, EmptyFeed(now).sys, es)
        ensures InOrder(After(EmptyFeed(now), es))
      {
        var k := StreamRepeatsLog(now, es);
        RepeatsInOrder(After(EmptyFeed(now), es), k);
      }
    } else {
      var es;
      if postpones { es := Overtaken(n, ties); }
      else if ties { es := Tied(n, postpones); }
      else { es := Overlapping(n, postpones, ties); }
      assert LegalRun(EmptyFeed(0).sys, es);
    }
  }

  lemma EmptyInOrder(f: Feed)
    requires f.stream == []
    ensures InOrder(f)
  {
  }

  // ---- The runs that break it ----

  ghost predicate Reaches(n: nat, postpones: bool, ties: bool, es: seq<Event>, f: Feed) {
    LegalRun(EmptyFeed(0).sys, es) && AllowedRun(n, postpones, ties, EmptyFeed(0).sys, es)
      && After(EmptyFeed(0), es) == f
  }

  ghost predicate Moves(n: nat, postpones: bool, ties: bool, f: Feed, e: Event, g: Feed) {
    Enabled(f.sys, e) && Allowed(n, postpones, ties, f.sys, e) && Move(f, e) == g
  }

  lemma {:induction false} OneMore(n: nat, postpones: bool, ties: bool, f: Feed, es: seq<Event>, e: Event)
    requires LegalRun(f.sys, es) && AllowedRun(n, postpones, ties, f.sys, es)
    requires Enabled(After(f, es).sys, e) && Allowed(n, postpones, ties, After(f, es).sys, e)
    ensures LegalRun(f.sys, es + [e]) && AllowedRun(n, postpones, ties, f.sys, es + [e])
    ensures After(f, es + [e]) == Move(After(f, es), e)
    decreases |es|
  {
    if es == [] {
      assert es + [e] == [e];
    } else {
      OneMore(n, postpones, ties, Move(f, es[0]), es[1..], e);
      assert (es + [e])[1..] == es[1..] + [e];
    }
  }

  lemma Then(n: nat, postpones: bool, ties: bool, es: seq<Event>, f: Feed, e: Event, g: Feed) returns (fs: seq<Event>)
    requires Reaches(n, postpones, ties, es, f) && Moves(n, postpones, ties, f, e, g)
    ensures Reaches(n, postpones, ties, fs, g)
  {
    OneMore(n, postpones, ties, EmptyFeed(0), es, e);
    fs := es + [e];
  }

  const FIRST := Item(0, 0, None)

  /** A new event. */
  function New(at: Time): Row { Row(Pending, 0, at, None, at, None) }

  /** Two events: their rows, what the workers are doing, what was sent, and the stream. */
  ghost function Two(now: Time, a: Row, b: Row, ws: map<Worker, Local>, ids: set<Id>, sent: set<Request>,
                     stream: seq<Id>): Feed {
    var inserted := map[0 := FIRST, 1 := Item(1, b.createdAt, None)];
    Feed(System(now, Store(map[0 := a, 1 := b], inserted, ids, {}, sent), ws), [0, 1], stream)
  }

  lemma TwoWritten(n: nat, postpones: bool, ties: bool, at: Time) returns (es: seq<Event>)
    requires at > 0 || (at == 0 && ties)
    ensures Reaches(n, postpones, ties, es, Two(at, New(0), New(at), map[], {}, {}, []))
  {
    var inserted := Store(map[0 := New(0)], map[0 := FIRST], {}, {}, {});
    var one := Feed(System(0, inserted, map[]), [0], []);
    assert [] + [0] == [0] && [0] + [1] == [0, 1];
    assert Moves(n, postpones, ties, EmptyFeed(0), Event(0, Insert(0, None)), one);
    assert Moves(n, postpones, ties, one, Event(at, Insert(1, None)), Two(at, New(0), New(at), map[], {}, {}, []));
    es := [];
    assert Reaches(n, postpones, ties, es, EmptyFeed(0));
    hide Reaches, Moves;
    es := Then(n, postpones, ties, es, EmptyFeed(0), Event(0, Insert(0, None)), one);
    es := Then(n, postpones, ties, es, one, Event(at, Insert(1, None)), Two(at, New(0), New(at), map[], {}, {}, []));
  }

  /** A worker that holds these events takes the first of them, and the send has an effect. */
  lemma TakeAndSend(n: nat, postpones: bool, ties: bool, es: seq<Event>, w: Worker, items: seq<Item>,
                    now: Time, a: Row, b: Row, ws: map<Worker, Local>, ids: set<Id>, sent: set<Request>,
                        stream: seq<Id>)
    returns (fs: seq<Event>)
    requires w < n && items != [] && items[0].ttl.None? && w in ws && ws[w] == Local(items, Next)
    requires Reaches(n, postpones, ties, es, Two(now, a, b, ws, ids, sent, stream))
    ensures var id := items[0].id;
            Reaches(n, postpones, ties, fs, Two(now, a, b, ws[w := Local(items[1..], MarkingPublished(id))],
                    ids + {id}, sent + {Request(id, None, now)}, stream + [id]))
  {
    var id := items[0].id;
    var q := Request(id, None, now);
    var f := Two(now, a, b, ws, ids, sent, stream);
    var g := Two(now, a, b, ws[w := Local(items[1..], Sending(id, q))], ids, sent, stream);
    var h := Two(now, a, b, ws[w := Local(items[1..], MarkingPublished(id))], ids + {id}, sent + {q}, stream + [id]);
    assert stream + [] == stream && [0, 1] + [] == [0, 1];
    assert Moves(n, postpones, ties, f, Event(now, Outbox.Start(w)), g);
    assert ws[w := Local(items[1..], Sending(id, q))][w := Local(items[1..], MarkingPublished(id))]
        == ws[w := Local(items[1..], MarkingPublished(id))];
    assert Moves(n, postpones, ties, g, Event(now, Await(w, Ok)), h);
    hide Reaches, Moves;
    fs := Then(n, postpones, ties, es, f, Event(now, Outbox.Start(w)), g);
    fs := Then(n, postpones, ties, fs, g, Event(now, Await(w, Ok)), h);
  }

  /** The sent event is marked. */
  lemma MarkSent(n: nat, postpones: bool, ties: bool, es: seq<Event>, w: Worker, todo: seq<Item>, id: Id,
                 now: Time, a: Row, b: Row, ws: map<Worker, Local>, ids: set<Id>, sent: set<Request>, stream: seq<Id>)
    returns (fs: seq<Event>)
    requires w < n && w in ws && ws[w] == Local(todo, MarkingPublished(id)) && (id == 0 || id == 1)
    requires Reaches(n, postpones, ties, es, Two(now, a, b, ws, ids, sent, stream))
    ensures Reaches(n, postpones, ties, fs,
                    Two(now, if id == 0 then Marked(a, now) else a, if id == 1 then Marked(b, now) else b,
                        ws[w := Local(todo, Next)], ids, sent, stream))
  {
    var f := Two(now, a, b, ws, ids, sent, stream);
    var g := Two(now, if id == 0 then Marked(a, now) else a, if id == 1 then Marked(b, now) else b,
                 ws[w := Local(todo, Next)], ids, sent, stream);
    assert stream + [] == stream && [0, 1] + [] == [0, 1];
    assert map[0 := a, 1 := b][id := Marked(if id == 0 then a else b, now)] == g.sys.store.table;
    assert Moves(n, postpones, ties, f, Event(now, Await(w, Ok)), g);
    hide Reaches, Moves;
    fs := Then(n, postpones, ties, es, f, Event(now, Await(w, Ok)), g);
  }

  function Marked(row: Row, now: Time): Row { row.(status := Published, publishedAt := Some(now)) }

  /** Two events of one instant, read the other way round. */
  lemma Tied(n: nat, postpones: bool) returns (es: seq<Event>)
    requires n >= 1
    ensures LegalRun(EmptyFeed(0).sys, es) && AllowedRun(n, postpones, true, EmptyFeed(0).sys, es)
    ensures !InOrder(After(EmptyFeed(0), es))
  {
    var items := [Item(1, 0, None), FIRST];
    var a, b := New(0), New(0);
    var read := Two(0, a, b, map[0 := Local(items, Next)], {}, {}, []);
    es := TwoWritten(n, postpones, true, 0);
    SelectTied(n, postpones, items, read);
    hide Reaches, Moves, Two;
    es := Then(n, postpones, true, es, Two(0, a, b, map[], {}, {}, []), Event(0, Select(0, items)), read);
    es := TakeAndSend(n, postpones, true, es, 0, items, 0, a, b, map[0 := Local(items, Next)], {}, {}, []);
    var ws := map[0 := Local(items, Next)][0 := Local(items[1..], MarkingPublished(1))];
    var ids, sent, stream := {} + {1}, {} + {Request(1, None, 0)}, [] + [1];
    es := MarkSent(n, postpones, true, es, 0, items[1..], 1, 0, a, b, ws, ids, sent, stream);
    es := TakeAndSend(n, postpones, true, es, 0, items[1..], 0, a, Marked(b, 0), ws[0 := Local(items[1..], Next)], ids,
                      sent, stream);
    ws := ws[0 := Local(items[1..], Next)][0 := Local(items[1..][1..], MarkingPublished(0))];
    OutOfOrder(n, postpones, true, es, 0, a, Marked(b, 0), ws, ids + {0}, sent + {Request(0, None, 0)}, stream + [0],
               0);
  }

  lemma SelectTied(n: nat, postpones: bool, items: seq<Item>, read: Feed)
    requires n >= 1 && items == [Item(1, 0, None), FIRST]
             && read == Two(0, New(0), New(0), map[0 := Local(items, Next)], {}, {}, [])
    ensures Moves(n, postpones, true, Two(0, New(0), New(0), map[], {}, {}, []), Event(0, Select(0, items)), read)
  {
    var f := Two(0, New(0), New(0), map[], {}, {}, []);
    assert [0, 1] + [] == [0, 1];
    assert Due(f.sys.store, 0, 0) && Due(f.sys.store, 1, 0);
  }

  /** The first event follows the second at this place of the stream. */
  lemma OutOfOrder(n: nat, postpones: bool, ties: bool, es: seq<Event>, now: Time, a: Row, b: Row,
                   ws: map<Worker, Local>, ids: set<Id>, sent: set<Request>, stream: seq<Id>, i: nat)
    requires Reaches(n, postpones, ties, es, Two(now, a, b, ws, ids, sent, stream))
    requires i + 1 < |stream| && stream[i] == 1 && stream[i + 1] == 0
    ensures LegalRun(EmptyFeed(0).sys, es) && AllowedRun(n, postpones, ties, EmptyFeed(0).sys, es)
    ensures !InOrder(After(EmptyFeed(0), es))
  {
    var f := Two(now, a, b, ws, ids, sent, stream);
    assert f.stream[i] == f.written[1] && f.stream[i + 1] == f.written[0];
  }

  /** Two workers: one is still sending the first event when the other has sent both. */
  lemma Overlapping(n: nat, postpones: bool, ties: bool) returns (es: seq<Event>)
    requires n >= 2
    ensures LegalRun(EmptyFeed(0).sys, es) && AllowedRun(n, postpones, ties, EmptyFeed(0).sys, es)
    ensures !InOrder(After(EmptyFeed(0), es))
  {
    var a, b, q := Marked(New(0), 1), New(1), Request(0, None, 1);
    var ws := map[0 := Local([], Sending(0, q)), 1 := Local([], MarkingPublished(1))];
    var sent := {q, Request(1, None, 1)};
    es := BothSent(n, postpones, ties);
    LateSend(n, postpones, ties);
    hide Reaches, Moves, Two, After, InOrder;
    es := Then(n, postpones, ties, es, Two(1, a, b, ws, {0, 1}, sent, [0, 1]), Event(1, Await(0, Ok)),
               Two(1, a, b, ws[0 := Local([], MarkingPublished(0))], {0, 1}, sent, [0, 1, 0]));
    OutOfOrder(n, postpones, ties, es, 1, a, b, ws[0 := Local([], MarkingPublished(0))], {0, 1}, sent, [0, 1, 0], 1);
  }

  lemma BothSent(n: nat, postpones: bool, ties: bool) returns (es: seq<Event>)
    requires n >= 2
    ensures var q := Request(0, None, 1);
            Reaches(n, postpones, ties, es,
                    Two(1, Marked(New(0), 1), New(1),
                        map[0 := Local([], Sending(0, q)), 1 := Local([], MarkingPublished(1))],
                        {0, 1}, {q, Request(1, None, 1)}, [0, 1]))
  {
    hide Reaches, Two;
    var second, q := Item(1, 1, None), Request(0, None, 1);
    var a, b, sending := New(0), New(1), Local([], Sending(0, q));
    var ws := map[0 := sending, 1 := Local([FIRST, second], Next)];
    es := BothHold(n, postpones, ties);
    es := TakeAndSend(n, postpones, ties, es, 1, [FIRST, second], 1, a, b, ws, {}, {}, []);
    assert [FIRST, second][1..] == [second] && [second][1..] == [];
    ws := ws[1 := Local([second], MarkingPublished(0))];
    assert {} + {0} == {0} && {} + {q} == {q} && [] + [0] == [0];
    es := MarkSent(n, postpones, ties, es, 1, [second], 0, 1, a, b, ws, {0}, {q}, [0]);
    ws := ws[1 := Local([second], Next)];
    es := TakeAndSend(n, postpones, ties, es, 1, [second], 1, Marked(a, 1), b, ws, {0}, {q}, [0]);
    assert {0} + {1} == {0, 1} && {q} + {Request(1, None, 1)} == {q, Request(1, None, 1)} && [0] + [1] == [0, 1];
    assert ws[1 := Local([], MarkingPublished(1))] == map[0 := sending, 1 := Local([], MarkingPublished(1))];
  }

  lemma BothHold(n: nat, postpones: bool, ties: bool) returns (es: seq<Event>)
    requires n >= 2
    ensures var ws := map[0 := Local([], Sending(0, Request(0, None, 1))), 1 := Local([FIRST, Item(1, 1, None)], Next)];
            Reaches(n, postpones, ties, es, Two(1, New(0), New(1), ws, {}, {}, []))
  {
    var second, a, b, sending := Item(1, 1, None), New(0), New(1), Local([], Sending(0, Request(0, None, 1)));
    es := TwoWritten(n, postpones, ties, 1);
    FirstWorker(n, postpones, ties);
    SecondWorker(n, postpones, ties);
    hide Reaches, Moves, Two;
    es := Then(n, postpones, ties, es, Two(1, a, b, map[], {}, {}, []), Event(1, Select(0, [FIRST])),
               Two(1, a, b, map[0 := Local([FIRST], Next)], {}, {}, []));
    es := Then(n, postpones, ties, es, Two(1, a, b, map[0 := Local([FIRST], Next)], {}, {}, []),
               Event(1, Outbox.Start(0)),
               Two(1, a, b, map[0 := sending], {}, {}, []));
    es := Then(n, postpones, ties, es, Two(1, a, b, map[0 := sending], {}, {}, []),
               Event(1, Select(1, [FIRST, second])),
               Two(1, a, b, map[0 := sending, 1 := Local([FIRST, second], Next)], {}, {}, []));
  }

  lemma FirstWorker(n: nat, postpones: bool, ties: bool)
    requires n >= 2
    ensures var sending, a, b := Local([], Sending(0, Request(0, None, 1))), New(0), New(1);
            && Moves(n, postpones, ties, Two(1, a, b, map[], {}, {}, []), Event(1, Select(0, [FIRST])),
                     Two(1, a, b, map[0 := Local([FIRST], Next)], {}, {}, []))
            && Moves(n, postpones, ties, Two(1, a, b, map[0 := Local([FIRST], Next)], {}, {}, []),
                     Event(1, Outbox.Start(0)),
                     Two(1, a, b, map[0 := sending], {}, {}, []))
  {
    assert [FIRST][1..] == [] && [0, 1] + [] == [0, 1];
  }

  lemma SecondWorker(n: nat, postpones: bool, ties: bool)
    requires n >= 2
    ensures var second, sending, a, b := Item(1, 1, None), Local([], Sending(0, Request(0, None, 1))), New(0), New(1);
            Moves(n, postpones, ties, Two(1, a, b, map[0 := sending], {}, {}, []), Event(1, Select(1, [FIRST, second])),
                  Two(1, a, b, map[0 := sending, 1 := Local([FIRST, second], Next)], {}, {}, []))
  {
    assert [0, 1] + [] == [0, 1] && [FIRST, Item(1, 1, None)][0].id == 0;
  }

  lemma LateSend(n: nat, postpones: bool, ties: bool)
    requires n >= 2
    ensures var q := Request(0, None, 1);
            var ws := map[0 := Local([], Sending(0, q)), 1 := Local([], MarkingPublished(1))];
            Moves(n, postpones, ties, Two(1, Marked(New(0), 1), New(1), ws, {0, 1}, {q, Request(1, None, 1)}, [0, 1]),
                  Event(1, Await(0, Ok)),
                  Two(1, Marked(New(0), 1), New(1), ws[0 := Local([], MarkingPublished(0))], {0, 1},
                      {q, Request(1, None, 1)}, [0, 1, 0]))
  {
    assert [0, 1] + [0] == [0, 1, 0] && [0, 1] + [] == [0, 1] && {0, 1} + {0} == {0, 1};
  }

  /** The first event after its one failed publish. */
  const POSTPONED := Row(Failed, 1, 5_001, None, 0, None)

  /** One failed publish, recorded with its delay: the event goes out after the one that followed it, and no other comes
      to put it right. */
  lemma Overtaken(n: nat, ties: bool) returns (es: seq<Event>)
    requires n >= 1
    ensures LegalRun(EmptyFeed(0).sys, es) && AllowedRun(n, true, ties, EmptyFeed(0).sys, es)
    ensures var f := After(EmptyFeed(0), es);
            f.written == [0, 1] && f.stream == [1, 0] && Drained(f.sys.store) && !InOrder(f)
  {
    var b, ws, q := Marked(New(1), 1), map[0 := Local([FIRST], Next)], Request(1, None, 1);
    es := SecondSent(n, ties);
    ReadAgain(n, ties);
    hide Reaches, Moves, Two, After, InOrder, Drained;
    es := Then(n, true, ties, es, Two(1, POSTPONED, b, map[0 := IDLE], {1}, {q}, [1]), Event(5_001, Select(0, [FIRST])),
               Two(5_001, POSTPONED, b, ws, {1}, {q}, [1]));
    es := TakeAndSend(n, true, ties, es, 0, [FIRST], 5_001, POSTPONED, b, ws, {1}, {q}, [1]);
    assert [FIRST][1..] == [] && [1] + [0] == [1, 0];
    ws := ws[0 := Local([], MarkingPublished(0))];
    var ids, sent := {1} + {0}, {q} + {Request(0, None, 5_001)};
    es := MarkSent(n, true, ties, es, 0, [], 0, 5_001, POSTPONED, b, ws, ids, sent, [1, 0]);
    OutOfOrder(n, true, ties, es, 5_001, Marked(POSTPONED, 5_001), b, ws[0 := IDLE], ids, sent, [1, 0], 0);
    BothMarked(n, ties, es, POSTPONED, b, ws[0 := IDLE], ids, sent, [1, 0]);
  }

  lemma BothMarked(n: nat, ties: bool, es: seq<Event>, a: Row, b: Row, ws: map<Worker, Local>,
                   ids: set<Id>, sent: set<Request>, stream: seq<Id>)
    requires Reaches(n, true, ties, es, Two(5_001, Marked(a, 5_001), b, ws, ids, sent, stream)) && b.status == Published
    ensures LegalRun(EmptyFeed(0).sys, es)
    ensures var f := After(EmptyFeed(0), es);
            f.written == [0, 1] && f.stream == stream && Drained(f.sys.store)
  {
  }

  lemma SecondSent(n: nat, ties: bool) returns (es: seq<Event>)
    requires n >= 1
    ensures Reaches(n, true, ties, es,
                    Two(1, POSTPONED, Marked(New(1), 1), map[0 := IDLE], {1}, {Request(1, None, 1)}, [1]))
  {
    var second := Item(1, 1, None);
    var ws := map[0 := Local([second], Next)];
    es := FirstFails(n, ties);
    hide Reaches, Two;
    es := TakeAndSend(n, true, ties, es, 0, [second], 1, POSTPONED, New(1), ws, {}, {}, []);
    assert [second][1..] == [] && {} + {1} == {1} && [] + [1] == [1]
           && {} + {Request(1, None, 1)} == {Request(1, None, 1)};
    ws := ws[0 := Local([], MarkingPublished(1))];
    es := MarkSent(n, true, ties, es, 0, [], 1, 1, POSTPONED, New(1), ws, {1}, {Request(1, None, 1)}, [1]);
    assert ws[0 := IDLE] == map[0 := IDLE];
  }

  lemma ReadAgain(n: nat, ties: bool)
    requires n >= 1
    ensures var b, q := Marked(New(1), 1), Request(1, None, 1);
            Moves(n, true, ties, Two(1, POSTPONED, b, map[0 := IDLE], {1}, {q}, [1]), Event(5_001, Select(0, [FIRST])),
                  Two(5_001, POSTPONED, b, map[0 := Local([FIRST], Next)], {1}, {q}, [1]))
  {
    assert [1] + [] == [1] && [0, 1] + [] == [0, 1];
  }

  /** A feed in which the worker is here, with the second event still to come. */
  ghost function Here(a: Row, todo: seq<Item>, at: At): Feed {
    Two(1, a, New(1), map[0 := Local(todo, at)], {}, {}, [])
  }

  lemma FirstFails(n: nat, ties: bool) returns (es: seq<Event>)
    requires n >= 1
    ensures Reaches(n, true, ties, es, Here(POSTPONED, [Item(1, 1, None)], Next))
  {
    var todo, a, counted := [Item(1, 1, None)], New(0), Row(Failed, 1, 0, None, 0, None);
    var sending := Sending(0, Request(0, None, 1));
    es := TwoWritten(n, true, ties, 1);
    FirstRead(n, ties);
    FirstSend(n, ties);
    FirstRecorded(n, ties);
    hide Reaches, Moves, Here;
    es := Then(n, true, ties, es, Two(1, a, New(1), map[], {}, {}, []), Event(1, Select(0, [FIRST] + todo)),
               Here(a, [FIRST] + todo, Next));
    es := Then(n, true, ties, es, Here(a, [FIRST] + todo, Next), Event(1, Outbox.Start(0)), Here(a, todo, sending));
    es := Then(n, true, ties, es, Here(a, todo, sending), Event(1, Await(0, Error(false))),
               Here(a, todo, At.Failing(0)));
    es := Then(n, true, ties, es, Here(a, todo, At.Failing(0)), Event(1, Await(0, Ok)),
               Here(counted, todo, Delaying(0, 1)));
    es := Then(n, true, ties, es, Here(counted, todo, Delaying(0, 1)), Event(1, Await(0, Ok)),
               Here(POSTPONED, todo, Next));
  }

  lemma FirstRead(n: nat, ties: bool)
    requires n >= 1
    ensures var items := [FIRST] + [Item(1, 1, None)];
            Moves(n, true, ties, Two(1, New(0), New(1), map[], {}, {}, []), Event(1, Select(0, items)),
                  Here(New(0), items, Next))
  {
    assert [0, 1] + [] == [0, 1] && ([FIRST] + [Item(1, 1, None)])[0].id == 0;
  }

  lemma FirstSend(n: nat, ties: bool)
    requires n >= 1
    ensures var todo, a, sending := [Item(1, 1, None)], New(0), Sending(0, Request(0, None, 1));
            && Moves(n, true, ties, Here(a, [FIRST] + todo, Next), Event(1, Outbox.Start(0)), Here(a, todo, sending))
            && Moves(n, true, ties, Here(a, todo, sending), Event(1, Await(0, Error(false))),
                     Here(a, todo, At.Failing(0)))
  {
    assert ([FIRST] + [Item(1, 1, None)])[1..] == [Item(1, 1, None)] && [0, 1] + [] == [0, 1];
  }

  lemma FirstRecorded(n: nat, ties: bool)
    requires n >= 1
    ensures var todo, a, counted := [Item(1, 1, None)], New(0), Row(Failed, 1, 0, None, 0, None);
            && Moves(n, true, ties, Here(a, todo, At.Failing(0)), Event(1, Await(0, Ok)),
                     Here(counted, todo, Delaying(0, 1)))
            && Moves(n, true, ties, Here(counted, todo, Delaying(0, 1)), Event(1, Await(0, Ok)),
                     Here(POSTPONED, todo, Next))
  {
    assert [0, 1] + [] == [0, 1] && Pow2(0) == 1 && DelayMs(1) == 5_000;
  }
}
