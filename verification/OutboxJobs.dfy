/** The two outbox jobs as they run, proved to be the worker machine left alone with the rows it selected. */
module OutboxJobs {
  import opened Wrappers
  import opened Outbox

  /** How the statements for one event end, and when. */
  datatype Outcome = Outcome(start: Time, send: Result, mark: Result, markAt: Time, fail: Result, failAt: Time,
                             delay: Result, delayAt: Time)
  {
    predicate InOrder() { start <= markAt <= failAt <= delayAt }

    function For(at: At): Result {
      match at
      case Sending(_, _) => send
      case MarkingPublished(_) => mark
      case MarkingExpired(_) => mark
      case Failing(_) => fail
      case _ => delay
    }

    function When(at: At): Time {
      match at
      case Next => start
      case Sending(_, _) => start
      case MarkingPublished(_) => markAt
      case MarkingExpired(_) => markAt
      case Failing(_) => failAt
      case Delaying(_, _) => delayAt
    }
  }

  function StepsLeft(at: At): nat {
    match at
    case Next => 0
    case Sending(_, _) => 4
    case MarkingPublished(_) => 3
    case MarkingExpired(_) => 3
    case Failing(_) => 2
    case Delaying(_, _) => 1
  }

  /** Recording a failure is not guarded: an error there ends the job. */
  predicate Throws(at: At, r: Result) {
    r.Error? && (at.Failing? || at.Delaying?)
  }

  datatype Verdict = Sent | Late | Failure | Thrown

  /** A worker left alone with one event. */
  function Drive(st: Store, at: At, o: Outcome, v: Verdict): (Store, Verdict)
    decreases StepsLeft(at)
  {
    if at == Next then (st, v)
    else
      var st1 := Effect(st, at, o.For(at), o.When(at));
      if Throws(at, o.For(at)) then (st1, Thrown)
      else
        var v1 := if at.MarkingPublished? && o.mark.Ok? then Sent
                  else if at.MarkingExpired? && o.mark.Ok? then Late
                  else if at.Delaying? then Failure else v;
        Drive(st1, Resume(st, Local([], at), o.For(at)).at, o, v1)
  }

  function DriveItem(st: Store, item: Item, o: Outcome): (Store, Verdict) {
    Drive(st, Begin(Local([item], Next), o.start).at, o, Failure)
  }

  datatype Tally = Tally(published: nat, expired: nat, failed: nat, thrown: bool)

  function Count(t: Tally, v: Verdict): Tally {
    match v
    case Sent => t.(published := t.published + 1)
    case Late => t.(expired := t.expired + 1)
    case Failure => t.(failed := t.failed + 1)
    case Thrown => t.(thrown := true)
  }

  /** A worker left alone with its batch. */
  function DriveAll(st: Store, items: seq<Item>, os: seq<Outcome>, t: Tally): (Store, Tally)
    requires |os| == |items|
    decreases |items|
  {
    if items == [] || t.thrown then (st, t)
    else
      var (st1, v) := DriveItem(st, items[0], os[0]);
      DriveAll(st1, items[1..], os[1..], Count(t, v))
  }

  const NONE := Tally(0, 0, 0, false)

  /** A batch that is not cut short accounts for every event in exactly one way. */
  lemma {:induction false} TallyIsComplete(st: Store, items: seq<Item>, os: seq<Outcome>, t: Tally)
    requires |os| == |items|
    ensures var u := DriveAll(st, items, os, t).1;
            !u.thrown ==> u.published + u.expired + u.failed == t.published + t.expired + t.failed + |items|
    decreases |items|
  {
    if items != [] && !t.thrown {
      var (st1, v) := DriveItem(st, items[0], os[0]);
      TallyIsComplete(st1, items[1..], os[1..], Count(t, v));
    }
  }

  /** How one event ends: published if it was still live, sent and marked without an error; expired if it was past its
      deadline and marked so; an error while the failure is recorded ends the job; anything else is a failure. */
  ghost function Ending(item: Item, o: Outcome): Verdict {
    var live := item.ttl.None? || Deadline(item.createdAt, item.ttl.value) > o.start;
    if o.mark == Ok && (live ==> o.send == Ok) then (if live then Sent else Late)
    else if o.fail == Ok && o.delay == Ok then Failure
    else Thrown
  }

  lemma EndingIs(st: Store, item: Item, o: Outcome)
    ensures DriveItem(st, item, o).1 == Ending(item, o)
  {
    var id := item.id;
    var at := Begin(Local([item], Next), o.start).at;
    assert at.Sending? || at == MarkingExpired(id);
    if at.Sending? {
      var st1 := Effect(st, at, o.send, o.start);
      if o.send == Ok {
        MarkEnds(st1, MarkingPublished(id), o, Failure);
      } else {
        FailEnds(st1, id, o, Failure);
      }
    } else {
      MarkEnds(st, at, o, Failure);
    }
  }

  lemma MarkEnds(st: Store, at: At, o: Outcome, v: Verdict)
    requires (at.MarkingPublished? || at.MarkingExpired?) && v == Failure
    ensures Drive(st, at, o, v).1 == if o.mark == Ok then (if at.MarkingPublished? then Sent else Late)
                                     else if o.fail == Ok && o.delay == Ok then Failure else Thrown
  {
    var st1 := Effect(st, at, o.mark, o.markAt);
    if o.mark == Ok {
      assert Drive(st, at, o, v) == Drive(st1, Next, o, if at.MarkingPublished? then Sent else Late);
    } else {
      assert Drive(st, at, o, v) == Drive(st1, At.Failing(at.id), o, v);
      FailEnds(st1, at.id, o, v);
    }
  }

  lemma FailEnds(st: Store, id: Id, o: Outcome, v: Verdict)
    ensures Drive(st, At.Failing(id), o, v).1 == if o.fail == Ok && o.delay == Ok then Failure else Thrown
  {
    var st1 := Effect(st, At.Failing(id), o.fail, o.failAt);
    if o.fail == Ok {
      var n := if id in st.table then st.table[id].attempts + 1 else 1;
      assert Drive(st, At.Failing(id), o, v) == Drive(st1, Delaying(id, n), o, v);
      if o.delay == Ok {
        assert Drive(st1, Delaying(id, n), o, v)
            == Drive(Effect(st1, Delaying(id, n), o.delay, o.delayAt), Next, o, Failure);
      }
    }
  }

  /** What each way of ending leaves in the table: the row published, expired, or failed once more and put off by the
      delay for that many failures; and no other row changed. */
  lemma RowAfter(st: Store, item: Item, o: Outcome)
    requires item.id in st.table
    ensures var t, row := DriveItem(st, item, o).0.table, st.table[item.id];
            && t.Keys == st.table.Keys && (forall id :: id in t && id != item.id ==> t[id] == st.table[id])
            && match Ending(item, o)
               case Sent => t[item.id] == row.(status := Published, publishedAt := Some(o.markAt))
               case Late => t[item.id] == row.(status := Expired)
               case Failure =>
                 && t[item.id].status == Failed && t[item.id].attempts == row.attempts + 1
                 && t[item.id].availableAt == o.delayAt + DelayMs(row.attempts + 1)
               case Thrown => true
  {
    var id := item.id;
    var at := Begin(Local([item], Next), o.start).at;
    assert at.Sending? || at == MarkingExpired(id);
    if at.Sending? {
      var st1 := Effect(st, at, o.send, o.start);
      if o.send == Ok { MarkRow(st1, MarkingPublished(id), o, Failure); } else { FailRow(st1, id, o, Failure); }
    } else {
      MarkRow(st, at, o, Failure);
    }
  }

  lemma MarkRow(st: Store, at: At, o: Outcome, v: Verdict)
    requires (at.MarkingPublished? || at.MarkingExpired?) && v == Failure && at.id in st.table
    ensures var t, row := Drive(st, at, o, v).0.table, st.table[at.id];
            && t.Keys == st.table.Keys && (forall id :: id in t && id != at.id ==> t[id] == st.table[id])
            && if o.mark == Ok then
                 t[at.id] == if at.MarkingPublished? then row.(status := Published, publishedAt := Some(o.markAt))
                             else row.(status := Expired)
               else
                 o.fail == Ok && o.delay == Ok ==>
                   && t[at.id].status == Failed && t[at.id].attempts == row.attempts + 1
                   && t[at.id].availableAt == o.delayAt + DelayMs(row.attempts + 1)
  {
    hide DelayMs;
    var st1 := Effect(st, at, o.mark, o.markAt);
    if o.mark == Ok {
      assert Drive(st, at, o, v) == Drive(st1, Next, o, if at.MarkingPublished? then Sent else Late);
    } else {
      assert Drive(st, at, o, v) == Drive(st1, At.Failing(at.id), o, v);
      FailRow(st1, at.id, o, v);
    }
  }

  lemma FailRow(st: Store, id: Id, o: Outcome, v: Verdict)
    requires id in st.table
    ensures var t, row := Drive(st, At.Failing(id), o, v).0.table, st.table[id];
            && t.Keys == st.table.Keys && (forall k :: k in t && k != id ==> t[k] == st.table[k])
            && (o.fail == Ok && o.delay == Ok ==>
                  && t[id].status == Failed && t[id].attempts == row.attempts + 1
                  && t[id].availableAt == o.delayAt + DelayMs(row.attempts + 1))
  {
    hide DelayMs;
    var st1 := Effect(st, At.Failing(id), o.fail, o.failAt);
    if o.fail == Ok {
      var n := st.table[id].attempts + 1;
      assert Drive(st, At.Failing(id), o, v) == Drive(st1, Delaying(id, n), o, v);
      var st2 := Effect(st1, Delaying(id, n), o.delay, o.delayAt);
      if o.delay == Ok { assert Drive(st1, Delaying(id, n), o, v) == Drive(st2, Next, o, Failure); }
    }
  }

  /** The events of a batch that ended so. */
  ghost function Ended(items: seq<Item>, os: seq<Outcome>, v: Verdict): nat
    requires |os| == |items|
  {
    if items == [] then 0 else Ended(items[1..], os[1..], v) + if Ending(items[0], os[0]) == v then 1 else 0
  }

  /** The counters tell exactly how many events ended in each way, up to the first that ends the job if one does. */
  lemma {:induction false} TallyCounts(st: Store, items: seq<Item>, os: seq<Outcome>, t: Tally) returns (k: nat)
    requires |os| == |items| && !t.thrown
    ensures k <= |items| && forall i :: 0 <= i < k ==> Ending(items[i], os[i]) != Thrown
    ensures var u := DriveAll(st, items, os, t).1;
            && u.thrown == (k < |items|) && (k < |items| ==> Ending(items[k], os[k]) == Thrown)
            && u.published == t.published + Ended(items[..k], os[..k], Sent)
            && u.expired == t.expired + Ended(items[..k], os[..k], Late)
            && u.failed == t.failed + Ended(items[..k], os[..k], Failure)
    decreases |items|
  {
    if items == [] {
      k := 0;
    } else {
      hide Ending, DriveItem;
      EndingIs(st, items[0], os[0]);
      var (st1, v) := DriveItem(st, items[0], os[0]);
      if v == Thrown {
        k := 0;
        assert DriveAll(st1, items[1..], os[1..], Count(t, v)) == (st1, Count(t, v));
      } else {
        var j := TallyCounts(st1, items[1..], os[1..], Count(t, v));
        k := j + 1;
        assert items[..k][1..] == items[1..][..j] && os[..k][1..] == os[1..][..j];
        assert forall i :: 0 < i < k ==> items[i] == items[1..][i - 1] && os[i] == os[1..][i - 1];
      }
    }
  }

  /** An identity event, which has no time to live, is never counted late. */
  lemma {:induction false} IdentityNeverLate(st: Store, items: seq<Item>, os: seq<Outcome>, t: Tally)
    requires |os| == |items| && forall i :: 0 <= i < |items| ==> items[i].ttl.None?
    ensures DriveAll(st, items, os, t).1.expired == t.expired
    decreases |items|
  {
    if items != [] && !t.thrown {
      var (st1, v) := DriveItem(st, items[0], os[0]);
      var o := os[0];
      NeverLate(st, Begin(Local([items[0]], Next), o.start).at, o, Failure);
      IdentityNeverLate(st1, items[1..], os[1..], Count(t, v));
    }
  }

  lemma {:induction false} NeverLate(st: Store, at: At, o: Outcome, v: Verdict)
    requires !at.MarkingExpired? && v != Late
    ensures Drive(st, at, o, v).1 != Late
    decreases StepsLeft(at)
  {
    if at != Next && !Throws(at, o.For(at)) {
      var v1 := if at.MarkingPublished? && o.mark.Ok? then Sent else if at.Delaying? then Failure else v;
      NeverLate(Effect(st, at, o.For(at), o.When(at)), Resume(st, Local([], at), o.For(at)).at, o, v1);
    }
  }

  // ---- A job is a run of the machine ----

  predicate Ordered(now: Time, os: seq<Outcome>)
    decreases |os|
  {
    os == [] || (now <= os[0].start && os[0].InOrder() && Ordered(os[0].delayAt, os[1..]))
  }

  lemma {:induction false} RunConcat(s: System, es: seq<Event>, fs: seq<Event>)
    requires LegalRun(s, es) && LegalRun(Run(s, es), fs)
    ensures LegalRun(s, es + fs) && Run(s, es + fs) == Run(Run(s, es), fs)
    decreases |es|
  {
    if es == [] {
      assert es + fs == fs;
    } else {
      RunConcat(Do(s, es[0]), es[1..], fs);
      assert (es + fs)[1..] == es[1..] + fs;
    }
  }

  lemma {:induction false} DriveIsRun(s: System, w: Worker, o: Outcome, v: Verdict) returns (es: seq<Event>)
    requires w in s.workers && o.InOrder() && v != Thrown
    requires s.now <= if s.workers[w].at == Next then o.delayAt else o.When(s.workers[w].at)
    ensures LegalRun(s, es)
    ensures var (st, u) := Drive(s.store, s.workers[w].at, o, v);
            && Run(s, es).now <= o.delayAt
            && Run(s, es) == System(Run(s, es).now, st,
                                    s.workers[w := if u == Thrown then IDLE else Local(s.workers[w].todo, Next)])
    decreases StepsLeft(s.workers[w].at)
  {
    var l := s.workers[w];
    if l.at == Next {
      es := [];
      assert s.workers[w := l] == s.workers;
    } else {
      var e := Event(o.When(l.at), Await(w, o.For(l.at)));
      var s1 := Do(s, e);
      assert Resume(s.store, Local([], l.at), o.For(l.at)).at == s1.workers[w].at;
      if Throws(l.at, o.For(l.at)) {
        es := [e];
        assert Run(s1, []) == s1;
      } else {
        var v1 := if l.at.MarkingPublished? && o.mark.Ok? then Sent
                  else if l.at.MarkingExpired? && o.mark.Ok? then Late
                  else if l.at.Delaying? then Failure else v;
        var rest := DriveIsRun(s1, w, o, v1);
        es := [e] + rest;
        assert es[1..] == rest;
        assert s1.workers[w := IDLE] == s.workers[w := IDLE]
               && s1.workers[w := Local(l.todo, Next)] == s.workers[w := Local(l.todo, Next)];
      }
    }
  }

  lemma ItemIsRun(s: System, w: Worker, o: Outcome) returns (es: seq<Event>)
    requires w in s.workers && s.workers[w].at == Next && s.workers[w].todo != [] && o.InOrder() && s.now <= o.start
    ensures LegalRun(s, es)
    ensures var todo := s.workers[w].todo;
            var (st, u) := DriveItem(s.store, todo[0], o);
            && Run(s, es).now <= o.delayAt
            && Run(s, es) == System(Run(s, es).now, st,
                                    s.workers[w := if u == Thrown then IDLE else Local(todo[1..], Next)])
  {
    var e := Event(o.start, Start(w));
    var s1 := Do(s, e);
    var rest := DriveIsRun(s1, w, o, Failure);
    es := [e] + rest;
    assert es[1..] == rest;
    var todo := s.workers[w].todo;
    assert s1.workers[w := IDLE] == s.workers[w := IDLE]
           && s1.workers[w := Local(todo[1..], Next)] == s.workers[w := Local(todo[1..], Next)];
  }

  /** A tick of a job is a run of the machine in which no other worker moves: what holds over all runs holds for it, and
      for any interleaving of such ticks. */
  lemma {:induction false} JobIsRun(s: System, w: Worker, os: seq<Outcome>, t: Tally) returns (es: seq<Event>)
    requires w in s.workers && s.workers[w].at == Next && |os| == |s.workers[w].todo| && Ordered(s.now, os) && !t.thrown
    ensures LegalRun(s, es)
    ensures Run(s, es) == System(Run(s, es).now, DriveAll(s.store, s.workers[w].todo, os, t).0, s.workers[w := IDLE])
    decreases |os|
  {
    var todo := s.workers[w].todo;
    if todo == [] {
      es := [];
      assert s.workers[w := IDLE] == s.workers;
    } else {
      es := ItemIsRun(s, w, os[0]);
      var s1 := Run(s, es);
      var (st, v) := DriveItem(s.store, todo[0], os[0]);
      if v != Thrown {
        var rest := JobIsRun(s1, w, os[1..], Count(t, v));
        RunConcat(s, es, rest);
        es := es + rest;
        assert s1.workers[w := IDLE] == s.workers[w := IDLE];
      }
    }
  }

  /** What one tick adds to the deliveries: an e-mail command exactly when its deadline is still ahead and the send had
      an effect, in a request that carries this deadline; nothing else, however the marking goes. */
  lemma DeliveredExactly(st: Store, item: Item, o: Outcome)
    ensures var live := item.ttl.None? || Deadline(item.createdAt, item.ttl.value) > o.start;
            var deadline := if item.ttl.None? then None else Some(Deadline(item.createdAt, item.ttl.value));
            var t := DriveItem(st, item, o).0;
            if live && o.send != Error(false) then
              && t.delivered == st.delivered + {item.id}
              && t.requests == st.requests + {Request(item.id, deadline, o.start)}
            else t.delivered == st.delivered && t.requests == st.requests
  {
    var at := Begin(Local([item], Next), o.start).at;
    if at.Sending? {
      var st1 := Effect(st, at, o.send, o.start);
      MarkingDeliversNothing(st1, Resume(st, Local([], at), o.send).at, o, Failure);
    } else {
      MarkingDeliversNothing(st, at, o, Failure);
    }
  }

  lemma {:induction false} MarkingDeliversNothing(st: Store, at: At, o: Outcome, v: Verdict)
    requires !at.Sending?
    ensures Drive(st, at, o, v).0.delivered == st.delivered && Drive(st, at, o, v).0.requests == st.requests
    decreases StepsLeft(at)
  {
    if at != Next && !Throws(at, o.For(at)) {
      var v1 := if at.MarkingPublished? && o.mark.Ok? then Sent
                else if at.MarkingExpired? && o.mark.Ok? then Late
                else if at.Delaying? then Failure else v;
      MarkingDeliversNothing(Effect(st, at, o.For(at), o.When(at)), Resume(st, Local([], at), o.For(at)).at, o, v1);
    }
  }

  class OutboxJob {
    var store: Store

    constructor (store: Store)
      ensures this.store == store
    {
      this.store := store;
    }

    method MarkPublished(id: Id, r: Result, now: Time) returns (threw: bool)
      modifies this
      ensures threw == r.Error? && store == Effect(old(store), MarkingPublished(id), r, now)
    {
      if r != Error(false) && id in store.table {
        store := store.(table := store.table[id := store.table[id].(status := Published, publishedAt := Some(now))]);
      }
      threw := r.Error?;
    }

    method MarkExpired(id: Id, r: Result, now: Time) returns (threw: bool)
      modifies this
      ensures threw == r.Error? && store == Effect(old(store), MarkingExpired(id), r, now)
    {
      if r != Error(false) && id in store.table {
        store := store.(table := store.table[id := store.table[id].(status := Expired)],
                        expired := store.expired + {id});
      }
      threw := r.Error?;
    }

    /** Two statements: the count, then the instant of the next try, computed from the count the first one returned. */
    method MarkFailed(id: Id, o: Outcome, ghost v: Verdict) returns (threw: bool)
      modifies this
      ensures Drive(old(store), Failing(id), o, v) == (store, if threw then Thrown else Failure)
    {
      ghost var st0 := store;
      var attempts := 1;
      if id in store.table { attempts := store.table[id].attempts + 1; }
      if o.fail != Error(false) && id in store.table {
        store := store.(table := store.table[id :=
                                             store.table[id].(status := Failed,
                                                              attempts := store.table[id].attempts + 1)]);
      }
      assert store == Effect(st0, Failing(id), o.fail, o.failAt);
      if o.fail.Error? { return true; }
      ghost var st1 := store;
      assert Drive(st0, Failing(id), o, v) == Drive(st1, Delaying(id, attempts), o, v);
      if o.delay != Error(false) && id in store.table {
        store := store.(table := store.table[id := store.table[id].(availableAt := o.delayAt + DelayMs(attempts))]);
      }
      assert store == Effect(st1, Delaying(id, attempts), o.delay, o.delayAt);
      threw := o.delay.Error?;
      if !threw { assert Drive(st1, Delaying(id, attempts), o, v) == Drive(store, Next, o, Failure); }
    }

    /** Publishing returns normally only when the stream append went through. */
    method Deliver(id: Id, q: Request, r: Result) returns (threw: bool)
      modifies this
      ensures threw == r.Error? && forall now :: store == Effect(old(store), Sending(id, q), r, now)
    {
      if r != Error(false) {
        store := store.(delivered := store.delivered + {id}, requests := store.requests + {q});
      }
      threw := r.Error?;
    }

    /** The client of Media works out the expiry of its request once more. */
    method DispatchToMedia(event: Item, now: Time, r: Result) returns (threw: bool)
      requires event.ttl.Some?
      modifies this
      ensures threw == r.Error?
      ensures var q := Request(event.id, ExpiresAt(event.createdAt, event.ttl), now);
              forall later :: store == Effect(old(store), Sending(event.id, q), r, later)
    {
      var ttl := event.ttl.value;
      var expiresAt := event.createdAt + if ttl < MAX_TTL_MS then ttl else MAX_TTL_MS;
      threw := Deliver(event.id, Request(event.id, Some(expiresAt), now), r);
    }

    method RunIdentityOutbox(events: seq<Item>, os: seq<Outcome>) returns (published: nat, failed: nat, thrown: bool)
      requires |os| == |events| && forall i :: 0 <= i < |events| ==> events[i].ttl.None?
      modifies this
      ensures DriveAll(old(store), events, os, NONE) == (store, Tally(published, 0, failed, thrown))
      ensures !thrown ==> published + failed == |events|
    {
      hide Effect;
      ghost var st0 := store;
      TallyIsComplete(store, events, os, NONE);
      IdentityNeverLate(store, events, os, NONE);
      published, failed, thrown := 0, 0, false;
      for i := 0 to |events|
        invariant !thrown
        invariant DriveAll(store, events[i..], os[i..], Tally(published, 0, failed, false))
                  == DriveAll(st0, events, os, NONE)
      {
        var id, o := events[i].id, os[i];
        ghost var st, t := store, Tally(published, 0, failed, false);
        assert events[i..][0] == events[i] && os[i..][0] == o && events[i..][1..] == events[i + 1..]
               && os[i..][1..] == os[i + 1..];
        var q := Request(id, None, o.start);
        assert DriveItem(st, events[i], o) == Drive(st, Sending(id, q), o, Failure);
        var caught := Deliver(id, q, o.send);
        ghost var st1 := store;
        if !caught {
          assert Drive(st, Sending(id, q), o, Failure) == Drive(st1, MarkingPublished(id), o, Failure);
          caught := MarkPublished(id, o.mark, o.markAt);
          if !caught {
            assert Drive(st1, MarkingPublished(id), o, Failure) == Drive(store, Next, o, Sent);
            published := published + 1;
          } else {
            assert Drive(st1, MarkingPublished(id), o, Failure) == Drive(store, Failing(id), o, Failure);
          }
        } else {
          assert Drive(st, Sending(id, q), o, Failure) == Drive(st1, Failing(id), o, Failure);
        }
        if caught {
          thrown := MarkFailed(id, o, Failure);
          if thrown {
            assert DriveAll(st, events[i..], os[i..], t) == (store, t.(thrown := true));
            return;
          }
          failed := failed + 1;
        }
      }
      assert events[|events|..] == [] && os[|events|..] == [];
    }

    method RunEmailOutbox(events: seq<Item>, os: seq<Outcome>)
      returns (published: nat, failed: nat, ghost expired: nat, thrown: bool)
      requires |os| == |events| && forall i :: 0 <= i < |events| ==> events[i].ttl.Some?
      modifies this
      ensures DriveAll(old(store), events, os, NONE) == (store, Tally(published, expired, failed, thrown))
      ensures !thrown ==> published + expired + failed == |events|
    {
      hide Effect, ExpiresAt;
      ghost var st0 := store;
      TallyIsComplete(store, events, os, NONE);
      published, failed, expired, thrown := 0, 0, 0, false;
      for i := 0 to |events|
        invariant !thrown
        invariant DriveAll(store, events[i..], os[i..], Tally(published, expired, failed, false))
                  == DriveAll(st0, events, os, NONE)
      {
        var event, o := events[i], os[i];
        ghost var st, t := store, Tally(published, expired, failed, false);
        assert events[i..][0] == event && os[i..][0] == o && events[i..][1..] == events[i + 1..]
               && os[i..][1..] == os[i + 1..];
        var caught;
        if event.createdAt + (if event.ttl.value < MAX_TTL_MS then event.ttl.value else MAX_TTL_MS) <= o.start {
          assert DriveItem(st, event, o) == Drive(st, MarkingExpired(event.id), o, Failure);
          caught := MarkExpired(event.id, o.mark, o.markAt);
          if !caught {
            assert Drive(st, MarkingExpired(event.id), o, Failure) == Drive(store, Next, o, Late);
            expired := expired + 1;
            continue;
          }
          assert Drive(st, MarkingExpired(event.id), o, Failure) == Drive(store, Failing(event.id), o, Failure);
        } else {
          ghost var q := Request(event.id, ExpiresAt(event.createdAt, event.ttl), o.start);
          assert DriveItem(st, event, o) == Drive(st, Sending(event.id, q), o, Failure);
          caught := DispatchToMedia(event, o.start, o.send);
          ghost var st1 := store;
          if !caught {
            assert Drive(st, Sending(event.id, q), o, Failure) == Drive(st1, MarkingPublished(event.id), o, Failure);
            caught := MarkPublished(event.id, o.mark, o.markAt);
            if !caught {
              assert Drive(st1, MarkingPublished(event.id), o, Failure) == Drive(store, Next, o, Sent);
              published := published + 1;
            } else {
              assert Drive(st1, MarkingPublished(event.id), o, Failure) == Drive(store, Failing(event.id), o, Failure);
            }
          } else {
            assert Drive(st, Sending(event.id, q), o, Failure) == Drive(st1, Failing(event.id), o, Failure);
          }
        }
        if caught {
          thrown := MarkFailed(event.id, o, Failure);
          if thrown {
            assert DriveAll(st, events[i..], os[i..], t) == (store, t.(thrown := true));
            return;
          }
          failed := failed + 1;
        }
      }
      assert events[|events|..] == [] && os[|events|..] == [];
    }
  }
}
