/** What becomes of a message, told from its raw fields and from how the calls made for it end, with no machine in
    between. */
module MessageOutcomes {
  import opened StreamFields
  import opened StreamConsumer

  datatype Message = Message(id: Id, rawFields: seq<string>)

  function Ids(ms: seq<Message>): (ids: seq<Id>)
    ensures |ids| == |ms| && forall i :: 0 <= i < |ms| ==> ids[i] == ms[i].id
  {
    seq(|ms|, i requires 0 <= i < |ms| => ms[i].id)
  }

  /** A shutdown marker. */
  ghost predicate Marker(m: Message) {
    var fields := Fields(m.rawFields);
    "__shutdown__" in fields && fields["__shutdown__"] == "1"
  }

  /** The handler is called for it. */
  ghost predicate Sound(m: Message, decode: string -> Decoded) {
    var fields := Fields(m.rawFields);
    !Marker(m) && "payload" in fields && fields["payload"] != "" && decode(fields["payload"]) == Accepted
  }

  /** It stays pending for another delivery: the handler, or the acknowledgement after it, failed in a way that may be
      tried again, and the count leaves deliveries. */
  ghost predicate Kept(maxRetries: nat, m: Message, decode: string -> Decoded, o: Outcome) {
    && Sound(m, decode)
    && (o.handler == HandlerFailed(false) || (o.handler == HandlerOk && o.handledAck.AckFailed?))
    && (if o.counted >= 1 then o.counted else 1) < maxRetries
  }

  /** It is handed to the dead-letter callback. */
  ghost predicate GivenUp(maxRetries: nat, m: Message, decode: string -> Decoded, o: Outcome) {
    && !Marker(m) && !Kept(maxRetries, m, decode, o)
    && !(Sound(m, decode) && o.handler == HandlerOk && o.handledAck == AckOk)
  }

  /** The exception that is not caught: from the dead-letter callback, or from the acknowledgement after it or of a
      marker. */
  ghost predicate Stops(maxRetries: nat, m: Message, decode: string -> Decoded, o: Outcome) {
    || (Marker(m) && o.lastAck.AckFailed?)
    || (GivenUp(maxRetries, m, decode, o) && (o.dlq == DlqFailed || o.lastAck.AckFailed?))
  }

  /** Some acknowledgement of it reached Redis. */
  ghost predicate Acknowledged(maxRetries: nat, m: Message, decode: string -> Decoded, o: Outcome) {
    || (Sound(m, decode) && o.handler == HandlerOk && o.handledAck in {AckOk, AckFailed(true)})
    || ((Marker(m) || (GivenUp(maxRetries, m, decode, o) && o.dlq == DlqOk)) && o.lastAck in {AckOk, AckFailed(true)})
  }

  /** The group after one message. */
  ghost predicate After(maxRetries: nat, g: Group, h: Group, m: Message, decode: string -> Decoded, o: Outcome) {
    var gone := if Acknowledged(maxRetries, m, decode, o) then {m.id} else {};
    && h.kinds == g.kinds && h.delivered == g.delivered
    && h.runs == (if Sound(m, decode) then g.runs[m.id := RunsOf(g, m.id) + 1] else g.runs)
    && h.handled == g.handled + (if Sound(m, decode) && o.handler == HandlerOk then {m.id} else {})
    && h.dead == g.dead + (if GivenUp(maxRetries, m, decode, o) && o.dlq == DlqOk then {m.id} else {})
    && h.pending == g.pending - gone && h.acked == g.acked + gone * g.pending.Keys
  }

  lemma GiveUp(maxRetries: nat, g: Group, id: Id, o: Outcome)
    requires o.Ok()
    ensures var (h, on) := Drive(maxRetries, g, ToDlq(id), o);
            var gone := if o.dlq == DlqOk && o.lastAck in {AckOk, AckFailed(true)} then {id} else {};
            && on == (o.dlq == DlqOk && o.lastAck == AckOk)
            && h == g.(dead := g.dead + (if o.dlq == DlqOk then {id} else {}),
                       pending := g.pending - gone, acked := g.acked + gone * g.pending.Keys)
  {
    if o.dlq == DlqOk {
      var g1 := g.(dead := g.dead + {id});
      assert Drive(maxRetries, g, ToDlq(id), o) == Drive(maxRetries, g1, AckDlq(id), o);
      AckIs(g1, id);
      if o.lastAck == AckOk {
        assert Drive(maxRetries, g1, AckDlq(id), o) == Drive(maxRetries, StreamConsumer.Ack(g1, id), Next, o);
      }
    }
  }

  lemma AckIs(g: Group, id: Id)
    ensures StreamConsumer.Ack(g, id) == g.(pending := g.pending - {id}, acked := g.acked + {id} * g.pending.Keys)
  {
    if id !in g.pending {
      assert g.pending - {id} == g.pending;
      assert {id} * g.pending.Keys == {};
    } else {
      assert {id} * g.pending.Keys == {id};
    }
  }

  /** The group once the handler of a message has succeeded. */
  ghost function Succeeded(g: Group, id: Id): Group {
    g.(handled := g.handled + {id}, runs := g.runs[id := RunsOf(g, id) + 1])
  }

  /** The acknowledgement after it goes through, or fails and may be tried again. */
  lemma SuccessEnds(maxRetries: nat, g: Group, m: Message, decode: string -> Decoded, o: Outcome)
    requires o.Ok() && Sound(m, decode) && o.handler == HandlerOk
    requires o.handledAck == AckOk || Taken(o.counted) < maxRetries
    ensures var (h, on) := Drive(maxRetries, Succeeded(g, m.id), AckHandled(m.id, Taken(o.counted)), o);
            After(maxRetries, g, h, m, decode, o) && on == !Stops(maxRetries, m, decode, o)
  {
    var n, g1 := Taken(o.counted), Succeeded(g, m.id);
    AckIs(g1, m.id);
    var g2 := Effect(g1, AckHandled(m.id, n), o.handledAck);
    assert Drive(maxRetries, g1, AckHandled(m.id, n), o) == Drive(maxRetries, g2, Next, o);
  }

  /** It fails at the last delivery. */
  lemma SuccessGivenUp(maxRetries: nat, g: Group, m: Message, decode: string -> Decoded, o: Outcome)
    requires o.Ok() && Sound(m, decode) && o.handler == HandlerOk
    requires o.handledAck.AckFailed? && Taken(o.counted) >= maxRetries
    ensures var (h, on) := Drive(maxRetries, Succeeded(g, m.id), AckHandled(m.id, Taken(o.counted)), o);
            After(maxRetries, g, h, m, decode, o) && on == !Stops(maxRetries, m, decode, o)
  {
    var id, n, g1 := m.id, Taken(o.counted), Succeeded(g, m.id);
    AckIs(g1, id);
    var g2 := Effect(g1, AckHandled(id, n), o.handledAck);
    assert g2 == if o.handledAck == AckFailed(true) then StreamConsumer.Ack(g1, id) else g1;
    assert Drive(maxRetries, g1, AckHandled(id, n), o) == Drive(maxRetries, g2, ToDlq(id), o);
    GiveUp(maxRetries, g2, id, o);
    hide Drive, StreamConsumer.Ack, Fields;
  }

  /** A message for the handler. */
  lemma HandledIs(maxRetries: nat, g: Group, m: Message, decode: string -> Decoded, o: Outcome)
    requires o.Ok() && Sound(m, decode)
    ensures var (h, on) := Drive(maxRetries, g, Counting(m.id), o);
            After(maxRetries, g, h, m, decode, o) && on == !Stops(maxRetries, m, decode, o)
  {
    var id, n := m.id, Taken(o.counted);
    assert Drive(maxRetries, g, Counting(id), o) == Drive(maxRetries, g, Handling(id, n), o);
    var g1 := Effect(g, Handling(id, n), o.handler);
    if o.handler == HandlerOk {
      assert Drive(maxRetries, g, Handling(id, n), o) == Drive(maxRetries, g1, AckHandled(id, n), o);
      if o.handledAck == AckOk || n < maxRetries { SuccessEnds(maxRetries, g, m, decode, o); }
      else { SuccessGivenUp(maxRetries, g, m, decode, o); }
    } else if o.handler == HandlerFailed(false) && n < maxRetries {
      assert Drive(maxRetries, g, Handling(id, n), o) == Drive(maxRetries, g1, Next, o);
    } else {
      assert Drive(maxRetries, g, Handling(id, n), o) == Drive(maxRetries, g1, ToDlq(id), o);
      GiveUp(maxRetries, g1, id, o);
    }
  }

  /** One message of any kind: what the machine makes of it is what its fields and the outcome of its calls say. */
  lemma MessageIs(maxRetries: nat, g: Group, m: Message, decode: string -> Decoded, o: Outcome)
    requires o.Ok() && m.id < |g.kinds| && g.kinds[m.id] == Classify(m.rawFields, decode)
    ensures var (h, on) := Drive(maxRetries, g, FirstAt(g, m.id), o);
            After(maxRetries, g, h, m, decode, o) && on == !Stops(maxRetries, m, decode, o)
  {
    if Marker(m) {
      AckIs(g, m.id);
      if o.lastAck == AckOk {
        assert Drive(maxRetries, g, AckShutdown(m.id), o)
            == Drive(maxRetries, StreamConsumer.Ack(g, m.id), Next, o);
      }
    } else if Sound(m, decode) {
      HandledIs(maxRetries, g, m, decode, o);
    } else {
      assert FirstAt(g, m.id) == ToDlq(m.id);
      GiveUp(maxRetries, g, m.id, o);
    }
  }

  // ---- A batch ----

  ghost predicate Scheduled(g: Group, ms: seq<Message>, decode: string -> Decoded, os: seq<Outcome>) {
    && |os| == |ms| && (forall i :: 0 <= i < |os| ==> os[i].Ok())
    && forall i :: 0 <= i < |ms| ==> ms[i].id < |g.kinds| && g.kinds[ms[i].id] == Classify(ms[i].rawFields, decode)
  }

  /** No message before the i-th threw. */
  ghost predicate Reached(maxRetries: nat, ms: seq<Message>, decode: string -> Decoded, os: seq<Outcome>, i: nat)
    requires i <= |ms| == |os|
  {
    forall j :: 0 <= j < i ==> !Stops(maxRetries, ms[j], decode, os[j])
  }

  /** The groups a batch goes through, one for each message worked on. */
  ghost predicate Passes(maxRetries: nat, gs: seq<Group>, ms: seq<Message>, decode: string -> Decoded,
                         os: seq<Outcome>) {
    && |os| == |ms| && 1 <= |gs| <= |ms| + 1
    && forall i :: 0 <= i < |gs| - 1 ==> After(maxRetries, gs[i], gs[i + 1], ms[i], decode, os[i])
  }

  /** A batch works on its messages in turn, up to and including the first that throws, and ends normally exactly when
      none does. */
  ghost predicate Passed(maxRetries: nat, g: Group, h: Group, done: bool, gs: seq<Group>, ms: seq<Message>,
                         decode: string -> Decoded, os: seq<Outcome>)
    requires |os| == |ms|
  {
    && Passes(maxRetries, gs, ms, decode, os) && gs[0] == g && gs[|gs| - 1] == h
    && done == Reached(maxRetries, ms, decode, os, |ms|)
    && (|gs| == |ms| + 1 || (|gs| >= 2 && Stops(maxRetries, ms[|gs| - 2], decode, os[|gs| - 2])))
    && forall i :: 0 <= i < |gs| - 2 ==> !Stops(maxRetries, ms[i], decode, os[i])
  }

  lemma PassedOnce(maxRetries: nat, g: Group, h: Group, ms: seq<Message>, decode: string -> Decoded, os: seq<Outcome>)
    requires |os| == |ms| && ms != [] && After(maxRetries, g, h, ms[0], decode, os[0])
    requires Stops(maxRetries, ms[0], decode, os[0])
    ensures Passed(maxRetries, g, h, false, [g, h], ms, decode, os)
  {
    hide After, Stops;
  }

  lemma PassedMore(maxRetries: nat, g: Group, h: Group, k: Group, done: bool, rest: seq<Group>, ms: seq<Message>,
                   decode: string -> Decoded, os: seq<Outcome>)
    requires |os| == |ms| && ms != [] && After(maxRetries, g, h, ms[0], decode, os[0])
    requires !Stops(maxRetries, ms[0], decode, os[0])
    requires Passed(maxRetries, h, k, done, rest, ms[1..], decode, os[1..])
    ensures Passed(maxRetries, g, k, done, [g] + rest, ms, decode, os)
  {
    hide After, Stops;
    var gs := [g] + rest;
    forall i | 0 <= i < |gs| - 1 ensures After(maxRetries, gs[i], gs[i + 1], ms[i], decode, os[i]) {
      if i > 0 {
        assert gs[i] == rest[i - 1] && gs[i + 1] == rest[i];
        assert ms[i] == ms[1..][i - 1] && os[i] == os[1..][i - 1];
      }
    }
    forall i | 0 <= i < |gs| - 2 ensures !Stops(maxRetries, ms[i], decode, os[i]) {
      if i > 0 { assert ms[i] == ms[1..][i - 1] && os[i] == os[1..][i - 1]; }
    }
    assert forall i :: 0 < i < |ms| ==> ms[i] == ms[1..][i - 1] && os[i] == os[1..][i - 1];
  }

  lemma {:induction false} BatchIs(maxRetries: nat, g: Group, ms: seq<Message>, decode: string -> Decoded,
                                   os: seq<Outcome>)
    returns (gs: seq<Group>)
    requires Scheduled(g, ms, decode, os) && Scripted(g, Ids(ms), os)
    ensures var (h, done) := DriveAll(maxRetries, g, Ids(ms), os);
            Passed(maxRetries, g, h, done, gs, ms, decode, os)
    decreases |ms|
  {
    if ms == [] {
      gs := [g];
    } else {
      hide Drive, After, Stops, Passed;
      MessageIs(maxRetries, g, ms[0], decode, os[0]);
      var (h, on) := Drive(maxRetries, g, FirstAt(g, ms[0].id), os[0]);
      DriveKeepsKinds(maxRetries, g, FirstAt(g, ms[0].id), os[0]);
      assert Ids(ms)[0] == ms[0].id && Ids(ms)[1..] == Ids(ms[1..]);
      if on {
        var rest := BatchIs(maxRetries, h, ms[1..], decode, os[1..]);
        var (k, done) := DriveAll(maxRetries, h, Ids(ms[1..]), os[1..]);
        PassedMore(maxRetries, g, h, k, done, rest, ms, decode, os);
        gs := [g] + rest;
      } else {
        PassedOnce(maxRetries, g, h, ms, decode, os);
        gs := [g, h];
      }
    }
  }

  // ---- A batch while Redis and the dead-letter callback work ----

  ghost predicate Answering(os: seq<Outcome>) {
    forall i :: 0 <= i < |os| ==> os[i].handledAck == AckOk && os[i].dlq == DlqOk && os[i].lastAck == AckOk
  }

  ghost predicate Distinct(ids: seq<Id>) {
    forall i, j :: 0 <= i < j < |ids| ==> ids[i] != ids[j]
  }

  /** What one message of such a batch comes to. A shutdown marker is acknowledged and nothing else. A message without a
      payload, or with one that is empty or not accepted, goes to the dead-letter callback without its handler being
      called. Any other has its handler called once: it is acknowledged if the handler succeeds, stays pending if the
      failure may be tried again and deliveries are left, and goes to the dead-letter callback otherwise. */
  ghost predicate Settled(maxRetries: nat, g: Group, h: Group, m: Message, decode: string -> Decoded, o: Outcome) {
    var f, id := Fields(m.rawFields), m.id;
    var count := if o.counted >= 1 then o.counted else 1;
    if "__shutdown__" in f && f["__shutdown__"] == "1" then
      && RunsOf(h, id) == RunsOf(g, id) && (id in h.handled <==> id in g.handled) && (id in h.dead <==> id in g.dead)
      && id !in h.pending && (id in h.acked <==> id in g.acked || id in g.pending)
    else if "payload" !in f || f["payload"] == "" || decode(f["payload"]) != Accepted then
      && RunsOf(h, id) == RunsOf(g, id) && (id in h.handled <==> id in g.handled) && id in h.dead
      && id !in h.pending && (id in h.acked <==> id in g.acked || id in g.pending)
    else
      && RunsOf(h, id) == RunsOf(g, id) + 1
      && (id in h.handled <==> id in g.handled || o.handler == HandlerOk)
      && if o.handler == HandlerFailed(false) && count < maxRetries then
           && (id in h.dead <==> id in g.dead) && (id in h.acked <==> id in g.acked)
           && (id in h.pending <==> id in g.pending) && (id in g.pending ==> h.pending[id] == g.pending[id])
         else
           && (id in h.dead <==> id in g.dead || o.handler != HandlerOk)
           && id !in h.pending && (id in h.acked <==> id in g.acked || id in g.pending)
  }

  /** Nothing happened to this entry. */
  ghost predicate Untouched(g: Group, h: Group, id: Id) {
    && RunsOf(h, id) == RunsOf(g, id) && (id in h.handled <==> id in g.handled) && (id in h.dead <==> id in g.dead)
    && (id in h.acked <==> id in g.acked) && (id in h.pending <==> id in g.pending)
    && (id in g.pending ==> h.pending[id] == g.pending[id])
  }

  lemma OneSettled(maxRetries: nat, g: Group, h: Group, m: Message, decode: string -> Decoded, o: Outcome)
    requires o.Ok() && After(maxRetries, g, h, m, decode, o)
    requires o.handledAck == AckOk && o.dlq == DlqOk && o.lastAck == AckOk
    ensures Settled(maxRetries, g, h, m, decode, o) && !Stops(maxRetries, m, decode, o)
    ensures forall id: Id :: id != m.id ==> Untouched(g, h, id)
  {
  }

  lemma SettledLater(maxRetries: nat, g: Group, h: Group, k: Group, m: Message, decode: string -> Decoded, o: Outcome)
    requires Settled(maxRetries, g, h, m, decode, o) && Untouched(h, k, m.id)
    ensures Settled(maxRetries, g, k, m, decode, o)
  {
  }

  lemma SettledBefore(maxRetries: nat, g: Group, h: Group, k: Group, m: Message, decode: string -> Decoded, o: Outcome)
    requires Untouched(g, h, m.id) && Settled(maxRetries, h, k, m, decode, o)
    ensures Settled(maxRetries, g, k, m, decode, o)
  {
  }

  /** Every message of the batch is settled so, and no other entry is touched. */
  lemma {:induction false} WorkingBatch(maxRetries: nat, g: Group, ms: seq<Message>, decode: string -> Decoded,
                                        os: seq<Outcome>)
    requires Scheduled(g, ms, decode, os) && Scripted(g, Ids(ms), os) && Answering(os) && Distinct(Ids(ms))
    ensures var (h, done) := DriveAll(maxRetries, g, Ids(ms), os);
            && done
            && (forall i :: 0 <= i < |ms| ==> Settled(maxRetries, g, h, ms[i], decode, os[i]))
            && (forall id: Id :: id !in Ids(ms) ==> Untouched(g, h, id))
    decreases |ms|
  {
    if ms != [] {
      hide Drive, After, Stops, Settled, Untouched;
      MessageIs(maxRetries, g, ms[0], decode, os[0]);
      var h := Drive(maxRetries, g, FirstAt(g, ms[0].id), os[0]).0;
      DriveKeepsKinds(maxRetries, g, FirstAt(g, ms[0].id), os[0]);
      assert Ids(ms)[0] == ms[0].id && Ids(ms)[1..] == Ids(ms[1..]);
      OneSettled(maxRetries, g, h, ms[0], decode, os[0]);
      WorkingBatch(maxRetries, h, ms[1..], decode, os[1..]);
      var k := DriveAll(maxRetries, g, Ids(ms), os).0;
      SettledLater(maxRetries, g, h, k, ms[0], decode, os[0]);
      forall i | 0 <= i < |ms| ensures Settled(maxRetries, g, k, ms[i], decode, os[i]) {
        if i > 0 {
          assert ms[1..][i - 1] == ms[i] && Ids(ms)[0] != Ids(ms)[i];
          SettledBefore(maxRetries, g, h, k, ms[i], decode, os[i]);
        }
      }
      forall id: Id | id !in Ids(ms) ensures Untouched(g, k, id) {
        UntouchedTwice(g, h, k, id);
      }
    } else {
      forall id: Id ensures Untouched(g, g, id) {}
    }
  }

  lemma UntouchedTwice(g: Group, h: Group, k: Group, id: Id)
    requires Untouched(g, h, id) && Untouched(h, k, id)
    ensures Untouched(g, k, id)
  {
  }

  /** What a batch leaves: it goes through its messages in turn, up to and including the first that throws, and ends
      normally if none does; while Redis and the callback work, every message is settled and nothing else is touched. */
  ghost predicate BatchDone(maxRetries: nat, g: Group, h: Group, done: bool, ms: seq<Message>,
                            decode: string -> Decoded, os: seq<Outcome>)
    requires |os| == |ms|
  {
    && (exists gs :: Passed(maxRetries, g, h, done, gs, ms, decode, os))
    && (Answering(os) && Distinct(Ids(ms)) ==>
          && done
          && (forall i :: 0 <= i < |ms| ==> Settled(maxRetries, g, h, ms[i], decode, os[i]))
          && (forall id: Id :: id !in Ids(ms) ==> Untouched(g, h, id)))
  }

  lemma BatchIsDone(maxRetries: nat, g: Group, ms: seq<Message>, decode: string -> Decoded, os: seq<Outcome>)
    requires Scheduled(g, ms, decode, os) && Scripted(g, Ids(ms), os)
    ensures var (h, done) := DriveAll(maxRetries, g, Ids(ms), os);
            BatchDone(maxRetries, g, h, done, ms, decode, os)
  {
    hide DriveAll, Passed, Settled, Untouched;
    var gs := BatchIs(maxRetries, g, ms, decode, os);
    if Answering(os) && Distinct(Ids(ms)) { WorkingBatch(maxRetries, g, ms, decode, os); }
  }
}
