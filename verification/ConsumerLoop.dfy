/** The consumer's message loop as it runs, proved to be the await-by-await machine left alone. */
module ConsumerLoop {
  import opened StreamFields
  import opened StreamConsumer
  import opened MessageOutcomes

  class RedisStreamConsumer {
    const maxRetries: nat
    const decode: string -> Decoded
    /** The group this consumer works on, with the completed handler and dead-letter calls. */
    var group: Group

    constructor (maxRetries: nat, decode: string -> Decoded, group: Group)
      ensures this.maxRetries == maxRetries && this.decode == decode && this.group == group
    {
      this.maxRetries, this.decode, this.group := maxRetries, decode, group;
    }

    ghost predicate Readable(ms: seq<Message>, os: seq<Outcome>)
      reads this
    {
      Scheduled(group, ms, decode, os)
    }

    method Ack(id: Id, r: Result) returns (threw: bool)
      requires r.AckOk? || r.AckFailed?
      modifies this
      ensures threw == r.AckFailed?
      ensures group == if r == AckOk || r == AckFailed(true) then StreamConsumer.Ack(old(group), id) else old(group)
    {
      if (r.AckOk? || r.applied) && id in group.pending {
        group := group.(pending := group.pending - {id}, acked := group.acked + {id});
      }
      threw := r.AckFailed?;
    }

    /** A count that is missing, not positive or unreadable is taken as 1. */
    method GetDeliveryCount(counted: nat) returns (n: nat)
      ensures n >= 1 && (counted >= 1 ==> n == counted) && (counted == 0 ==> n == 1)
    {
      n := 1;
      if counted > 0 { n := counted; }
    }

    /** Hands the entry to the dead-letter callback, then acknowledges it. */
    method DeadLetterAndAck(id: Id, o: Outcome) returns (threw: bool)
      requires o.Ok()
      modifies this
      ensures (group, !threw) == Drive(maxRetries, old(group), ToDlq(id), o)
    {
      assert o.For(ToDlq(id)) == o.dlq && o.For(AckDlq(id)) == o.lastAck;
      if o.dlq.DlqFailed? { return true; }
      group := group.(dead := group.dead + {id});
      assert Drive(maxRetries, old(group), ToDlq(id), o) == Drive(maxRetries, group, AckDlq(id), o);
      ghost var g1 := group;
      threw := Ack(id, o.lastAck);
      assert group == Effect(g1, AckDlq(id), o.lastAck);
      if !threw {
        assert Drive(maxRetries, g1, AckDlq(id), o) == Drive(maxRetries, group, Next, o);
      }
    }

    /** The handler and its acknowledgement share one try block. */
    method HandleAndAck(id: Id, o: Outcome) returns (threw: bool)
      requires o.Ok()
      modifies this
      ensures (group, !threw) == Drive(maxRetries, old(group), Counting(id), o)
    {
      var n := GetDeliveryCount(o.counted);
      ghost var g0 := group;
      assert Drive(maxRetries, g0, Counting(id), o) == Drive(maxRetries, g0, Handling(id, n), o);
      var caught, nonRetryable := false, false;
      group := group.(runs := group.runs[id := RunsOf(group, id) + 1]);
      if o.handler.HandlerOk? {
        group := group.(handled := group.handled + {id});
        ghost var g1 := group;
        assert Drive(maxRetries, g0, Handling(id, n), o) == Drive(maxRetries, g1, AckHandled(id, n), o);
        caught := Ack(id, o.handledAck);
        assert group == Effect(g1, AckHandled(id, n), o.handledAck);
        assert Drive(maxRetries, g1, AckHandled(id, n), o)
            == Drive(maxRetries, group, Resume(maxRetries, Local([], AckHandled(id, n)), o.handledAck).at, o);
      } else {
        caught, nonRetryable := true, o.handler.nonRetryable;
        assert Drive(maxRetries, g0, Handling(id, n), o)
            == Drive(maxRetries, group, Resume(maxRetries, Local([], Handling(id, n)), o.handler).at, o);
      }
      threw := false;
      if caught {
        var shouldRetry := !nonRetryable && n < maxRetries;
        if !shouldRetry {
          threw := DeadLetterAndAck(id, o);
        }
      }
    }

    method ProcessMessages(messages: seq<Message>, os: seq<Outcome>) returns (done: bool)
      requires Readable(messages, os)
      modifies this
      ensures Scripted(old(group), Ids(messages), os)
      ensures (group, done) == DriveAll(maxRetries, old(group), Ids(messages), os)
      ensures BatchDone(maxRetries, old(group), group, done, messages, decode, os)
    {
      ghost var ids := Ids(messages);
      ghost var g0 := group;
      hide BatchDone;
      BatchIsDone(maxRetries, g0, messages, decode, os);
      for i := 0 to |messages|
        invariant group.kinds == g0.kinds
        invariant Scripted(group, ids[i..], os[i..])
        invariant DriveAll(maxRetries, group, ids[i..], os[i..]) == DriveAll(maxRetries, g0, ids, os)
      {
        var id, o := messages[i].id, os[i];
        ghost var g := group;
        assert ids[i..][0] == id && os[i..][0] == o && ids[i..][1..] == ids[i + 1..] && os[i..][1..] == os[i + 1..];
        DriveKeepsKinds(maxRetries, g, FirstAt(g, id), o);
        var threw;
        var fieldMap := ParseStreamFields(messages[i].rawFields);
        if "__shutdown__" in fieldMap && fieldMap["__shutdown__"] == "1" {
          threw := Ack(id, o.lastAck);
          assert group == Effect(g, AckShutdown(id), o.lastAck);
          if !threw { assert Drive(maxRetries, g, AckShutdown(id), o) == Drive(maxRetries, group, Next, o); }
        } else if "payload" !in fieldMap || fieldMap["payload"] == "" {
          threw := DeadLetterAndAck(id, o);
        } else if decode(fieldMap["payload"]) != Accepted {
          threw := DeadLetterAndAck(id, o);
        } else {
          threw := HandleAndAck(id, o);
        }
        assert (group, !threw) == Drive(maxRetries, g, FirstAt(g, id), o);
        if threw { return false; }
      }
      return true;
    }

    /** XAUTOCLAIM, then the loop; whatever it throws is swallowed. */
    method ReclaimPending(messages: seq<Message>, os: seq<Outcome>, lost: bool)
      requires Readable(messages, os) && forall i :: 0 <= i < |messages| ==> messages[i].id in group.pending
      modifies this
      ensures group == if lost then Claimed(old(group), Ids(messages))
                       else DriveAll(maxRetries, Claimed(old(group), Ids(messages)), Ids(messages), os).0
    {
      group := Claimed(group, Ids(messages));
      if !lost {
        var done := ProcessMessages(messages, os);
      }
    }

    /** XREADGROUP for the next entries of the stream, then the loop. */
    method ReadNext(messages: seq<Message>, os: seq<Outcome>, lost: bool) returns (done: bool)
      requires Readable(messages, os) && group.delivered + |messages| <= |group.kinds|
      requires Ids(messages) == Range(group.delivered, |messages|)
      modifies this
      ensures lost ==> group == Delivered(old(group), |messages|) && !done
      ensures !lost ==> (group, done) == DriveAll(maxRetries, Delivered(old(group), |messages|), Ids(messages), os)
    {
      group := Delivered(group, |messages|);
      if lost { return false; }
      done := ProcessMessages(messages, os);
    }
  }
}
