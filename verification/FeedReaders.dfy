/** What a consumer that reads the whole identity stream last hears of an account, against what the calls wrote. */
module FeedReaders {
  import opened Wrappers
  import opened UserEntity
  import opened Accounts
  import opened AccountInvariants
  import opened Lifecycle
  import S = IdentityStream
  import O = Outbox

  /** The events behind the rows of the outbox. */
  function Said(ids: seq<O.Id>, what: O.Id -> Event): (events: seq<Event>)
    ensures |events| == |ids| && forall i :: 0 <= i < |ids| ==> events[i] == what(ids[i])
  {
    seq(|ids|, i requires 0 <= i < |ids| => what(ids[i]))
  }

  /** Saying each event over and over does not change the last word on an account. */
  lemma {:induction false} LastWordOfRepeats(stream: seq<O.Id>, written: seq<O.Id>, k: nat, what: O.Id -> Event,
                                             u: UserId)
    requires S.Repeats(stream, written, k) && k <= |written|
    ensures LastKind(Said(stream, what), u) == LastKind(Said(written[..k], what), u)
    decreases |stream|
  {
    if stream != [] {
      var before, heard := stream[..|stream| - 1], Said(stream, what);
      assert heard[..|heard| - 1] == Said(before, what);
      var log := Said(written[..k], what);
      assert log[..k - 1] == Said(written[..k - 1], what) by { assert written[..k][..k - 1] == written[..k - 1]; }
      if S.Repeats(before, written, k) {
        LastWordOfRepeats(before, written, k, what, u);
      } else {
        LastWordOfRepeats(before, written, k - 1, what, u);
      }
    }
  }

  /** What the reader hears agrees with the account. */
  ghost predicate ReaderAgrees(s: State, stream: seq<O.Id>, what: O.Id -> Event, u: UserId) {
    u in s.users ==> (LastKind(Said(stream, what), u) == Some(Deleted) <==> s.users[u].deletedAt.Some?)
  }

  /** The events of any run of service calls, carried by one worker that postpones nothing and written at distinct
      instants, once all of them are published: a reader of the stream agrees with the account exactly when it was not
      suspended while archived since it was last archived or restored. */
  lemma ReaderAgreesIff(cfg: Config, s: State, calls: seq<Call>, u: UserId, start: O.Time, es: seq<O.Event>,
                        what: O.Id -> Event)
    requires Initial(cfg, s) && LegalRun(cfg, s, calls) && FeedStarts(s, u)
    requires O.LegalRun(S.EmptyFeed(start).sys, es) && S.AllowedRun(1, false, false, S.EmptyFeed(start).sys, es)
    requires var f := S.After(S.EmptyFeed(start), es);
             S.Drained(f.sys.store) && Said(f.written, what) == Run(cfg, s, calls).events
    ensures ReaderAgrees(Run(cfg, s, calls), S.After(S.EmptyFeed(start), es).stream, what, u)
       <==> !SuspendedSince(cfg, s, calls, u, false)
  {
    hide Inv, Initial, LegalRun, O.LegalRun, S.AllowedRun, S.After, S.Repeats, S.Drained, Said, LastKind;
    var f := S.After(S.EmptyFeed(start), es);
    InitialOk(cfg, s);
    FeedAgreesOverRuns(cfg, s, calls, u);
    var k := S.StreamRepeatsLog(start, es);
    assert f.written[..k] == f.written;
    LastWordOfRepeats(f.stream, f.written, k, what, u);
  }

  /** One failed publish is enough to break it: an account is activated, then archived; the event of the first call is
      published after that of the second, and is the last word the reader ever hears. */
  lemma DeletionOvertaken(cfg: Config, n: nat, ties: bool)
    returns (s: State, calls: seq<Call>, es: seq<O.Event>, what: O.Id -> Event)
    requires cfg.Valid() && n >= 1
    ensures Initial(cfg, s) && LegalRun(cfg, s, calls) && FeedAgrees(Run(cfg, s, calls), 0)
    ensures O.LegalRun(S.EmptyFeed(0).sys, es) && S.AllowedRun(n, true, ties, S.EmptyFeed(0).sys, es)
    ensures var f, t := S.After(S.EmptyFeed(0), es), Run(cfg, s, calls);
            && S.Drained(f.sys.store) && Said(f.written, what) == t.events
            && 0 in t.users && t.users[0].deletedAt.Some? && LastKind(Said(f.stream, what), 0) == Some(Updated)
  {
    s, calls := ActivatedThenArchived(cfg);
    es := S.Overtaken(n, ties);
    what := id => if id == 0 then Event(Updated, 0) else Event(Deleted, 0);
    assert Said([0, 1], what) == [Event(Updated, 0), Event(Deleted, 0)];
    assert Said([1, 0], what) == [Event(Deleted, 0), Event(Updated, 0)];
  }

  lemma ActivatedThenArchived(cfg: Config) returns (s: State, calls: seq<Call>)
    requires cfg.Valid()
    ensures Initial(cfg, s) && LegalRun(cfg, s, calls)
    ensures var t := Run(cfg, s, calls);
            && t.events == [Event(Updated, 0), Event(Deleted, 0)] && FeedAgrees(t, 0)
            && 0 in t.users && t.users[0].deletedAt.Some?
  {
    var email := "a@b";
    assert email[1] == '@';
    var user := User(email, Worker, None, 0, true, 0, None, false, None, None);
    s := State(0, map[0 := user], map[], map[], [], map[], {}, map[]);
    var activate, archive := Call(0, SetActive(None, 0, true)), Call(0, SoftDelete(None, 0));
    calls := [activate, archive];
    AdminWrites(cfg, s, activate);
    var s1 := Step(cfg, s, activate).1;
    InitialOk(cfg, s);
    StepKeeps(cfg, s, activate);
    AdminWrites(cfg, s1, archive);
    var s2 := Step(cfg, s1, archive).1;
    hide Step;
    assert calls[1..] == [archive] && calls[1..][1..] == [];
    assert LegalRun(cfg, s2, []) && LegalRun(cfg, s1, [archive]);
    assert Run(cfg, s, calls) == Run(cfg, s1, [archive]) == Run(cfg, s2, []) == s2;
    assert s2.events == [Event(Updated, 0), Event(Deleted, 0)];
  }
}
