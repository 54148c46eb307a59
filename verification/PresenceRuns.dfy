/** Presence against the session tables: who is listed, and how ending sessions takes a user offline. */
module PresenceRuns {
  import opened Wrappers
  import opened UserEntity
  import opened Accounts
  import opened AccountInvariants
  import opened StepFrames
  import opened SessionTheorems
  import opened LikeSearch
  import opened Presence

  /** Exactly one row for each active, unarchived account of the role, other than the requester, seen within the history
      window, whose text contains the search text up to case. An empty search text lists them all. */
  lemma ListedIff(s: State, seen: Seen, role: Role, requester: UserId, q: string,
                  text: UserId -> string, fold: char -> char, now: Time, u: UserId)
    requires Folding(fold)
    ensures var rows := Candidates(s, seen, role, requester, q, text, fold, now);
            && OneRowPerSubject(rows)
            && ((exists a :: a in rows && a.subject == u) <==>
                  && Available(s.users, u) && s.users[u].role == role && u != requester
                  && u in seen && seen[u] >= now - 604_800_000
                  && Occurs(Fold(fold, q), Fold(fold, text(u))))
            && (forall a :: a in rows && a.subject == u ==>
                a.online == IsOnline(seen, s.tokens, u, now) && a.lastActivity == seen[u])
  {
    SearchIsLiteral(fold, q, text(u));
    if q == "" { assert OccursAt(Fold(fold, q), Fold(fold, text(u)), 0); }
    var rows := Candidates(s, seen, role, requester, q, text, fold, now);
    hide ILike, Fold, Occurs;
    if Available(s.users, u) && s.users[u].role == role && u != requester && u in seen && seen[u] >= now - HISTORY_MS
       && (q == "" || ILike(fold, "%" + (Escape(q) + "%"), text(u))) {
      assert Row(u, IsOnline(seen, s.tokens, u, now), seen[u]) in rows;
    }
  }

  /** In a reachable state a live session is all a heartbeat needs, for it belongs to an active account, and being an
      administrator is all the view needs beside it. */
  lemma WhoIsLetIn(s: State, u: UserId, now: Time)
    requires Inv(s)
    ensures var live := exists h :: h in s.tokens && s.tokens[h].user == u && !s.tokens[h].revoked
                                    && s.tokens[h].expiresAt > now;
            && (Eligible(s.users, s.tokens, u, now) <==> live)
            && (CanView(s.users, s.tokens, u, now) <==> live && s.users[u].role == Admin)
  {
    if h :| h in s.tokens && s.tokens[h].user == u && !s.tokens[h].revoked && s.tokens[h].expiresAt > now {
      assert Available(s.users, u);
    }
  }

  /** Only a granted login opens a session for an existing account that has none. */
  ghost predicate LogsIn(cfg: Config, s: State, c: Call, u: UserId) {
    c.op.Login? && ByEmail(s.users, c.op.email) == Some(u) && Step(cfg, s, c).0.Granted?
  }

  lemma StaysOut(cfg: Config, s: State, c: Call, u: UserId)
    requires Inv(s) && Legal(s, c) && u in s.users && AllRevoked(s, u) && !LogsIn(cfg, s, c, u)
    ensures AllRevoked(Step(cfg, s, c).1, u) && u in Step(cfg, s, c).1.users
  {
    var t := Step(cfg, s, c).1;
    StepKeeps(cfg, s, c);
    StepEvolves(cfg, s, c);
    StepIssues(cfg, s, c, u);
    assert forall h :: h in t.tokens && h in s.issued ==> h in s.tokens && t.tokens[h].user == s.tokens[h].user;
    assert forall h :: h in t.tokens ==> h in t.issued && t.issued[h].user == t.tokens[h].user;
  }

  /** Whom a newly issued token can belong to. */
  lemma StepIssues(cfg: Config, s: State, c: Call, u: UserId)
    requires Inv(s) && Legal(s, c) && u in s.users && AllRevoked(s, u) && !LogsIn(cfg, s, c, u)
    ensures forall h :: h in Step(cfg, s, c).1.issued && h !in s.issued ==> Step(cfg, s, c).1.issued[h].user != u
    ensures u in Step(cfg, s, c).1.users
  {
    hide Inv, NewFamily, RevokeRows, OfUser, OfFamily, Create, ByEmailIncludingDeleted;
    if c.op.Login? {
      FoundIsStored(s.users, c.op.email);
      LoginIssues(cfg, s.(clock := c.now), c.op);
    } else if !c.op.AcceptInvitation? && !c.op.Refresh? {
      OthersIssueNothing(cfg, s, c);
    }
  }

  lemma OthersIssueNothing(cfg: Config, s: State, c: Call)
    requires Inv(s) && !c.op.Login? && !c.op.AcceptInvitation? && !c.op.Refresh?
    ensures Step(cfg, s, c).1.issued == s.issued && Step(cfg, s, c).1.users.Keys == s.users.Keys
  {
    hide Inv, RevokeRows, OfUser, OfFamily, StaleTokens, StaleResets, LiveFamilies, ByEmail, Throttled, UseResets,
         NewPassword, SetActiveStep, SoftDeleteStep, RestoreStep;
    ResetOwner(s);
    var s1 := s.(clock := c.now);
    match c.op
    case ResetPassword(r, digest) => if r in s.resets { NewPasswordFrame(s1, s.resets[r].user, digest); }
    case ChangePassword(u, _, digest) => if u in s.users { NewPasswordFrame(s1, u, digest); }
    case SetActive(_, _, _) => AdminFrame(cfg, s1, c.op);
    case SoftDelete(_, _) => AdminFrame(cfg, s1, c.op);
    case Restore(_) => AdminFrame(cfg, s1, c.op);
    case SetForcePasswordChange(_, _) => AdminFrame(cfg, s1, c.op);
    case _ =>
  }

  lemma ResetOwner(s: State)
    requires Inv(s)
    ensures forall r :: r in s.resets ==> s.resets[r].user in s.users
  {
  }

  lemma LoginIssues(cfg: Config, s: State, op: Op)
    requires op.Login?
    ensures var t := LoginStep(cfg, s, op).1;
            && t.users.Keys >= s.users.Keys
            && (LoginStep(cfg, s, op).0.Granted? ==>
                  && ByEmail(s.users, op.email).Some?
                  && t.issued == s.issued[op.hash :=
                                          Issue(|s.issued|, ByEmail(s.users, op.email).value, op.family, op.remember)])
            && (!LoginStep(cfg, s, op).0.Granted? ==> t.issued == s.issued)
  {
  }

  ghost predicate NeverLogsIn(cfg: Config, s: State, calls: seq<Call>, u: UserId)
    decreases |calls|
  {
    calls == [] || (!LogsIn(cfg, s, calls[0], u) && NeverLogsIn(cfg, Step(cfg, s, calls[0]).1, calls[1..], u))
  }

  lemma {:induction false} StaysOutOverRuns(cfg: Config, s: State, calls: seq<Call>, u: UserId)
    requires Inv(s) && LegalRun(cfg, s, calls) && u in s.users && AllRevoked(s, u) && NeverLogsIn(cfg, s, calls, u)
    ensures AllRevoked(Run(cfg, s, calls), u)
    decreases |calls|
  {
    if calls != [] {
      StepKeeps(cfg, s, calls[0]);
      StaysOut(cfg, s, calls[0], u);
      StaysOutOverRuns(cfg, Step(cfg, s, calls[0]).1, calls[1..], u);
    }
  }

  /** A completed password change, suspension or archiving takes the user offline at once and makes the next heartbeat
      refused, whatever the stored instant says, until the account logs in again. */
  lemma EndingSessionsEndsPresence(cfg: Config, s: State, c: Call, u: UserId, calls: seq<Call>, seen: Seen, now: Time)
    requires Inv(s) && Legal(s, c) && EndsAllOf(s, c.op, u) && Step(cfg, s, c).0.Done? && u in s.users
    requires LegalRun(cfg, Step(cfg, s, c).1, calls) && NeverLogsIn(cfg, Step(cfg, s, c).1, calls, u)
    ensures var t := Run(cfg, Step(cfg, s, c).1, calls);
            && !IsOnline(seen, t.tokens, u, now) && !Eligible(t.users, t.tokens, u, now)
            && !CanView(t.users, t.tokens, u, now)
  {
    var s1 := Step(cfg, s, c).1;
    NoSessionAfter(cfg, s, c, u);
    StepKeeps(cfg, s, c);
    KnownAccount(cfg, s, c, u);
    StaysOutOverRuns(cfg, s1, calls, u);
    hide Inv, LegalRun, Run, NeverLogsIn, Step;
  }

  lemma KnownAccount(cfg: Config, s: State, c: Call, u: UserId)
    requires EndsAllOf(s, c.op, u) && u in s.users && Step(cfg, s, c).0.Done?
    ensures u in Step(cfg, s, c).1.users
  {
  }

  // ---- Heartbeats among session calls ----

  datatype Act = Session(call: Call) | Heartbeat(user: UserId, now: Time)

  /** The tables and the stored instants, with two histories: each user's last accepted heartbeat, and every instant
      that was stored for a user, one after the other. */
  datatype Watch = Watch(state: State, seen: Seen, accepted: map<UserId, Time>, stored: map<UserId, seq<Time>>)

  ghost function StoredOf(stored: map<UserId, seq<Time>>, u: UserId): seq<Time> {
    if u in stored then stored[u] else []
  }

  predicate Writes(seen: Seen, u: UserId, now: Time) {
    u !in seen || seen[u] < now - WRITE_COOLDOWN_MS
  }

  ghost predicate Enabled(p: Watch, a: Act) {
    match a
    case Session(c) => Legal(p.state, c)
    case Heartbeat(_, now) => p.state.clock <= now
  }

  ghost function Do(cfg: Config, p: Watch, a: Act): Watch {
    match a
    case Session(c) => p.(state := Step(cfg, p.state, c).1)
    case Heartbeat(u, now) =>
      var (ok, seen) := Observed(p.state.users, p.state.tokens, p.seen, u, now);
      Watch(p.state.(clock := now), seen,
            if ok then p.accepted[u := now] else p.accepted,
            if ok && Writes(p.seen, u, now) then p.stored[u := StoredOf(p.stored, u) + [now]] else p.stored)
  }

  ghost predicate LegalActs(cfg: Config, p: Watch, acts: seq<Act>)
    decreases |acts|
  {
    acts == [] || (Enabled(p, acts[0]) && LegalActs(cfg, Do(cfg, p, acts[0]), acts[1..]))
  }

  ghost function AfterActs(cfg: Config, p: Watch, acts: seq<Act>): Watch
    decreases |acts|
  {
    if acts == [] then p else AfterActs(cfg, Do(cfg, p, acts[0]), acts[1..])
  }

  /** A reachable state of the tables, with instants stored up to now and no heartbeat yet. */
  ghost predicate Starts(p: Watch) {
    && Inv(p.state) && p.accepted == map[] && p.stored.Keys == p.seen.Keys
    && (forall u :: u in p.seen ==> p.seen[u] <= p.state.clock && p.stored[u] == [p.seen[u]])
  }

  ghost predicate FarApart(ts: seq<Time>) {
    forall i, j :: 0 <= i < j < |ts| ==> ts[j] > ts[i] + WRITE_COOLDOWN_MS
  }

  ghost predicate UserOk(p: Watch, u: UserId) {
    && (u in p.seen <==> u in p.stored)
    && (u in p.seen ==>
          p.seen[u] <= p.state.clock && p.stored[u] != [] && p.stored[u][|p.stored[u]| - 1] == p.seen[u]
            && FarApart(p.stored[u]))
    && (u in p.accepted ==>
          u in p.seen && p.accepted[u] - WRITE_COOLDOWN_MS <= p.seen[u] && p.accepted[u] <= p.state.clock)
  }

  ghost predicate WatchOk(p: Watch) {
    Inv(p.state) && forall u: UserId :: UserOk(p, u)
  }

  lemma StartsOk(p: Watch)
    requires Starts(p)
    ensures WatchOk(p)
  {
  }

  lemma OneMoreFar(ts: seq<Time>, now: Time)
    requires FarApart(ts) && (ts != [] ==> ts[|ts| - 1] < now - WRITE_COOLDOWN_MS)
    ensures FarApart(ts + [now])
  {
    assert forall i :: 0 <= i < |ts| - 1 ==> ts[|ts| - 1] > ts[i] + WRITE_COOLDOWN_MS;
  }

  lemma BeatKeeps(cfg: Config, p: Watch, u: UserId, now: Time, v: UserId)
    requires UserOk(p, v) && p.state.clock <= now
    ensures UserOk(Do(cfg, p, Heartbeat(u, now)), v)
  {
    hide Eligible, FarApart;
    if u == v && Writes(p.seen, u, now) {
      if u !in p.seen { NoneFar(); }
      OneMoreFar(StoredOf(p.stored, u), now);
    }
  }

  lemma NoneFar()
    ensures FarApart([])
  {
  }

  lemma ActKeeps(cfg: Config, p: Watch, a: Act)
    requires WatchOk(p) && Enabled(p, a)
    ensures WatchOk(Do(cfg, p, a))
  {
    hide Inv, UserOk, Legal;
    var q := Do(cfg, p, a);
    match a {
      case Session(c) =>
        StepKeeps(cfg, p.state, c);
        InvResets(p.state);
        StepClock(cfg, p.state, c);
        forall u: UserId ensures UserOk(q, u) { LaterUserOk(p, q, u); }
      case Heartbeat(u, now) =>
        EventsDoNotMatter(p.state, p.state.(clock := now));
        forall v: UserId ensures UserOk(q, v) { BeatKeeps(cfg, p, u, now, v); }
    }
  }

  lemma InvResets(s: State)
    requires Inv(s)
    ensures ResetsOwned(s)
  {
  }

  lemma LaterUserOk(p: Watch, q: Watch, u: UserId)
    requires UserOk(p, u) && q == p.(state := q.state) && p.state.clock <= q.state.clock
    ensures UserOk(q, u)
  {
  }

  lemma {:induction false} ActsKeep(cfg: Config, p: Watch, acts: seq<Act>)
    requires WatchOk(p) && LegalActs(cfg, p, acts)
    ensures WatchOk(AfterActs(cfg, p, acts))
    decreases |acts|
  {
    hide WatchOk, Enabled, Do;
    if acts != [] {
      ActKeeps(cfg, p, acts[0]);
      ActsKeep(cfg, Do(cfg, p, acts[0]), acts[1..]);
    }
  }

  /** Over any run of session calls and heartbeats, instants stored for a user are more than 45 s apart, the last of
      them is the one in the table, and it is at most 45 s behind the user's last accepted heartbeat. */
  lemma StoredFarApart(cfg: Config, p: Watch, acts: seq<Act>, u: UserId)
    requires Starts(p) && LegalActs(cfg, p, acts)
    ensures var q := AfterActs(cfg, p, acts);
            && FarApart(StoredOf(q.stored, u))
            && (u in q.seen ==> u in q.stored && q.stored[u] != [] && q.stored[u][|q.stored[u]| - 1] == q.seen[u])
            && (u in q.accepted ==> u in q.seen && q.accepted[u] - WRITE_COOLDOWN_MS <= q.seen[u] <= q.state.clock)
  {
    StartsOk(p);
    ActsKeep(cfg, p, acts);
    assert UserOk(AfterActs(cfg, p, acts), u);
  }

  /** The moment after a run at which this much time has not passed since the user's last accepted heartbeat. */
  ghost predicate SoonAfter(q: Watch, u: UserId, t: Time, grace: int) {
    u in q.accepted && q.state.clock <= t < q.accepted[u] + grace
  }

  /** After any run of session calls and heartbeats a user with a live session is online this long after an accepted
      one. */
  ghost predicate Guaranteed(cfg: Config, grace: int) {
    forall p, acts, u: UserId, t: Time ::
      Starts(p) && LegalActs(cfg, p, acts) && SoonAfter(AfterActs(cfg, p, acts), u, t, grace)
      && HasLiveSession(AfterActs(cfg, p, acts).state.tokens, u, t)
      ==> IsOnline(AfterActs(cfg, p, acts).seen, AfterActs(cfg, p, acts).state.tokens, u, t)
  }

  /** A user with a live session is online at every instant less than 105 s after an accepted heartbeat, whatever else
      was called, so heartbeats less than that apart keep the user online without a break; and no longer time can be
      promised. */
  lemma OnlineBetweenBeats(cfg: Config, grace: int)
    ensures Guaranteed(cfg, grace) <==> grace <= 105_000
  {
    if grace <= ONLINE_MS - WRITE_COOLDOWN_MS {
      forall p, acts, u: UserId, t: Time
        | Starts(p) && LegalActs(cfg, p, acts) && SoonAfter(AfterActs(cfg, p, acts), u, t, grace)
          && HasLiveSession(AfterActs(cfg, p, acts).state.tokens, u, t)
        ensures IsOnline(AfterActs(cfg, p, acts).seen, AfterActs(cfg, p, acts).state.tokens, u, t)
      {
        StoredFarApart(cfg, p, acts, u);
      }
    } else {
      var p, acts := TwoBeats(cfg);
      var q := AfterActs(cfg, p, acts);
      assert SoonAfter(q, 0, ONLINE_MS, grace) && !IsOnline(q.seen, q.state.tokens, 0, ONLINE_MS);
    }
  }

  lemma OneBeat(cfg: Config, p: Watch, now: Time)
    requires p.state == OneSession().(clock := p.state.clock) && p.state.clock <= now <= ONLINE_MS
    ensures Enabled(p, Heartbeat(0, now))
    ensures var q := Do(cfg, p, Heartbeat(0, now));
            && q.state == OneSession().(clock := now) && 0 in q.accepted && q.accepted[0] == now
            && q.seen == p.seen[0 := Beat(SeenOf(p.seen, 0), now)]
  {
    assert Live(p.state.tokens, 0) && HasLiveSession(p.state.tokens, 0, now);
    hide HasLiveSession, Beat, Writes;
  }

  lemma OneSessionStarts()
    ensures Starts(Watch(OneSession(), map[], map[], map[]))
    ensures OneSession().clock == 0 && HasLiveSession(OneSession().tokens, 0, ONLINE_MS)
  {
    OneSessionOk();
    hide Inv;
    assert Live(OneSession().tokens, 0);
  }

  /** The second of two heartbeats 45 s apart stores nothing, so the user drops out 105 s after it. */
  lemma TwoBeats(cfg: Config) returns (p: Watch, acts: seq<Act>)
    ensures Starts(p) && LegalActs(cfg, p, acts)
    ensures var q := AfterActs(cfg, p, acts);
            && q.state.clock == WRITE_COOLDOWN_MS && q.seen == map[0 := 0] && 0 in q.accepted
            && q.accepted[0] == WRITE_COOLDOWN_MS
            && HasLiveSession(q.state.tokens, 0, ONLINE_MS)
  {
    hide OneSession, Do, Enabled, Inv, HasLiveSession, Starts;
    p := Watch(OneSession(), map[], map[], map[]);
    OneSessionStarts();
    var first, second := Heartbeat(0, 0), Heartbeat(0, WRITE_COOLDOWN_MS);
    acts := [first, second];
    OneBeat(cfg, p, 0);
    var q := Do(cfg, p, first);
    OneBeat(cfg, q, WRITE_COOLDOWN_MS);
    TwoActs(cfg, p, first, second);
  }

  lemma TwoActs(cfg: Config, p: Watch, a: Act, b: Act)
    requires Enabled(p, a) && Enabled(Do(cfg, p, a), b)
    ensures LegalActs(cfg, p, [a, b]) && AfterActs(cfg, p, [a, b]) == Do(cfg, Do(cfg, p, a), b)
  {
    hide Enabled, Do;
    var q := Do(cfg, p, a);
    var r := Do(cfg, q, b);
    assert [a, b][1..] == [b] && [b][1..] == [];
    assert LegalActs(cfg, r, []) && LegalActs(cfg, q, [b]);
    assert AfterActs(cfg, q, [b]) == AfterActs(cfg, r, []) == r;
  }

  predicate Live(tokens: map<TokenHash, TokenRow>, h: TokenHash) {
    h in tokens && tokens[h].user == 0 && !tokens[h].revoked && tokens[h].expiresAt > ONLINE_MS
  }

  /** One active account with one session that outlasts the online window. */
  ghost function OneSession(): State {
    State(0, map[0 := User("a@b", Admin, None, 0, true, 0, None, false, None, None)],
          map[0 := TokenRow(0, 0, ONLINE_MS + 1, false, false, 0)], map[], [], map[0 := Issue(0, 0, 0, false)], {},
              map[])
  }

  lemma OneSessionOk()
    ensures Inv(OneSession())
  {
    OneSessionLive();
    hide LiveOk;
    assert "a@b"[1] == '@';
    assert |OneSession().issued| == 1;
  }

  lemma OneSessionLive()
    ensures LiveOk(OneSession())
  {
    assert Newest(OneSession(), 0);
  }
}
