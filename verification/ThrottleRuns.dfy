/** The reset links of one account, as the service's table holds them, are the rows of the throttle machine: the
    promises about that machine are promises about the service. */
module ThrottleRuns {
  import opened UserEntity
  import opened Accounts
  import opened AccountInvariants
  import opened StepFrames
  import R = ResetThrottle

  type Resets = map<ResetHash, ResetRow>

  function PolicyOf(cfg: Config, retentionMs: nat): R.Policy
    requires cfg.Valid()
  {
    R.Policy(cfg.minIntervalMs, cfg.maxPerDay, cfg.resetTtlMs, retentionMs)
  }

  // ---- Rows in order of insertion ----

  ghost predicate Distinct(keys: seq<ResetHash>) {
    forall i, j :: 0 <= i < j < |keys| ==> keys[i] != keys[j]
  }

  /** The links of the account, each once. */
  ghost predicate Lists(resets: Resets, u: UserId, keys: seq<ResetHash>) {
    Distinct(keys) && forall r: ResetHash :: r in keys <==> r in LinksOf(resets, u)
  }

  function RowOf(row: ResetRow): R.Row { R.Row(row.createdAt, row.expiresAt, row.used) }

  function RowsOf(resets: Resets, keys: seq<ResetHash>): (rows: seq<R.Row>)
    requires forall r :: r in keys ==> r in resets
    ensures |rows| == |keys| && forall i :: 0 <= i < |rows| ==> rows[i] == RowOf(resets[keys[i]])
  {
    seq(|keys|, i requires 0 <= i < |keys| => RowOf(resets[keys[i]]))
  }

  // ---- The same decision ----

  function Recent(resets: Resets, keys: seq<ResetHash>, since: Time): set<ResetHash> {
    set r | r in keys && r in resets && resets[r].createdAt >= since
  }

  lemma {:induction false} CountAgrees(resets: Resets, keys: seq<ResetHash>, since: Time)
    requires Distinct(keys) && forall r :: r in keys ==> r in resets
    ensures R.CountSince(RowsOf(resets, keys), since) == |Recent(resets, keys, since)|
  {
    if keys == [] {
      assert Recent(resets, keys, since) == {};
    } else {
      var rest := keys[1..];
      CountAgrees(resets, rest, since);
      assert RowsOf(resets, keys)[1..] == RowsOf(resets, rest);
      var now := if resets[keys[0]].createdAt >= since then {keys[0]} else {};
      assert keys[0] !in rest;
      assert forall r :: r in keys <==> r == keys[0] || r in rest;
      assert Recent(resets, keys, since) == Recent(resets, rest, since) + now;
    }
  }

  /** The service refuses a link exactly when the machine does. */
  lemma ThrottleAgrees(cfg: Config, retentionMs: nat, resets: Resets, u: UserId, keys: seq<ResetHash>, now: Time)
    requires cfg.Valid() && cfg.throttles && Lists(resets, u, keys)
    ensures Throttled(cfg, resets, u, now) <==> !R.MayIssue(PolicyOf(cfg, retentionMs), RowsOf(resets, keys), now)
  {
    var rows, since := RowsOf(resets, keys), now - DAY_MS;
    CountAgrees(resets, keys, since);
    assert Recent(resets, keys, since) == LinksSince(resets, u, since);
    IntervalAgrees(cfg, resets, u, keys, now);
  }

  lemma IntervalAgrees(cfg: Config, resets: Resets, u: UserId, keys: seq<ResetHash>, now: Time)
    requires Lists(resets, u, keys)
    ensures var latest := R.LatestAt(RowsOf(resets, keys));
            (exists r :: r in LinksOf(resets, u) && now - resets[r].createdAt < cfg.minIntervalMs)
            <==> latest.Some? && now - latest.value < cfg.minIntervalMs
  {
    var rows := RowsOf(resets, keys);
    var latest := R.LatestAt(rows);
    if r :| r in LinksOf(resets, u) && now - resets[r].createdAt < cfg.minIntervalMs {
      var i :| 0 <= i < |keys| && keys[i] == r;
      assert rows[i].createdAt == resets[r].createdAt;
    }
    if latest.Some? && now - latest.value < cfg.minIntervalMs {
      var i :| 0 <= i < |rows| && rows[i].createdAt == latest.value;
      assert keys[i] in keys && keys[i] in LinksOf(resets, u);
    }
  }

  // ---- The same rows afterwards ----

  lemma IssueMirrors(resets: Resets, u: UserId, keys: seq<ResetHash>, r: ResetHash, row: ResetRow)
    requires Lists(resets, u, keys) && r !in resets
    ensures var t := resets[r := row];
            if row.user == u then Lists(t, u, keys + [r])
                && RowsOf(t, keys + [r]) == RowsOf(resets, keys) + [RowOf(row)]
            else Lists(t, u, keys) && RowsOf(t, keys) == RowsOf(resets, keys)
  {
    assert r !in keys;
    assert forall k :: k in keys ==> k in LinksOf(resets, u);
  }

  lemma UseMirrors(resets: Resets, u: UserId, keys: seq<ResetHash>, v: UserId)
    requires Lists(resets, u, keys)
    ensures var t := UseResets(resets, v);
            Lists(t, u, keys) && RowsOf(t, keys) == if u == v then R.MarkUsed(RowsOf(resets, keys))
                else RowsOf(resets, keys)
  {
    assert forall k :: k in keys ==> k in LinksOf(resets, u);
    var t := UseResets(resets, v);
    assert forall r :: r in LinksOf(t, u) <==> r in LinksOf(resets, u);
    forall i | 0 <= i < |keys| ensures RowsOf(t, keys)[i]
        == (if u == v then R.MarkUsed(RowsOf(resets, keys)) else RowsOf(resets, keys))[i] {
      assert keys[i] in keys;
    }
  }

  function Kept(keys: seq<ResetHash>, gone: set<ResetHash>): seq<ResetHash> {
    if keys == [] then [] else (if keys[0] in gone then [] else [keys[0]]) + Kept(keys[1..], gone)
  }

  lemma {:induction false} KeptHolds(keys: seq<ResetHash>, gone: set<ResetHash>)
    requires Distinct(keys)
    ensures Distinct(Kept(keys, gone)) && forall r :: r in Kept(keys, gone) <==> r in keys && r !in gone
  {
    if keys != [] {
      KeptHolds(keys[1..], gone);
      assert keys[0] !in keys[1..];
      assert forall r :: r in keys <==> r == keys[0] || r in keys[1..];
    }
  }

  lemma {:induction false} PurgeRows(p: R.Policy, resets: Resets, keys: seq<ResetHash>, now: Time)
    requires Distinct(keys) && forall r :: r in keys ==> r in resets
    ensures var gone := StaleResets(resets, now, now - p.retentionMs);
            && (forall r :: r in Kept(keys, gone) ==> r in resets - gone)
            && RowsOf(resets - gone, Kept(keys, gone)) == R.Purged(p, RowsOf(resets, keys), now)
  {
    var gone := StaleResets(resets, now, now - p.retentionMs);
    KeptHolds(keys, gone);
    if keys != [] {
      PurgeRows(p, resets, keys[1..], now);
      assert RowsOf(resets, keys)[1..] == RowsOf(resets, keys[1..]);
      assert keys[0] in gone <==> R.Stale(p, RowOf(resets[keys[0]]), now);
      if keys[0] !in gone {
        assert Kept(keys, gone) == [keys[0]] + Kept(keys[1..], gone);
      }
    }
  }

  lemma PurgeMirrors(p: R.Policy, resets: Resets, u: UserId, keys: seq<ResetHash>, now: Time)
    requires Lists(resets, u, keys)
    ensures var gone := StaleResets(resets, now, now - p.retentionMs);
            Lists(resets - gone, u, Kept(keys, gone))
              && RowsOf(resets - gone, Kept(keys, gone)) == R.Purged(p, RowsOf(resets, keys), now)
  {
    PurgeRows(p, resets, keys, now);
    KeptHolds(keys, StaleResets(resets, now, now - p.retentionMs));
  }

  // ---- One call ----

  /** What a call is to the links of the account. */
  ghost function EventsOf(s: State, c: Call, out: Outcome, u: UserId): seq<R.Event> {
    match c.op
    case ForgotPassword(email, _) =>
      var found := ByEmail(s.users, email);
      if found.Some? && found.value == u && s.users[u].isActive then [R.Event(c.now, R.Forgot)] else []
    case ResetPassword(r, _) => if out.Done? && r in s.resets && s.resets[r].user == u then [R.Event(c.now, R.UseAll)]
      else []
    case ChangePassword(v, _, _) => if out.Done? && v == u then [R.Event(c.now, R.UseAll)] else []
    case Purge(_) => [R.Event(c.now, R.Purge)]
    case _ => []
  }

  /** The instant at which a call sent the account a link, if it did. */
  ghost function Sent(s: State, c: Call, t: State, u: UserId): seq<Time> {
    if c.op.ForgotPassword? && c.op.reset in t.resets && c.op.reset !in s.resets
        && t.resets[c.op.reset].user == u then [c.now] else []
  }

  ghost predicate Retains(retentionMs: nat, c: Call) {
    c.op.Purge? ==> c.op.retentionMs == retentionMs
  }

  /** The rows and links of the account are those of the machine. */
  ghost predicate Mirrors(s: State, u: UserId, keys: seq<ResetHash>, m: R.State) {
    Lists(s.resets, u, keys) && m.rows == RowsOf(s.resets, keys) && m.now <= s.clock
  }

  ghost function Moved(p: R.Policy, m: R.State, es: seq<R.Event>): R.State {
    if es == [] then m else R.Do(p, m, es[0])
  }

  lemma OthersLeaveResets(cfg: Config, s: State, c: Call)
    requires !c.op.ForgotPassword? && !c.op.ResetPassword? && !c.op.ChangePassword? && !c.op.Purge?
    ensures Step(cfg, s, c).1.resets == s.resets
  {
    hide OpStep;
    if c.op.Login? || c.op.Refresh? || c.op.AcceptInvitation? || c.op.Logout? || c.op.RevokeSession? {
      SessionFrame(cfg, s.(clock := c.now), c.op);
    } else {
      AdminFrame(cfg, s.(clock := c.now), c.op);
    }
  }

  lemma PasswordResets(cfg: Config, s: State, c: Call)
    requires c.op.ResetPassword? || c.op.ChangePassword?
    ensures var (out, t) := Step(cfg, s, c);
            t.resets == if !out.Done? then s.resets
                        else UseResets(s.resets, if c.op.ResetPassword? then s.resets[c.op.reset].user else c.op.user)
    ensures c.op.ResetPassword? && Step(cfg, s, c).0.Done? ==> c.op.reset in s.resets
  {
    hide Update, RevokeRows, OfUser, UseResets;
  }

  lemma ForgotResets(cfg: Config, s: State, c: Call)
    requires c.op.ForgotPassword?
    ensures var found := ByEmail(s.users, c.op.email);
            Step(cfg, s, c).1.resets
              == if found.None? || !s.users[found.value].isActive
                || Throttled(cfg, s.resets, found.value, c.now) then s.resets
                 else s.resets[c.op.reset := ResetRow(found.value, c.now + cfg.resetTtlMs, false, c.now)]
  {
    hide ByEmail, Throttled;
  }

  ghost predicate NewLink(s: State, c: Call) {
    c.op.ForgotPassword? ==> c.op.reset !in s.resets
  }

  lemma ForgotMirrors(cfg: Config, retentionMs: nat, s: State, c: Call, u: UserId, keys: seq<ResetHash>, m: R.State)
    returns (next: seq<ResetHash>)
    requires cfg.Valid() && cfg.throttles && NewLink(s, c) && c.op.ForgotPassword? && Mirrors(s, u, keys, m)
    ensures var (out, t) := Step(cfg, s, c);
            var n := Moved(PolicyOf(cfg, retentionMs), m, EventsOf(s, c, out, u));
            && Lists(t.resets, u, next) && n.rows == RowsOf(t.resets, next) && n.issued == m.issued + Sent(s, c, t, u)
  {
    hide Throttled, R.MayIssue, ByEmail, Step, Lists;
    FoundIsStored(s.users, c.op.email);
    ForgotResets(cfg, s, c);
    next := keys;
    var found := ByEmail(s.users, c.op.email);
    if found.Some? && s.users[found.value].isActive {
      if found.value == u { ThrottleAgrees(cfg, retentionMs, s.resets, u, keys, c.now); }
      if !Throttled(cfg, s.resets, found.value, c.now) {
        var row := ResetRow(found.value, c.now + cfg.resetTtlMs, false, c.now);
        IssueMirrors(s.resets, u, keys, c.op.reset, row);
        if found.value == u { next := keys + [c.op.reset]; }
      }
    }
  }

  /** One call moves the account's rows as its event moves the machine, and sends a link exactly when
      the machine does. */
  lemma StepMirrors(cfg: Config, retentionMs: nat, s: State, c: Call, u: UserId, keys: seq<ResetHash>, m: R.State)
    returns (next: seq<ResetHash>)
    requires cfg.Valid() && cfg.throttles && NewLink(s, c) && Retains(retentionMs, c) && Mirrors(s, u, keys, m)
    ensures var (out, t) := Step(cfg, s, c);
            var n := Moved(PolicyOf(cfg, retentionMs), m, EventsOf(s, c, out, u));
            && Lists(t.resets, u, next) && n.rows == RowsOf(t.resets, next) && n.issued == m.issued + Sent(s, c, t, u)
  {
    hide Throttled, ByEmail, Lists, UseResets, StaleResets, StaleTokens, R.MarkUsed, R.Purged, Kept;
    next := keys;
    if c.op.ForgotPassword? {
      next := ForgotMirrors(cfg, retentionMs, s, c, u, keys, m);
    } else if c.op.ResetPassword? || c.op.ChangePassword? {
      PasswordResets(cfg, s, c);
      hide Step;
      if Step(cfg, s, c).0.Done? { UseMirrors(s.resets, u, keys, if c.op.ResetPassword? then s.resets[c.op.reset].user
                                              else c.op.user); }
    } else if c.op.Purge? {
      PurgeMirrors(PolicyOf(cfg, retentionMs), s.resets, u, keys, c.now);
      next := Kept(keys, StaleResets(s.resets, c.now, c.now - retentionMs));
    } else {
      OthersLeaveResets(cfg, s, c);
      hide Step;
    }
  }

  // ---- Runs ----

  ghost predicate RetainsAll(retentionMs: nat, calls: seq<Call>) {
    forall i :: 0 <= i < |calls| ==> Retains(retentionMs, calls[i])
  }

  /** When links went out to the account over a run. */
  ghost function LinksSent(cfg: Config, s: State, calls: seq<Call>, u: UserId): seq<Time>
    decreases |calls|
  {
    if calls == [] then []
    else
      var t := Step(cfg, s, calls[0]).1;
      Sent(s, calls[0], t, u) + LinksSent(cfg, t, calls[1..], u)
  }

  ghost predicate Follows(es: seq<R.Event>, from: Time) {
    && (forall i :: 0 <= i < |es| ==> from <= es[i].now)
    && forall i, j :: 0 <= i < j < |es| ==> es[i].now <= es[j].now
  }

  /** A run of service calls is, for one account, a run of the machine that sends the same links. */
  lemma {:induction false} RunMirrors(cfg: Config, retentionMs: nat, s: State, calls: seq<Call>, u: UserId,
                                      keys: seq<ResetHash>, m: R.State)
    returns (es: seq<R.Event>)
    requires cfg.Valid() && cfg.throttles && Inv(s) && LegalRun(cfg, s, calls) && RetainsAll(retentionMs, calls)
             && Mirrors(s, u, keys, m)
    ensures R.LegalRun(m, es) && Follows(es, s.clock)
    ensures R.Run(PolicyOf(cfg, retentionMs), m, es).issued == m.issued + LinksSent(cfg, s, calls, u)
    ensures (forall i :: 0 <= i < |calls| ==> !calls[i].op.Purge?) ==> forall i :: 0 <= i < |es| ==> !es[i].step.Purge?
    decreases |calls|
  {
    hide Step, Inv, Legal, ResetsOwned, Lists, R.Do, EventsOf, Sent, Moved;
    if calls == [] {
      es := [];
      assert R.Run(PolicyOf(cfg, retentionMs), m, es) == m;
    } else {
      var c := calls[0];
      var (out, t) := Step(cfg, s, c);
      var p, first := PolicyOf(cfg, retentionMs), EventsOf(s, c, out, u);
      LinkIsNew(s, c);
      var next := StepMirrors(cfg, retentionMs, s, c, u, keys, m);
      StepKeeps(cfg, s, c);
      StepClock(cfg, s, c);
      var n := Moved(p, m, first);
      EventsShape(s, c, out, u);
      MovedClock(p, m, first, c.now);
      var rest := RunMirrors(cfg, retentionMs, t, calls[1..], u, next, n);
      es := first + rest;
      JoinRuns(p, m, first, rest, s.clock, c.now);
      assert LinksSent(cfg, s, calls, u) == Sent(s, c, t, u) + LinksSent(cfg, t, calls[1..], u);
    }
  }

  lemma LinkIsNew(s: State, c: Call)
    requires Inv(s) && Legal(s, c)
    ensures NewLink(s, c) && ResetsOwned(s)
  {
  }

  lemma EventsShape(s: State, c: Call, out: Outcome, u: UserId)
    ensures var es := EventsOf(s, c, out, u);
            |es| <= 1 && (es != [] ==> es[0].now == c.now && (es[0].step.Purge? ==> c.op.Purge?))
  {
    hide ByEmail;
  }

  lemma MovedClock(p: R.Policy, m: R.State, es: seq<R.Event>, now: Time)
    requires m.now <= now && |es| <= 1 && (es != [] ==> es[0].now == now)
    ensures Moved(p, m, es).now <= now
  {
  }

  lemma JoinRuns(p: R.Policy, m: R.State, first: seq<R.Event>, rest: seq<R.Event>, clock: Time, now: Time)
    requires |first| <= 1 && (first != [] ==> first[0].now == now) && m.now <= clock <= now && Follows(rest, now)
    ensures R.LegalRun(m, first + rest) && Follows(first + rest, clock)
    ensures R.Run(p, m, first + rest) == R.Run(p, Moved(p, m, first), rest)
  {
    if first == [] {
      assert first + rest == rest;
    } else {
      assert (first + rest)[1..] == rest && (first + rest)[0] == first[0];
    }
  }

  /** What the service promises about the links of any account over any run: they are apart, and within the cap exactly
      as far as the stored rows reach back; without cleanups both limits hold in full. */
  lemma ServiceThrottles(cfg: Config, retentionMs: nat, s: State, calls: seq<Call>, u: UserId, w: Time)
    requires cfg.Valid() && cfg.throttles && Initial(cfg, s) && LegalRun(cfg, s, calls)
             && RetainsAll(retentionMs, calls)
    ensures var p, sent := PolicyOf(cfg, retentionMs), LinksSent(cfg, s, calls, u);
            && R.Spaced(sent, p.Gap(p.Visible()))
            && (p.Visible() >= DAY_MS || p.maxPerDay * p.Gap(p.Visible()) > DAY_MS ==>
                R.LinksInDay(sent, w) <= cfg.maxPerDay)
            && ((forall i :: 0 <= i < |calls| ==> !calls[i].op.Purge?) ==>
                  R.Spaced(sent, cfg.minIntervalMs) && R.LinksInDay(sent, w) <= cfg.maxPerDay)
  {
    InitialOk(cfg, s);
    assert LinksOf(s.resets, u) == {} && RowsOf(s.resets, []) == [];
    assert Mirrors(s, u, [], R.Start(s.clock));
    var es := RunMirrors(cfg, retentionMs, s, calls, u, [], R.Start(s.clock));
    var p := PolicyOf(cfg, retentionMs);
    assert R.Run(p, R.Start(s.clock), es).issued == [] + LinksSent(cfg, s, calls, u) == LinksSent(cfg, s, calls, u);
    R.WithCleanups(p, s.clock, es, w);
    if forall i :: 0 <= i < |calls| ==> !calls[i].op.Purge? { R.WithoutCleanups(p, s.clock, es, w); }
  }
}
