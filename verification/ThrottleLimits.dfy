/** Every run of the throttle machine is a run of the service, so the exact conditions of the machine's limits are those
    of the service. */
module ThrottleLimits {
  import opened Wrappers
  import opened UserEntity
  import opened Accounts
  import opened AccountInvariants
  import opened StepFrames
  import opened ThrottleRuns

  const EMAIL := "a@b"

  /** The one account is still there, and no link has a number from next on. */
  ghost predicate Stands(s: State, next: nat) {
    && s.users.Keys == {0}
    && s.users[0].email == EMAIL && s.users[0].isActive && s.users[0].deletedAt.None?
    && forall r :: r in s.resetsIssued ==> r < next
  }

  /** One active account in a state the service can reach; links issued so far have numbers below next. */
  ghost predicate Alone(s: State, next: nat) { Inv(s) && Stands(s, next) }

  /** The call that is this event for the one account. */
  function CallOf(retentionMs: nat, e: R.Event, next: ResetHash): Call {
    match e.step
    case Forgot => Call(e.now, ForgotPassword(EMAIL, next))
    case UseAll => Call(e.now, ChangePassword(0, true, 0))
    case Purge => Call(e.now, Purge(retentionMs))
  }

  lemma ForgotStands(cfg: Config, s: State, e: R.Event, next: nat)
    requires Stands(s, next) && s.clock <= e.now && e.step.Forgot?
    ensures var c := CallOf(0, e, next);
            var (out, t) := Step(cfg, s, c);
            Legal(s, c) && EventsOf(s, c, out, 0) == [e] && Stands(t, next + 1)
  {
    assert HasEmail(s.users, EMAIL, 0);
    assert ByEmail(s.users, EMAIL) == Some(0);
    hide ByEmail, Throttled;
  }

  lemma ChangeStands(cfg: Config, s: State, e: R.Event, next: nat)
    requires Stands(s, next) && s.clock <= e.now && e.step.UseAll? && Valid(s.users[0])
    ensures var c := CallOf(0, e, next);
            var (out, t) := Step(cfg, s, c);
            Legal(s, c) && EventsOf(s, c, out, 0) == [e] && Stands(t, next + 1)
  {
    hide UseResets, RevokeRows, OfUser;
  }

  lemma PurgeStands(cfg: Config, retentionMs: nat, s: State, e: R.Event, next: nat)
    requires Stands(s, next) && s.clock <= e.now && e.step.Purge?
    ensures var c := CallOf(retentionMs, e, next);
            var (out, t) := Step(cfg, s, c);
            Legal(s, c) && EventsOf(s, c, out, 0) == [e] && Stands(t, next + 1)
  {
    hide StaleTokens, StaleResets;
  }

  lemma CallStands(cfg: Config, retentionMs: nat, s: State, e: R.Event, next: nat)
    requires Stands(s, next) && s.clock <= e.now && Valid(s.users[0])
    ensures var c := CallOf(retentionMs, e, next);
            var (out, t) := Step(cfg, s, c);
            Legal(s, c) && Retains(retentionMs, c) && EventsOf(s, c, out, 0) == [e] && Stands(t, next + 1)
  {
    hide Step, Legal, EventsOf, Stands;
    match e.step
    case Forgot => ForgotStands(cfg, s, e, next);
    case UseAll => ChangeStands(cfg, s, e, next);
    case Purge => PurgeStands(cfg, retentionMs, s, e, next);
  }

  lemma AccountIsValid(s: State, next: nat)
    requires Alone(s, next)
    ensures s.users.Keys == {0} && Valid(s.users[0])
  {
  }

  lemma CallMoves(cfg: Config, retentionMs: nat, s: State, e: R.Event, next: nat)
    requires Alone(s, next) && s.clock <= e.now
    ensures var c := CallOf(retentionMs, e, next);
            var (out, t) := Step(cfg, s, c);
            && Legal(s, c) && Retains(retentionMs, c) && EventsOf(s, c, out, 0) == [e]
            && Alone(t, next + 1) && t.clock == e.now && NewLink(s, c)
  {
    hide Inv, Step, Legal, EventsOf, Retains, ResetsOwned, Stands;
    var c := CallOf(retentionMs, e, next);
    AccountIsValid(s, next);
    CallStands(cfg, retentionMs, s, e, next);
    StepKeeps(cfg, s, c);
    LinkIsNew(s, c);
    StepClock(cfg, s, c);
  }

  /** From a service state whose rows are the machine's, any run of the machine is a run of service calls that sends the
      same links. */
  lemma {:induction false} RunServes(cfg: Config, retentionMs: nat, s: State, keys: seq<ResetHash>, m: R.State,
                                     es: seq<R.Event>, next: nat)
    returns (calls: seq<Call>)
    requires cfg.Valid() && cfg.throttles && Alone(s, next) && Mirrors(s, 0, keys, m) && R.LegalRun(m, es)
    requires es != [] ==> s.clock <= es[0].now
    ensures LegalRun(cfg, s, calls) && RetainsAll(retentionMs, calls)
    ensures R.Run(PolicyOf(cfg, retentionMs), m, es).issued == m.issued + LinksSent(cfg, s, calls, 0)
    decreases |es|
  {
    hide Alone, Step, Legal, Lists, R.Do, EventsOf, Sent, Retains, NewLink;
    if es == [] {
      calls := [];
    } else {
      var p, e, c := PolicyOf(cfg, retentionMs), es[0], CallOf(retentionMs, es[0], next);
      var t := Step(cfg, s, c).1;
      CallMoves(cfg, retentionMs, s, e, next);
      var left := StepMirrors(cfg, retentionMs, s, c, 0, keys, m);
      var n := R.Do(p, m, e);
      assert Moved(p, m, [e]) == n;
      DoClock(p, m, e);
      var rest := RunServes(cfg, retentionMs, t, left, n, es[1..], next + 1);
      calls := [c] + rest;
      assert calls[1..] == rest;
      assert LinksSent(cfg, s, calls, 0) == Sent(s, c, t, 0) + LinksSent(cfg, t, rest, 0);
    }
  }

  lemma DoClock(p: R.Policy, m: R.State, e: R.Event)
    ensures R.Do(p, m, e).now == e.now
  {
    hide R.MayIssue, R.Purged, R.MarkUsed;
  }

  ghost function Lone(): State {
    State(0, map[0 := User(EMAIL, Admin, None, 0, true, 0, None, false, None, None)], map[], map[], [], map[], {},
          map[])
  }

  lemma LoneStarts(cfg: Config)
    requires cfg.Valid()
    ensures Initial(cfg, Lone()) && Alone(Lone(), 0) && Mirrors(Lone(), 0, [], R.Start(0))
  {
    assert EMAIL[1] == '@';
    InitialOk(cfg, Lone());
    assert LinksOf(Lone().resets, 0) == {} && RowsOf(Lone().resets, []) == [];
  }

  /** A run of the machine from its start, as a run of the service from an initial state. */
  lemma Served(cfg: Config, retentionMs: nat, es: seq<R.Event>) returns (calls: seq<Call>)
    requires cfg.Valid() && cfg.throttles && R.LegalRun(R.Start(0), es)
    ensures Serves(cfg, retentionMs, Lone(), calls)
    ensures LinksSent(cfg, Lone(), calls, 0) == R.Run(PolicyOf(cfg, retentionMs), R.Start(0), es).issued
  {
    hide Alone, Initial, LegalRun, R.LegalRun, RetainsAll, LinksSent, R.Run, Mirrors;
    LoneStarts(cfg);
    StartsAtZero(es);
    calls := RunServes(cfg, retentionMs, Lone(), [], R.Start(0), es, 0);
    var sent := LinksSent(cfg, Lone(), calls, 0);
    assert [] + sent == sent;
  }

  lemma StartsAtZero(es: seq<R.Event>)
    requires R.LegalRun(R.Start(0), es)
    ensures es != [] ==> Lone().clock <= es[0].now
  {
  }

  // ---- The limits of the service, and when they hold ----

  /** A run of service calls from an initial state, with one retention for all cleanups. */
  ghost predicate Serves(cfg: Config, retentionMs: nat, s: State, calls: seq<Call>) {
    Initial(cfg, s) && LegalRun(cfg, s, calls) && RetainsAll(retentionMs, calls)
  }

  ghost predicate ServiceCap(cfg: Config, retentionMs: nat) {
    forall s, calls, u, w: Time :: Serves(cfg, retentionMs, s, calls) ==>
      R.LinksInDay(LinksSent(cfg, s, calls, u), w) <= cfg.maxPerDay
  }

  ghost predicate ServiceInterval(cfg: Config, retentionMs: nat) {
    forall s, calls, u :: Serves(cfg, retentionMs, s, calls) ==>
        R.Spaced(LinksSent(cfg, s, calls, u), cfg.minIntervalMs)
  }

  /** Over every run of service calls no account is sent more links in a day than the cap, exactly when stored rows
      outlive a day or the gap alone keeps more from fitting. */
  lemma ServiceCapIff(cfg: Config, retentionMs: nat)
    requires cfg.Valid() && cfg.throttles
    ensures var p := PolicyOf(cfg, retentionMs);
            ServiceCap(cfg, retentionMs) <==> p.Visible() >= DAY_MS || p.maxPerDay * p.Gap(p.Visible()) > DAY_MS
  {
    hide LinksSent, R.LinksInDay, R.LegalRun, R.Run;
    var p := PolicyOf(cfg, retentionMs);
    if p.Visible() >= DAY_MS || p.maxPerDay * p.Gap(p.Visible()) > DAY_MS {
      forall s, calls, u, w: Time | Serves(cfg, retentionMs, s, calls)
        ensures R.LinksInDay(LinksSent(cfg, s, calls, u), w) <= cfg.maxPerDay
      {
        ServiceThrottles(cfg, retentionMs, s, calls, u, w);
      }
    } else {
      var es := R.OneTooMany(p);
      var calls := Served(cfg, retentionMs, es);
      assert R.LinksInDay(LinksSent(cfg, Lone(), calls, 0), 0) > cfg.maxPerDay;
    }
  }

  /** Over every run of service calls the links of an account are the interval apart, exactly when stored rows outlive
      it. */
  lemma ServiceIntervalIff(cfg: Config, retentionMs: nat)
    requires cfg.Valid() && cfg.throttles
    ensures ServiceInterval(cfg, retentionMs) <==> cfg.minIntervalMs <= PolicyOf(cfg, retentionMs).Visible() + 1
  {
    hide LinksSent, R.LegalRun, R.Run, R.Spaced;
    var p := PolicyOf(cfg, retentionMs);
    if cfg.minIntervalMs <= p.Visible() + 1 {
      forall s, calls, u | Serves(cfg, retentionMs, s, calls)
        ensures R.Spaced(LinksSent(cfg, s, calls, u), cfg.minIntervalMs)
      {
        ServiceThrottles(cfg, retentionMs, s, calls, u, 0);
      }
    } else {
      var es := R.TooSoon(p);
      var calls := Served(cfg, retentionMs, es);
      assert !R.Spaced(LinksSent(cfg, Lone(), calls, 0), cfg.minIntervalMs);
    }
  }

  /** As shipped, the service keeps the interval, and some run of its calls sends one link more than the cap within a
      day. */
  lemma ShippedServiceKeepsOnlyTheInterval(cfg: Config, retentionMs: nat)
    requires cfg.Valid() && cfg.throttles && PolicyOf(cfg, retentionMs) == R.DEFAULTS
    ensures ServiceInterval(cfg, retentionMs) && !ServiceCap(cfg, retentionMs)
  {
    ServiceIntervalIff(cfg, retentionMs);
    ServiceCapIff(cfg, retentionMs);
  }
}
