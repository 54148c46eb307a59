/** Account lifecycle over whole runs: archived, suspended and active accounts, single-use reset links,
    and what the identity events say about archived accounts, in the order in which the calls write them
    to the outbox. */
module Lifecycle {
  import opened Wrappers
  import opened UserEntity
  import opened Accounts
  import opened AccountInvariants
  import opened StepFrames

  /** Every reachable state: e-mails are unique, an archived account is inactive, an inactive or archived account
      has no unrevoked token, and a family has at most one unrevoked token, the newest ever issued in it. */
  lemma ReachableStates(cfg: Config, s0: State, calls: seq<Call>)
    requires Initial(cfg, s0) && LegalRun(cfg, s0, calls)
    ensures var s := Run(cfg, s0, calls);
            && (forall u, v :: u in s.users && v in s.users && s.users[u].email == s.users[v].email ==> u == v)
            && (forall u :: u in s.users && s.users[u].deletedAt.Some? ==> !s.users[u].isActive)
            && (forall h :: h in s.tokens && !s.tokens[h].revoked ==>
                  s.tokens[h].user in s.users && s.users[s.tokens[h].user].isActive
                    && s.users[s.tokens[h].user].deletedAt.None?)
            && (forall h, k | h in s.tokens && k in s.issued && s.issued[k].family == s.tokens[h].family ::
                  !s.tokens[h].revoked ==> h in s.issued && s.issued[k].no <= s.issued[h].no)
            && (forall h, k | h in s.tokens && k in s.tokens && s.tokens[h].family == s.tokens[k].family ::
                  !s.tokens[h].revoked && !s.tokens[k].revoked ==> h == k)
            && (forall h, k :: h in s.tokens && k in s.tokens && s.tokens[h].family == s.tokens[k].family ==>
                  s.tokens[h].user == s.tokens[k].user && s.tokens[h].persistent == s.tokens[k].persistent)
  {
    var s := Run(cfg, s0, calls);
    InitialOk(cfg, s0);
    RunKeeps(cfg, s0, calls);
    forall h, k | h in s.tokens && k in s.tokens && !s.tokens[h].revoked && !s.tokens[k].revoked
                  && s.tokens[h].family == s.tokens[k].family
      ensures h == k
    {
      OnlyOneLive(s, h);
    }
    forall h, k | h in s.tokens && k in s.issued && !s.tokens[h].revoked && s.issued[k].family == s.tokens[h].family
      ensures h in s.issued && s.issued[k].no <= s.issued[h].no
    {
      assert Newest(s, h);
    }
  }

  // ---- Reset links ----

  /** The link was issued, and its row is used or gone. */
  ghost predicate LinkSpent(s: State, r: ResetHash) {
    r in s.resetsIssued && (r in s.resets ==> s.resets[r].used)
  }

  lemma LinkStaysSpent(cfg: Config, s: State, c: Call, r: ResetHash)
    requires Inv(s) && Legal(s, c) && LinkSpent(s, r)
    ensures LinkSpent(Step(cfg, s, c).1, r)
  {
    hide LoginStep, RefreshStep, AcceptStep, NewPassword, SetActiveStep, SoftDeleteStep, RestoreStep, Update, Create,
         UsersOk, Recorded, Numbered, Uniform, LiveOk, OneUserWritten, LiveFamilies, RevokeRows, StaleTokens,
         StaleResets, Throttled, ByEmail;
    var s1 := s.(clock := c.now);
    if c.op.SetActive? || c.op.SoftDelete? || c.op.Restore? || c.op.SetForcePasswordChange? {
      AdminFrame(cfg, s1, c.op);
      OneUserLinks(s1, Step(cfg, s, c).1, c.op.target);
    } else if c.op.Login? || c.op.Refresh? || c.op.AcceptInvitation? || c.op.Logout? || c.op.RevokeSession? {
      SessionFrame(cfg, s1, c.op);
    } else if c.op.ChangePassword? {
      if c.op.user in s.users { NewPasswordFrame(s1, c.op.user, c.op.digest); }
    } else if c.op.ResetPassword? {
      if c.op.reset in s.resets { NewPasswordFrame(s1, s.resets[c.op.reset].user, c.op.digest); }
    }
  }

  lemma OneUserLinks(s: State, t: State, u: UserId)
    requires OneUserWritten(s, t, u)
    ensures LinksAlone(s, t)
  {
  }

  lemma {:induction false} LinkSpentForever(cfg: Config, s: State, calls: seq<Call>, r: ResetHash)
    requires Inv(s) && LegalRun(cfg, s, calls) && LinkSpent(s, r)
    ensures LinkSpent(Run(cfg, s, calls), r)
    decreases |calls|
  {
    if calls != [] {
      StepKeeps(cfg, s, calls[0]);
      LinkStaysSpent(cfg, s, calls[0], r);
      LinkSpentForever(cfg, Step(cfg, s, calls[0]).1, calls[1..], r);
    }
  }

  /** A new password, by a reset link or from the old one, spends every link the account had: none of them, the
      used one included, ever sets a password again. */
  lemma LinksDieWithNewPassword(cfg: Config, s: State, c: Call, u: UserId, calls: seq<Call>, r: ResetHash, next: Call)
    requires Inv(s) && Legal(s, c) && Step(cfg, s, c).0.Done?
    requires (c.op.ChangePassword? && c.op.user == u)
             || (c.op.ResetPassword? && c.op.reset in s.resets && s.resets[c.op.reset].user == u)
    requires r in s.resets && s.resets[r].user == u
    requires LegalRun(cfg, Step(cfg, s, c).1, calls)
    requires next.op.ResetPassword? && next.op.reset == r
    ensures !Step(cfg, Run(cfg, Step(cfg, s, c).1, calls), next).0.Done?
  {
    hide Inv, Legal, LegalRun, Run, Step, LinkSpent;
    var s1 := Step(cfg, s, c).1;
    NewPasswordUsesLinks(cfg, s, c, u, r);
    StepKeeps(cfg, s, c);
    LinkSpentForever(cfg, s1, calls, r);
    SpentLinkRefused(cfg, Run(cfg, s1, calls), next);
  }

  lemma SpentLinkRefused(cfg: Config, s: State, c: Call)
    requires c.op.ResetPassword? && LinkSpent(s, c.op.reset)
    ensures !Step(cfg, s, c).0.Done?
  {
  }

  lemma NewPasswordUsesLinks(cfg: Config, s: State, c: Call, u: UserId, r: ResetHash)
    requires Inv(s) && Step(cfg, s, c).0.Done?
    requires (c.op.ChangePassword? && c.op.user == u)
             || (c.op.ResetPassword? && c.op.reset in s.resets && s.resets[c.op.reset].user == u)
    requires r in s.resets && s.resets[r].user == u
    ensures LinkSpent(Step(cfg, s, c).1, r)
  {
  }

  // ---- The identity events, in the order written to the outbox ----

  /** The last event written about an account. */
  function LastKind(events: seq<Event>, u: UserId): Option<EventKind> {
    if events == [] then None
    else if events[|events| - 1].user == u then Some(events[|events| - 1].kind)
    else LastKind(events[..|events| - 1], u)
  }

  /** The last event written about an account is its removal exactly when the account is archived. */
  ghost predicate FeedAgrees(s: State, u: UserId) {
    u in s.users ==> (LastKind(s.events, u) == Some(Deleted) <==> s.users[u].deletedAt.Some?)
  }

  /** The one call that writes an "updated" event about an account that stays archived. */
  ghost predicate SuspendsArchived(s: State, op: Op, u: UserId) {
    op.SetActive? && op.target == u && !op.active && op.admin != Some(u) && u in s.users && s.users[u].deletedAt.Some?
  }

  lemma Appended(events: seq<Event>, kind: EventKind, v: UserId, u: UserId)
    ensures LastKind(events + [Event(kind, v)], u) == if u == v then Some(kind) else LastKind(events, u)
  {
  }

  ghost predicate FeedStarts(s: State, u: UserId) {
    FeedAgrees(s, u) && (u !in s.users ==> LastKind(s.events, u).None?)
  }

  /** From a state where the events written and the account agree, one call keeps them in agreement exactly when it does
      not suspend an archived account. */
  lemma FeedAgreesIff(cfg: Config, s: State, c: Call, u: UserId)
    requires Inv(s) && Legal(s, c) && FeedStarts(s, u)
    ensures FeedAgrees(Step(cfg, s, c).1, u) <==> !SuspendsArchived(s, c.op, u)
    ensures u !in Step(cfg, s, c).1.users ==> LastKind(Step(cfg, s, c).1.events, u).None?
  {
    if c.op.SetActive? || c.op.SoftDelete? || c.op.Restore? {
      AdminFeed(cfg, s, c, u);
    } else if c.op.AcceptInvitation? {
      AcceptFeed(cfg, s, c, u);
    } else {
      OtherFeed(cfg, s, c, u);
    }
  }

  lemma AdminFeed(cfg: Config, s: State, c: Call, u: UserId)
    requires UsersOk(s.users) && FeedStarts(s, u) && (c.op.SetActive? || c.op.SoftDelete? || c.op.Restore?)
    ensures FeedAgrees(Step(cfg, s, c).1, u) <==> !SuspendsArchived(s, c.op, u)
    ensures u !in Step(cfg, s, c).1.users ==> LastKind(Step(cfg, s, c).1.events, u).None?
  {
    var v, t := c.op.target, Step(cfg, s, c).1;
    AdminWrites(cfg, s, c);
    if t != s.(clock := c.now) {
      var kind := if c.op.SoftDelete? then Deleted else Updated;
      hide Step, UsersOk, LastKind;
      Appended(s.events, kind, v, u);
    }
  }

  /** Activating, suspending, archiving and restoring either do nothing, or change their one target and
      write one event. */
  lemma AdminWrites(cfg: Config, s: State, c: Call)
    requires UsersOk(s.users) && (c.op.SetActive? || c.op.SoftDelete? || c.op.Restore?)
    ensures var v, t := c.op.target, Step(cfg, s, c).1;
            && (t == s.(clock := c.now) <==> !Step(cfg, s, c).0.Done?)
            && (Step(cfg, s, c).0.Done? ==>
                  && v in s.users && v in t.users && t.users == s.users[v := t.users[v]]
                  && t.events == s.events + [Event(if c.op.SoftDelete? then Deleted else Updated, v)]
                  && t.users[v].deletedAt == (if c.op.SoftDelete? then Some(c.now)
                                              else if c.op.Restore? then None else s.users[v].deletedAt))
            && (Step(cfg, s, c).0.Done? <==>
                  v in s.users && match c.op
                                  case SetActive(admin, _, active) =>
                                    if active then s.users[v].deletedAt.None? else admin != Some(v)
                                  case SoftDelete(admin, _) => admin != Some(v) && s.users[v].deletedAt.None?
                                  case _ => s.users[v].deletedAt.Some?)
  {
    hide RevokeRows, OfUser;
    var t := Step(cfg, s, c).1;
    assert Step(cfg, s, c).0.Done? ==> |t.events| == |s.events| + 1;
  }

  /** Asking for a new password changes that flag of its target and nothing else, and writes no event. */
  lemma FlagWrites(cfg: Config, s: State, c: Call)
    requires UsersOk(s.users) && c.op.SetForcePasswordChange?
    ensures var v, t := c.op.target, Step(cfg, s, c).1;
            && (Step(cfg, s, c).0.Done? <==> v in s.users)
            && t == (if v in s.users then SetUser(s, v, s.users[v].(forcePasswordChange := c.op.flag))
                     else s).(clock := c.now)
  {
  }

  lemma AcceptFeed(cfg: Config, s: State, c: Call, u: UserId)
    requires c.op.AcceptInvitation? && Legal(s, c) && FeedStarts(s, u)
    ensures FeedStarts(Step(cfg, s, c).1, u)
  {
    assert c.op.newUser !in s.users;
    hide LastKind, Step, Legal;
    AcceptWrites(cfg, s, c);
    Appended(s.events, Registered, c.op.newUser, u);
  }

  lemma OtherFeed(cfg: Config, s: State, c: Call, u: UserId)
    requires ResetsOwned(s)
    requires !(c.op.SetActive? || c.op.SoftDelete? || c.op.Restore? || c.op.AcceptInvitation?)
    ensures var t := Step(cfg, s, c).1;
            && t.events == s.events && t.users.Keys == s.users.Keys
            && (u in s.users ==> t.users[u].deletedAt == s.users[u].deletedAt)
  {
    hide UseResets, RevokeRows, OfUser, OfFamily, LiveFamilies, StaleTokens, StaleResets;
    if c.op.Login? {
      LoginFeed(cfg, s.(clock := c.now), c.op, u);
    } else if c.op.ResetPassword? || c.op.ChangePassword? {
      PasswordFeed(cfg, s, c, u);
    }
  }

  lemma LoginFeed(cfg: Config, s: State, op: Op, u: UserId)
    requires op.Login?
    ensures var t := LoginStep(cfg, s, op).1;
            && t.events == s.events && t.users.Keys == s.users.Keys
            && (u in s.users ==> t.users[u].deletedAt == s.users[u].deletedAt)
  {
  }

  lemma PasswordFeed(cfg: Config, s: State, c: Call, u: UserId)
    requires (c.op.ResetPassword? && ResetsOwned(s)) || c.op.ChangePassword?
    ensures var t := Step(cfg, s, c).1;
            && t.events == s.events && t.users.Keys == s.users.Keys
            && (u in s.users ==> t.users[u].deletedAt == s.users[u].deletedAt)
  {
    hide UseResets, RevokeRows, OfUser;
  }

  // ---- The events written over runs ----

  /** Whether the last word on the account has been spoken over after a call: suspending it while it is archived does
      that, archiving or restoring it starts afresh. */
  ghost function SpokenOver(s: State, c: Call, out: Outcome, u: UserId, over: bool): bool {
    if SuspendsArchived(s, c.op, u) then true
    else if (c.op.SoftDelete? || c.op.Restore?) && c.op.target == u && out.Done? then false
    else over
  }

  /** Since the last archiving or restoring in the run, or from its start, the account was suspended while archived. */
  ghost predicate SuspendedSince(cfg: Config, s: State, calls: seq<Call>, u: UserId, over: bool)
    decreases |calls|
  {
    if calls == [] then over
    else
      var (out, t) := Step(cfg, s, calls[0]);
      SuspendedSince(cfg, t, calls[1..], u, SpokenOver(s, calls[0], out, u, over))
  }

  /** What the last event written says, whether or not it was spoken over. */
  ghost predicate FeedState(s: State, u: UserId, over: bool) {
    if u in s.users then
      && (LastKind(s.events, u) == Some(Deleted) <==> s.users[u].deletedAt.Some? && !over)
      && (over ==> s.users[u].deletedAt.Some?)
    else LastKind(s.events, u).None? && !over
  }

  lemma AcceptWrites(cfg: Config, s: State, c: Call)
    requires c.op.AcceptInvitation?
    ensures var t, v := Step(cfg, s, c).1, c.op.newUser;
            || (t.users == s.users && t.events == s.events)
            || (v in t.users && t.users == s.users[v := t.users[v]] && t.users[v].deletedAt.None?
                && t.events == s.events + [Event(Registered, v)])
  {
    hide ByEmailIncludingDeleted, NewRow;
  }

  lemma AdminFeedState(cfg: Config, s: State, c: Call, u: UserId, over: bool)
    requires UsersOk(s.users) && FeedState(s, u, over) && (c.op.SetActive? || c.op.SoftDelete? || c.op.Restore?)
    ensures FeedState(Step(cfg, s, c).1, u, SpokenOver(s, c, Step(cfg, s, c).0, u, over))
  {
    hide Step, LastKind, UsersOk;
    AdminWrites(cfg, s, c);
    Appended(s.events, if c.op.SoftDelete? then Deleted else Updated, c.op.target, u);
  }

  lemma AcceptFeedState(cfg: Config, s: State, c: Call, u: UserId, over: bool)
    requires FeedState(s, u, over) && c.op.AcceptInvitation? && c.op.newUser !in s.users
    ensures FeedState(Step(cfg, s, c).1, u, SpokenOver(s, c, Step(cfg, s, c).0, u, over))
  {
    hide Step, LastKind;
    AcceptWrites(cfg, s, c);
    Appended(s.events, Registered, c.op.newUser, u);
  }

  lemma OtherFeedState(cfg: Config, s: State, c: Call, u: UserId, over: bool)
    requires ResetsOwned(s) && FeedState(s, u, over)
    requires !(c.op.SetActive? || c.op.SoftDelete? || c.op.Restore? || c.op.AcceptInvitation?)
    ensures FeedState(Step(cfg, s, c).1, u, SpokenOver(s, c, Step(cfg, s, c).0, u, over))
  {
    hide Step, LastKind, ResetsOwned;
    OtherFeed(cfg, s, c, u);
  }

  lemma FeedStep(cfg: Config, s: State, c: Call, u: UserId, over: bool)
    requires Inv(s) && Legal(s, c) && FeedState(s, u, over)
    ensures FeedState(Step(cfg, s, c).1, u, SpokenOver(s, c, Step(cfg, s, c).0, u, over))
  {
    hide Inv, Step, LastKind, UsersOk, ResetsOwned, FeedState, SpokenOver, NewFamily;
    InvUsersOk(s);
    if c.op.SetActive? || c.op.SoftDelete? || c.op.Restore? {
      AdminFeedState(cfg, s, c, u, over);
    } else if c.op.AcceptInvitation? {
      AcceptFeedState(cfg, s, c, u, over);
    } else {
      OtherFeedState(cfg, s, c, u, over);
    }
  }

  lemma InvUsersOk(s: State)
    requires Inv(s)
    ensures UsersOk(s.users) && ResetsOwned(s)
  {
  }

  lemma {:induction false} FeedStateOverRuns(cfg: Config, s: State, calls: seq<Call>, u: UserId, over: bool)
    requires Inv(s) && LegalRun(cfg, s, calls) && FeedState(s, u, over)
    ensures FeedState(Run(cfg, s, calls), u, SuspendedSince(cfg, s, calls, u, over))
    decreases |calls|
  {
    if calls != [] {
      hide Inv, Legal, Step, FeedState, SpokenOver;
      StepKeeps(cfg, s, calls[0]);
      FeedStep(cfg, s, calls[0], u, over);
      FeedStateOverRuns(cfg, Step(cfg, s, calls[0]).1, calls[1..], u,
                        SpokenOver(s, calls[0], Step(cfg, s, calls[0]).0, u, over));
    }
  }

  /** Over any run from a state where the events written and the account agree, they agree in the end exactly when the
      account was not suspended while archived since it was last archived or restored. */
  lemma FeedAgreesOverRuns(cfg: Config, s: State, calls: seq<Call>, u: UserId)
    requires Inv(s) && LegalRun(cfg, s, calls) && FeedStarts(s, u)
    ensures FeedAgrees(Run(cfg, s, calls), u) <==> !SuspendedSince(cfg, s, calls, u, false)
  {
    hide Inv, LegalRun, LastKind;
    FeedStateOverRuns(cfg, s, calls, u, false);
  }

  /** The run that ends in disagreement: an administrator archives an account and then suspends it. */
  lemma SuspendedAfterArchiving(cfg: Config) returns (s: State, calls: seq<Call>)
    requires cfg.Valid()
    ensures Initial(cfg, s) && LegalRun(cfg, s, calls) && FeedStarts(s, 0)
    ensures var t := Run(cfg, s, calls);
            0 in t.users && t.users[0].deletedAt.Some? && LastKind(t.events, 0) == Some(Updated) && !FeedAgrees(t, 0)
  {
    var email := "a@b";
    assert email[1] == '@';
    var user := User(email, Worker, None, 0, true, 0, None, false, None, None);
    s := State(0, map[0 := user], map[], map[], [], map[], {}, map[]);
    var archive, suspend := Call(0, SoftDelete(None, 0)), Call(0, SetActive(None, 0, false));
    calls := [archive, suspend];
    AdminWrites(cfg, s, archive);
    var s1 := Step(cfg, s, archive).1;
    ArchivedOk(cfg, s, archive);
    AdminWrites(cfg, s1, suspend);
    var s2 := Step(cfg, s1, suspend).1;
    hide Step;
    assert calls[1..] == [suspend] && calls[1..][1..] == [];
    assert LegalRun(cfg, s2, []) && LegalRun(cfg, s1, [suspend]);
    assert Run(cfg, s, calls) == Run(cfg, s1, [suspend]) == Run(cfg, s2, []) == s2;
    assert s2.events == [Event(Deleted, 0), Event(Updated, 0)];
  }

  lemma ArchivedOk(cfg: Config, s: State, c: Call)
    requires UsersOk(s.users) && c.op.SoftDelete? && Step(cfg, s, c).0.Done?
    ensures UsersOk(Step(cfg, s, c).1.users)
  {
    hide RevokeRows, OfUser;
  }

  /** Before the first call events and account agree unless the account is archived already. */
  lemma InitialFeedIff(cfg: Config, s: State, u: UserId)
    requires Initial(cfg, s)
    ensures FeedStarts(s, u) <==> !(u in s.users && s.users[u].deletedAt.Some?)
  {
  }
}
