/** What each service call leaves alone. */
module StepFrames {
  import opened UserEntity
  import opened Accounts
  import opened AccountInvariants

  /** At most this account's record changed, lock and counter not even there, beside tokens and events. */
  ghost predicate OneUserWritten(s: State, t: State, u: UserId) {
    && t.clock == s.clock && t.resets == s.resets && t.resetsIssued == s.resetsIssued && t.issued == s.issued
    && t.fails == s.fails
    && t.users.Keys == s.users.Keys
    && (t.users == s.users
        || (u in s.users && t.users == s.users[u := t.users[u]]
            && t.users[u].failedLoginAttempts == s.users[u].failedLoginAttempts
            && t.users[u].lockedUntil == s.users[u].lockedUntil))
  }

  lemma SetActiveFrame(s: State, op: Op)
    requires op.SetActive?
    ensures OneUserWritten(s, SetActiveStep(s, op).1, op.target)
  {
    hide RevokeRows, OfUser, Valid;
  }

  lemma SoftDeleteFrame(s: State, op: Op)
    requires op.SoftDelete?
    ensures OneUserWritten(s, SoftDeleteStep(s, op).1, op.target)
  {
    hide RevokeRows, OfUser, Valid;
  }

  lemma RestoreFrame(s: State, op: Op)
    requires op.Restore?
    ensures OneUserWritten(s, RestoreStep(s, op).1, op.target)
  {
    hide Valid;
  }

  lemma ForceFrame(cfg: Config, s: State, op: Op)
    requires op.SetForcePasswordChange?
    ensures OneUserWritten(s, OpStep(cfg, s, op).1, op.target)
  {
    hide Valid;
  }

  /** An administrative call writes one account. */
  lemma AdminFrame(cfg: Config, s: State, op: Op)
    requires op.SetActive? || op.SoftDelete? || op.Restore? || op.SetForcePasswordChange?
    ensures OneUserWritten(s, OpStep(cfg, s, op).1, op.target)
  {
    hide OneUserWritten, SetActiveStep, SoftDeleteStep, RestoreStep;
    match op
    case SetActive(_, _, _) => SetActiveFrame(s, op);
    case SoftDelete(_, _) => SoftDeleteFrame(s, op);
    case Restore(_) => RestoreFrame(s, op);
    case _ => ForceFrame(cfg, s, op);
  }

  /** Logins, refreshes and acceptances never touch reset links, nor logout and session revocation. */
  ghost predicate LinksAlone(s: State, t: State) {
    t.clock == s.clock && t.resets == s.resets && t.resetsIssued == s.resetsIssued
  }

  lemma LoginFrame(cfg: Config, s: State, op: Op)
    requires op.Login?
    ensures LinksAlone(s, LoginStep(cfg, s, op).1)
  {
    hide ByEmail, WithoutExpiredLock;
  }

  lemma RefreshFrame(cfg: Config, s: State, op: Op)
    requires op.Refresh?
    ensures LinksAlone(s, RefreshStep(cfg, s, op).1)
  {
    hide RevokeRows, OfFamily;
  }

  lemma AcceptFrame(cfg: Config, s: State, op: Op)
    requires op.AcceptInvitation?
    ensures LinksAlone(s, AcceptStep(cfg, s, op).1)
  {
    hide ByEmailIncludingDeleted, Create;
  }

  lemma SessionFrame(cfg: Config, s: State, op: Op)
    requires op.Login? || op.Refresh? || op.AcceptInvitation? || op.Logout? || op.RevokeSession?
    ensures LinksAlone(s, OpStep(cfg, s, op).1)
  {
    hide LoginStep, RefreshStep, AcceptStep, LiveFamilies, OfUser, OfFamily, RevokeRows;
    match op
    case Login(_, _, _, _, _) => LoginFrame(cfg, s, op);
    case Refresh(_, _) => RefreshFrame(cfg, s, op);
    case AcceptInvitation(_, _, _, _, _) => AcceptFrame(cfg, s, op);
    case _ =>
  }

  /** A new password leaves no token issued and no account added, and uses the links of its account when it is done. */
  lemma NewPasswordFrame(s: State, u: UserId, digest: Digest)
    requires u in s.users
    ensures var (out, t) := NewPassword(s, u, digest);
            && t.clock == s.clock && t.resetsIssued == s.resetsIssued && t.issued == s.issued
            && t.users.Keys == s.users.Keys
            && t.resets == if out.Done? then UseResets(s.resets, u) else s.resets
  {
    hide Update, UseResets, RevokeRows, OfUser;
  }

  /** Time moves to the call. */
  lemma StepClock(cfg: Config, s: State, c: Call)
    requires Legal(s, c) && ResetsOwned(s)
    ensures Step(cfg, s, c).1.clock == c.now >= s.clock
  {
    hide LoginStep, RefreshStep, AcceptStep, NewPassword, SetActiveStep, SoftDeleteStep, RestoreStep, Update,
         RevokeRows, OfUser, OfFamily, LiveFamilies, StaleTokens, StaleResets, Throttled, ByEmail, NewFamily;
    var s1 := s.(clock := c.now);
    if c.op.SetActive? || c.op.SoftDelete? || c.op.Restore? || c.op.SetForcePasswordChange? {
      AdminFrame(cfg, s1, c.op);
    } else if c.op.Login? || c.op.Refresh? || c.op.AcceptInvitation? || c.op.Logout? || c.op.RevokeSession? {
      SessionFrame(cfg, s1, c.op);
    } else if c.op.ResetPassword? {
      if c.op.reset in s.resets { NewPasswordFrame(s1, s.resets[c.op.reset].user, c.op.digest); }
    } else if c.op.ChangePassword? && c.op.user in s.users {
      NewPasswordFrame(s1, c.op.user, c.op.digest);
    }
  }
}
