/** Each account told from the calls alone: its password, and whether it is open, are what the last call about them
    said; and a lock lasts exactly as long as it was set for. */
module AccountHistory {
  import opened Wrappers
  import opened UserEntity
  import opened Accounts
  import opened AccountInvariants
  import opened CallEffects

  /** Who may log in with what. */
  datatype Profile = Profile(digest: Digest, active: bool, deletedAt: Option<Time>)

  function ProfileOf(s: State, u: UserId): Option<Profile> {
    if u in s.users then Some(Profile(s.users[u].passwordHash, s.users[u].isActive, s.users[u].deletedAt)) else None
  }

  /** What one completed call says about the account; any other call says nothing. */
  ghost function Told(s: State, c: Call, out: Outcome, u: UserId, was: Option<Profile>): Option<Profile> {
    match c.op
    case AcceptInvitation(_, digest, v, _, _) => if out.Granted? && v == u then Some(Profile(digest, true, None))
      else was
    case _ =>
      if !out.Done? || was.None? then was
      else
        var p := was.value;
        match c.op
        case ResetPassword(_, digest) => if Sets(s, c.op) == Some(u) then Some(p.(digest := digest)) else was
        case ChangePassword(_, _, digest) => if Sets(s, c.op) == Some(u) then Some(p.(digest := digest)) else was
        case SetActive(_, v, active) => if v == u then Some(p.(active := active)) else was
        case SoftDelete(_, v) => if v == u then Some(p.(active := false, deletedAt := Some(c.now))) else was
        case Restore(v) => if v == u then Some(p.(active := true, deletedAt := None)) else was
        case _ => was
  }

  ghost function ToldOverRun(cfg: Config, s: State, calls: seq<Call>, u: UserId, was: Option<Profile>): Option<Profile>
    decreases |calls|
  {
    if calls == [] then was
    else
      var (out, t) := Step(cfg, s, calls[0]);
      ToldOverRun(cfg, t, calls[1..], u, Told(s, calls[0], out, u, was))
  }

  lemma LoginTells(cfg: Config, s: State, c: Call, u: UserId)
    requires UsersOk(s.users) && c.op.Login?
    ensures ProfileOf(Step(cfg, s, c).1, u) == ProfileOf(s, u)
  {
    hide UsersOk, Step;
    if v :| LoginTo(s, c, v) {
      if RunningLock(s.users[v], c.now) || !s.users[v].isActive { LoginRefused(cfg, s, c, v); }
      else if !c.op.passwordOk { LoginFailed(cfg, s, c, v); }
      else { LoginGranted(cfg, s, c, v); }
    } else {
      forall w | w in s.users && s.users[w].email == c.op.email ensures s.users[w].deletedAt.Some? {
        assert !LoginTo(s, c, w);
      }
      LoginUnknown(cfg, s, c);
    }
  }

  lemma QuietTells(cfg: Config, s: State, c: Call)
    requires c.op.Refresh? || c.op.Logout? || c.op.RevokeSession? || c.op.ForgotPassword? || c.op.Purge?
    ensures Step(cfg, s, c).1.users == s.users
  {
    hide RevokeRows, OfFamily, OfUser, LiveFamilies, StaleTokens, StaleResets, Throttled, ByEmail;
  }

  lemma AdminTells(cfg: Config, s: State, c: Call, u: UserId)
    requires UsersOk(s.users)
    requires c.op.SetActive? || c.op.SoftDelete? || c.op.Restore? || c.op.SetForcePasswordChange?
    ensures var (out, t) := Step(cfg, s, c);
            ProfileOf(t, u) == Told(s, c, out, u, ProfileOf(s, u))
  {
    AdminRefused(cfg, s, c);
    if Step(cfg, s, c).0.Done? { AdminEffect(cfg, s, c); }
    hide Step, UsersOk;
  }

  lemma AdminRefused(cfg: Config, s: State, c: Call)
    requires c.op.SetActive? || c.op.SoftDelete? || c.op.Restore? || c.op.SetForcePasswordChange?
    ensures !Step(cfg, s, c).0.Done? ==> Step(cfg, s, c).1.users == s.users
    ensures !Step(cfg, s, c).0.Granted?
  {
    hide Update, RevokeRows, OfUser;
  }

  lemma CallTells(cfg: Config, s: State, c: Call, u: UserId)
    requires Inv(s)
    ensures var (out, t) := Step(cfg, s, c);
            ProfileOf(t, u) == Told(s, c, out, u, ProfileOf(s, u))
  {
    if c.op.Login? { LoginTells(cfg, s, c, u); }
    else if c.op.AcceptInvitation? { AcceptEffect(cfg, s, c); }
    else if c.op.ResetPassword? || c.op.ChangePassword? { PasswordEffect(cfg, s, c); }
    else if c.op.SetActive? || c.op.SoftDelete? || c.op.Restore? || c.op.SetForcePasswordChange? {
      AdminTells(cfg, s, c, u);
    } else { QuietTells(cfg, s, c); }
    hide Inv, Step;
  }

  /** Over any run the password of an account is the one of the last completed reset or change, or of its acceptance; it
      is open and unarchived as the last completed administrative call left it; and nothing else ever changes them. */
  lemma {:induction false} ProfileOverRuns(cfg: Config, s: State, calls: seq<Call>, u: UserId)
    requires Inv(s) && LegalRun(cfg, s, calls)
    ensures ProfileOf(Run(cfg, s, calls), u) == ToldOverRun(cfg, s, calls, u, ProfileOf(s, u))
    decreases |calls|
  {
    if calls != [] {
      hide Inv, Step, Told, ProfileOf;
      StepKeeps(cfg, s, calls[0]);
      CallTells(cfg, s, calls[0], u);
      ProfileOverRuns(cfg, Step(cfg, s, calls[0]).1, calls[1..], u);
    }
  }

  /** After a completed restoring or activating, a login with the right password and no running lock is granted; after a
      completed suspension or archiving none is. */
  lemma OpenAgain(cfg: Config, s: State, c: Call, login: Call)
    requires Inv(s) && Legal(s, c) && Step(cfg, s, c).0.Done?
    requires c.op.Restore? || c.op.SetActive? || c.op.SoftDelete?
    requires var t := Step(cfg, s, c).1;
             c.op.target in t.users && login.op.Login? && login.op.email == t.users[c.op.target].email
    ensures var t := Step(cfg, s, c).1;
            Step(cfg, t, login).0.Granted? <==>
              && (c.op.Restore? || (c.op.SetActive? && c.op.active))
              && login.op.passwordOk && !RunningLock(t.users[c.op.target], login.now)
  {
    hide Inv, Step;
    var t, v := Step(cfg, s, c).1, c.op.target;
    StepKeeps(cfg, s, c);
    InvUsers(s);
    InvUsers(t);
    AdminEffect(cfg, s, c);
    if c.op.SetActive? && c.op.active { ActiveIsUnarchived(cfg, s, c); }
    if t.users[v].deletedAt.Some? {
      forall w | w in t.users && t.users[w].email == login.op.email ensures t.users[w].deletedAt.Some? {
        assert w == v by { SameAddress(t, v, w); }
      }
      LoginUnknown(cfg, t, login);
    } else if RunningLock(t.users[v], login.now) || !t.users[v].isActive { LoginRefused(cfg, t, login, v); }
    else if !login.op.passwordOk { LoginFailed(cfg, t, login, v); }
    else { LoginGranted(cfg, t, login, v); }
  }

  lemma InvUsers(s: State)
    requires Inv(s)
    ensures UsersOk(s.users)
  {
  }

  lemma SameAddress(s: State, v: UserId, w: UserId)
    requires UsersOk(s.users) && v in s.users && w in s.users && s.users[v].email == s.users[w].email
    ensures v == w
  {
  }

  /** Activating is done for accounts that are not archived only. */
  lemma ActiveIsUnarchived(cfg: Config, s: State, c: Call)
    requires UsersOk(s.users) && c.op.SetActive? && c.op.active && Step(cfg, s, c).0.Done? && c.op.target in s.users
    ensures s.users[c.op.target].deletedAt.None?
  {
  }

  // ---- How long a lock lasts ----

  /** No call of the run sets this account's password. */
  ghost predicate NeverSets(cfg: Config, s: State, calls: seq<Call>, u: UserId)
    decreases |calls|
  {
    calls == [] || (!SetsNow(cfg, s, calls[0], u) && NeverSets(cfg, Step(cfg, s, calls[0]).1, calls[1..], u))
  }

  ghost predicate SetsNow(cfg: Config, s: State, c: Call, u: UserId) {
    Step(cfg, s, c).0.Done? && Sets(s, c.op) == Some(u)
  }

  ghost predicate LockedUntil(s: State, u: UserId, until: Time) {
    u in s.users && s.users[u].lockedUntil == Some(until)
  }

  lemma LoginKeepsLock(cfg: Config, s: State, c: Call, u: UserId, until: Time)
    requires UsersOk(s.users) && c.op.Login? && LockedUntil(s, u, until) && c.now < until
    ensures LockedUntil(Step(cfg, s, c).1, u, until)
  {
    hide UsersOk, Step;
    if v :| LoginTo(s, c, v) {
      if RunningLock(s.users[v], c.now) || !s.users[v].isActive { LoginRefused(cfg, s, c, v); }
      else if !c.op.passwordOk { LoginFailed(cfg, s, c, v); }
      else { LoginGranted(cfg, s, c, v); }
    } else {
      forall w | w in s.users && s.users[w].email == c.op.email ensures s.users[w].deletedAt.Some? {
        assert !LoginTo(s, c, w);
      }
      LoginUnknown(cfg, s, c);
    }
  }

  lemma CallKeepsLock(cfg: Config, s: State, c: Call, u: UserId, until: Time)
    requires Inv(s) && Legal(s, c) && LockedUntil(s, u, until) && c.now < until && !SetsNow(cfg, s, c, u)
    ensures LockedUntil(Step(cfg, s, c).1, u, until)
  {
    if c.op.Login? { LoginKeepsLock(cfg, s, c, u, until); }
    else if c.op.AcceptInvitation? { AcceptEffect(cfg, s, c); }
    else if c.op.ResetPassword? || c.op.ChangePassword? { PasswordEffect(cfg, s, c); }
    else if c.op.SetActive? || c.op.SoftDelete? || c.op.Restore? || c.op.SetForcePasswordChange? {
      AdminRefused(cfg, s, c);
      if Step(cfg, s, c).0.Done? { AdminEffect(cfg, s, c); }
    } else { QuietTells(cfg, s, c); }
    hide Inv, Step;
  }

  lemma {:induction false} RunKeepsLock(cfg: Config, s: State, calls: seq<Call>, u: UserId, until: Time)
    requires Inv(s) && LegalRun(cfg, s, calls) && LockedUntil(s, u, until) && NeverSets(cfg, s, calls, u)
    requires forall i :: 0 <= i < |calls| ==> calls[i].now < until
    ensures LockedUntil(Run(cfg, s, calls), u, until) && Inv(Run(cfg, s, calls))
    decreases |calls|
  {
    if calls != [] {
      hide Inv, Step, LockedUntil, SetsNow, Legal;
      StepKeeps(cfg, s, calls[0]);
      CallKeepsLock(cfg, s, calls[0], u, until);
      RunKeepsLock(cfg, Step(cfg, s, calls[0]).1, calls[1..], u, until);
    }
  }

  /** The wrong password that reaches the maximum locks the account for exactly the lockout: whatever is called
      meanwhile, unless it sets a password, the next login to the account is granted if and only if the lockout is over,
      the account active and the password right. */
  lemma LockLasts(cfg: Config, s: State, wrong: Call, calls: seq<Call>, login: Call, u: UserId)
    requires Inv(s) && Legal(s, wrong) && LoginTo(s, wrong, u) && s.users[u].isActive && !wrong.op.passwordOk
    requires !RunningLock(s.users[u], wrong.now) && Tries(s.users[u], wrong.now) + 1 >= cfg.maxAttempts
    requires var t := Step(cfg, s, wrong).1; LegalRun(cfg, t, calls) && NeverSets(cfg, t, calls, u)
    requires forall i :: 0 <= i < |calls| ==> calls[i].now < wrong.now + cfg.lockoutMs
    requires LoginTo(Run(cfg, Step(cfg, s, wrong).1, calls), login, u)
    ensures var t := Run(cfg, Step(cfg, s, wrong).1, calls);
            Step(cfg, t, login).0.Granted? <==>
              login.now >= wrong.now + cfg.lockoutMs && t.users[u].isActive && login.op.passwordOk
  {
    hide Inv, Step, LegalRun, Run, NeverSets, Legal;
    var t := Step(cfg, s, wrong).1;
    InvUsers(s);
    LoginFailed(cfg, s, wrong, u);
    StepKeeps(cfg, s, wrong);
    RunKeepsLock(cfg, t, calls, u, wrong.now + cfg.lockoutMs);
    var r := Run(cfg, t, calls);
    InvUsers(r);
    if RunningLock(r.users[u], login.now) || !r.users[u].isActive { LoginRefused(cfg, r, login, u); }
    else if !login.op.passwordOk { LoginFailed(cfg, r, login, u); }
    else { LoginGranted(cfg, r, login, u); }
  }
}
