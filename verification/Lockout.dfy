/** Brute-force lockout: how many failed comparisons of logins any window of time can hold. */
module Lockout {
  import opened Wrappers
  import opened UserEntity
  import opened Accounts
  import opened AccountInvariants
  import opened StepFrames
  import opened Windows

  /** One account: a counter at its maximum is locked, a lock outlasts every failure by the lockout, and
      without a lock only the failures the counter still holds are younger than the lockout. */
  ghost predicate AccountOk(cfg: Config, now: Time, user: User, fs: seq<Time>) {
    && user.failedLoginAttempts >= 0
    && Spread(fs, cfg.maxAttempts, cfg.lockoutMs)
    && (forall i :: 0 <= i < |fs| ==> fs[i] <= now)
    && match user.lockedUntil
       case Some(until) => forall i :: 0 <= i < |fs| ==> until >= fs[i] + cfg.lockoutMs
       case None =>
         && user.failedLoginAttempts < cfg.maxAttempts
         && forall i :: 0 <= i < |fs| - user.failedLoginAttempts ==> now >= fs[i] + cfg.lockoutMs
  }

  ghost predicate LockInv(cfg: Config, s: State) {
    && (forall u :: u in s.users ==> AccountOk(cfg, s.clock, s.users[u], FailsOf(s, u)))
    && (forall u :: u in s.fails ==> u in s.users)
  }

  lemma OneMoreFailure(cfg: Config, now: Time, user: User, fs: seq<Time>)
    requires cfg.Valid() && AccountOk(cfg, now, user, fs) && user.lockedUntil.None?
    ensures var n := user.failedLoginAttempts + 1;
            var lock := if n >= cfg.maxAttempts then Some(now + cfg.lockoutMs) else user.lockedUntil;
            AccountOk(cfg, now, user.(failedLoginAttempts := n, lockedUntil := lock), fs + [now])
  {
  }

  /** Untouched accounts keep counter, lock and failures; a success or a new password clears all three. */
  ghost predicate KeptOrCleared(s: State, t: State, u: UserId)
    requires u in t.users
  {
    || (u in s.users && t.users[u].failedLoginAttempts == s.users[u].failedLoginAttempts
        && t.users[u].lockedUntil == s.users[u].lockedUntil && FailsOf(t, u) == FailsOf(s, u))
    || (t.users[u].failedLoginAttempts == 0 && t.users[u].lockedUntil.None? && FailsOf(t, u) == [])
  }

  lemma KeptOrClearedOk(cfg: Config, s: State, t: State)
    requires cfg.Valid() && LockInv(cfg, s) && t.clock == s.clock && t.users.Keys >= s.users.Keys
    requires forall u :: u in t.users ==> KeptOrCleared(s, t, u)
    requires forall u :: u in t.fails ==> u in t.users
    ensures LockInv(cfg, t)
  {
    forall u | u in t.users ensures AccountOk(cfg, t.clock, t.users[u], FailsOf(t, u)) {
      if u in s.users { assert AccountOk(cfg, s.clock, s.users[u], FailsOf(s, u)); }
    }
  }

  lemma WithoutExpiredLockOk(cfg: Config, now: Time, user: User, fs: seq<Time>)
    requires cfg.Valid() && AccountOk(cfg, now, user, fs)
    ensures AccountOk(cfg, now, WithoutExpiredLock(user, now), fs)
  {
  }

  lemma SetUserOk(cfg: Config, s: State, u: UserId, user: User)
    requires LockInv(cfg, s) && u in s.users && AccountOk(cfg, s.clock, user, FailsOf(s, u))
    ensures LockInv(cfg, SetUser(s, u, user))
  {
  }

  lemma FailedAttemptOk(cfg: Config, s: State, u: UserId)
    requires cfg.Valid() && LockInv(cfg, s) && u in s.users && s.users[u].lockedUntil.None?
    ensures LockInv(cfg, FailedAttempt(cfg, s, u))
  {
    assert AccountOk(cfg, s.clock, s.users[u], FailsOf(s, u));
    hide AccountOk;
    OneMoreFailure(cfg, s.clock, s.users[u], FailsOf(s, u));
  }

  lemma OpenSessionOk(cfg: Config, s: State, u: UserId, remember: bool, h: TokenHash, f: Family)
    requires cfg.Valid() && LockInv(cfg, s) && u in s.users
    ensures LockInv(cfg, OpenSession(cfg, s, u, remember, h, f))
  {
  }

  lemma LoginLockOk(cfg: Config, s: State, op: Op)
    requires cfg.Valid() && LockInv(cfg, s) && op.Login?
    ensures LockInv(cfg, LoginStep(cfg, s, op).1)
  {
    var found := ByEmail(s.users, op.email);
    if found.Some? {
      var u := found.value;
      FoundIsStored(s.users, op.email);
      assert AccountOk(cfg, s.clock, s.users[u], FailsOf(s, u));
      hide LockInv, AccountOk, ByEmail, OpenSession, FailedAttempt;
      WithoutExpiredLockOk(cfg, s.clock, s.users[u], FailsOf(s, u));
      SetUserOk(cfg, s, u, WithoutExpiredLock(s.users[u], s.clock));
      var s1 := SetUser(s, u, WithoutExpiredLock(s.users[u], s.clock));
      if s1.users[u].lockedUntil.None? && s1.users[u].isActive {
        if op.passwordOk {
          OpenSessionOk(cfg, s1, u, op.remember, op.hash, op.family);
        } else {
          FailedAttemptOk(cfg, s1, u);
        }
      }
    }
  }

  ghost predicate AllKeptOrCleared(s: State, t: State) {
    && t.clock == s.clock && t.users.Keys >= s.users.Keys
    && (forall u :: u in t.users ==> KeptOrCleared(s, t, u))
    && (forall u :: u in t.fails ==> u in t.users)
  }

  lemma OtherLockOk(cfg: Config, s: State, op: Op)
    requires cfg.Valid() && LockInv(cfg, s) && !op.Login? && Legal(s, Call(s.clock, op)) && ResetsOwned(s)
    ensures LockInv(cfg, OpStep(cfg, s, op).1)
  {
    OtherKeepsOrClears(cfg, s, op);
    hide Legal, OpStep;
    KeptOrClearedOk(cfg, s, OpStep(cfg, s, op).1);
  }

  lemma NewPasswordClears(s: State, u: UserId, digest: Digest)
    requires u in s.users && forall v :: v in s.fails ==> v in s.users
    ensures AllKeptOrCleared(s, NewPassword(s, u, digest).1)
  {
  }

  lemma PasswordOpClears(cfg: Config, s: State, op: Op)
    requires (op.ResetPassword? || op.ChangePassword?) && ResetsOwned(s) && forall v :: v in s.fails ==> v in s.users
    ensures AllKeptOrCleared(s, OpStep(cfg, s, op).1)
  {
    hide AllKeptOrCleared, NewPassword;
    NothingChanged(s, s);
    if op.ResetPassword? {
      if op.reset in s.resets { NewPasswordClears(s, s.resets[op.reset].user, op.digest); }
    } else if op.user in s.users {
      NewPasswordClears(s, op.user, op.digest);
    }
  }

  lemma NothingChanged(s: State, t: State)
    requires t.clock == s.clock && t.users == s.users && t.fails == s.fails && forall v :: v in s.fails ==> v in s.users
    ensures AllKeptOrCleared(s, t)
  {
  }

  lemma OneUserChanged(s: State, t: State, u: UserId)
    requires t.clock == s.clock && u in t.users && t.users == s.users[u := t.users[u]] && t.fails == s.fails
    requires forall v :: v in s.fails ==> v in s.users
    requires KeptOrCleared(s, t, u)
    ensures AllKeptOrCleared(s, t)
  {
  }

  lemma AdminOpKeeps(cfg: Config, s: State, op: Op)
    requires op.SetActive? || op.SoftDelete? || op.Restore? || op.SetForcePasswordChange?
    requires forall v :: v in s.fails ==> v in s.users
    ensures AllKeptOrCleared(s, OpStep(cfg, s, op).1)
  {
    hide AllKeptOrCleared, OpStep;
    var t := OpStep(cfg, s, op).1;
    AdminFrame(cfg, s, op);
    if t.users == s.users {
      NothingChanged(s, t);
    } else {
      OneUserChanged(s, t, op.target);
    }
  }

  lemma AcceptKeepsOrClears(cfg: Config, s: State, op: Op)
    requires op.AcceptInvitation? && op.newUser !in s.users && op.newUser !in s.fails
    requires forall u :: u in s.fails ==> u in s.users
    ensures AllKeptOrCleared(s, AcceptStep(cfg, s, op).1)
  {
    var t := AcceptStep(cfg, s, op).1;
    AcceptedIsClear(cfg, s, op);
    AcceptFrame(cfg, s, op);
    hide AllKeptOrCleared, AcceptStep;
    if t.users == s.users { NothingChanged(s, t); } else { OneUserChanged(s, t, op.newUser); }
  }

  /** Calls that touch no account. */
  lemma QuietOpKeeps(cfg: Config, s: State, op: Op)
    requires op.Refresh? || op.Logout? || op.RevokeSession? || op.ForgotPassword? || op.Purge?
    requires forall u :: u in s.fails ==> u in s.users
    ensures AllKeptOrCleared(s, OpStep(cfg, s, op).1)
  {
    hide AllKeptOrCleared, ByEmail, Throttled, LiveFamilies, RevokeRows, OfUser, OfFamily, StaleTokens, StaleResets;
    NothingChanged(s, OpStep(cfg, s, op).1);
  }

  lemma OtherKeepsOrClears(cfg: Config, s: State, op: Op)
    requires !op.Login? && Legal(s, Call(s.clock, op)) && ResetsOwned(s)
    requires forall u :: u in s.fails ==> u in s.users
    ensures AllKeptOrCleared(s, OpStep(cfg, s, op).1)
  {
    assert op.AcceptInvitation? ==> op.newUser !in s.users && op.newUser !in s.fails;
    hide AllKeptOrCleared, AcceptStep, Legal, ResetsOwned;
    match op
    case ResetPassword(_, _) => PasswordOpClears(cfg, s, op);
    case ChangePassword(_, _, _) => PasswordOpClears(cfg, s, op);
    case SetActive(_, _, _) => AdminOpKeeps(cfg, s, op);
    case SoftDelete(_, _) => AdminOpKeeps(cfg, s, op);
    case Restore(_) => AdminOpKeeps(cfg, s, op);
    case SetForcePasswordChange(_, _) => AdminOpKeeps(cfg, s, op);
    case AcceptInvitation(_, _, _, _, _) =>
      AcceptKeepsOrClears(cfg, s, op);
      assert OpStep(cfg, s, op) == AcceptStep(cfg, s, op);
    case _ => QuietOpKeeps(cfg, s, op);
  }

  lemma AcceptedIsClear(cfg: Config, s: State, op: Op)
    requires op.AcceptInvitation? && op.newUser !in s.users && op.newUser !in s.fails
    ensures var t := AcceptStep(cfg, s, op).1;
            t.fails == s.fails && (t.users == s.users || (t.users == s.users[op.newUser := t.users[op.newUser]]
              && t.users[op.newUser].failedLoginAttempts == 0 && t.users[op.newUser].lockedUntil.None?))
  {
  }

  lemma StepLockOk(cfg: Config, s: State, c: Call)
    requires cfg.Valid() && Inv(s) && LockInv(cfg, s) && Legal(s, c)
    ensures LockInv(cfg, Step(cfg, s, c).1)
  {
    var s1 := s.(clock := c.now);
    forall u | u in s1.users ensures AccountOk(cfg, s1.clock, s1.users[u], FailsOf(s1, u)) {
      assert AccountOk(cfg, s.clock, s.users[u], FailsOf(s, u));
    }
    hide AccountOk, Inv;
    if c.op.Login? {
      LoginLockOk(cfg, s1, c.op);
    } else {
      LegalAtCall(s, c);
      OtherLockOk(cfg, s1, c.op);
    }
  }

  lemma LegalAtCall(s: State, c: Call)
    requires Inv(s) && Legal(s, c)
    ensures Legal(s.(clock := c.now), c) && ResetsOwned(s.(clock := c.now))
  {
  }

  lemma {:induction false} RunLockOk(cfg: Config, s: State, calls: seq<Call>)
    requires cfg.Valid() && Inv(s) && LockInv(cfg, s) && LegalRun(cfg, s, calls)
    ensures LockInv(cfg, Run(cfg, s, calls))
    decreases |calls|
  {
    if calls != [] {
      StepKeeps(cfg, s, calls[0]);
      StepLockOk(cfg, s, calls[0]);
      RunLockOk(cfg, Step(cfg, s, calls[0]).1, calls[1..]);
    }
  }

  lemma InitialLockOk(cfg: Config, s: State)
    requires cfg.Valid() && Initial(cfg, s)
    ensures LockInv(cfg, s)
  {
    forall u | u in s.users ensures AccountOk(cfg, s.clock, s.users[u], FailsOf(s, u)) {}
  }

  /** Over any run of service calls and for every account: between two resets of its counter by a success or a new
      password, no half-open window of the lockout's length holds more than maxAttempts failed comparisons of logins. */
  lemma LockoutBound(cfg: Config, s: State, calls: seq<Call>, u: UserId, w: Time)
    requires cfg.Valid() && Initial(cfg, s) && LegalRun(cfg, s, calls)
    requires u in Run(cfg, s, calls).users
    ensures |InWindow(FailsOf(Run(cfg, s, calls), u), w, cfg.lockoutMs)| <= cfg.maxAttempts
    ensures var user := Run(cfg, s, calls).users[u];
            user.failedLoginAttempts >= cfg.maxAttempts ==> user.lockedUntil.Some?
  {
    InitialOk(cfg, s);
    InitialLockOk(cfg, s);
    RunLockOk(cfg, s, calls);
    assert AccountOk(cfg, Run(cfg, s, calls).clock, Run(cfg, s, calls).users[u], FailsOf(Run(cfg, s, calls), u));
    SpreadBoundsWindow(FailsOf(Run(cfg, s, calls), u), cfg.maxAttempts, w, cfg.lockoutMs);
  }
}
