/** What each service call does, told in the fields of the tables: who is let in, refused or written, and everything
    that changes. */
module CallEffects {
  import opened Wrappers
  import opened UserEntity
  import opened Accounts
  import opened AccountInvariants

  // ---- Lookups ----

  lemma FoundIs(s: State, u: UserId, email: string)
    requires UsersOk(s.users) && u in s.users && s.users[u].email == email
    ensures ByEmailIncludingDeleted(s.users, email) == Some(u)
    ensures ByEmail(s.users, email) == if s.users[u].deletedAt.None? then Some(u) else None
  {
    LookupIsUnique(s.users, email, u);
  }

  lemma FoundNone(s: State, email: string)
    requires forall u :: u in s.users ==> s.users[u].email != email
    ensures ByEmailIncludingDeleted(s.users, email) == None && ByEmail(s.users, email) == None
  {
  }

  // ---- Login and refresh ----

  /** The count once a lock that has run out is forgotten. */
  function Tries(user: User, now: Time): int {
    if user.lockedUntil.Some? && user.lockedUntil.value <= now then 0 else user.failedLoginAttempts
  }

  ghost predicate LoginTo(s: State, c: Call, u: UserId) {
    c.op.Login? && u in s.users && s.users[u].email == c.op.email && s.users[u].deletedAt.None?
  }

  ghost predicate RunningLock(user: User, now: Time) { user.lockedUntil.Some? && user.lockedUntil.value > now }

  /** A running lock, and then a suspension, refuse whatever the password; only a lock that has run out is cleared. */
  lemma LoginRefused(cfg: Config, s: State, c: Call, u: UserId)
    requires UsersOk(s.users) && LoginTo(s, c, u) && (RunningLock(s.users[u], c.now) || !s.users[u].isActive)
    ensures var (out, t) := Step(cfg, s, c);
            var was := s.users[u];
            && out == Unauthorized
            && t == s.(clock := c.now,
                       users := if RunningLock(was, c.now) then s.users
                                else s.users[u := was.(lockedUntil := None, failedLoginAttempts := Tries(was, c.now))])
  {
    FoundIs(s, u, c.op.email);
    hide ByEmail, ByEmailIncludingDeleted, UsersOk, FailedAttempt, OpenSession;
  }

  /** A wrong password adds one to the count, and at the maximum locks the account for the lockout from now. */
  lemma LoginFailed(cfg: Config, s: State, c: Call, u: UserId)
    requires UsersOk(s.users) && LoginTo(s, c, u) && !RunningLock(s.users[u], c.now) && s.users[u].isActive
             && !c.op.passwordOk
    ensures var (out, t) := Step(cfg, s, c);
            var n := Tries(s.users[u], c.now) + 1;
            var lock := if n >= cfg.maxAttempts then Some(c.now + cfg.lockoutMs) else None;
            && out == Unauthorized
            && t.users == s.users[u := s.users[u].(lockedUntil := lock, failedLoginAttempts := n)]
            && t.tokens == s.tokens && t.resets == s.resets && t.events == s.events && t.issued == s.issued
  {
    hide ByEmail, ByEmailIncludingDeleted, UsersOk, OpenSession, FailedAttempt;
    FoundIs(s, u, c.op.email);
    var s1 := SetUser(s.(clock := c.now), u, WithoutExpiredLock(s.users[u], c.now));
    FailedAttemptIs(cfg, s1, u);
    assert s1.users[u := s1.users[u]] == s1.users;
    assert Step(cfg, s, c) == (Unauthorized, FailedAttempt(cfg, s1, u));
  }

  lemma FailedAttemptIs(cfg: Config, s: State, u: UserId)
    requires u in s.users
    ensures var t, n := FailedAttempt(cfg, s, u), s.users[u].failedLoginAttempts + 1;
            var lock := if n >= cfg.maxAttempts then Some(s.clock + cfg.lockoutMs) else s.users[u].lockedUntil;
            && t.users == s.users[u := s.users[u].(lockedUntil := lock, failedLoginAttempts := n)]
            && t.tokens == s.tokens && t.resets == s.resets && t.events == s.events && t.issued == s.issued
  {
  }

  /** A right one clears count and lock and opens a family for the term that was asked for. */
  lemma LoginGranted(cfg: Config, s: State, c: Call, u: UserId)
    requires UsersOk(s.users) && LoginTo(s, c, u) && !RunningLock(s.users[u], c.now) && s.users[u].isActive
             && c.op.passwordOk
    ensures var (out, t) := Step(cfg, s, c);
            var op, now := c.op, c.now;
            var ttl := if op.remember then cfg.persistentTtlMs else cfg.sessionTtlMs;
            && out == Granted(op.remember)
            && t.users == s.users[u := s.users[u].(lockedUntil := None, failedLoginAttempts := 0,
                                                   lastLoginAt := Some(now))]
            && t.tokens == s.tokens[op.hash := TokenRow(u, op.family, now + ttl, op.remember, false, now)]
            && t.resets == s.resets && t.events == s.events
  {
    FoundIs(s, u, c.op.email);
    hide ByEmail, ByEmailIncludingDeleted, UsersOk, FailedAttempt;
  }

  /** A login to an address without an account that is not archived. */
  lemma LoginUnknown(cfg: Config, s: State, c: Call)
    requires c.op.Login?
    requires forall u :: u in s.users && s.users[u].email == c.op.email ==> s.users[u].deletedAt.Some?
    ensures Step(cfg, s, c) == (Unauthorized, s.(clock := c.now))
  {
    FoundIsStored(s.users, c.op.email);
    var found := ByEmailIncludingDeleted(s.users, c.op.email);
    if found.Some? { assert HasEmail(s.users, c.op.email, found.value); }
  }

  /** A refused refresh: a revoked token takes its whole family with it, an expired one is revoked, an unknown one and
      one of an account that is gone, archived or suspended change nothing. */
  lemma RefreshRefused(cfg: Config, s: State, c: Call)
    requires c.op.Refresh? && !Step(cfg, s, c).0.Granted?
    ensures var (out, t) := Step(cfg, s, c);
            var p, now := c.op.presented, c.now;
            && out == Unauthorized && t == s.(clock := now, tokens := t.tokens) && t.tokens.Keys == s.tokens.Keys
            && forall h :: h in s.tokens ==>
                 var revokes := p in s.tokens &&
                   (if s.tokens[p].revoked then s.tokens[h].family == s.tokens[p].family
                    else h == p && s.tokens[p].expiresAt < now);
                 t.tokens[h] == s.tokens[h].(revoked := s.tokens[h].revoked || revokes)
  {
  }

  /** A granted refresh replaces the token by one of the same family, with a new term of the same kind. */
  lemma RefreshGranted(cfg: Config, s: State, c: Call)
    requires c.op.Refresh? && Step(cfg, s, c).0.Granted?
    ensures c.op.presented in s.tokens
    ensures var (out, t) := Step(cfg, s, c);
            var p, row, now := c.op.presented, s.tokens[c.op.presented], c.now;
            var ttl := if row.persistent then cfg.persistentTtlMs else cfg.sessionTtlMs;
            var next := TokenRow(row.user, row.family, now + ttl, row.persistent, false, now);
            && out == Granted(row.persistent)
            && t.tokens == s.tokens[p := row.(revoked := true)][c.op.hash := next]
            && t.users == s.users && t.resets == s.resets && t.events == s.events
  {
  }

  /** Ending sessions touches nothing but the revocation of their rows. */
  lemma EndingEffect(cfg: Config, s: State, c: Call)
    requires c.op.Logout? || c.op.RevokeSession?
    ensures var (out, t) := Step(cfg, s, c);
            && (c.op.Logout? ==> out == Done)
            && (c.op.RevokeSession? ==>
                  out == if exists h | h in s.tokens ::
                              && s.tokens[h].user == c.op.user && s.tokens[h].family == c.op.family
                              && !s.tokens[h].revoked && s.tokens[h].expiresAt > c.now
                         then Done else NotFound)
            && t == s.(clock := c.now, tokens := t.tokens) && t.tokens.Keys == s.tokens.Keys
            && forall h :: h in s.tokens ==>
                 t.tokens[h] == s.tokens[h].(revoked := s.tokens[h].revoked || (out == Done &&
                   if c.op.Logout? then
                     c.op.presented in s.tokens && s.tokens[h].family == s.tokens[c.op.presented].family
                   else s.tokens[h].user == c.op.user && s.tokens[h].family == c.op.family))
  {
    if c.op.RevokeSession? {
      var live := LiveRows(s.tokens, c.op.user, c.now);
      if h :| h in s.tokens && s.tokens[h].user == c.op.user && s.tokens[h].family == c.op.family
              && !s.tokens[h].revoked && s.tokens[h].expiresAt > c.now {
        assert h in live;
      }
    }
  }

  // ---- Accounts ----

  /** The exact outcome of accepting an invitation: granted if it exists, is unused and not expired, its address belongs
      to no account, archived ones included, neither as given nor as it will be stored, has an @, and comes with a
      client kind for clients only. */
  lemma AcceptOutcome(cfg: Config, s: State, c: Call)
    requires c.op.AcceptInvitation?
    ensures var out := Step(cfg, s, c).0;
            if c.op.invitation.None? then out == NotFound
            else
              var i := c.op.invitation.value;
              if i.used then out == Conflict
              else if i.expiresAt < c.now then out == Unauthorized
              else if exists u :: u in s.users && s.users[u].email == i.email then out == Conflict
              else if || (exists u :: u in s.users && s.users[u].email == Trim(Lower(i.email)))
                      || '@' !in i.email || (i.role != Client && i.clientKind.Some?) then out == Failed
              else out == Granted(false)
  {
    if c.op.invitation.Some? {
      var i := c.op.invitation.value;
      var n := Trim(Lower(i.email));
      AtSignStays(i.email);
      Taken(s, i.email);
      Taken(s, n);
      hide ByEmailIncludingDeleted, Trim, Lower;
    }
  }

  lemma Taken(s: State, email: string)
    ensures ByEmailIncludingDeleted(s.users, email).Some? <==> exists u :: u in s.users && s.users[u].email == email
  {
    if u :| u in s.users && s.users[u].email == email { assert HasEmail(s.users, email, u); }
    FoundIsStored(s.users, email);
  }

  /** A granted acceptance makes exactly the invited account, signed in for one short session, the first it ever has,
      and announces it; a refused one changes nothing. */
  lemma AcceptEffect(cfg: Config, s: State, c: Call)
    requires c.op.AcceptInvitation?
    ensures var (out, t) := Step(cfg, s, c);
            var op, now := c.op, c.now;
            if !out.Granted? then t == s.(clock := now)
            else
              && op.invitation.Some?
              && var i := op.invitation.value;
                 var user := User(Trim(Lower(i.email)), i.role, i.clientKind, op.digest, true, 0, None, false,
                                  Some(now), None);
                 && t.users == s.users[op.newUser := user]
                 && t.tokens == s.tokens[op.hash :=
                                         TokenRow(op.newUser, op.family, now + cfg.sessionTtlMs, false, false, now)]
                 && t.events == s.events + [Event(Registered, op.newUser)] && t.resets == s.resets
  {
    hide ByEmailIncludingDeleted, Trim, Lower;
  }

  /** The stored address: the given one in small letters without the blanks around it. */
  lemma {:induction false} StoredAddress(email: string) returns (i: nat, j: nat)
    ensures i <= j <= |email| && |Trim(Lower(email))| == j - i
    ensures forall k :: 0 <= k < i || j <= k < |email| ==> email[k] == ' '
    ensures forall k :: 0 <= k < j - i ==>
              var x := email[i + k];
              Trim(Lower(email))[k] == if 'A' <= x <= 'Z' then x - 'A' + 'a' else x
    ensures i < j ==> email[i] != ' ' && email[j - 1] != ' '
  {
    LowerIs(email);
    i, j := Trimmed(Lower(email));
    assert forall k :: 0 <= k < |email| ==> (Lower(email)[k] == ' ' <==> email[k] == ' ');
  }

  lemma {:induction false} LowerIs(s: string)
    ensures |Lower(s)| == |s|
    ensures forall k :: 0 <= k < |s| ==> Lower(s)[k] == if 'A' <= s[k] <= 'Z' then s[k] - 'A' + 'a' else s[k]
  {
    if s != "" { LowerIs(s[1..]); }
  }

  lemma {:induction false} Trimmed(s: string) returns (i: nat, j: nat)
    ensures i <= j <= |s| && Trim(s) == s[i..j]
    ensures forall k :: 0 <= k < i || j <= k < |s| ==> s[k] == ' '
    ensures i < j ==> s[i] != ' ' && s[j - 1] != ' '
    decreases |s|
  {
    if s != "" && s[0] == ' ' {
      var a, b := Trimmed(s[1..]);
      i, j := a + 1, b + 1;
      assert s[1..][a..b] == s[i..j];
    } else if s != "" && s[|s| - 1] == ' ' {
      i, j := Trimmed(s[..|s| - 1]);
      assert s[..|s| - 1][i..j] == s[i..j];
    } else {
      i, j := 0, |s|;
    }
  }

  lemma AtSignStays(email: string)
    ensures '@' in Trim(Lower(email)) <==> '@' in email
  {
    var i, j := StoredAddress(email);
    var n := Trim(Lower(email));
    if '@' in email {
      var k :| 0 <= k < |email| && email[k] == '@';
      assert n[k - i] == '@';
    }
    if '@' in n {
      var k :| 0 <= k < |n| && n[k] == '@';
      assert email[i + k] == '@';
    }
  }

  // ---- Administrative calls ----

  /** The exact outcome of an administrative call; one that is refused changes nothing. */
  lemma AdminOutcome(cfg: Config, s: State, c: Call)
    requires UsersOk(s.users)
    requires c.op.SetActive? || c.op.SoftDelete? || c.op.Restore? || c.op.SetForcePasswordChange?
    ensures var (out, t) := Step(cfg, s, c);
            var known := c.op.target in s.users;
            var archived := known && s.users[c.op.target].deletedAt.Some?;
            && (!out.Done? ==> t == s.(clock := c.now))
            && out == match c.op
                      case SetActive(admin, v, active) =>
                        if !active && admin == Some(v) then Forbidden
                        else if !known then NotFound
                        else if archived && active then BadRequest
                        else Done
                      case SoftDelete(admin, v) =>
                        if admin == Some(v) then Forbidden else if !known then NotFound
                        else if archived then Conflict else Done
                      case Restore(_) => if !known then NotFound else if !archived then Conflict else Done
                      case _ => if !known then NotFound else Done
  {
    hide RevokeRows, OfUser;
  }

  /** This one record is written, and beside it only sessions and events. */
  ghost predicate Wrote(s: State, t: State, v: UserId, user: User) {
    t.users == s.users[v := user] && t.resets == s.resets && t.issued == s.issued && t.tokens.Keys == s.tokens.Keys
  }

  lemma SetActiveWrites(s: State, op: Op)
    requires UsersOk(s.users) && op.SetActive? && SetActiveStep(s, op).0.Done?
    ensures op.target in s.users
    ensures Wrote(s, SetActiveStep(s, op).1, op.target, s.users[op.target].(isActive := op.active))
  {
    hide RevokeRows, OfUser;
    RevokedKeys(s.tokens, OfUser(s.tokens, op.target));
  }

  lemma SoftDeleteWrites(s: State, op: Op)
    requires UsersOk(s.users) && op.SoftDelete? && SoftDeleteStep(s, op).0.Done?
    ensures op.target in s.users
    ensures Wrote(s, SoftDeleteStep(s, op).1, op.target,
                  s.users[op.target].(isActive := false, deletedAt := Some(s.clock)))
  {
    hide RevokeRows, OfUser;
    RevokedKeys(s.tokens, OfUser(s.tokens, op.target));
  }

  lemma RestoreWrites(s: State, op: Op)
    requires UsersOk(s.users) && op.Restore? && RestoreStep(s, op).0.Done?
    ensures op.target in s.users
    ensures Wrote(s, RestoreStep(s, op).1, op.target, s.users[op.target].(isActive := true, deletedAt := None))
  {
  }

  lemma FlagWritten(cfg: Config, s: State, op: Op)
    requires UsersOk(s.users) && op.SetForcePasswordChange? && OpStep(cfg, s, op).0.Done?
    ensures op.target in s.users
    ensures Wrote(s, OpStep(cfg, s, op).1, op.target, s.users[op.target].(forcePasswordChange := op.flag))
  {
  }

  /** The record an administrative call leaves. */
  lemma AdminEffect(cfg: Config, s: State, c: Call)
    requires UsersOk(s.users) && Step(cfg, s, c).0.Done?
    requires c.op.SetActive? || c.op.SoftDelete? || c.op.Restore? || c.op.SetForcePasswordChange?
    ensures c.op.target in s.users
    ensures var t, v := Step(cfg, s, c).1, c.op.target;
            var was := s.users[v];
            && t.users == s.users[v := match c.op
                                       case SetActive(_, _, active) => was.(isActive := active)
                                       case SoftDelete(_, _) => was.(isActive := false, deletedAt := Some(c.now))
                                       case Restore(_) => was.(isActive := true, deletedAt := None)
                                       case _ => was.(forcePasswordChange := c.op.flag)]
            && t.resets == s.resets && t.issued == s.issued && t.tokens.Keys == s.tokens.Keys
  {
    hide UsersOk, SetActiveStep, SoftDeleteStep, RestoreStep;
    var s1 := s.(clock := c.now);
    match c.op
    case SetActive(_, _, _) => SetActiveWrites(s1, c.op);
    case SoftDelete(_, _) => SoftDeleteWrites(s1, c.op);
    case Restore(_) => RestoreWrites(s1, c.op);
    case _ => FlagWritten(cfg, s1, c.op);
  }

  lemma RevokedKeys(tokens: map<TokenHash, TokenRow>, hs: set<TokenHash>)
    ensures RevokeRows(tokens, hs).Keys == tokens.Keys
  {
  }

  lemma AdminSessions(cfg: Config, s: State, c: Call, h: TokenHash)
    requires UsersOk(s.users) && Step(cfg, s, c).0.Done? && h in s.tokens
    requires c.op.SetActive? || c.op.SoftDelete? || c.op.Restore? || c.op.SetForcePasswordChange?
    ensures var t := Step(cfg, s, c).1;
            var ends := c.op.SoftDelete? || (c.op.SetActive? && !c.op.active);
            && h in t.tokens
            && t.tokens[h] == s.tokens[h].(revoked := s.tokens[h].revoked
                                                       || (ends && s.tokens[h].user == c.op.target))
  {
    hide UsersOk;
  }

  // ---- Passwords ----

  /** Asking for a reset link: one for an active account of the address, good for its term, unless the account has a
      stored link younger than the interval or its day's worth of stored links. */
  lemma ForgotEffect(cfg: Config, s: State, c: Call, u: UserId)
    requires UsersOk(s.users) && c.op.ForgotPassword? && u in s.users && s.users[u].email == c.op.email
    ensures var (out, t) := Step(cfg, s, c);
            var recent := set r | r in s.resets && s.resets[r].user == u && s.resets[r].createdAt >= c.now - 86_400_000;
            var refused := cfg.throttles &&
              ((exists r :: r in s.resets && s.resets[r].user == u && c.now - s.resets[r].createdAt < cfg.minIntervalMs)
               || |recent| >= cfg.maxPerDay);
            && out == Done
            && t == s.(clock := c.now, resets := t.resets, resetsIssued := t.resetsIssued)
            && t.resets == if s.users[u].deletedAt.None? && s.users[u].isActive && !refused
                           then s.resets[c.op.reset := ResetRow(u, c.now + cfg.resetTtlMs, false, c.now)] else s.resets
  {
    FoundIs(s, u, c.op.email);
    hide ByEmail, ByEmailIncludingDeleted, UsersOk;
    var recent := set r | r in s.resets && s.resets[r].user == u && s.resets[r].createdAt >= c.now - 86_400_000;
    assert recent == LinksSince(s.resets, u, c.now - DAY_MS);
    if r :| r in s.resets && s.resets[r].user == u && c.now - s.resets[r].createdAt < cfg.minIntervalMs {
      assert r in LinksOf(s.resets, u);
    }
  }

  /** An unknown address gets the same answer and nothing is written. */
  lemma ForgotUnknown(cfg: Config, s: State, c: Call)
    requires c.op.ForgotPassword? && forall u :: u in s.users ==> s.users[u].email != c.op.email
    ensures Step(cfg, s, c) == (Done, s.(clock := c.now))
  {
    FoundNone(s, c.op.email);
  }

  /** The exact outcome of setting a password by a link: done if the link is stored, unused and not expired and its
      account is not archived, a suspended one included. */
  lemma ResetOutcome(cfg: Config, s: State, c: Call)
    requires Inv(s) && c.op.ResetPassword?
    ensures var out, r := Step(cfg, s, c).0, c.op.reset;
            if r !in s.resets then out == NotFound
            else if s.resets[r].used then out == Conflict
            else if s.resets[r].expiresAt < c.now then out == Unauthorized
            else if s.users[s.resets[r].user].deletedAt.Some? then out == NotFound
            else out == Done
  {
    hide RevokeRows, OfUser, UseResets;
  }

  /** And of changing it: done if the account is active, not archived, and the old password is right. */
  lemma ChangeOutcome(cfg: Config, s: State, c: Call)
    requires Inv(s) && c.op.ChangePassword?
    ensures var out, u := Step(cfg, s, c).0, c.op.user;
            out == if u in s.users && s.users[u].deletedAt.None? && s.users[u].isActive && c.op.oldOk then Done
                   else Unauthorized
  {
    hide RevokeRows, OfUser, UseResets;
  }

  /** The account whose password the call sets, if it is done. */
  ghost function Sets(s: State, op: Op): Option<UserId> {
    match op
    case ResetPassword(r, _) => if r in s.resets then Some(s.resets[r].user) else None
    case ChangePassword(u, _, _) => Some(u)
    case _ => None
  }

  /** The new password is stored, the counter, the lock and the duty to change it go, and no other account is touched;
      every session of the account is revoked and every link used. */
  ghost predicate PasswordSet(s: State, t: State, u: UserId, digest: Digest)
    requires u in s.users
  {
    && t.users == s.users[u := s.users[u].(passwordHash := digest, failedLoginAttempts := 0, lockedUntil := None,
                                           forcePasswordChange := false)]
    && t.tokens.Keys == s.tokens.Keys && t.resets.Keys == s.resets.Keys && t.events == s.events
    && (forall h :: h in s.tokens ==>
          t.tokens[h] == s.tokens[h].(revoked := s.tokens[h].revoked || s.tokens[h].user == u))
    && (forall r :: r in s.resets ==>
          t.resets[r] == s.resets[r].(used := s.resets[r].used || s.resets[r].user == u))
  }

  lemma NewPasswordSets(s: State, u: UserId, digest: Digest)
    requires u in s.users && Valid(s.users[u])
    ensures var (out, t) := NewPassword(s, u, digest);
            if out.Done? then PasswordSet(s, t, u, digest) else t == s
  {
  }

  lemma PasswordEffect(cfg: Config, s: State, c: Call)
    requires Inv(s) && (c.op.ResetPassword? || c.op.ChangePassword?)
    ensures var (out, t) := Step(cfg, s, c);
            if out.Done? then
              var u := Sets(s, c.op);
              u.Some? && u.value in s.users && PasswordSet(s, t, u.value, c.op.digest)
            else t == s.(clock := c.now)
  {
    hide NewPassword, PasswordSet;
    var u, s1 := Sets(s, c.op), s.(clock := c.now);
    if u.Some? && u.value in s.users {
      NewPasswordSets(s1, u.value, c.op.digest);
      SameTables(s, s1, NewPassword(s1, u.value, c.op.digest).1, u.value, c.op.digest);
    }
  }

  lemma SameTables(s: State, s1: State, t: State, u: UserId, digest: Digest)
    requires u in s.users && s1 == s.(clock := s1.clock)
    ensures PasswordSet(s1, t, u, digest) == PasswordSet(s, t, u, digest)
  {
  }

  // ---- Cleanup ----

  /** The cleanup deletes exactly the rows that have expired, and those revoked or used and older than the retention. */
  lemma PurgeEffect(cfg: Config, s: State, c: Call)
    requires c.op.Purge?
    ensures var (out, t) := Step(cfg, s, c);
            var before := c.now - c.op.retentionMs;
            && out == Done && t == s.(clock := c.now, tokens := t.tokens, resets := t.resets)
            && (forall h :: h in t.tokens <==>
                  && h in s.tokens && s.tokens[h].expiresAt >= c.now
                  && !(s.tokens[h].revoked && s.tokens[h].createdAt < before))
            && (forall h :: h in t.tokens ==> t.tokens[h] == s.tokens[h])
            && (forall r :: r in t.resets <==>
                  && r in s.resets && s.resets[r].expiresAt >= c.now
                  && !(s.resets[r].used && s.resets[r].createdAt < before))
            && (forall r :: r in t.resets ==> t.resets[r] == s.resets[r])
  {
  }
}
