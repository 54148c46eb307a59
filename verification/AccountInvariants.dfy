/** What every reachable state of the account tables satisfies. */
module AccountInvariants {
  import opened Wrappers
  import opened UserEntity
  import opened Accounts

  ghost predicate UsersOk(users: map<UserId, User>) {
    && (forall u :: u in users ==> Valid(users[u]))
    && (forall u, v :: u in users && v in users && users[u].email == users[v].email ==> u == v)
  }

  /** A stored row agrees with the history entry of its token, and its owner exists. */
  ghost predicate Recorded(s: State) {
    forall h :: h in s.tokens ==>
      && s.tokens[h].user in s.users
      && h in s.issued
      && s.issued[h].user == s.tokens[h].user
      && s.issued[h].family == s.tokens[h].family
      && s.issued[h].persistent == s.tokens[h].persistent
  }

  ghost predicate Numbered(s: State) {
    && (forall h :: h in s.issued ==> s.issued[h].no < |s.issued|)
    && (forall h, k :: h in s.issued && k in s.issued && s.issued[h].no == s.issued[k].no ==> h == k)
  }

  /** All tokens of a family share one user and one persistence flag. */
  ghost predicate Uniform(s: State) {
    forall h, k :: h in s.issued && k in s.issued && s.issued[h].family == s.issued[k].family ==>
      s.issued[h].user == s.issued[k].user && s.issued[h].persistent == s.issued[k].persistent
  }

  ghost predicate Newest(s: State, h: TokenHash)
    requires h in s.issued
  {
    forall k :: k in s.issued && s.issued[k].family == s.issued[h].family ==> s.issued[k].no <= s.issued[h].no
  }

  /** An unrevoked row is the newest token ever issued in its family and belongs to an active account. */
  ghost predicate LiveOk(s: State) {
    forall h :: h in s.tokens && !s.tokens[h].revoked ==>
      && h in s.issued && Newest(s, h)
      && Available(s.users, s.tokens[h].user)
  }

  ghost predicate ResetsOwned(s: State) {
    forall r :: r in s.resets ==> r in s.resetsIssued && s.resets[r].user in s.users
  }

  ghost predicate Inv(s: State) {
    UsersOk(s.users) && Recorded(s) && Numbered(s) && Uniform(s) && LiveOk(s) && ResetsOwned(s)
  }

  /** Before the first call there are accounts (the seeded ones), and no session. */
  ghost predicate Initial(cfg: Config, s: State) {
    && UsersOk(s.users) && s.tokens == map[] && s.resets == map[] && s.events == [] && s.issued == map[]
    && s.resetsIssued == {} && s.fails == map[]
    && forall u :: u in s.users && s.users[u].lockedUntil.None? ==> s.users[u].failedLoginAttempts < cfg.maxAttempts
  }

  // ---- The primitives keep the invariant ----

  lemma RevokeKeepsLive(s: State, hs: set<TokenHash>)
    requires LiveOk(s)
    ensures LiveOk(Revoke(s, hs))
  {
    var t := Revoke(s, hs);
    forall h | h in t.tokens && !t.tokens[h].revoked ensures h in t.issued && Newest(t, h) {
      assert Newest(s, h);
    }
  }

  lemma SameHistory(s: State, t: State)
    requires t.issued == s.issued && Numbered(s) && Uniform(s)
    ensures Numbered(t) && Uniform(t)
  {
  }

  lemma RevokeKeepsRecords(s: State, hs: set<TokenHash>)
    requires Recorded(s) && ResetsOwned(s)
    ensures Recorded(Revoke(s, hs)) && ResetsOwned(Revoke(s, hs))
  {
  }

  lemma RevokeKeeps(s: State, hs: set<TokenHash>)
    requires Inv(s)
    ensures Inv(Revoke(s, hs))
  {
    hide LiveOk, Recorded, Numbered, Uniform, UsersOk, ResetsOwned, RevokeRows;
    RevokeKeepsLive(s, hs);
    RevokeKeepsRecords(s, hs);
    SameHistory(s, Revoke(s, hs));
  }

  lemma DropKeeps(s: State, hs: set<TokenHash>)
    requires Inv(s)
    ensures Inv(Drop(s, hs))
  {
  }

  /** No stored row of the family is unrevoked. */
  ghost predicate NoLive(s: State, f: Family) {
    forall h :: h in s.tokens && s.tokens[h].family == f ==> s.tokens[h].revoked
  }

  /** A row may be added to a family with no unrevoked row, for its own user and persistence. */
  ghost predicate MaySave(s: State, h: TokenHash, row: TokenRow) {
    && h !in s.issued && NoLive(s, row.family) && Available(s.users, row.user)
    && forall k :: k in s.issued && s.issued[k].family == row.family ==>
         s.issued[k].user == row.user && s.issued[k].persistent == row.persistent
  }

  lemma SaveNumbers(s: State, h: TokenHash, row: TokenRow)
    requires Numbered(s) && h !in s.issued
    ensures Numbered(Save(s, h, row))
  {
  }

  lemma SaveKeepsLive(s: State, h: TokenHash, row: TokenRow)
    requires Recorded(s) && Numbered(s) && LiveOk(s) && MaySave(s, h, row)
    ensures LiveOk(Save(s, h, row))
  {
  }

  lemma SaveKeepsRecords(s: State, h: TokenHash, row: TokenRow)
    requires Recorded(s) && Uniform(s) && MaySave(s, h, row)
    ensures Recorded(Save(s, h, row)) && Uniform(Save(s, h, row))
  {
  }

  lemma SaveKeeps(s: State, h: TokenHash, row: TokenRow)
    requires Inv(s) && MaySave(s, h, row)
    ensures Inv(Save(s, h, row))
  {
    hide Numbered, LiveOk, UsersOk;
    SaveNumbers(s, h, row);
    SaveKeepsLive(s, h, row);
    SaveKeepsRecords(s, h, row);
    hide Recorded, Uniform;
  }

  lemma SetUserKeeps(s: State, u: UserId, user: User)
    requires Inv(s) && Valid(user)
    requires forall v :: v in s.users && s.users[v].email == user.email ==> v == u
    requires (exists h :: h in s.tokens && s.tokens[h].user == u && !s.tokens[h].revoked) ==>
               user.isActive && user.deletedAt.None?
    ensures Inv(SetUser(s, u, user))
  {
    var t := SetUser(s, u, user);
    forall h | h in t.tokens && !t.tokens[h].revoked
      ensures h in t.issued && Newest(t, h) && Available(t.users, t.tokens[h].user)
    {
      assert Newest(s, h);
    }
  }

  // ---- Every call keeps the invariant ----

  lemma FoundIsStored(users: map<UserId, User>, email: string)
    ensures ByEmail(users, email).Some? ==> ByEmail(users, email).value in users
  {
  }

  lemma LookupIsUnique(users: map<UserId, User>, email: string, u: UserId)
    requires UsersOk(users) && u in users && users[u].email == email
    ensures ByEmailIncludingDeleted(users, email) == Some(u)
  {
    assert HasEmail(users, email, u);
    var found := ByEmailIncludingDeleted(users, email);
    assert found.Some? && HasEmail(users, email, found.value);
  }

  lemma CountersKeep(s: State, u: UserId, n: int, lock: Option<Time>, loggedIn: Option<Time>)
    requires Inv(s) && u in s.users && n >= 0
    ensures Inv(SetUser(s, u, s.users[u].(failedLoginAttempts := n, lockedUntil := lock, lastLoginAt := loggedIn)))
  {
    SetUserKeeps(s, u, s.users[u].(failedLoginAttempts := n, lockedUntil := lock, lastLoginAt := loggedIn));
  }

  lemma CountersNonNegative(s: State, u: UserId)
    requires Inv(s) && u in s.users
    ensures s.users[u].failedLoginAttempts >= 0
  {
  }

  lemma FailedAttemptKeeps(cfg: Config, s: State, u: UserId)
    requires Inv(s) && u in s.users
    ensures Inv(FailedAttempt(cfg, s, u))
  {
    hide Inv;
    CountersNonNegative(s, u);
    var t := FailedAttempt(cfg, s, u);
    CountersKeep(s, u, t.users[u].failedLoginAttempts, t.users[u].lockedUntil, t.users[u].lastLoginAt);
    EventsDoNotMatter(SetUser(s, u, t.users[u]), t);
  }

  lemma NewFamilyHasNoRow(s: State, f: Family)
    requires Inv(s) && NewFamily(s, f)
    ensures OfFamily(s.tokens, f) == {} && NoLive(s, f)
  {
  }

  lemma OpenSessionKeeps(cfg: Config, s: State, u: UserId, remember: bool, h: TokenHash, f: Family)
    requires Inv(s) && Available(s.users, u) && h !in s.issued && NewFamily(s, f)
    ensures Inv(OpenSession(cfg, s, u, remember, h, f))
  {
    hide Inv;
    NewFamilyHasNoRow(s, f);
    CountersKeep(s, u, 0, None, Some(s.clock));
    var s1 := SetUser(s, u, s.users[u].(failedLoginAttempts := 0, lockedUntil := None, lastLoginAt := Some(s.clock)));
    var s2 := s1.(fails := s.fails[u := []]);
    EventsDoNotMatter(s1, s2);
    SaveKeeps(s2, h, NewRow(cfg, s, u, f, remember));
  }

  lemma LoginKeeps(cfg: Config, s: State, op: Op)
    requires Inv(s) && op.Login? && op.hash !in s.issued && NewFamily(s, op.family)
    ensures Inv(LoginStep(cfg, s, op).1)
  {
    hide Inv, FailedAttempt, OpenSession;
    var found := ByEmail(s.users, op.email);
    if found.Some? {
      var u := found.value;
      var user := WithoutExpiredLock(s.users[u], s.clock);
      CountersNonNegative(s, u);
      CountersKeep(s, u, user.failedLoginAttempts, user.lockedUntil, user.lastLoginAt);
      var s1 := SetUser(s, u, user);
      if user.lockedUntil.None? && user.isActive {
        if !op.passwordOk {
          FailedAttemptKeeps(cfg, s1, u);
        } else {
          OpenSessionKeeps(cfg, s1, u, op.remember, op.hash, op.family);
        }
      }
    }
  }

  /** Revoking the unrevoked row of a family makes room for its successor. */
  lemma LeavesRoom(s: State, p: TokenHash, h: TokenHash, row: TokenRow)
    requires Inv(s) && p in s.tokens && !s.tokens[p].revoked && h !in s.issued
    requires row.user == s.tokens[p].user && row.family == s.tokens[p].family
             && row.persistent == s.tokens[p].persistent
    ensures MaySave(Revoke(s, {p}), h, row)
  {
  }

  lemma RotateKeeps(cfg: Config, s: State, p: TokenHash, h: TokenHash)
    requires Inv(s) && p in s.tokens && !s.tokens[p].revoked && h !in s.issued
    ensures Inv(Rotate(cfg, s, p, h))
  {
    hide Inv, MaySave;
    var row := s.tokens[p];
    RevokeKeeps(s, {p});
    LeavesRoom(s, p, h, NewRow(cfg, s, row.user, row.family, row.persistent));
    SaveKeeps(Revoke(s, {p}), h, NewRow(cfg, s, row.user, row.family, row.persistent));
  }

  lemma RefreshKeeps(cfg: Config, s: State, op: Op)
    requires Inv(s) && op.Refresh? && op.hash !in s.issued
    ensures Inv(RefreshStep(cfg, s, op).1)
  {
    hide Inv, Rotate;
    if op.presented in s.tokens {
      var row := s.tokens[op.presented];
      if row.revoked {
        RevokeKeeps(s, OfFamily(s.tokens, row.family));
      } else if row.expiresAt < s.clock {
        RevokeKeeps(s, {op.presented});
      } else if Available(s.users, row.user) {
        RotateKeeps(cfg, s, op.presented, op.hash);
      }
    }
  }

  /** A family has at most one unrevoked row. */
  lemma OnlyOneLive(s: State, h: TokenHash)
    requires Inv(s) && h in s.tokens && !s.tokens[h].revoked
    ensures forall k :: k in s.tokens && s.tokens[k].family == s.tokens[h].family && !s.tokens[k].revoked ==> k == h
  {
  }

  lemma NewAccountKeeps(s: State, u: UserId, user: User)
    requires Inv(s) && u !in s.users && Valid(user) && ByEmailIncludingDeleted(s.users, user.email).None?
    ensures Inv(SetUser(s, u, user))
  {
    assert forall v :: v in s.users ==> HasEmail(s.users, s.users[v].email, v);
    SetUserKeeps(s, u, user);
  }

  lemma AcceptKeeps(cfg: Config, s: State, op: Op)
    requires Inv(s) && op.AcceptInvitation? && op.newUser !in s.users && op.hash !in s.issued && NewFamily(s, op.family)
    ensures Inv(AcceptStep(cfg, s, op).1)
  {
    hide Inv;
    NewFamilyHasNoRow(s, op.family);
    if op.invitation.Some? {
      var inv := op.invitation.value;
      var created := Create(inv.email, inv.role, inv.clientKind, op.digest);
      if created.Some? && ByEmailIncludingDeleted(s.users, created.value.email).None? {
        var user := created.value.(lastLoginAt := Some(s.clock));
        NewAccountKeeps(s, op.newUser, user);
        var s1 := SetUser(s, op.newUser, user);
        var row := NewRow(cfg, s, op.newUser, op.family, false);
        SaveKeeps(s1, op.hash, row);
        EventsDoNotMatter(Save(s1, op.hash, row), Emit(Save(s1, op.hash, row), Registered, op.newUser));
      }
    }
  }

  lemma EventsDoNotMatter(s: State, t: State)
    requires Inv(s) && t == s.(events := t.events, fails := t.fails, clock := t.clock)
    ensures Inv(t)
  {
  }

  lemma ResetsChangeKeeps(s: State, t: State)
    requires Inv(s) && t == s.(resets := t.resets, resetsIssued := t.resetsIssued) && ResetsOwned(t)
    ensures Inv(t)
  {
  }

  /** Revoking a user's every row makes room for any valid change of that user. */
  lemma ReplaceAndRevokeKeeps(s: State, u: UserId, user: User)
    requires Inv(s) && u in s.users && Valid(user) && user.email == s.users[u].email
    ensures Inv(Revoke(SetUser(s, u, user), OfUser(s.tokens, u)))
  {
    var s1 := Revoke(s, OfUser(s.tokens, u));
    RevokeKeeps(s, OfUser(s.tokens, u));
    SetUserKeeps(s1, u, user);
    assert SetUser(s1, u, user) == Revoke(SetUser(s, u, user), OfUser(s.tokens, u));
  }

  lemma NewPasswordKeeps(s: State, u: UserId, digest: Digest)
    requires Inv(s) && u in s.users
    ensures Inv(NewPassword(s, u, digest).1)
  {
    var updated := Update(s.users[u], UserPatch(passwordHash := Some(digest), failedLoginAttempts := Some(0),
                                                lockedUntil := Some(None), forcePasswordChange := Some(false)));
    if updated.Some? {
      var s1 := Revoke(SetUser(s, u, updated.value), OfUser(s.tokens, u));
      ReplaceAndRevokeKeeps(s, u, updated.value);
      var s2 := s1.(resets := UseResets(s.resets, u));
      ResetsChangeKeeps(s1, s2);
      EventsDoNotMatter(s2, s2.(fails := s.fails[u := []]));
    }
  }

  /** A patched record whose account is not archived may replace the old one. */
  lemma PatchKeeps(s: State, u: UserId, patch: UserPatch, kind: EventKind)
    requires Inv(s) && u in s.users && Update(s.users[u], patch).Some? && Update(s.users[u], patch).value.isActive
    ensures Inv(Emit(SetUser(s, u, Update(s.users[u], patch).value), kind, u))
  {
    var user := Update(s.users[u], patch).value;
    SetUserKeeps(s, u, user);
    hide Inv, SetUser;
    EventsDoNotMatter(SetUser(s, u, user), Emit(SetUser(s, u, user), kind, u));
  }

  /** Any valid record may replace the old one together with the account's sessions. */
  lemma PatchAndRevokeKeeps(s: State, u: UserId, patch: UserPatch, kind: EventKind)
    requires Inv(s) && u in s.users && Update(s.users[u], patch).Some?
    ensures Inv(Emit(Revoke(SetUser(s, u, Update(s.users[u], patch).value), OfUser(s.tokens, u)), kind, u))
  {
    var user := Update(s.users[u], patch).value;
    ReplaceAndRevokeKeeps(s, u, user);
    hide Inv, SetUser, Revoke;
    var t := Revoke(SetUser(s, u, user), OfUser(s.tokens, u));
    EventsDoNotMatter(t, Emit(t, kind, u));
  }

  lemma SetActiveKeeps(s: State, op: Op)
    requires Inv(s) && op.SetActive?
    ensures Inv(SetActiveStep(s, op).1)
  {
    hide Inv, SetUser, Revoke, Emit, OfUser;
    var u, patch := op.target, UserPatch(isActive := Some(op.active));
    if u in s.users && Update(s.users[u], patch).Some? {
      if op.active { PatchKeeps(s, u, patch, Updated); } else { PatchAndRevokeKeeps(s, u, patch, Updated); }
      SetActiveShape(s, op);
    }
  }

  lemma SetActiveShape(s: State, op: Op)
    requires op.SetActive? && op.target in s.users
    ensures var patch := UserPatch(isActive := Some(op.active));
            var t := SetActiveStep(s, op).1;
            || t == s
            || (Update(s.users[op.target], patch).Some?
                && var s1 := SetUser(s, op.target, Update(s.users[op.target], patch).value);
                   t == Emit(if op.active then s1 else Revoke(s1, OfUser(s.tokens, op.target)), Updated, op.target))
  {
    hide RevokeRows, OfUser, Update;
  }

  lemma SoftDeleteKeeps(s: State, op: Op)
    requires Inv(s) && op.SoftDelete?
    ensures Inv(SoftDeleteStep(s, op).1)
  {
    hide Inv, SetUser, Revoke, Emit, OfUser;
    var u, patch := op.target, UserPatch(deletedAt := Some(Some(s.clock)), isActive := Some(false));
    if u in s.users && Update(s.users[u], patch).Some? { PatchAndRevokeKeeps(s, u, patch, Deleted); }
  }

  lemma RestoreKeeps(s: State, op: Op)
    requires Inv(s) && op.Restore?
    ensures Inv(RestoreStep(s, op).1)
  {
    hide Inv, SetUser, Emit;
    var u, patch := op.target, UserPatch(deletedAt := Some(None), isActive := Some(true));
    if u in s.users && Update(s.users[u], patch).Some? { PatchKeeps(s, u, patch, Updated); }
  }

  lemma AdminKeeps(s: State, op: Op)
    requires Inv(s)
    ensures op.SetActive? ==> Inv(SetActiveStep(s, op).1)
    ensures op.SoftDelete? ==> Inv(SoftDeleteStep(s, op).1)
    ensures op.Restore? ==> Inv(RestoreStep(s, op).1)
  {
    hide Inv, SetActiveStep, SoftDeleteStep, RestoreStep;
    match op
    case SetActive(_, _, _) => SetActiveKeeps(s, op);
    case SoftDelete(_, _) => SoftDeleteKeeps(s, op);
    case Restore(_) => RestoreKeeps(s, op);
    case _ =>
  }

  lemma SmallOpKeeps(cfg: Config, s: State, op: Op)
    requires Inv(s)
    requires op.Logout? || op.RevokeSession? || op.SetForcePasswordChange?
    ensures Inv(OpStep(cfg, s, op).1)
  {
    match op
    case Logout(p) =>
      if p in s.tokens { RevokeKeeps(s, OfFamily(s.tokens, s.tokens[p].family)); }
    case RevokeSession(u, f) =>
      RevokeKeeps(s, OfUser(s.tokens, u) * OfFamily(s.tokens, f));
    case SetForcePasswordChange(u, flag) =>
      if u in s.users {
        var updated := Update(s.users[u], UserPatch(forcePasswordChange := Some(flag)));
        if updated.Some? { SetUserKeeps(s, u, updated.value); }
      }
    case _ =>
  }

  lemma ForgotPasswordKeeps(cfg: Config, s: State, op: Op)
    requires Inv(s) && op.ForgotPassword?
    ensures Inv(OpStep(cfg, s, op).1)
  {
    ResetsChangeKeeps(s, OpStep(cfg, s, op).1);
  }

  lemma PurgedResetsOwned(s: State, stale: set<TokenHash>, gone: set<ResetHash>)
    requires Inv(s)
    ensures ResetsOwned(Drop(s, stale).(resets := s.resets - gone))
  {
  }

  lemma PurgeKeeps(cfg: Config, s: State, op: Op)
    requires Inv(s) && op.Purge?
    ensures Inv(OpStep(cfg, s, op).1)
  {
    hide Inv, StaleTokens, StaleResets, ResetsOwned, Drop;
    var stale, gone := StaleTokens(s.tokens, s.clock, s.clock - op.retentionMs),
        StaleResets(s.resets, s.clock, s.clock - op.retentionMs);
    var t := Drop(s, stale);
    var u := t.(resets := s.resets - gone);
    DropKeeps(s, stale);
    PurgedResetsOwned(s, stale, gone);
    assert OpStep(cfg, s, op).1 == u;
    hide OpStep;
    ResetsChangeKeeps(t, u);
  }

  lemma ResetHasOwner(s: State, r: ResetHash)
    requires Inv(s) && r in s.resets
    ensures s.resets[r].user in s.users
  {
  }

  lemma PasswordKeeps(cfg: Config, s: State, op: Op)
    requires Inv(s) && (op.ResetPassword? || op.ChangePassword?)
    ensures Inv(OpStep(cfg, s, op).1)
  {
    hide Inv, NewPassword;
    if op.ResetPassword? {
      if op.reset in s.resets {
        ResetHasOwner(s, op.reset);
        NewPasswordKeeps(s, s.resets[op.reset].user, op.digest);
      }
    } else {
      if op.user in s.users { NewPasswordKeeps(s, op.user, op.digest); }
    }
  }

  lemma OpKeeps(cfg: Config, s: State, op: Op)
    requires Inv(s) && Legal(s, Call(s.clock, op))
    ensures Inv(OpStep(cfg, s, op).1)
  {
    match op
    case Login(_, _, _, _, _) => LoginKeeps(cfg, s, op);
    case Refresh(_, _) => RefreshKeeps(cfg, s, op);
    case AcceptInvitation(_, _, _, _, _) => AcceptKeeps(cfg, s, op);
    case ForgotPassword(_, _) => ForgotPasswordKeeps(cfg, s, op);
    case ResetPassword(_, _) => PasswordKeeps(cfg, s, op);
    case ChangePassword(_, _, _) => PasswordKeeps(cfg, s, op);
    case SetActive(_, _, _) => AdminKeeps(s, op);
    case SoftDelete(_, _) => AdminKeeps(s, op);
    case Restore(_) => AdminKeeps(s, op);
    case Purge(_) => PurgeKeeps(cfg, s, op);
    case _ => SmallOpKeeps(cfg, s, op);
  }

  lemma StepKeeps(cfg: Config, s: State, c: Call)
    requires Inv(s) && Legal(s, c)
    ensures Inv(Step(cfg, s, c).1)
  {
    EventsDoNotMatter(s, s.(clock := c.now));
    OpKeeps(cfg, s.(clock := c.now), c.op);
  }

  /** The invariant holds in every reachable state. */
  lemma {:induction false} RunKeeps(cfg: Config, s: State, calls: seq<Call>)
    requires Inv(s) && LegalRun(cfg, s, calls)
    ensures Inv(Run(cfg, s, calls))
    decreases |calls|
  {
    if calls != [] {
      StepKeeps(cfg, s, calls[0]);
      RunKeeps(cfg, Step(cfg, s, calls[0]).1, calls[1..]);
    }
  }

  lemma InitialOk(cfg: Config, s: State)
    requires Initial(cfg, s)
    ensures Inv(s)
  {
  }
}
