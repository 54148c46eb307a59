/** The session and account services as they run: rows updated one statement at a time, and put back when a
    transaction throws. Each call is proved to be the step that the theorems speak about. */
module AuthService {
  import opened Wrappers
  import opened UserEntity
  import opened Accounts
  import opened AccountInvariants

  class Service {
    const cfg: Config

    var users: map<UserId, User>
    var tokens: map<TokenHash, TokenRow>
    var resets: map<ResetHash, ResetRow>
    var events: seq<Event>

    // Histories the tables do not keep.
    ghost var clock: Time
    ghost var issued: map<TokenHash, Issue>
    ghost var resetsIssued: set<ResetHash>
    ghost var fails: map<UserId, seq<Time>>

    ghost function Snapshot(): State
      reads this
    {
      State(clock, users, tokens, resets, events, issued, resetsIssued, fails)
    }

    constructor (cfg: Config, users: map<UserId, User>, ghost now: Time)
      requires UsersOk(users)
      requires forall u :: u in users && users[u].lockedUntil.None? ==> users[u].failedLoginAttempts < cfg.maxAttempts
      ensures this.cfg == cfg && this.users == users && Initial(cfg, Snapshot()) && clock == now
    {
      this.cfg, this.users := cfg, users;
      tokens, resets, events := map[], map[], [];
      clock, issued, resetsIssued, fails := now, map[], {}, map[];
    }

    // ---- Statements on the tables ----

    method RevokeToken(h: TokenHash)
      modifies this`tokens
      ensures Snapshot() == Revoke(old(Snapshot()), {h})
    {
      tokens := map k | k in tokens :: if k == h then tokens[k].(revoked := true) else tokens[k];
    }

    method RevokeTokenFamily(f: Family)
      modifies this`tokens
      ensures Snapshot() == Revoke(old(Snapshot()), OfFamily(old(tokens), f))
    {
      tokens := map k | k in tokens :: if tokens[k].family == f then tokens[k].(revoked := true) else tokens[k];
    }

    method RevokeAllRefreshTokensForUser(u: UserId)
      modifies this`tokens
      ensures Snapshot() == Revoke(old(Snapshot()), OfUser(old(tokens), u))
    {
      tokens := map k | k in tokens :: if tokens[k].user == u then tokens[k].(revoked := true) else tokens[k];
    }

    method RevokeRefreshTokensForUserFamily(u: UserId, f: Family)
      modifies this`tokens
      ensures Snapshot() == Revoke(old(Snapshot()), OfUser(old(tokens), u) * OfFamily(old(tokens), f))
    {
      tokens := map k | k in tokens ::
        if tokens[k].user == u && tokens[k].family == f then tokens[k].(revoked := true) else tokens[k];
    }

    method SaveRefreshToken(h: TokenHash, u: UserId, f: Family, persistent: bool, now: Time)
      requires clock == now
      modifies this`tokens, this`issued
      ensures Snapshot() == Save(old(Snapshot()), h, NewRow(cfg, old(Snapshot()), u, f, persistent))
    {
      var row := TokenRow(u, f, now + cfg.Ttl(persistent), persistent, false, now);
      tokens := tokens[h := row];
      issued := issued[h := Issue(|issued|, u, f, persistent)];
    }

    method FindByEmailIncludingDeleted(email: string) returns (found: Option<UserId>)
      requires UsersOk(users)
      ensures found == ByEmailIncludingDeleted(users, email)
    {
      if u :| u in users && users[u].email == email {
        LookupIsUnique(users, email, u);
        return Some(u);
      } else {
        assert forall u :: !HasEmail(users, email, u);
        return None;
      }
    }

    method FindByEmail(email: string) returns (found: Option<UserId>)
      requires UsersOk(users)
      ensures found == ByEmail(users, email)
      ensures found.Some? ==> found.value in users && users[found.value].deletedAt.None?
    {
      found := FindByEmailIncludingDeleted(email);
      if found.Some? && users[found.value].deletedAt.Some? {
        found := None;
      }
    }

    method ClearExpiredAccountLock(u: UserId, now: Time)
      requires u in users
      modifies this`users
      ensures Snapshot() == SetUser(old(Snapshot()), u, WithoutExpiredLock(old(users[u]), now))
    {
      var user := users[u];
      if user.lockedUntil.Some? && user.lockedUntil.value <= now {
        users := users[u := user.(lockedUntil := None, failedLoginAttempts := 0)];
      } else {
        assert users == users[u := user];
      }
    }

    method RecordFailedLoginAttempt(u: UserId, now: Time)
      requires u in users && clock == now
      modifies this`users, this`fails
      ensures Snapshot() == FailedAttempt(cfg, old(Snapshot()), u)
    {
      var next := users[u].failedLoginAttempts + 1;
      if next >= cfg.maxAttempts {
        users := users[u := users[u].(failedLoginAttempts := next, lockedUntil := Some(now + cfg.lockoutMs))];
      } else {
        users := users[u := users[u].(failedLoginAttempts := next)];
      }
      fails := fails[u := (if u in fails then fails[u] else []) + [now]];
    }

    method MarkSuccessfulLogin(u: UserId, now: Time)
      requires u in users
      modifies this`users
      ensures users == old(users)[u := old(users[u]).(failedLoginAttempts := 0, lockedUntil := None,
                                                      lastLoginAt := Some(now))]
    {
      users := users[u := users[u].(failedLoginAttempts := 0, lockedUntil := None, lastLoginAt := Some(now))];
    }

    /** The transaction of a successful login. */
    method StartSession(u: UserId, remember: bool, now: Time, hash: TokenHash, family: Family)
      requires u in users && clock == now
      modifies this`users, this`fails, this`tokens, this`issued
      ensures Snapshot() == OpenSession(cfg, old(Snapshot()), u, remember, hash, family)
    {
      MarkSuccessfulLogin(u, now);
      fails := fails[u := []];
      SaveRefreshToken(hash, u, family, remember, now);
    }

    /** Nothing is written when the patched record is refused. */
    method UpdateUserById(u: UserId, patch: UserPatch) returns (ok: bool)
      requires u in users
      modifies this`users
      ensures ok == Update(old(users[u]), patch).Some?
      ensures Snapshot() == if ok then SetUser(old(Snapshot()), u, Update(old(users[u]), patch).value)
              else old(Snapshot())
    {
      var updated := Update(users[u], patch);
      ok := updated.Some?;
      if ok { users := users[u := updated.value]; }
    }

    // ---- Sessions ----

    method Login(email: string, passwordOk: bool, remember: bool, now: Time, hash: TokenHash, family: Family)
      returns (out: Outcome)
      requires Inv(Snapshot()) && Legal(Snapshot(), Call(now, Op.Login(email, passwordOk, remember, hash, family)))
      modifies this
      ensures (out, Snapshot()) == Step(cfg, old(Snapshot()),
                                        Call(now, Op.Login(email, passwordOk, remember, hash, family)))
    {
      hide Inv, Legal, OpenSession, FailedAttempt, WithoutExpiredLock, ByEmail;
      InvUsers();
      clock := now;
      var found := FindByEmail(email);
      if found.None? { return Unauthorized; }
      var u := found.value;
      ClearExpiredAccountLock(u, now);
      if users[u].lockedUntil.Some? { return Unauthorized; }
      if !users[u].isActive { return Unauthorized; }
      if !passwordOk {
        RecordFailedLoginAttempt(u, now);
        return Unauthorized;
      }
      StartSession(u, remember, now, hash, family);
      return Granted(remember);
    }

    method RefreshSession(presented: TokenHash, now: Time, hash: TokenHash) returns (out: Outcome)
      requires Inv(Snapshot()) && Legal(Snapshot(), Call(now, Refresh(presented, hash)))
      modifies this
      ensures (out, Snapshot()) == Step(cfg, old(Snapshot()), Call(now, Refresh(presented, hash)))
    {
      hide Inv, Legal;
      clock := now;
      if presented !in tokens { return Unauthorized; }
      var row := tokens[presented];
      if row.revoked {
        RevokeTokenFamily(row.family);
        return Unauthorized;
      }
      if row.expiresAt < now {
        RevokeToken(presented);
        return Unauthorized;
      }
      var before := tokens;
      RevokeToken(presented);
      if row.user !in users || users[row.user].deletedAt.Some? || !users[row.user].isActive {
        tokens := before;
        return Unauthorized;
      }
      SaveRefreshToken(hash, row.user, row.family, row.persistent, now);
      return Granted(row.persistent);
    }

    method Logout(presented: TokenHash, now: Time) returns (out: Outcome)
      requires Inv(Snapshot()) && Legal(Snapshot(), Call(now, Op.Logout(presented)))
      modifies this
      ensures (out, Snapshot()) == Step(cfg, old(Snapshot()), Call(now, Op.Logout(presented)))
    {
      hide Inv;
      clock := now;
      if presented in tokens {
        RevokeTokenFamily(tokens[presented].family);
      }
      return Done;
    }

    method RevokeMySession(u: UserId, family: Family, now: Time) returns (out: Outcome)
      requires Inv(Snapshot()) && Legal(Snapshot(), Call(now, RevokeSession(u, family)))
      modifies this
      ensures (out, Snapshot()) == Step(cfg, old(Snapshot()), Call(now, RevokeSession(u, family)))
    {
      hide Inv;
      clock := now;
      if !(exists h | h in tokens ::
             tokens[h].user == u && !tokens[h].revoked && tokens[h].expiresAt > now && tokens[h].family == family) {
        assert family !in LiveFamilies(tokens, u, now);
        return NotFound;
      }
      assert family in LiveFamilies(tokens, u, now);
      RevokeRefreshTokensForUserFamily(u, family);
      return Done;
    }

    // ---- Accounts ----

    method AcceptInvitation(invitation: Option<Invitation>, digest: Digest, now: Time, newUser: UserId,
                            hash: TokenHash, family: Family)
      returns (out: Outcome)
      requires Inv(Snapshot())
      requires Legal(Snapshot(), Call(now, Op.AcceptInvitation(invitation, digest, newUser, hash, family)))
      modifies this
      ensures (out, Snapshot()) == Step(cfg, old(Snapshot()),
                                        Call(now, Op.AcceptInvitation(invitation, digest, newUser, hash, family)))
    {
      hide Inv, Legal, Create;
      InvUsers();
      clock := now;
      if invitation.None? { return NotFound; }
      var inv := invitation.value;
      if inv.used { return Conflict; }
      if inv.expiresAt < now { return Unauthorized; }
      var dup := FindByEmailIncludingDeleted(inv.email);
      if dup.Some? { return Conflict; }
      var created := Create(inv.email, inv.role, inv.clientKind, digest);
      if created.None? { return Failed; }
      var taken := FindByEmailIncludingDeleted(created.value.email);
      if taken.Some? { return Failed; }
      CreatedIsClear(inv.email, inv.role, inv.clientKind, digest);
      users := users[newUser := created.value];
      MarkSuccessfulLogin(newUser, now);
      assert users == old(users)[newUser := created.value.(lastLoginAt := Some(now))];
      label registered:
      SaveRefreshToken(hash, newUser, family, false, now);
      assert old@registered(Snapshot()) == SetUser(old(Snapshot()).(clock := now), newUser,
                                                   created.value.(lastLoginAt := Some(now)));
      assert NewRow(cfg, old@registered(Snapshot()), newUser, family, false)
             == NewRow(cfg, old(Snapshot()).(clock := now), newUser, family, false);
      events := events + [Event(Registered, newUser)];
      return Granted(false);
    }

    lemma InvUsers()
      requires Inv(Snapshot())
      ensures UsersOk(users)
    {
    }

    static lemma CreatedIsClear(email: string, role: Role, kind: Option<ClientKind>, digest: Digest)
      requires Create(email, role, kind, digest).Some?
      ensures var user := Create(email, role, kind, digest).value;
              user.failedLoginAttempts == 0 && user.lockedUntil.None?
    {
    }

    method SetPassword(u: UserId, digest: Digest) returns (out: Outcome)
      requires u in users
      modifies this
      ensures (out, Snapshot()) == NewPassword(old(Snapshot()), u, digest)
    {
      var ok := UpdateUserById(u, UserPatch(passwordHash := Some(digest), failedLoginAttempts := Some(0),
                                            lockedUntil := Some(None), forcePasswordChange := Some(false)));
      if !ok { return Failed; }
      RevokeAllRefreshTokensForUser(u);
      resets := map r | r in resets :: if resets[r].user == u then resets[r].(used := true) else resets[r];
      fails := fails[u := []];
      return Done;
    }

    method FindLatestPasswordResetForUser(u: UserId) returns (latest: Option<ResetRow>)
      ensures latest.None? <==> LinksOf(resets, u) == {}
      ensures latest.Some? ==> exists r :: r in LinksOf(resets, u) && resets[r] == latest.value
      ensures forall r :: r in LinksOf(resets, u) ==> latest.Some? && resets[r].createdAt <= latest.value.createdAt
    {
      var links := LinksOf(resets, u);
      if links == {} { return None; }
      LatestExists(resets, links);
      var r :| r in links && forall q :: q in links ==> resets[q].createdAt <= resets[r].createdAt;
      latest := Some(resets[r]);
    }

    static lemma {:induction false} LatestExists(resets: map<ResetHash, ResetRow>, links: set<ResetHash>)
      requires links != {} && forall r :: r in links ==> r in resets
      ensures exists r :: r in links && forall q :: q in links ==> resets[q].createdAt <= resets[r].createdAt
    {
      var r :| r in links;
      var others := links - {r};
      if others == {} {
        assert forall q :: q in links ==> q == r || q in others;
      } else {
        LatestExists(resets, others);
        var s :| s in others && forall q :: q in others ==> resets[q].createdAt <= resets[s].createdAt;
        var last := if resets[s].createdAt < resets[r].createdAt then r else s;
        assert forall q :: q in links ==> q == r || q in others;
        assert last in links;
      }
    }

    method CountPasswordResetsForUserSince(u: UserId, since: Time) returns (total: nat)
      ensures total == |LinksSince(resets, u, since)|
    {
      total := |set r | r in resets && resets[r].user == u && resets[r].createdAt >= since|;
      assert (set r | r in resets && resets[r].user == u && resets[r].createdAt >= since)
             == LinksSince(resets, u, since);
    }

    /** Past the lookup the request is dropped by the throttle or issues one link. */
    method ForgotPassword(email: string, reset: ResetHash, now: Time) returns (out: Outcome)
      requires Inv(Snapshot()) && Legal(Snapshot(), Call(now, Op.ForgotPassword(email, reset)))
      modifies this
      ensures (out, Snapshot()) == Step(cfg, old(Snapshot()), Call(now, Op.ForgotPassword(email, reset)))
    {
      hide Inv, Legal, LinksOf, LinksSince, ByEmail;
      InvUsers();
      clock := now;
      var found := FindByEmail(email);
      if found.None? || !users[found.value].isActive { return Done; }
      var u := found.value;
      if cfg.throttles {
        var latest := FindLatestPasswordResetForUser(u);
        if latest.Some? {
          var elapsed := now - latest.value.createdAt;
          if elapsed < cfg.minIntervalMs { return Done; }
        }
        var issuedInLastDay := CountPasswordResetsForUserSince(u, now - DAY_MS);
        if issuedInLastDay >= cfg.maxPerDay { return Done; }
      }
      resets := resets[reset := ResetRow(u, now + cfg.resetTtlMs, false, now)];
      resetsIssued := resetsIssued + {reset};
      return Done;
    }

    method ResetPassword(reset: ResetHash, digest: Digest, now: Time) returns (out: Outcome)
      requires Inv(Snapshot()) && Legal(Snapshot(), Call(now, Op.ResetPassword(reset, digest)))
      modifies this
      ensures (out, Snapshot()) == Step(cfg, old(Snapshot()), Call(now, Op.ResetPassword(reset, digest)))
    {
      hide Inv;
      clock := now;
      if reset !in resets { return NotFound; }
      var row := resets[reset];
      if row.used { return Conflict; }
      if row.expiresAt < now { return Unauthorized; }
      if row.user !in users || users[row.user].deletedAt.Some? { return NotFound; }
      out := SetPassword(row.user, digest);
    }

    method ChangePassword(u: UserId, oldOk: bool, digest: Digest, now: Time) returns (out: Outcome)
      requires Inv(Snapshot()) && Legal(Snapshot(), Call(now, Op.ChangePassword(u, oldOk, digest)))
      modifies this
      ensures (out, Snapshot()) == Step(cfg, old(Snapshot()), Call(now, Op.ChangePassword(u, oldOk, digest)))
    {
      hide Inv;
      clock := now;
      if u !in users || users[u].deletedAt.Some? || !users[u].isActive { return Unauthorized; }
      if !oldOk { return Unauthorized; }
      out := SetPassword(u, digest);
    }

    method AdminSetUserActive(admin: Option<UserId>, target: UserId, active: bool, now: Time) returns (out: Outcome)
      requires Inv(Snapshot()) && Legal(Snapshot(), Call(now, SetActive(admin, target, active)))
      modifies this
      ensures (out, Snapshot()) == Step(cfg, old(Snapshot()), Call(now, SetActive(admin, target, active)))
    {
      hide Inv, Update;
      clock := now;
      if !active && admin == Some(target) { return Forbidden; }
      if target !in users { return NotFound; }
      if users[target].deletedAt.Some? && active { return BadRequest; }
      var ok := UpdateUserById(target, UserPatch(isActive := Some(active)));
      if !ok { return Failed; }
      events := events + [Event(Updated, target)];
      if !active { RevokeAllRefreshTokensForUser(target); }
      return Done;
    }

    method AdminSoftDelete(admin: Option<UserId>, target: UserId, now: Time) returns (out: Outcome)
      requires Inv(Snapshot()) && Legal(Snapshot(), Call(now, SoftDelete(admin, target)))
      modifies this
      ensures (out, Snapshot()) == Step(cfg, old(Snapshot()), Call(now, SoftDelete(admin, target)))
    {
      hide Inv, Update;
      clock := now;
      if admin == Some(target) { return Forbidden; }
      if target !in users { return NotFound; }
      if users[target].deletedAt.Some? { return Conflict; }
      var ok := UpdateUserById(target, UserPatch(deletedAt := Some(Some(now)), isActive := Some(false)));
      if !ok { return Failed; }
      RevokeAllRefreshTokensForUser(target);
      events := events + [Event(Deleted, target)];
      return Done;
    }

    method AdminRestoreUser(target: UserId, now: Time) returns (out: Outcome)
      requires Inv(Snapshot()) && Legal(Snapshot(), Call(now, Restore(target)))
      modifies this
      ensures (out, Snapshot()) == Step(cfg, old(Snapshot()), Call(now, Restore(target)))
    {
      hide Inv, Update;
      clock := now;
      if target !in users { return NotFound; }
      if users[target].deletedAt.None? { return Conflict; }
      var ok := UpdateUserById(target, UserPatch(deletedAt := Some(None), isActive := Some(true)));
      if !ok { return Failed; }
      events := events + [Event(Updated, target)];
      return Done;
    }

    method AdminSetForcePasswordChange(target: UserId, flag: bool, now: Time) returns (out: Outcome)
      requires Inv(Snapshot()) && Legal(Snapshot(), Call(now, SetForcePasswordChange(target, flag)))
      modifies this
      ensures (out, Snapshot()) == Step(cfg, old(Snapshot()), Call(now, SetForcePasswordChange(target, flag)))
    {
      hide Inv, Update;
      clock := now;
      if target !in users { return NotFound; }
      var ok := UpdateUserById(target, UserPatch(forcePasswordChange := Some(flag)));
      return if ok then Done else Failed;
    }

    method DeleteStaleTokens(staleBefore: Time, now: Time) returns (removed: nat)
      requires clock == now
      modifies this`tokens
      ensures Snapshot() == Drop(old(Snapshot()), StaleTokens(old(tokens), now, staleBefore))
      ensures removed == |StaleTokens(old(tokens), now, staleBefore)|
    {
      var gone := StaleTokens(tokens, now, staleBefore);
      removed := |gone|;
      tokens := tokens - gone;
    }

    method DeleteStaleResets(staleBefore: Time, now: Time) returns (removed: nat)
      modifies this`resets
      ensures Snapshot() == old(Snapshot()).(resets := old(resets) - StaleResets(old(resets), now, staleBefore))
      ensures removed == |StaleResets(old(resets), now, staleBefore)|
    {
      var gone := StaleResets(resets, now, staleBefore);
      removed := |gone|;
      resets := resets - gone;
    }

    method PurgeStaleAuthArtifacts(retentionMs: int, now: Time) returns (removedTokens: nat, removedResets: nat)
      requires Inv(Snapshot()) && Legal(Snapshot(), Call(now, Purge(retentionMs)))
      modifies this
      ensures Snapshot() == Step(cfg, old(Snapshot()), Call(now, Purge(retentionMs))).1
      ensures removedTokens == |StaleTokens(old(tokens), now, now - retentionMs)|
      ensures removedResets == |StaleResets(old(resets), now, now - retentionMs)|
    {
      hide Inv, Legal, StaleTokens, StaleResets, Step, Drop;
      PurgeIs(cfg, Snapshot(), now, retentionMs);
      clock := now;
      removedTokens := DeleteStaleTokens(now - retentionMs, now);
      removedResets := DeleteStaleResets(now - retentionMs, now);
    }

    static lemma PurgeIs(cfg: Config, s: State, now: Time, retentionMs: int)
      ensures Step(cfg, s, Call(now, Purge(retentionMs))).1
           == Drop(s.(clock := now), StaleTokens(s.tokens, now, now - retentionMs))
                .(resets := s.resets - StaleResets(s.resets, now, now - retentionMs))
    {
    }
  }
}
