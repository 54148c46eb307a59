/** The token table as a set of sessions per account: every call changes these sets as its name says, and those of
    nobody else. */
module SessionLists {
  import opened Wrappers
  import opened UserEntity
  import opened Accounts
  import opened AccountInvariants
  import opened SessionTheorems

  type Table = map<TokenHash, TokenRow>

  /** The token is a live row of this account in this family. */
  predicate Live(tokens: Table, h: TokenHash, v: UserId, now: Time, f: Family) {
    h in tokens && tokens[h].user == v && tokens[h].family == f && !tokens[h].revoked && tokens[h].expiresAt > now
  }

  lemma ListedFamily(tokens: Table, v: UserId, now: Time, f: Family)
    ensures f in LiveFamilies(tokens, v, now) <==> exists h :: Live(tokens, h, v, now, f)
  {
    if f in LiveFamilies(tokens, v, now) {
      var h :| h in LiveRows(tokens, v, now) && tokens[h].family == f;
      assert Live(tokens, h, v, now, f);
    }
    if h :| Live(tokens, h, v, now, f) { assert h in LiveRows(tokens, v, now); }
  }

  // ---- What the statements do to the lists ----

  lemma RevokingFamily(tokens: Table, v: UserId, now: Time, gone: Family)
    ensures LiveFamilies(RevokeRows(tokens, OfFamily(tokens, gone)), v, now) == LiveFamilies(tokens, v, now) - {gone}
  {
    var t := RevokeRows(tokens, OfFamily(tokens, gone));
    forall f ensures f in LiveFamilies(t, v, now) <==> f in LiveFamilies(tokens, v, now) && f != gone {
      ListedFamily(t, v, now, f);
      ListedFamily(tokens, v, now, f);
      if h :| Live(t, h, v, now, f) { assert Live(tokens, h, v, now, f); }
      if h :| Live(tokens, h, v, now, f) { assert f != gone ==> Live(t, h, v, now, f); }
    }
  }

  lemma RevokingUser(tokens: Table, v: UserId, now: Time, u: UserId)
    ensures LiveFamilies(RevokeRows(tokens, OfUser(tokens, u)), v, now) == if v == u then {}
            else LiveFamilies(tokens, v, now)
  {
    var t := RevokeRows(tokens, OfUser(tokens, u));
    forall f ensures f in LiveFamilies(t, v, now) <==> f in LiveFamilies(tokens, v, now) && v != u {
      ListedFamily(t, v, now, f);
      ListedFamily(tokens, v, now, f);
      if h :| Live(t, h, v, now, f) { assert Live(tokens, h, v, now, f); }
      if h :| Live(tokens, h, v, now, f) { assert v != u ==> Live(t, h, v, now, f); }
    }
  }

  lemma RevokingUserFamily(tokens: Table, v: UserId, now: Time, u: UserId, gone: Family)
    ensures LiveFamilies(RevokeRows(tokens, OfUser(tokens, u) * OfFamily(tokens, gone)), v, now)
         == if v == u then LiveFamilies(tokens, v, now) - {gone} else LiveFamilies(tokens, v, now)
  {
    var t := RevokeRows(tokens, OfUser(tokens, u) * OfFamily(tokens, gone));
    forall f ensures f in LiveFamilies(t, v, now) <==> f in LiveFamilies(tokens, v, now) && !(v == u && f == gone) {
      ListedFamily(t, v, now, f);
      ListedFamily(tokens, v, now, f);
      if h :| Live(t, h, v, now, f) { assert Live(tokens, h, v, now, f); }
      if h :| Live(tokens, h, v, now, f) { assert !(v == u && f == gone) ==> Live(t, h, v, now, f); }
    }
  }

  /** Rows that are not live may be revoked or dropped unnoticed. */
  lemma OnlyDeadRows(tokens: Table, t: Table, v: UserId, now: Time)
    requires forall h, f :: Live(t, h, v, now, f) <==> Live(tokens, h, v, now, f)
    ensures LiveFamilies(t, v, now) == LiveFamilies(tokens, v, now)
  {
    forall f ensures f in LiveFamilies(t, v, now) <==> f in LiveFamilies(tokens, v, now) {
      ListedFamily(t, v, now, f);
      ListedFamily(tokens, v, now, f);
      if h :| Live(t, h, v, now, f) { assert Live(tokens, h, v, now, f); }
      if h :| Live(tokens, h, v, now, f) { assert Live(t, h, v, now, f); }
    }
  }

  lemma Adding(tokens: Table, v: UserId, now: Time, h: TokenHash, row: TokenRow)
    requires h !in tokens && !row.revoked && row.expiresAt > now
    ensures LiveFamilies(tokens[h := row], v, now)
         == LiveFamilies(tokens, v, now) + if v == row.user then {row.family} else {}
  {
    var t := tokens[h := row];
    forall f ensures f in LiveFamilies(t, v, now)
        <==> f in LiveFamilies(tokens, v, now) || (v == row.user && f == row.family) {
      ListedFamily(t, v, now, f);
      ListedFamily(tokens, v, now, f);
      if k :| Live(t, k, v, now, f) { assert k == h || Live(tokens, k, v, now, f); }
      if k :| Live(tokens, k, v, now, f) { assert Live(t, k, v, now, f); }
      if v == row.user && f == row.family { assert Live(t, h, v, now, f); }
    }
  }

  /** A row replaced by one of its family and account. */
  lemma Replacing(tokens: Table, v: UserId, now: Time, p: TokenHash, h: TokenHash, row: TokenRow)
    requires h !in tokens && p in tokens && !row.revoked && row.expiresAt > now
    requires row.user == tokens[p].user && row.family == tokens[p].family
    ensures LiveFamilies(tokens[p := tokens[p].(revoked := true)][h := row], v, now)
         == LiveFamilies(tokens, v, now) + if v == row.user then {row.family} else {}
  {
    var t := tokens[p := tokens[p].(revoked := true)];
    Adding(t, v, now, h, row);
    forall f ensures f in LiveFamilies(t, v, now) || (v == row.user && f == row.family)
                <==> f in LiveFamilies(tokens, v, now) || (v == row.user && f == row.family) {
      ListedFamily(t, v, now, f);
      ListedFamily(tokens, v, now, f);
      if k :| Live(t, k, v, now, f) { assert Live(tokens, k, v, now, f); }
      if k :| Live(tokens, k, v, now, f) { assert k == p || Live(t, k, v, now, f); }
    }
  }

  // ---- What the calls do ----

  /** The sessions of an account after a call, told from those before it, the call and its outcome. */
  ghost function SessionsAfter(s: State, c: Call, out: Outcome, v: UserId): set<Family> {
    var was := LiveFamilies(s.tokens, v, c.now);
    match c.op
    case Login(email, _, _, _, f) => if out.Granted? && ByEmail(s.users, email) == Some(v) then was + {f} else was
    case AcceptInvitation(_, _, u, _, f) => if out.Granted? && v == u then was + {f} else was
    case Refresh(p, _) =>
      if p !in s.tokens then was
      else if out.Granted? then (if v == s.tokens[p].user then was + {s.tokens[p].family} else was)
      else if s.tokens[p].revoked then was - {s.tokens[p].family}
      else was
    case Logout(p) => if p in s.tokens then was - {s.tokens[p].family} else was
    case RevokeSession(u, f) => if v == u then was - {f} else was
    case _ => if EndsAllOf(s, c.op, v) && out.Done? then {} else was
  }

  /** A granted login or acceptance adds one row; any other leaves the table. */
  lemma OpeningTable(cfg: Config, s: State, c: Call)
    requires c.op.Login? || c.op.AcceptInvitation?
    ensures var (out, t) := Step(cfg, s, c);
            if out.Granted? then
              && (c.op.Login? ==> ByEmail(s.users, c.op.email).Some?)
              && var u := if c.op.Login? then ByEmail(s.users, c.op.email).value else c.op.newUser;
                 var remember := c.op.Login? && c.op.remember;
                 t.tokens == s.tokens[c.op.hash := NewRow(cfg, s.(clock := c.now), u, c.op.family, remember)]
            else t.tokens == s.tokens
  {
    hide ByEmail, ByEmailIncludingDeleted, Create, WithoutExpiredLock;
  }

  lemma HashIsNew(s: State, c: Call)
    requires Inv(s) && Legal(s, c) && (c.op.Login? || c.op.AcceptInvitation? || c.op.Refresh?)
    ensures c.op.hash !in s.tokens
  {
  }

  lemma OpeningSessions(cfg: Config, s: State, c: Call, v: UserId)
    requires cfg.Valid() && Inv(s) && Legal(s, c) && (c.op.Login? || c.op.AcceptInvitation?)
    ensures LiveFamilies(Step(cfg, s, c).1.tokens, v, c.now) == SessionsAfter(s, c, Step(cfg, s, c).0, v)
  {
    hide Inv, Legal, LiveFamilies, ByEmail, Step;
    HashIsNew(s, c);
    OpeningTable(cfg, s, c);
    if Step(cfg, s, c).0.Granted? {
      var u := if c.op.Login? then ByEmail(s.users, c.op.email).value else c.op.newUser;
      Adding(s.tokens, v, c.now, c.op.hash, NewRow(cfg, s.(clock := c.now), u, c.op.family, c.op.Login?
                                                   && c.op.remember));
    }
  }

  lemma RefreshSessions(cfg: Config, s: State, c: Call, v: UserId)
    requires cfg.Valid() && Inv(s) && Legal(s, c) && c.op.Refresh?
    ensures LiveFamilies(Step(cfg, s, c).1.tokens, v, c.now) == SessionsAfter(s, c, Step(cfg, s, c).0, v)
  {
    hide Inv, Legal, LiveFamilies;
    HashIsNew(s, c);
    var (out, t) := Step(cfg, s, c);
    var p := c.op.presented;
    if p in s.tokens {
      var row := s.tokens[p];
      if out.Granted? {
        RotatedTable(cfg, s, c);
        Replacing(s.tokens, v, c.now, p, c.op.hash, NewRow(cfg, t, row.user, row.family, row.persistent));
      } else if row.revoked {
        RevokingFamily(s.tokens, v, c.now, row.family);
      } else {
        OnlyDeadRows(s.tokens, t.tokens, v, c.now);
      }
    }
  }

  lemma PurgeSessions(cfg: Config, s: State, c: Call, v: UserId)
    requires c.op.Purge?
    ensures LiveFamilies(Step(cfg, s, c).1.tokens, v, c.now) == SessionsAfter(s, c, Step(cfg, s, c).0, v)
  {
    hide LiveFamilies;
    OnlyDeadRows(s.tokens, Step(cfg, s, c).1.tokens, v, c.now);
  }

  /** What one new password, suspension or archiving leaves in the table. */
  lemma EndingTable(cfg: Config, s: State, c: Call) returns (u: UserId)
    requires c.op.ResetPassword? || c.op.ChangePassword? || c.op.SetActive? || c.op.SoftDelete?
    ensures var (out, t) := Step(cfg, s, c);
            if out.Done? && (c.op.SetActive? ==> !c.op.active)
            then t.tokens == RevokeRows(s.tokens, OfUser(s.tokens, u)) && forall v :: EndsAllOf(s, c.op, v) <==> v == u
            else t.tokens == s.tokens && (out.Done? ==> forall v :: !EndsAllOf(s, c.op, v))
  {
    hide Update, UseResets, RevokeRows;
    u := match c.op
      case ResetPassword(r, _) => if r in s.resets then s.resets[r].user else 0
      case ChangePassword(w, _, _) => w
      case SetActive(_, w, _) => w
      case SoftDelete(_, w) => w;
  }

  lemma EndingSessions(cfg: Config, s: State, c: Call, v: UserId)
    requires c.op.ResetPassword? || c.op.ChangePassword? || c.op.SetActive? || c.op.SoftDelete?
    ensures LiveFamilies(Step(cfg, s, c).1.tokens, v, c.now) == SessionsAfter(s, c, Step(cfg, s, c).0, v)
  {
    var u := EndingTable(cfg, s, c);
    hide LiveFamilies, RevokeRows, Step;
    RevokingUser(s.tokens, v, c.now, u);
  }

  lemma ClosingSessions(cfg: Config, s: State, c: Call, v: UserId)
    requires c.op.Logout? || c.op.RevokeSession?
    ensures LiveFamilies(Step(cfg, s, c).1.tokens, v, c.now) == SessionsAfter(s, c, Step(cfg, s, c).0, v)
  {
    hide LiveFamilies;
    match c.op
    case Logout(p) => if p in s.tokens { RevokingFamily(s.tokens, v, c.now, s.tokens[p].family); }
    case RevokeSession(u, f) => RevokingUserFamily(s.tokens, v, c.now, u, f);
  }

  lemma OtherSessions(cfg: Config, s: State, c: Call, v: UserId)
    requires c.op.ForgotPassword? || c.op.Restore? || c.op.SetForcePasswordChange?
    ensures LiveFamilies(Step(cfg, s, c).1.tokens, v, c.now) == SessionsAfter(s, c, Step(cfg, s, c).0, v)
  {
  }

  /** In every reachable state and for every account, a call leaves the sessions it should. */
  lemma SessionsFollowCalls(cfg: Config, s: State, c: Call, v: UserId)
    requires cfg.Valid() && Inv(s) && Legal(s, c)
    ensures LiveFamilies(Step(cfg, s, c).1.tokens, v, c.now) == SessionsAfter(s, c, Step(cfg, s, c).0, v)
  {
    hide Inv, Legal, LiveFamilies, Step, EndsAllOf;
    if c.op.Login? || c.op.AcceptInvitation? { OpeningSessions(cfg, s, c, v); }
    else if c.op.Refresh? { RefreshSessions(cfg, s, c, v); }
    else if c.op.Logout? || c.op.RevokeSession? { ClosingSessions(cfg, s, c, v); }
    else if c.op.Purge? { PurgeSessions(cfg, s, c, v); }
    else if c.op.ForgotPassword? || c.op.Restore? || c.op.SetForcePasswordChange? { OtherSessions(cfg, s, c, v); }
    else { EndingSessions(cfg, s, c, v); }
  }

  /** Who gets in: an account of that address, not archived, active, with no lock still running, and
      the right password. */
  lemma LoginGrantedIff(cfg: Config, s: State, c: Call)
    requires Inv(s) && c.op.Login?
    ensures Step(cfg, s, c).0.Granted? <==>
              exists u: UserId :: HasEmail(s.users, c.op.email, u) && s.users[u].deletedAt.None? && s.users[u].isActive
                          && (s.users[u].lockedUntil.None? || s.users[u].lockedUntil.value <= c.now) && c.op.passwordOk
  {
  }
}
