/** Refresh-token families over whole runs: rotation, reuse detection, and what ends a session for good. */
module SessionTheorems {
  import opened UserEntity
  import opened Accounts
  import opened AccountInvariants

  /** How sessions may change in one call: history only grows, a stored row keeps its attributes and
      never loses its revocation, a lost row does not come back, and a token is issued only in a new
      family or in one that has an unrevoked row. */
  ghost predicate Evolves(s: State, t: State) {
    && (forall h :: h in s.issued ==> h in t.issued && t.issued[h] == s.issued[h])
    && (forall h :: h in t.tokens && h in s.issued ==>
          h in s.tokens && t.tokens[h] == s.tokens[h].(revoked := t.tokens[h].revoked)
          && (s.tokens[h].revoked ==> t.tokens[h].revoked))
    && (forall h :: h in t.issued && h !in s.issued ==>
          NewFamily(s, t.issued[h].family) || !NoLive(s, t.issued[h].family))
  }

  lemma SameTokensEvolve(s: State, t: State)
    requires Inv(s) && t.tokens == s.tokens && t.issued == s.issued
    ensures Evolves(s, t)
  {
  }

  lemma RevokeEvolves(s: State, t: State, hs: set<TokenHash>)
    requires Inv(s) && t.tokens == RevokeRows(s.tokens, hs) && t.issued == s.issued
    ensures Evolves(s, t)
  {
  }

  lemma IssueEvolves(s: State, t: State, h: TokenHash, row: TokenRow)
    requires Inv(s) && h !in s.issued && NewFamily(s, row.family)
    requires t.tokens == s.tokens[h := row] && t.issued == Save(s, h, row).issued
    ensures Evolves(s, t)
  {
  }

  lemma LoginEvolves(cfg: Config, s: State, op: Op)
    requires Inv(s) && op.Login? && op.hash !in s.issued && NewFamily(s, op.family)
    ensures Evolves(s, LoginStep(cfg, s, op).1)
  {
    hide Inv, Evolves, NewFamily, ByEmail, WithoutExpiredLock;
    var t := LoginStep(cfg, s, op).1;
    if t.issued == s.issued {
      SameTokensEvolve(s, t);
    } else {
      IssueEvolves(s, t, op.hash, t.tokens[op.hash]);
    }
  }

  lemma AcceptIssues(cfg: Config, s: State, op: Op)
    requires op.AcceptInvitation?
    ensures var t, row := AcceptStep(cfg, s, op).1, NewRow(cfg, s, op.newUser, op.family, false);
            || (t.tokens == s.tokens && t.issued == s.issued)
            || (t.tokens == s.tokens[op.hash := row] && t.issued == Save(s, op.hash, row).issued)
  {
    hide Create, ByEmailIncludingDeleted;
  }

  lemma AcceptEvolves(cfg: Config, s: State, op: Op)
    requires Inv(s) && op.AcceptInvitation? && op.hash !in s.issued && NewFamily(s, op.family)
    ensures Evolves(s, AcceptStep(cfg, s, op).1)
  {
    hide Inv, Evolves, NewFamily, AcceptStep;
    var t := AcceptStep(cfg, s, op).1;
    AcceptIssues(cfg, s, op);
    if t.tokens == s.tokens && t.issued == s.issued {
      SameTokensEvolve(s, t);
    } else {
      IssueEvolves(s, t, op.hash, NewRow(cfg, s, op.newUser, op.family, false));
    }
  }

  lemma RotateEvolves(cfg: Config, s: State, p: TokenHash, h: TokenHash)
    requires Inv(s) && p in s.tokens && !s.tokens[p].revoked && h !in s.issued
    ensures Evolves(s, Rotate(cfg, s, p, h))
  {
    assert !NoLive(s, s.tokens[p].family);
  }

  lemma RefreshEvolves(cfg: Config, s: State, op: Op)
    requires Inv(s) && op.Refresh? && op.hash !in s.issued
    ensures Evolves(s, RefreshStep(cfg, s, op).1)
  {
    hide Inv, Evolves, Rotate, NoLive, NewFamily;
    SameTokensEvolve(s, s);
    if op.presented in s.tokens {
      var row := s.tokens[op.presented];
      if row.revoked {
        RevokeEvolves(s, RefreshStep(cfg, s, op).1, OfFamily(s.tokens, row.family));
      } else if row.expiresAt < s.clock {
        RevokeEvolves(s, RefreshStep(cfg, s, op).1, {op.presented});
      } else if Available(s.users, row.user) {
        RotateEvolves(cfg, s, op.presented, op.hash);
      }
    }
  }

  lemma NewPasswordEvolves(s: State, u: UserId, digest: Digest)
    requires Inv(s) && u in s.users
    ensures Evolves(s, NewPassword(s, u, digest).1)
  {
    hide Inv, Evolves, Update, RevokeRows, OfUser, UseResets;
    SameTokensEvolve(s, s);
    if NewPassword(s, u, digest).0.Done? { RevokeEvolves(s, NewPassword(s, u, digest).1, OfUser(s.tokens, u)); }
  }

  lemma AdminEvolves(cfg: Config, s: State, op: Op)
    requires Inv(s) && (op.SetActive? || op.SoftDelete? || op.Restore? || op.SetForcePasswordChange?
                        || op.ForgotPassword?)
    ensures Evolves(s, OpStep(cfg, s, op).1)
  {
    var t := OpStep(cfg, s, op).1;
    hide Inv, Evolves;
    if t.tokens == s.tokens {
      SameTokensEvolve(s, t);
    } else {
      RevokeEvolves(s, t, OfUser(s.tokens, op.target));
    }
  }

  lemma OpEvolves(cfg: Config, s: State, op: Op)
    requires Inv(s) && Legal(s, Call(s.clock, op))
    ensures Evolves(s, OpStep(cfg, s, op).1)
  {
    hide Evolves, LoginStep, RefreshStep, AcceptStep, NewPassword, SetActiveStep, SoftDeleteStep, RestoreStep, UsersOk,
         Numbered, LiveOk, LiveFamilies, StaleTokens, StaleResets, Throttled, ByEmail;
    var t := OpStep(cfg, s, op).1;
    SameTokensEvolve(s, s);
    match op
    case Login(_, _, _, _, _) => LoginEvolves(cfg, s, op);
    case Refresh(_, _) => RefreshEvolves(cfg, s, op);
    case Logout(p) => if p in s.tokens { RevokeEvolves(s, t, OfFamily(s.tokens, s.tokens[p].family)); }
    case RevokeSession(u, f) => if t != s { RevokeEvolves(s, t, OfUser(s.tokens, u) * OfFamily(s.tokens, f)); }
    case AcceptInvitation(_, _, _, _, _) => AcceptEvolves(cfg, s, op);
    case ResetPassword(r, digest) => if r in s.resets { NewPasswordEvolves(s, s.resets[r].user, digest); }
    case ChangePassword(u, _, digest) => if u in s.users { NewPasswordEvolves(s, u, digest); }
    case Purge(_) => PurgeEvolves(cfg, s, op);
    case _ => AdminEvolves(cfg, s, op);
  }

  lemma PurgeEvolves(cfg: Config, s: State, op: Op)
    requires Inv(s) && op.Purge?
    ensures Evolves(s, OpStep(cfg, s, op).1)
  {
  }

  lemma StepEvolves(cfg: Config, s: State, c: Call)
    requires Inv(s) && Legal(s, c)
    ensures Evolves(s, Step(cfg, s, c).1)
  {
    var s1 := s.(clock := c.now);
    EventsDoNotMatter(s, s1);
    OpEvolves(cfg, s1, c.op);
    assert forall f :: NewFamily(s, f) == NewFamily(s1, f) && NoLive(s, f) == NoLive(s1, f);
  }

  // ---- A dead family stays dead ----

  /** The family has been used, and none of its stored rows is unrevoked. */
  ghost predicate Dead(s: State, f: Family) {
    !NewFamily(s, f) && NoLive(s, f)
  }

  /** The token was issued, and is revoked or no longer stored. */
  ghost predicate Spent(s: State, p: TokenHash) {
    p in s.issued && (p in s.tokens ==> s.tokens[p].revoked)
  }

  ghost function Hashes(s: State, f: Family): set<TokenHash> {
    set h | h in s.issued && s.issued[h].family == f
  }

  lemma DeadStays(s: State, t: State, f: Family)
    requires Inv(s) && Inv(t) && Evolves(s, t) && Dead(s, f)
    ensures Dead(t, f) && Hashes(t, f) == Hashes(s, f)
  {
  }

  /** Whatever is called afterwards, no token is ever added to a dead family, none of its rows is
      unrevoked again, and every refresh with one of its tokens is refused. */
  lemma {:induction false} DeadForever(cfg: Config, s: State, calls: seq<Call>, f: Family)
    requires Inv(s) && LegalRun(cfg, s, calls) && Dead(s, f)
    ensures var t := Run(cfg, s, calls);
            && Dead(t, f) && Hashes(t, f) == Hashes(s, f)
            && forall c: Call :: c.op.Refresh? && c.op.presented in Hashes(t, f) ==> !Step(cfg, t, c).0.Granted?
    decreases |calls|
  {
    if calls != [] {
      var s1 := Step(cfg, s, calls[0]).1;
      StepKeeps(cfg, s, calls[0]);
      StepEvolves(cfg, s, calls[0]);
      DeadStays(s, s1, f);
      DeadForever(cfg, s1, calls[1..], f);
    }
  }

  lemma {:induction false} SpentForever(cfg: Config, s: State, calls: seq<Call>, p: TokenHash)
    requires Inv(s) && LegalRun(cfg, s, calls) && Spent(s, p)
    ensures Spent(Run(cfg, s, calls), p)
    decreases |calls|
  {
    if calls != [] {
      StepKeeps(cfg, s, calls[0]);
      StepEvolves(cfg, s, calls[0]);
      SpentForever(cfg, Step(cfg, s, calls[0]).1, calls[1..], p);
    }
  }

  /** A refresh token works at most once: after a granted refresh, no continuation of the run grants another. */
  lemma SingleUse(cfg: Config, s: State, first: Call, calls: seq<Call>, again: Call)
    requires Inv(s) && Legal(s, first) && first.op.Refresh? && Step(cfg, s, first).0.Granted?
    requires LegalRun(cfg, Step(cfg, s, first).1, calls)
    requires again.op.Refresh? && again.op.presented == first.op.presented
    ensures !Step(cfg, Run(cfg, Step(cfg, s, first).1, calls), again).0.Granted?
  {
    var s1 := Step(cfg, s, first).1;
    StepKeeps(cfg, s, first);
    assert Spent(s1, first.op.presented);
    SpentForever(cfg, s1, calls, first.op.presented);
  }

  /** Reuse detection: presenting a stored token again after it was revoked ends its family, rotated
      successors included, for every continuation. */
  lemma ReuseEndsFamily(cfg: Config, s: State, replay: Call, calls: seq<Call>, next: Call)
    requires Inv(s) && Legal(s, replay) && replay.op.Refresh?
    requires replay.op.presented in s.tokens && s.tokens[replay.op.presented].revoked
    requires LegalRun(cfg, Step(cfg, s, replay).1, calls)
    ensures !Step(cfg, s, replay).0.Granted?
    ensures var f := s.tokens[replay.op.presented].family;
            var t := Run(cfg, Step(cfg, s, replay).1, calls);
            && Dead(t, f)
            && (next.op.Refresh? && next.op.presented in t.issued && t.issued[next.op.presented].family == f ==>
                  !Step(cfg, t, next).0.Granted?)
  {
    var f := s.tokens[replay.op.presented].family;
    var s1 := Step(cfg, s, replay).1;
    StepKeeps(cfg, s, replay);
    assert s.issued[replay.op.presented].family == f;
    assert NoLive(s1, f);
    DeadForever(cfg, s1, calls, f);
  }

  /** Presenting a stored token after its expiry ends its family for good, although only its own row is revoked. */
  lemma ExpiryEndsFamily(cfg: Config, s: State, late: Call, calls: seq<Call>, next: Call)
    requires Inv(s) && Legal(s, late) && late.op.Refresh?
    requires late.op.presented in s.tokens && s.tokens[late.op.presented].expiresAt < late.now
    requires LegalRun(cfg, Step(cfg, s, late).1, calls)
    ensures !Step(cfg, s, late).0.Granted?
    ensures var f := s.tokens[late.op.presented].family;
            var t := Run(cfg, Step(cfg, s, late).1, calls);
            && Dead(t, f)
            && (next.op.Refresh? && next.op.presented in t.issued && t.issued[next.op.presented].family == f ==>
                  !Step(cfg, t, next).0.Granted?)
  {
    var p := late.op.presented;
    if s.tokens[p].revoked {
      ReuseEndsFamily(cfg, s, late, calls, next);
    } else {
      ExpiredIsLast(cfg, s, late);
      StepKeeps(cfg, s, late);
      hide Inv, Step, LegalRun, Run;
      DeadForever(cfg, Step(cfg, s, late).1, calls, s.tokens[p].family);
    }
  }

  lemma ExpiredIsLast(cfg: Config, s: State, late: Call)
    requires Inv(s) && late.op.Refresh? && late.op.presented in s.tokens
    requires !s.tokens[late.op.presented].revoked && s.tokens[late.op.presented].expiresAt < late.now
    ensures Dead(Step(cfg, s, late).1, s.tokens[late.op.presented].family) && !Step(cfg, s, late).0.Granted?
  {
    OnlyOneLive(s, late.op.presented);
  }

  /** The two calls that end one session on purpose leave its family dead. */
  lemma LogoutEndsFamily(cfg: Config, s: State, c: Call)
    requires Inv(s) && c.op.Logout? && c.op.presented in s.tokens
    ensures Dead(Step(cfg, s, c).1, s.tokens[c.op.presented].family)
  {
    assert s.issued[c.op.presented].family == s.tokens[c.op.presented].family;
  }

  lemma RevokeSessionEndsFamily(cfg: Config, s: State, c: Call)
    requires Inv(s) && c.op.RevokeSession? && Step(cfg, s, c).0.Done?
    ensures Dead(Step(cfg, s, c).1, c.op.family)
  {
    var t := Step(cfg, s, c).1;
    var h :| h in LiveRows(s.tokens, c.op.user, c.now) && s.tokens[h].family == c.op.family;
    assert s.issued[h].family == c.op.family;
    forall k | k in t.tokens && t.tokens[k].family == c.op.family ensures t.tokens[k].revoked {
      assert s.issued[k].user == s.issued[h].user;
    }
  }

  /** Calls that end every session of a user: a new password, suspension, archiving. */
  ghost predicate EndsAllOf(s: State, op: Op, u: UserId) {
    match op
    case ResetPassword(r, _) => r in s.resets && s.resets[r].user == u
    case ChangePassword(v, _, _) => v == u
    case SetActive(_, v, active) => v == u && !active
    case SoftDelete(_, v) => v == u
    case _ => false
  }

  ghost predicate AllRevoked(s: State, u: UserId) {
    forall h :: h in s.tokens && s.tokens[h].user == u ==> s.tokens[h].revoked
  }

  lemma NoSessionAfter(cfg: Config, s: State, c: Call, u: UserId)
    requires EndsAllOf(s, c.op, u) && Step(cfg, s, c).0.Done?
    ensures AllRevoked(Step(cfg, s, c).1, u) && Step(cfg, s, c).1.issued == s.issued
  {
    var t := Step(cfg, s, c).1;
    hide Update, UseResets;
    assert t.tokens == RevokeRows(s.tokens, OfUser(s.tokens, u));
  }

  /** After a completed password change, suspension or archiving, every family the user ever had is dead for good. */
  lemma EndsEverySession(cfg: Config, s: State, c: Call, u: UserId, calls: seq<Call>, p: TokenHash, next: Call)
    requires Inv(s) && Legal(s, c) && EndsAllOf(s, c.op, u) && Step(cfg, s, c).0.Done?
    requires LegalRun(cfg, Step(cfg, s, c).1, calls)
    requires p in s.issued && s.issued[p].user == u
    ensures Dead(Run(cfg, Step(cfg, s, c).1, calls), s.issued[p].family)
    ensures next.op.Refresh? && next.op.presented == p ==>
              !Step(cfg, Run(cfg, Step(cfg, s, c).1, calls), next).0.Granted?
  {
    var s1 := Step(cfg, s, c).1;
    StepKeeps(cfg, s, c);
    NoSessionAfter(cfg, s, c, u);
    var f := s.issued[p].family;
    forall h | h in s1.tokens && s1.tokens[h].family == f ensures s1.tokens[h].revoked {
      assert s1.issued[h].user == s1.issued[p].user;
    }
    DeadForever(cfg, s1, calls, f);
    assert p in Hashes(s1, f);
  }

  // ---- When a refresh is granted, and what the session list shows ----

  /** In a reachable state the stored row alone decides a refresh: the account check never refuses
      an unrevoked, unexpired token. */
  lemma RefreshGrantedIff(cfg: Config, s: State, c: Call)
    requires Inv(s) && c.op.Refresh?
    ensures Step(cfg, s, c).0.Granted? <==>
              c.op.presented in s.tokens && !s.tokens[c.op.presented].revoked
                && c.now <= s.tokens[c.op.presented].expiresAt
  {
  }

  lemma RotatedTable(cfg: Config, s: State, c: Call)
    requires c.op.Refresh? && Step(cfg, s, c).0.Granted?
    ensures var t := Step(cfg, s, c).1;
            var was := s.tokens[c.op.presented];
            && t.tokens == s.tokens[c.op.presented := was.(revoked := true)]
                             [c.op.hash := NewRow(cfg, t, was.user, was.family, was.persistent)]
            && Step(cfg, s, c).0 == Granted(was.persistent)
  {
  }

  /** A granted refresh replaces the family's one unrevoked token by the newest one ever issued in it,
      for the same user and persistence, and leaves every other family alone. */
  lemma RefreshRotates(cfg: Config, s: State, c: Call)
    requires Inv(s) && Legal(s, c) && c.op.Refresh? && Step(cfg, s, c).0.Granted?
    ensures var t := Step(cfg, s, c).1;
            var was := s.tokens[c.op.presented];
            && t.tokens == s.tokens[c.op.presented := was.(revoked := true)]
                             [c.op.hash := NewRow(cfg, t, was.user, was.family, was.persistent)]
            && Step(cfg, s, c).0 == Granted(was.persistent)
            && c.op.hash in t.issued && Newest(t, c.op.hash)
            && forall h :: h in t.tokens && t.tokens[h].family == was.family && !t.tokens[h].revoked ==> h == c.op.hash
  {
    var t := Step(cfg, s, c).1;
    RotatedTable(cfg, s, c);
    StepKeeps(cfg, s, c);
    hide Step;
    OnlyOneLive(t, c.op.hash);
    assert c.op.hash in t.tokens && !t.tokens[c.op.hash].revoked;
  }

  /** Each listed family is listed for one row only, and the list is exactly the sessions of the user
      that a refresh would still extend a moment later. */
  lemma ListedSessions(cfg: Config, s: State, u: UserId, f: Family, now: Time, h: TokenHash)
    requires Inv(s) && s.clock <= now && h !in s.issued
    ensures f in LiveFamilies(s.tokens, u, now) <==>
              exists p :: p in s.issued && s.issued[p].family == f && s.issued[p].user == u
                          && Step(cfg, s, Call(now + 1, Refresh(p, h))).0.Granted?
    ensures forall p, q | p in LiveRows(s.tokens, u, now) && q in LiveRows(s.tokens, u, now) ::
              s.tokens[p].family == s.tokens[q].family ==> p == q
  {
    if f in LiveFamilies(s.tokens, u, now) {
      var p :| p in LiveRows(s.tokens, u, now) && s.tokens[p].family == f;
      RefreshGrantedIff(cfg, s, Call(now + 1, Refresh(p, h)));
      assert Step(cfg, s, Call(now + 1, Refresh(p, h))).0.Granted?;
    }
    if p :| p in s.issued && s.issued[p].family == f && s.issued[p].user == u
            && Step(cfg, s, Call(now + 1, Refresh(p, h))).0.Granted? {
      RefreshGrantedIff(cfg, s, Call(now + 1, Refresh(p, h)));
      assert p in LiveRows(s.tokens, u, now);
    }
    forall p, q | p in LiveRows(s.tokens, u, now) && q in LiveRows(s.tokens, u, now)
                  && s.tokens[p].family == s.tokens[q].family
      ensures p == q
    {
      OnlyOneLive(s, p);
    }
  }
}
