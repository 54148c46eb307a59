/** The account and session tables, and what each service call does to them.
    Every call is one atomic step; a call that throws inside its transaction leaves no trace. */
module Accounts {
  import opened Wrappers
  import opened UserEntity

  type UserId = nat
  type Family = nat
  type TokenHash = nat
  type ResetHash = nat

  datatype Config = Config(
    maxAttempts: nat,
    lockoutMs: nat,
    persistentTtlMs: int,
    sessionTtlMs: int,
    resetTtlMs: int,
    minIntervalMs: nat,
    maxPerDay: nat,
    throttles: bool)
  {
    predicate Valid() {
      maxAttempts >= 3 && lockoutMs > 0 && persistentTtlMs > 0 && sessionTtlMs > 0 && resetTtlMs > 0 && maxPerDay >= 1
    }
    function Ttl(persistent: bool): int { if persistent then persistentTtlMs else sessionTtlMs }
  }

  datatype TokenRow = TokenRow(
    user: UserId, family: Family, expiresAt: Time, persistent: bool, revoked: bool, createdAt: Time)

  datatype ResetRow = ResetRow(user: UserId, expiresAt: Time, used: bool, createdAt: Time)

  datatype EventKind = Registered | Updated | Deleted
  datatype Event = Event(kind: EventKind, user: UserId)

  /** The record an invitation link resolves to. */
  datatype Invitation = Invitation(
    email: string, role: Role, clientKind: Option<ClientKind>, used: bool, expiresAt: Time)

  /** History entry of one refresh token: its place in the order of issue, and what it belonged to. */
  datatype Issue = Issue(no: nat, user: UserId, family: Family, persistent: bool)

  /** The tables, the clock, and histories no table keeps: every refresh token and every reset link
      ever issued, and each account's failed comparisons of logins since its counter was last reset by
      a success or a new password. */
  datatype State = State(
    clock: Time,
    users: map<UserId, User>,
    tokens: map<TokenHash, TokenRow>,
    resets: map<ResetHash, ResetRow>,
    events: seq<Event>,
    issued: map<TokenHash, Issue>,
    resetsIssued: set<ResetHash>,
    fails: map<UserId, seq<Time>>)

  datatype Outcome =
    | Granted(persistent: bool)
    | Done
    | Unauthorized | NotFound | Conflict | BadRequest | Forbidden | Failed

  // ---- Lookups ----

  ghost predicate HasEmail(users: map<UserId, User>, email: string, u: UserId) {
    u in users && users[u].email == email
  }

  /** The account with this e-mail, archived or not. */
  ghost function ByEmailIncludingDeleted(users: map<UserId, User>, email: string): Option<UserId> {
    if exists u :: HasEmail(users, email, u) then (var u :| HasEmail(users, email, u); Some(u)) else None
  }

  ghost function ByEmail(users: map<UserId, User>, email: string): Option<UserId> {
    var found := ByEmailIncludingDeleted(users, email);
    if found.Some? && users[found.value].deletedAt.None? then found else None
  }

  /** findById hides archived accounts. */
  predicate Visible(users: map<UserId, User>, u: UserId) {
    u in users && users[u].deletedAt.None?
  }

  predicate Available(users: map<UserId, User>, u: UserId) {
    Visible(users, u) && users[u].isActive
  }

  function OfFamily(tokens: map<TokenHash, TokenRow>, f: Family): set<TokenHash> {
    set h | h in tokens && tokens[h].family == f
  }

  function OfUser(tokens: map<TokenHash, TokenRow>, u: UserId): set<TokenHash> {
    set h | h in tokens && tokens[h].user == u
  }

  /** Rows a session list shows: unrevoked and not yet expired. */
  function LiveRows(tokens: map<TokenHash, TokenRow>, u: UserId, now: Time): set<TokenHash> {
    set h | h in OfUser(tokens, u) && !tokens[h].revoked && tokens[h].expiresAt > now
  }

  function LiveFamilies(tokens: map<TokenHash, TokenRow>, u: UserId, now: Time): set<Family> {
    set h | h in LiveRows(tokens, u, now) :: tokens[h].family
  }

  // ---- Row updates ----

  function RevokeRows(tokens: map<TokenHash, TokenRow>, hs: set<TokenHash>): map<TokenHash, TokenRow> {
    map h | h in tokens :: if h in hs then tokens[h].(revoked := true) else tokens[h]
  }

  function UseResets(resets: map<ResetHash, ResetRow>, u: UserId): map<ResetHash, ResetRow> {
    map r | r in resets :: if resets[r].user == u then resets[r].(used := true) else resets[r]
  }

  /** Rows the cleanup job removes: expired, or revoked and older than the retention. */
  function StaleTokens(tokens: map<TokenHash, TokenRow>, now: Time, staleBefore: Time): set<TokenHash> {
    set h | h in tokens && (tokens[h].expiresAt < now || (tokens[h].revoked && tokens[h].createdAt < staleBefore))
  }

  function StaleResets(resets: map<ResetHash, ResetRow>, now: Time, staleBefore: Time): set<ResetHash> {
    set r | r in resets && (resets[r].expiresAt < now || (resets[r].used && resets[r].createdAt < staleBefore))
  }

  // ---- The throttle on reset links ----

  const DAY_MS := 86_400_000

  function LinksOf(resets: map<ResetHash, ResetRow>, u: UserId): set<ResetHash> {
    set r | r in resets && resets[r].user == u
  }

  function LinksSince(resets: map<ResetHash, ResetRow>, u: UserId, since: Time): set<ResetHash> {
    set r | r in LinksOf(resets, u) && resets[r].createdAt >= since
  }

  /** A stored link of the account is younger than the interval, or a day's worth is stored already. Test mode has no
      limit. */
  predicate Throttled(cfg: Config, resets: map<ResetHash, ResetRow>, u: UserId, now: Time) {
    && cfg.throttles
    && ((exists r :: r in LinksOf(resets, u) && now - resets[r].createdAt < cfg.minIntervalMs)
        || |LinksSince(resets, u, now - DAY_MS)| >= cfg.maxPerDay)
  }

  // ---- The four ways a call can touch sessions ----

  ghost function Revoke(s: State, hs: set<TokenHash>): State {
    s.(tokens := RevokeRows(s.tokens, hs))
  }

  ghost function Drop(s: State, hs: set<TokenHash>): State {
    s.(tokens := s.tokens - hs)
  }

  ghost function Save(s: State, h: TokenHash, row: TokenRow): State {
    s.(tokens := s.tokens[h := row],
       issued := s.issued[h := Issue(|s.issued|, row.user, row.family, row.persistent)])
  }

  ghost function SetUser(s: State, u: UserId, user: User): State {
    s.(users := s.users[u := user])
  }

  ghost function Emit(s: State, kind: EventKind, u: UserId): State {
    s.(events := s.events + [Event(kind, u)])
  }

  ghost function FailsOf(s: State, u: UserId): seq<Time> {
    if u in s.fails then s.fails[u] else []
  }

  // ---- Service calls ----

  datatype Op =
    | Login(email: string, passwordOk: bool, remember: bool, hash: TokenHash, family: Family)
    | Refresh(presented: TokenHash, hash: TokenHash)
    | Logout(presented: TokenHash)
    | RevokeSession(user: UserId, family: Family)
    | AcceptInvitation(invitation: Option<Invitation>, digest: Digest, newUser: UserId, hash: TokenHash, family: Family)
    | ForgotPassword(email: string, reset: ResetHash)
    | ResetPassword(reset: ResetHash, digest: Digest)
    | ChangePassword(user: UserId, oldOk: bool, digest: Digest)
    | SetActive(admin: Option<UserId>, target: UserId, active: bool)
    | SoftDelete(admin: Option<UserId>, target: UserId)
    | Restore(target: UserId)
    | SetForcePasswordChange(target: UserId, flag: bool)
    | Purge(retentionMs: int)

  datatype Call = Call(now: Time, op: Op)

  /** Calls arrive in time order, and random token hashes, family ids and row ids are new. */
  ghost predicate Legal(s: State, c: Call) {
    && s.clock <= c.now
    && match c.op
       case Login(_, _, _, h, f) => h !in s.issued && NewFamily(s, f)
       case Refresh(_, h) => h !in s.issued
       case AcceptInvitation(_, _, u, h, f) => u !in s.users && u !in s.fails && h !in s.issued && NewFamily(s, f)
       case ForgotPassword(_, r) => r !in s.resetsIssued
       case _ => true
  }

  ghost predicate NewFamily(s: State, f: Family) {
    forall h :: h in s.issued ==> s.issued[h].family != f
  }

  ghost function WithoutExpiredLock(user: User, now: Time): User {
    if user.lockedUntil.Some? && user.lockedUntil.value <= now
    then user.(lockedUntil := None, failedLoginAttempts := 0)
    else user
  }

  ghost function FailedAttempt(cfg: Config, s: State, u: UserId): State
    requires u in s.users
  {
    var user := s.users[u];
    var n := user.failedLoginAttempts + 1;
    var lock := if n >= cfg.maxAttempts then Some(s.clock + cfg.lockoutMs) else user.lockedUntil;
    SetUser(s, u, user.(failedLoginAttempts := n, lockedUntil := lock))
      .(fails := s.fails[u := FailsOf(s, u) + [s.clock]])
  }

  ghost function NewRow(cfg: Config, s: State, u: UserId, f: Family, persistent: bool): TokenRow {
    TokenRow(u, f, s.clock + cfg.Ttl(persistent), persistent, false, s.clock)
  }

  ghost function OpenSession(cfg: Config, s: State, u: UserId, remember: bool, h: TokenHash, f: Family): State
    requires u in s.users
  {
    var loggedIn := s.users[u].(failedLoginAttempts := 0, lockedUntil := None, lastLoginAt := Some(s.clock));
    Save(SetUser(s, u, loggedIn).(fails := s.fails[u := []]), h, NewRow(cfg, s, u, f, remember))
  }

  ghost function LoginStep(cfg: Config, s: State, op: Op): (Outcome, State)
    requires op.Login?
  {
    var found := ByEmail(s.users, op.email);
    if found.None? then (Unauthorized, s)
    else
      var u := found.value;
      var user := WithoutExpiredLock(s.users[u], s.clock);
      var s1 := SetUser(s, u, user);
      if user.lockedUntil.Some? || !user.isActive then (Unauthorized, s1)
      else if !op.passwordOk then (Unauthorized, FailedAttempt(cfg, s1, u))
      else (Granted(op.remember), OpenSession(cfg, s1, u, op.remember, op.hash, op.family))
  }

  /** The presented token is revoked and its successor joins the family. */
  ghost function Rotate(cfg: Config, s: State, p: TokenHash, h: TokenHash): State
    requires p in s.tokens
  {
    var row := s.tokens[p];
    Save(Revoke(s, {p}), h, NewRow(cfg, s, row.user, row.family, row.persistent))
  }

  ghost function RefreshStep(cfg: Config, s: State, op: Op): (Outcome, State)
    requires op.Refresh?
  {
    if op.presented !in s.tokens then (Unauthorized, s)
    else
      var row := s.tokens[op.presented];
      if row.revoked then (Unauthorized, Revoke(s, OfFamily(s.tokens, row.family)))
      else if row.expiresAt < s.clock then (Unauthorized, Revoke(s, {op.presented}))
      else if !Available(s.users, row.user) then (Unauthorized, s)
      else (Granted(row.persistent), Rotate(cfg, s, op.presented, op.hash))
  }

  ghost function AcceptStep(cfg: Config, s: State, op: Op): (Outcome, State)
    requires op.AcceptInvitation?
  {
    if op.invitation.None? then (NotFound, s)
    else
      var inv := op.invitation.value;
      if inv.used then (Conflict, s)
      else if inv.expiresAt < s.clock then (Unauthorized, s)
      else if ByEmailIncludingDeleted(s.users, inv.email).Some? then (Conflict, s)
      else
        var created := Create(inv.email, inv.role, inv.clientKind, op.digest);
        // The stored address is the normalised one, and the column is unique.
        if created.None? || ByEmailIncludingDeleted(s.users, created.value.email).Some? then (Failed, s)
        else
          var user := created.value.(lastLoginAt := Some(s.clock));
          (Granted(false),
           Emit(Save(SetUser(s, op.newUser, user), op.hash, NewRow(cfg, s, op.newUser, op.family, false)),
                Registered, op.newUser))
  }

  /** What a new password does: the counter and the lock go, and so does every session of the user. */
  ghost function NewPassword(s: State, u: UserId, digest: Digest): (Outcome, State)
    requires u in s.users
  {
    var updated := Update(s.users[u], UserPatch(passwordHash := Some(digest), failedLoginAttempts := Some(0),
                                                lockedUntil := Some(None), forcePasswordChange := Some(false)));
    if updated.None? then (Failed, s)
    else
      (Done, Revoke(SetUser(s, u, updated.value), OfUser(s.tokens, u))
               .(resets := UseResets(s.resets, u), fails := s.fails[u := []]))
  }

  ghost function ResetStep(s: State, op: Op): (Outcome, State)
    requires op.ResetPassword?
  {
    if op.reset !in s.resets then (NotFound, s)
    else
      var row := s.resets[op.reset];
      if row.used then (Conflict, s)
      else if row.expiresAt < s.clock then (Unauthorized, s)
      else if !Visible(s.users, row.user) then (NotFound, s)
      else NewPassword(s, row.user, op.digest)
  }

  ghost function SetActiveStep(s: State, op: Op): (Outcome, State)
    requires op.SetActive?
  {
    if !op.active && op.admin == Some(op.target) then (Forbidden, s)
    else if op.target !in s.users then (NotFound, s)
    else if s.users[op.target].deletedAt.Some? && op.active then (BadRequest, s)
    else
      var updated := Update(s.users[op.target], UserPatch(isActive := Some(op.active)));
      if updated.None? then (Failed, s)
      else
        var s1 := Emit(SetUser(s, op.target, updated.value), Updated, op.target);
        (Done, if op.active then s1 else Revoke(s1, OfUser(s.tokens, op.target)))
  }

  ghost function SoftDeleteStep(s: State, op: Op): (Outcome, State)
    requires op.SoftDelete?
  {
    if op.admin == Some(op.target) then (Forbidden, s)
    else if op.target !in s.users then (NotFound, s)
    else if s.users[op.target].deletedAt.Some? then (Conflict, s)
    else
      var updated := Update(s.users[op.target], UserPatch(deletedAt := Some(Some(s.clock)), isActive := Some(false)));
      if updated.None? then (Failed, s)
      else
        (Done, Emit(Revoke(SetUser(s, op.target, updated.value), OfUser(s.tokens, op.target)), Deleted, op.target))
  }

  ghost function RestoreStep(s: State, op: Op): (Outcome, State)
    requires op.Restore?
  {
    if op.target !in s.users then (NotFound, s)
    else if s.users[op.target].deletedAt.None? then (Conflict, s)
    else
      var updated := Update(s.users[op.target], UserPatch(deletedAt := Some(None), isActive := Some(true)));
      if updated.None? then (Failed, s)
      else (Done, Emit(SetUser(s, op.target, updated.value), Updated, op.target))
  }

  ghost function OpStep(cfg: Config, s: State, op: Op): (Outcome, State) {
    match op
    case Login(_, _, _, _, _) => LoginStep(cfg, s, op)
    case Refresh(_, _) => RefreshStep(cfg, s, op)
    case Logout(presented) =>
      (Done, if presented in s.tokens then Revoke(s, OfFamily(s.tokens, s.tokens[presented].family)) else s)
    case RevokeSession(u, f) =>
      if f in LiveFamilies(s.tokens, u, s.clock)
      then (Done, Revoke(s, OfUser(s.tokens, u) * OfFamily(s.tokens, f)))
      else (NotFound, s)
    case AcceptInvitation(_, _, _, _, _) => AcceptStep(cfg, s, op)
    case ForgotPassword(email, r) =>
      var found := ByEmail(s.users, email);
      if found.None? || !s.users[found.value].isActive || Throttled(cfg, s.resets, found.value, s.clock) then (Done, s)
      else (Done, s.(resets := s.resets[r := ResetRow(found.value, s.clock + cfg.resetTtlMs, false, s.clock)],
                     resetsIssued := s.resetsIssued + {r}))
    case ResetPassword(_, _) => ResetStep(s, op)
    case ChangePassword(u, oldOk, digest) =>
      if !Available(s.users, u) || !oldOk then (Unauthorized, s) else NewPassword(s, u, digest)
    case SetActive(_, _, _) => SetActiveStep(s, op)
    case SoftDelete(_, _) => SoftDeleteStep(s, op)
    case Restore(_) => RestoreStep(s, op)
    case SetForcePasswordChange(u, flag) =>
      if u !in s.users then (NotFound, s)
      else
        var updated := Update(s.users[u], UserPatch(forcePasswordChange := Some(flag)));
        if updated.None? then (Failed, s) else (Done, SetUser(s, u, updated.value))
    case Purge(retentionMs) =>
      (Done, Drop(s, StaleTokens(s.tokens, s.clock, s.clock - retentionMs))
               .(resets := s.resets - StaleResets(s.resets, s.clock, s.clock - retentionMs)))
  }

  /** One service call: the clock moves to the call, then the tables change. */
  ghost function Step(cfg: Config, s: State, c: Call): (Outcome, State) {
    OpStep(cfg, s.(clock := c.now), c.op)
  }

  // ---- Runs ----

  ghost predicate LegalRun(cfg: Config, s: State, calls: seq<Call>)
    decreases |calls|
  {
    calls == [] || (Legal(s, calls[0]) && LegalRun(cfg, Step(cfg, s, calls[0]).1, calls[1..]))
  }

  ghost function Run(cfg: Config, s: State, calls: seq<Call>): State
    decreases |calls|
  {
    if calls == [] then s else Run(cfg, Step(cfg, s, calls[0]).1, calls[1..])
  }
}
