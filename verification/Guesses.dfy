/** Every failed comparison with an account's password. The lockout counts those of logins; a wrong old password given
    for a change of the password is compared too, but neither counted nor refused while the account is locked. */
module Guesses {
  import opened Wrappers
  import opened UserEntity
  import opened Accounts
  import opened AccountInvariants
  import opened StepFrames
  import opened Windows
  import opened Lockout

  datatype Mark = WrongLogin | WrongOld | Cleared
  datatype Entry = Entry(at: Time, mark: Mark)

  /** What a call leaves in the account's log: a comparison that failed, or a success or new password that clears the
      counter. */
  ghost function MarkOf(s: State, c: Call, out: Outcome, u: UserId): seq<Entry> {
    match c.op
    case Login(email, passwordOk, _, _, _) =>
      if ByEmail(s.users, email) != Some(u) then []
      else if out.Granted? then [Entry(c.now, Cleared)]
      else if !passwordOk && Compares(s, u, c.now) then [Entry(c.now, WrongLogin)]
      else []
    case ChangePassword(v, oldOk, _) =>
      if v != u then []
      else if out.Done? then [Entry(c.now, Cleared)]
      else if !oldOk && Available(s.users, u) then [Entry(c.now, WrongOld)]
      else []
    case ResetPassword(r, _) =>
      if out.Done? && r in s.resets && s.resets[r].user == u then [Entry(c.now, Cleared)] else []
    case _ => []
  }

  /** Login gets as far as the comparison for an active account without a running lock. */
  predicate Compares(s: State, u: UserId, now: Time) {
    u in s.users && s.users[u].isActive && (s.users[u].lockedUntil.Some? ==> s.users[u].lockedUntil.value <= now)
  }

  ghost function Log(cfg: Config, s: State, calls: seq<Call>, u: UserId): seq<Entry>
    decreases |calls|
  {
    if calls == [] then []
    else
      var (out, t) := Step(cfg, s, calls[0]);
      MarkOf(s, calls[0], out, u) + Log(cfg, t, calls[1..], u)
  }

  /** Entries of one kind in the half-open window of this length from w. */
  function Count(log: seq<Entry>, mark: Mark, w: Time, length: nat): nat {
    if log == [] then 0
    else Count(log[1..], mark, w, length) + if log[0].mark == mark && w <= log[0].at < w + length then 1 else 0
  }

  /** Failed comparisons in the window, wherever they were made. */
  function WrongIn(log: seq<Entry>, w: Time, length: nat): nat {
    if log == [] then 0
    else WrongIn(log[1..], w, length) + if log[0].mark != Cleared && w <= log[0].at < w + length then 1 else 0
  }

  lemma {:induction false} WrongIsSum(log: seq<Entry>, w: Time, length: nat)
    ensures WrongIn(log, w, length) == Count(log, WrongLogin, w, length) + Count(log, WrongOld, w, length)
  {
    if log != [] { WrongIsSum(log[1..], w, length); }
  }

  lemma {:induction false} CountAfter(log: seq<Entry>, mark: Mark, w: Time, length: nat)
    requires forall i :: 0 <= i < |log| ==> log[i].at >= w + length
    ensures Count(log, mark, w, length) == 0
  {
    if log != [] { CountAfter(log[1..], mark, w, length); }
  }

  lemma CountSplit(first: seq<Entry>, rest: seq<Entry>, mark: Mark, w: Time, length: nat)
    requires |first| <= 1
    ensures Count(first + rest, mark, w, length) == Count(first, mark, w, length) + Count(rest, mark, w, length)
  {
    if first == [] {
      assert first + rest == rest;
    } else {
      assert (first + rest)[1..] == rest && first[1..] == [];
    }
  }

  // ---- The log and the counted failures ----

  /** The failures counted afterwards. */
  ghost function Failing(fs: seq<Time>, es: seq<Entry>): seq<Time> {
    if es == [] then fs
    else match es[0].mark
      case WrongLogin => fs + [es[0].at]
      case WrongOld => fs
      case Cleared => []
  }

  lemma LoginFollows(cfg: Config, s: State, c: Call, u: UserId)
    requires c.op.Login?
    ensures var (out, t) := Step(cfg, s, c);
            FailsOf(t, u) == Failing(FailsOf(s, u), MarkOf(s, c, out, u))
  {
    FoundIsStored(s.users, c.op.email);
    hide ByEmail;
  }

  lemma NewPasswordFails(s: State, u: UserId, digest: Digest, v: UserId)
    requires u in s.users
    ensures var (out, t) := NewPassword(s, u, digest);
            FailsOf(t, v) == if out.Done? && u == v then [] else FailsOf(s, v)
  {
    hide Update, UseResets, RevokeRows, OfUser;
  }

  lemma OthersFollow(cfg: Config, s: State, c: Call)
    requires !c.op.Login? && !c.op.ChangePassword? && !c.op.ResetPassword?
    ensures Step(cfg, s, c).1.fails == s.fails
  {
    var s1 := s.(clock := c.now);
    if c.op.SetActive? || c.op.SoftDelete? || c.op.Restore? || c.op.SetForcePasswordChange? {
      hide OpStep;
      AdminFrame(cfg, s1, c.op);
    } else if c.op.Refresh? {
      hide RevokeRows, OfFamily;
    } else if c.op.AcceptInvitation? {
      hide ByEmailIncludingDeleted, Create;
    } else {
      hide RevokeRows, OfFamily, OfUser, LiveFamilies, StaleTokens, StaleResets, Throttled, ByEmail;
    }
  }

  /** The history of counted failures follows the log; a wrong old password leaves it as it is. */
  lemma FailsFollow(cfg: Config, s: State, c: Call, u: UserId)
    requires ResetsOwned(s)
    ensures var (out, t) := Step(cfg, s, c);
            FailsOf(t, u) == Failing(FailsOf(s, u), MarkOf(s, c, out, u))
  {
    hide NewPassword, ByEmail, FailsOf;
    var s1 := s.(clock := c.now);
    assert FailsOf(s1, u) == FailsOf(s, u) by { SameFails(s, s1, u); }
    match c.op
    case Login(_, _, _, _, _) => LoginFollows(cfg, s, c, u);
    case ChangePassword(v, _, digest) => if v in s.users { NewPasswordFails(s1, v, digest, u); }
    case ResetPassword(r, digest) => if r in s.resets { NewPasswordFails(s1, s.resets[r].user, digest, u); }
    case _ =>
      OthersFollow(cfg, s, c);
      hide Step;
      SameFails(s, Step(cfg, s, c).1, u);
  }

  lemma SameFails(s: State, t: State, u: UserId)
    requires s.fails == t.fails
    ensures FailsOf(s, u) == FailsOf(t, u)
  {
  }

  lemma MarkShape(s: State, c: Call, out: Outcome, u: UserId)
    ensures var es := MarkOf(s, c, out, u);
            |es| <= 1 && (es != [] ==> es[0].at == c.now)
  {
    hide ByEmail;
  }

  lemma {:induction false} LogIsLater(cfg: Config, s: State, calls: seq<Call>, u: UserId)
    requires Inv(s) && LegalRun(cfg, s, calls)
    ensures forall i :: 0 <= i < |Log(cfg, s, calls, u)| ==> Log(cfg, s, calls, u)[i].at >= s.clock
    decreases |calls|
  {
    if calls != [] {
      hide Inv, Step, MarkOf, ResetsOwned;
      Next(cfg, s, calls[0]);
      MarkShape(s, calls[0], Step(cfg, s, calls[0]).0, u);
      LogIsLater(cfg, Step(cfg, s, calls[0]).1, calls[1..], u);
    }
  }

  lemma Next(cfg: Config, s: State, c: Call)
    requires Inv(s) && Legal(s, c)
    ensures ResetsOwned(s) && Inv(Step(cfg, s, c).1) && Step(cfg, s, c).1.clock == c.now >= s.clock
  {
    hide Step;
    StepKeeps(cfg, s, c);
    StepClock(cfg, s, c);
  }

  // ---- The bound ----

  lemma InWindowGrows(fs: seq<Time>, t: Time, w: Time, length: nat)
    ensures |InWindow(fs + [t], w, length)| == |InWindow(fs, w, length)| + if w <= t < w + length then 1 else 0
  {
    var more := if w <= t < w + length then {|fs|} else {};
    assert InWindow(fs + [t], w, length) == InWindow(fs, w, length) + more;
  }

  /** The counted failures of an account that may not exist yet. */
  ghost predicate Counted(cfg: Config, now: Time, fs: seq<Time>) {
    Spread(fs, cfg.maxAttempts, cfg.lockoutMs) && forall i :: 0 <= i < |fs| ==> fs[i] <= now
  }

  lemma LockInvCounts(cfg: Config, s: State, u: UserId)
    requires LockInv(cfg, s)
    ensures Counted(cfg, s.clock, FailsOf(s, u))
  {
    if u in s.users { assert AccountOk(cfg, s.clock, s.users[u], FailsOf(s, u)); }
  }

  /** One entry: what the window already holds of counted failures, with this entry, fits beside what comes later. */
  lemma OneEntry(cfg: Config, now: Time, fs: seq<Time>, es: seq<Entry>, w: Time, logins: nat, clears: nat)
    requires Counted(cfg, now, fs) && |es| <= 1 && (es != [] ==> now <= es[0].at)
    requires es != [] && es[0].at >= w + cfg.lockoutMs ==> logins == 0
    requires |InWindow(Failing(fs, es), w, cfg.lockoutMs)| + logins <= cfg.maxAttempts * (1 + clears)
    ensures |InWindow(fs, w, cfg.lockoutMs)| + Count(es, WrongLogin, w, cfg.lockoutMs) + logins
            <= cfg.maxAttempts * (1 + Count(es, Cleared, w, cfg.lockoutMs) + clears)
  {
    SpreadBoundsWindow(fs, cfg.maxAttempts, w, cfg.lockoutMs);
    if es != [] {
      assert es[1..] == [];
      match es[0].mark
      case WrongLogin => InWindowGrows(fs, es[0].at, w, cfg.lockoutMs);
      case WrongOld =>
      case Cleared =>
        if es[0].at < w {
          assert InWindow(fs, w, cfg.lockoutMs) == {};
        } else if es[0].at < w + cfg.lockoutMs {
          assert cfg.maxAttempts * (2 + clears) == cfg.maxAttempts * (1 + clears) + cfg.maxAttempts;
        } else {
          assert cfg.maxAttempts * (1 + clears) == cfg.maxAttempts + cfg.maxAttempts * clears;
        }
    }
  }

  lemma {:induction false} LoginsBound(cfg: Config, s: State, calls: seq<Call>, u: UserId, w: Time)
    requires cfg.Valid() && Inv(s) && LockInv(cfg, s) && LegalRun(cfg, s, calls)
    ensures var log := Log(cfg, s, calls, u);
            |InWindow(FailsOf(s, u), w, cfg.lockoutMs)| + Count(log, WrongLogin, w, cfg.lockoutMs)
            <= cfg.maxAttempts * (1 + Count(log, Cleared, w, cfg.lockoutMs))
    decreases |calls|
  {
    hide Inv, LockInv, Step, MarkOf, ResetsOwned, Counted, FailsOf, InWindow, Failing, Legal;
    LockInvCounts(cfg, s, u);
    if calls == [] {
      CountedBound(cfg, s.clock, FailsOf(s, u), w);
    } else {
      var c := calls[0];
      var (out, t) := Step(cfg, s, c);
      var es, rest := MarkOf(s, c, out, u), Log(cfg, t, calls[1..], u);
      Next(cfg, s, c);
      StepLockOk(cfg, s, c);
      FailsFollow(cfg, s, c, u);
      MarkShape(s, c, out, u);
      LoginsBound(cfg, t, calls[1..], u, w);
      LogIsLater(cfg, t, calls[1..], u);
      if c.now >= w + cfg.lockoutMs { CountAfter(rest, WrongLogin, w, cfg.lockoutMs); }
      OneEntry(cfg, s.clock, FailsOf(s, u), es, w,
               Count(rest, WrongLogin, w, cfg.lockoutMs), Count(rest, Cleared, w, cfg.lockoutMs));
      CountSplit(es, rest, WrongLogin, w, cfg.lockoutMs);
      CountSplit(es, rest, Cleared, w, cfg.lockoutMs);
    }
  }

  lemma CountedBound(cfg: Config, now: Time, fs: seq<Time>, w: Time)
    requires Counted(cfg, now, fs)
    ensures |InWindow(fs, w, cfg.lockoutMs)| <= cfg.maxAttempts
  {
    SpreadBoundsWindow(fs, cfg.maxAttempts, w, cfg.lockoutMs);
  }

  /** Over any run and for every account, a half-open window of the lockout's length holds at most maxAttempts failed
      comparisons of logins, once more for each clearing in the window, and beside them the wrong old
      passwords in it. */
  lemma GuessBound(cfg: Config, s: State, calls: seq<Call>, u: UserId, w: Time)
    requires cfg.Valid() && Initial(cfg, s) && LegalRun(cfg, s, calls)
    ensures var log := Log(cfg, s, calls, u);
            && Count(log, WrongLogin, w, cfg.lockoutMs) <= cfg.maxAttempts * (1 + Count(log, Cleared, w, cfg.lockoutMs))
            && WrongIn(log, w, cfg.lockoutMs)
               <= cfg.maxAttempts * (1 + Count(log, Cleared, w, cfg.lockoutMs)) + Count(log, WrongOld, w, cfg.lockoutMs)
  {
    InitialOk(cfg, s);
    InitialLockOk(cfg, s);
    LoginsBound(cfg, s, calls, u, w);
    WrongIsSum(Log(cfg, s, calls, u), w, cfg.lockoutMs);
  }

  // ---- The bound is sharp ----

  const EMAIL := "a@b"
  const GUESS := Call(0, Login(EMAIL, false, false, 0, 0))
  const GUESS_OLD := Call(0, ChangePassword(0, false, 0))
  const CHANGE := Call(0, ChangePassword(0, true, 0))

  /** One active account with so many counted failures, at time 0. */
  ghost predicate Lone(cfg: Config, s: State, k: nat) {
    && s.clock == 0 && s.issued == map[] && s.users.Keys == {0} && Valid(s.users[0])
    && s.users[0].email == EMAIL && s.users[0].isActive && s.users[0].deletedAt.None?
    && k <= cfg.maxAttempts && s.users[0].failedLoginAttempts == k
    && (k < cfg.maxAttempts ==> s.users[0].lockedUntil.None?)
  }

  lemma FindsLone(s: State)
    requires s.users.Keys == {0} && s.users[0].email == EMAIL && s.users[0].deletedAt.None?
    ensures ByEmail(s.users, EMAIL) == Some(0)
  {
    assert HasEmail(s.users, EMAIL, 0);
  }

  lemma Guessing(cfg: Config, s: State, k: nat)
    requires Lone(cfg, s, k) && k < cfg.maxAttempts
    ensures var (out, t) := Step(cfg, s, GUESS);
            Legal(s, GUESS) && MarkOf(s, GUESS, out, 0) == [Entry(0, WrongLogin)] && Lone(cfg, t, k + 1)
  {
    FindsLone(s);
    hide ByEmail;
  }

  lemma GuessingOld(cfg: Config, s: State, k: nat)
    requires Lone(cfg, s, k)
    ensures var (out, t) := Step(cfg, s, GUESS_OLD);
            Legal(s, GUESS_OLD) && MarkOf(s, GUESS_OLD, out, 0) == [Entry(0, WrongOld)] && Lone(cfg, t, k)
  {
  }

  lemma Changing(cfg: Config, s: State, k: nat)
    requires Lone(cfg, s, k)
    ensures var (out, t) := Step(cfg, s, CHANGE);
            Legal(s, CHANGE) && MarkOf(s, CHANGE, out, 0) == [Entry(0, Cleared)] && Lone(cfg, t, 0)
  {
  }

  /** From k counted failures: guesses until the account is locked, a change of the password, guesses again and so on,
      and at last wrong old passwords while it is locked, all at one instant. */
  lemma {:induction false} Guesser(cfg: Config, s: State, k: nat, olds: nat, clears: nat) returns (calls: seq<Call>)
    requires cfg.Valid() && Lone(cfg, s, k)
    ensures LegalRun(cfg, s, calls)
    ensures var log := Log(cfg, s, calls, 0);
            && Count(log, WrongLogin, 0, cfg.lockoutMs) == cfg.maxAttempts - k + cfg.maxAttempts * clears
            && Count(log, WrongOld, 0, cfg.lockoutMs) == olds && Count(log, Cleared, 0, cfg.lockoutMs) == clears
    decreases clears, cfg.maxAttempts - k, olds
  {
    hide Lone, Step, MarkOf, Legal;
    LoneShape(cfg, s, k);
    if k == cfg.maxAttempts && clears == 0 && olds == 0 {
      calls := [];
    } else {
      var c, e, rest;
      if k < cfg.maxAttempts {
        Guessing(cfg, s, k);
        c, e := GUESS, Entry(0, WrongLogin);
        rest := Guesser(cfg, Step(cfg, s, GUESS).1, k + 1, olds, clears);
      } else if clears > 0 {
        Changing(cfg, s, k);
        c, e := CHANGE, Entry(0, Cleared);
        rest := Guesser(cfg, Step(cfg, s, CHANGE).1, 0, olds, clears - 1);
        assert cfg.maxAttempts * clears == cfg.maxAttempts + cfg.maxAttempts * (clears - 1);
      } else {
        GuessingOld(cfg, s, k);
        c, e := GUESS_OLD, Entry(0, WrongOld);
        rest := Guesser(cfg, Step(cfg, s, GUESS_OLD).1, k, olds - 1, clears);
      }
      calls := [c] + rest;
      assert calls[1..] == rest;
      var log, later := Log(cfg, s, calls, 0), Log(cfg, Step(cfg, s, c).1, rest, 0);
      assert log == [e] + later && log[1..] == later;
    }
  }

  lemma LoneShape(cfg: Config, s: State, k: nat)
    requires Lone(cfg, s, k)
    ensures k <= cfg.maxAttempts
  {
  }

  ghost function Alone(): State {
    State(0, map[0 := User(EMAIL, Admin, None, 0, true, 0, None, false, None, None)], map[], map[], [], map[], {},
          map[])
  }

  lemma AloneStarts(cfg: Config)
    requires cfg.Valid()
    ensures Initial(cfg, Alone()) && Lone(cfg, Alone(), 0)
  {
    assert EMAIL[1] == '@';
  }

  /** No more than n failed comparisons in any window with so many wrong old passwords and clearings. */
  ghost predicate Limits(cfg: Config, olds: nat, clears: nat, n: nat) {
    forall s, calls, u, w: Time :: Within(cfg, s, calls, u, w, olds, clears) ==>
      WrongIn(Log(cfg, s, calls, u), w, cfg.lockoutMs) <= n
  }

  ghost predicate Within(cfg: Config, s: State, calls: seq<Call>, u: UserId, w: Time, olds: nat, clears: nat) {
    && Initial(cfg, s) && LegalRun(cfg, s, calls)
    && Count(Log(cfg, s, calls, u), WrongOld, w, cfg.lockoutMs) <= olds
    && Count(Log(cfg, s, calls, u), Cleared, w, cfg.lockoutMs) <= clears
  }

  lemma LimitsHold(cfg: Config, olds: nat, clears: nat, n: nat)
    requires cfg.Valid() && n >= cfg.maxAttempts * (1 + clears) + olds
    ensures Limits(cfg, olds, clears, n)
  {
    hide Initial, LegalRun, Log, Count, WrongIn, Config.Valid;
    forall s, calls, u, w: Time | Within(cfg, s, calls, u, w, olds, clears)
      ensures WrongIn(Log(cfg, s, calls, u), w, cfg.lockoutMs) <= n
    {
      GuessBound(cfg, s, calls, u, w);
      ClearsGrow(cfg.maxAttempts, Count(Log(cfg, s, calls, u), Cleared, w, cfg.lockoutMs), clears);
    }
  }

  lemma ClearsGrow(m: nat, a: nat, b: nat)
    requires a <= b
    ensures m * (1 + a) <= m * (1 + b)
  {
  }

  /** A legal run that fills the bound: more than the lockout allows as soon as one wrong old password is given. */
  lemma BoundReached(cfg: Config, olds: nat, clears: nat) returns (calls: seq<Call>)
    requires cfg.Valid()
    ensures Within(cfg, Alone(), calls, 0, 0, olds, clears)
    ensures WrongIn(Log(cfg, Alone(), calls, 0), 0, cfg.lockoutMs) == cfg.maxAttempts * (1 + clears) + olds
  {
    hide Initial, LegalRun, Log, Count, WrongIn, Alone, Lone;
    AloneStarts(cfg);
    calls := Guesser(cfg, Alone(), 0, olds, clears);
    WrongIsSum(Log(cfg, Alone(), calls, 0), 0, cfg.lockoutMs);
    assert cfg.maxAttempts * (1 + clears) == cfg.maxAttempts + cfg.maxAttempts * clears;
  }

  /** How many failed comparisons a window can hold, exactly: maxAttempts for each span between clearings, and every
      wrong old password beside them. */
  lemma GuessLimitIff(cfg: Config, olds: nat, clears: nat, n: nat)
    requires cfg.Valid()
    ensures Limits(cfg, olds, clears, n) <==> n >= cfg.maxAttempts * (1 + clears) + olds
  {
    hide Within, Log, WrongIn, Config.Valid;
    if n >= cfg.maxAttempts * (1 + clears) + olds {
      LimitsHold(cfg, olds, clears, n);
    } else {
      var calls := BoundReached(cfg, olds, clears);
      assert Within(cfg, Alone(), calls, 0, 0, olds, clears);
    }
  }
}
