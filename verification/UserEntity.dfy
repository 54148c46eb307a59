/** The user aggregate: which records may exist, and what a patch does to one. */
module UserEntity {
  import opened Wrappers

  type Time = int
  type Digest = nat

  datatype Role = Admin | Worker | Client
  datatype ClientKind = Natural | Juridical

  datatype User = User(
    email: string,
    role: Role,
    clientKind: Option<ClientKind>,
    passwordHash: Digest,
    isActive: bool,
    failedLoginAttempts: int,
    lockedUntil: Option<Time>,
    forcePasswordChange: bool,
    lastLoginAt: Option<Time>,
    deletedAt: Option<Time>)

  /** A patch field that is None leaves the attribute as it was. */
  datatype UserPatch = UserPatch(
    passwordHash: Option<Digest> := None,
    clientKind: Option<Option<ClientKind>> := None,
    isActive: Option<bool> := None,
    failedLoginAttempts: Option<int> := None,
    lockedUntil: Option<Option<Time>> := None,
    forcePasswordChange: Option<bool> := None,
    deletedAt: Option<Option<Time>> := None)

  /** What the entity's constructor accepts; anything else throws. */
  predicate Valid(u: User) {
    && '@' in u.email
    && (u.deletedAt.Some? ==> !u.isActive)
    && u.failedLoginAttempts >= 0
    && (u.role != Client ==> u.clientKind.None?)
  }

  function Validated(u: User): Option<User> {
    if Valid(u) then Some(u) else None
  }

  function LowerChar(c: char): char {
    if 'A' <= c <= 'Z' then c - 'A' + 'a' else c
  }

  function Lower(s: string): string {
    if s == "" then "" else [LowerChar(s[0])] + Lower(s[1..])
  }

  function Trim(s: string): string {
    if s != "" && s[0] == ' ' then Trim(s[1..])
    else if s != "" && s[|s| - 1] == ' ' then Trim(s[..|s| - 1])
    else s
  }

  /** A new account as an accepted invitation makes it: active, unlocked, not archived. */
  function Create(email: string, role: Role, clientKind: Option<ClientKind>, passwordHash: Digest): Option<User> {
    Validated(User(Trim(Lower(email)), role, clientKind, passwordHash, true, 0, None, false, None, None))
  }

  function Patched<T>(change: Option<T>, was: T): T {
    if change.Some? then change.value else was
  }

  function Update(u: User, p: UserPatch): Option<User> {
    var deletedAt := Patched(p.deletedAt, u.deletedAt);
    var isActive := if deletedAt.Some? && p.isActive.None? then false else Patched(p.isActive, u.isActive);
    Validated(u.(
      passwordHash := Patched(p.passwordHash, u.passwordHash),
      clientKind := Patched(p.clientKind, u.clientKind),
      isActive := isActive,
      failedLoginAttempts := Patched(p.failedLoginAttempts, u.failedLoginAttempts),
      lockedUntil := Patched(p.lockedUntil, u.lockedUntil),
      forcePasswordChange := Patched(p.forcePasswordChange, u.forcePasswordChange),
      deletedAt := deletedAt))
  }

  /** What an accepted patch makes of a record: each attribute it names, and the others as they were, but that a record
      that ends up archived is inactive unless the patch says otherwise. */
  lemma UpdateIs(u: User, p: UserPatch)
    requires Update(u, p).Some?
    ensures var t := Update(u, p).value;
            && t.email == u.email && t.role == u.role && t.lastLoginAt == u.lastLoginAt
            && t.passwordHash == (if p.passwordHash.Some? then p.passwordHash.value else u.passwordHash)
            && t.clientKind == (if p.clientKind.Some? then p.clientKind.value else u.clientKind)
            && t.failedLoginAttempts
               == (if p.failedLoginAttempts.Some? then p.failedLoginAttempts.value else u.failedLoginAttempts)
            && t.lockedUntil == (if p.lockedUntil.Some? then p.lockedUntil.value else u.lockedUntil)
            && t.forcePasswordChange
               == (if p.forcePasswordChange.Some? then p.forcePasswordChange.value else u.forcePasswordChange)
            && t.deletedAt == (if p.deletedAt.Some? then p.deletedAt.value else u.deletedAt)
            && t.isActive == (if p.isActive.Some? then p.isActive.value else u.isActive && t.deletedAt.None?)
  {
  }

  /** A patch of a valid record is refused exactly when it activates, by name, an account that
      ends up archived, makes the failure counter negative, or gives staff a client kind. */
  lemma UpdateRefusedIff(u: User, p: UserPatch)
    requires Valid(u)
    ensures Update(u, p).None? <==>
            || (p.isActive == Some(true) && Patched(p.deletedAt, u.deletedAt).Some?)
            || (p.failedLoginAttempts.Some? && p.failedLoginAttempts.value < 0)
            || (u.role != Client && p.clientKind.Some? && p.clientKind.value.Some?)
    ensures Update(u, p).Some? ==> Valid(Update(u, p).value)
  {
  }
}
