/** The cache in front of JWT verification. Under one key and one expected issuer it must be invisible: every request
    gets the answer that verifying the token then and there would give. */
module TokenCache {
  import opened Wrappers

  type Token = string
  /** Milliseconds. */
  type Time = nat

  const MAX_TOKEN_CACHE_SIZE := 1000
  const MAX_TOKEN_CACHE_TTL_MS := 60_000

  /** Claims; exp is in seconds and may be missing or fractional. */
  datatype Payload = Payload(sub: string, userId: string, role: string, email: string, exp: Option<real>,
                             iss: Option<string>)

  datatype Rejection = Malformed | Expired | WrongIssuer | BadSignature
  datatype Answer = Accepted(payload: Payload) | Rejected(why: Rejection)

  /** What stays fixed: decoding the claims of a token, whether the configured key signed it, the expected issuer. */
  datatype Verifier = Verifier(decode: Token -> Option<Payload>, signed: Token -> bool, issuer: Option<string>)

  function IndexOf(s: string, c: char): (i: nat)
    ensures i <= |s| && (i < |s| ==> s[i] == c) && forall k :: 0 <= k < i ==> s[k] != c
  {
    if s == "" || s[0] == c then 0 else 1 + IndexOf(s[1..], c)
  }

  function Split(s: string): seq<string>
    decreases |s|
  {
    var i := IndexOf(s, '.');
    if i == |s| then [s] else [s[..i]] + Split(s[i + 1..])
  }

  predicate ThreeParts(token: Token) {
    var parts := Split(token);
    |parts| >= 3 && parts[0] != "" && parts[1] != "" && parts[2] != ""
  }

  predicate IsExpired(payload: Payload, now: Time) {
    payload.exp.Some? && payload.exp.value != 0.0 && payload.exp.value < (now / 1000) as real
  }

  predicate IssuerOk(v: Verifier, payload: Payload) {
    v.issuer.None? || v.issuer.value == "" || payload.iss == v.issuer
  }

  /** Verification with no cache, in the order of its checks. */
  function Direct(v: Verifier, token: Token, now: Time): Answer {
    if !ThreeParts(token) || v.decode(token).None? then Rejected(Malformed)
    else
      var payload := v.decode(token).value;
      if IsExpired(payload, now) then Rejected(Expired)
      else if !IssuerOk(v, payload) then Rejected(WrongIssuer)
      else if !v.signed(token) then Rejected(BadSignature)
      else Accepted(payload)
  }

  /** The part of the verdict that does not depend on the time. */
  predicate Genuine(v: Verifier, token: Token, payload: Payload) {
    ThreeParts(token) && v.decode(token) == Some(payload) && IssuerOk(v, payload) && v.signed(token)
  }

  // ---- The cache ----

  datatype Entry = Entry(payload: Payload, expiresAt: real)

  /** A JavaScript map: its keys in insertion order, and what they map to. */
  datatype Cache = Cache(order: seq<Token>, entries: map<Token, Entry>)
  const EMPTY := Cache([], map[])

  /** Where a key first stands. */
  function Place(order: seq<Token>, token: Token): (i: nat)
    ensures i <= |order| && (token in order <==> i < |order|)
    ensures (i < |order| ==> order[i] == token) && forall k :: 0 <= k < i ==> order[k] != token
  {
    if order == [] || order[0] == token then 0 else 1 + Place(order[1..], token)
  }

  function Without(order: seq<Token>, token: Token): seq<Token> {
    var i := Place(order, token);
    if i == |order| then order else order[..i] + order[i + 1..]
  }

  function Delete(c: Cache, token: Token): Cache {
    if token in c.entries then Cache(Without(c.order, token), c.entries - {token}) else c
  }

  /** Setting a key that is present keeps its place. */
  function Set(c: Cache, token: Token, e: Entry): Cache {
    Cache(if token in c.entries then c.order else c.order + [token], c.entries[token := e])
  }

  function Get(c: Cache, token: Token, now: Time): (Cache, Option<Payload>) {
    if token !in c.entries then (c, None)
    else if now as real > c.entries[token].expiresAt then (Delete(c, token), None)
    else (c, Some(c.entries[token].payload))
  }

  function Clamp(left: real): (r: real)
    ensures 0.0 <= r <= MAX_TOKEN_CACHE_TTL_MS as real && (r > 0.0 ==> r <= left)
  {
    var positive := if left > 0.0 then left else 0.0;
    if positive < MAX_TOKEN_CACHE_TTL_MS as real then positive else MAX_TOKEN_CACHE_TTL_MS as real
  }

  function TtlMs(payload: Payload, now: Time): (ttl: real)
    ensures 0.0 <= ttl <= MAX_TOKEN_CACHE_TTL_MS as real
    ensures ttl > 0.0 ==> payload.exp.Some? && now as real + ttl <= payload.exp.value * 1000.0
  {
    Clamp((if payload.exp.Some? then payload.exp.value else 0.0) * 1000.0 - now as real)
  }

  /** A full cache drops its oldest key first, unless that key is the empty string. */
  function Evict(c: Cache): Cache {
    if |c.entries| >= MAX_TOKEN_CACHE_SIZE && c.order != [] && c.order[0] != "" then Delete(c, c.order[0]) else c
  }

  function Put(c: Cache, token: Token, payload: Payload, now: Time): Cache {
    var ttl := TtlMs(payload, now);
    if ttl > 0.0 then Set(Evict(c), token, Entry(payload, now as real + ttl)) else Evict(c)
  }

  // ---- Requests ----

  /** A verification that missed the cache stores its result later, when its signature check is done. */
  datatype Step = Verify(token: Token) | Finish(token: Token) | Invalidate(token: Token)
  datatype Event = Event(now: Time, step: Step)

  /** inFlight: verifications past their checks and not stored yet; storedAt: when a token was last stored. */
  datatype State = State(cache: Cache, inFlight: multiset<Token>, storedAt: map<Token, Time>)
  const START := State(EMPTY, multiset{}, map[])

  predicate Enabled(s: State, e: Event) {
    e.step.Finish? ==> e.step.token in s.inFlight
  }

  /** What verifying through the cache answers. */
  function Cached(v: Verifier, c: Cache, token: Token, now: Time): Answer {
    var hit := Get(c, token, now).1;
    if hit.Some? then Accepted(hit.value) else Direct(v, token, now)
  }

  function Do(v: Verifier, s: State, e: Event): State {
    match e.step
    case Verify(t) =>
      var (c, hit) := Get(s.cache, t, e.now);
      State(c, if hit.None? && Direct(v, t, e.now).Accepted? then s.inFlight + multiset{t} else s.inFlight, s.storedAt)
    case Finish(t) =>
      if v.decode(t).None? then s
      else
        var payload := v.decode(t).value;
        State(Put(s.cache, t, payload, e.now), s.inFlight - multiset{t},
              if TtlMs(payload, e.now) > 0.0 then s.storedAt[t := e.now] else s.storedAt)
    case Invalidate(t) => s.(cache := Delete(s.cache, t))
  }

  ghost predicate LegalRun(v: Verifier, s: State, es: seq<Event>)
    decreases |es|
  {
    es == [] || (Enabled(s, es[0]) && LegalRun(v, Do(v, s, es[0]), es[1..]))
  }

  ghost function Run(v: Verifier, s: State, es: seq<Event>): State
    decreases |es|
  {
    if es == [] then s else Run(v, Do(v, s, es[0]), es[1..])
  }

  /** The answers of a run through the cache, and without it. */
  ghost function Answers(v: Verifier, s: State, es: seq<Event>): seq<Answer>
    decreases |es|
  {
    if es == [] then []
    else
      var first := if es[0].step.Verify? then [Cached(v, s.cache, es[0].step.token, es[0].now)] else [];
      first + Answers(v, Do(v, s, es[0]), es[1..])
  }

  function DirectAnswers(v: Verifier, es: seq<Event>): seq<Answer>
    decreases |es|
  {
    if es == [] then []
    else (if es[0].step.Verify? then [Direct(v, es[0].step.token, es[0].now)] else []) + DirectAnswers(v, es[1..])
  }

  // ---- The cache is invisible ----

  ghost predicate Distinct(order: seq<Token>) {
    forall i, j :: 0 <= i < j < |order| ==> order[i] != order[j]
  }

  ghost predicate Keyed(c: Cache) {
    && Distinct(c.order)
    && (forall t :: t in c.entries <==> t in c.order)
    && |c.order| <= MAX_TOKEN_CACHE_SIZE
  }

  ghost predicate EntryOk(v: Verifier, t: Token, e: Entry, storedAt: map<Token, Time>) {
    && Genuine(v, t, e.payload)
    && e.payload.exp.Some? && e.expiresAt <= e.payload.exp.value * 1000.0
    && t in storedAt && storedAt[t] as real <= e.expiresAt <= storedAt[t] as real + MAX_TOKEN_CACHE_TTL_MS as real
  }

  ghost predicate Inv(v: Verifier, s: State) {
    && Keyed(s.cache)
    && (forall t :: t in s.cache.entries ==> EntryOk(v, t, s.cache.entries[t], s.storedAt))
    && (forall t :: t in s.inFlight ==> v.decode(t).Some? && Genuine(v, t, v.decode(t).value))
  }

  lemma {:induction false} KeyCount(keys: set<Token>, order: seq<Token>)
    requires Distinct(order)
    requires forall t :: t in keys <==> t in order
    ensures |keys| == |order|
  {
    if order == [] {
      assert keys == {};
    } else {
      assert forall t :: t in order[1..] ==> t != order[0];
      forall t ensures t in keys - {order[0]} <==> t in order[1..] {
        if t in order { assert t == order[0] || t in order[1..]; }
      }
      KeyCount(keys - {order[0]}, order[1..]);
    }
  }

  lemma DeleteKeeps(c: Cache, token: Token)
    requires Keyed(c)
    ensures Keyed(Delete(c, token)) && Delete(c, token).entries == c.entries - {token}
    ensures token in c.entries ==> |Delete(c, token).order| == |c.order| - 1
  {
  }

  lemma EvictMakesRoom(c: Cache)
    requires Keyed(c) && "" !in c.entries
    ensures Keyed(Evict(c)) && |Evict(c).order| < MAX_TOKEN_CACHE_SIZE
    ensures forall t :: t in Evict(c).entries ==> t in c.entries && Evict(c).entries[t] == c.entries[t]
  {
    KeyCount(c.entries.Keys, c.order);
    if |c.entries| >= MAX_TOKEN_CACHE_SIZE {
      assert c.order[0] in c.entries;
      DeleteKeeps(c, c.order[0]);
    }
  }

  lemma NoEmptyKey(v: Verifier, s: State)
    requires Inv(v, s)
    ensures "" !in s.cache.entries
  {
  }

  lemma SetKeeps(c: Cache, token: Token, e: Entry)
    requires Keyed(c) && |c.order| < MAX_TOKEN_CACHE_SIZE
    ensures Keyed(Set(c, token, e))
  {
  }

  lemma PutKeeps(v: Verifier, s: State, e: Event)
    requires Inv(v, s) && Enabled(s, e) && e.step.Finish?
    ensures Inv(v, Do(v, s, e))
  {
    hide Evict, Direct, Keyed, Genuine, TtlMs, Get;
    NoEmptyKey(v, s);
    EvictMakesRoom(s.cache);
    var t, u := e.step.token, Do(v, s, e);
    var payload := v.decode(t).value;
    var c := Evict(s.cache);
    var ttl := TtlMs(payload, e.now);
    var entry := Entry(payload, e.now as real + ttl);
    SetKeeps(c, t, entry);
    assert u.cache == if ttl > 0.0 then Set(c, t, entry) else c;
    forall x | x in u.cache.entries ensures EntryOk(v, x, u.cache.entries[x], u.storedAt) {
      if x in c.entries { assert EntryOk(v, x, s.cache.entries[x], s.storedAt); }
    }
    assert forall x :: x in u.inFlight ==> x in s.inFlight;
  }

  lemma DoKeeps(v: Verifier, s: State, e: Event)
    requires Inv(v, s) && Enabled(s, e)
    ensures Inv(v, Do(v, s, e))
  {
    if e.step.Finish? {
      PutKeeps(v, s, e);
    } else {
      DeleteKeeps(s.cache, e.step.token);
      var u := Do(v, s, e);
      forall x | x in u.cache.entries ensures EntryOk(v, x, u.cache.entries[x], u.storedAt) {
        assert EntryOk(v, x, s.cache.entries[x], s.storedAt);
      }
    }
  }

  /** A token served from the cache at some instant is one that verifying it at that instant would accept, with the same
      claims: its remaining life in the cache never outlasts exp, rounding of the clock included. */
  lemma HitIsDirect(v: Verifier, s: State, token: Token, now: Time)
    requires Inv(v, s)
    ensures Cached(v, s.cache, token, now) == Direct(v, token, now)
    ensures Get(s.cache, token, now).1.Some? ==>
              token in s.storedAt && now <= s.storedAt[token] + MAX_TOKEN_CACHE_TTL_MS
  {
  }

  /** Over any run, at any times in any order, with verifications in flight, evictions and invalidations: the answers
      are those of verifying with no cache, and the cache never holds more than its size. */
  lemma {:induction false} CacheIsInvisible(v: Verifier, s: State, es: seq<Event>)
    requires Inv(v, s) && LegalRun(v, s, es)
    ensures Answers(v, s, es) == DirectAnswers(v, es)
    ensures Inv(v, Run(v, s, es)) && |Run(v, s, es).cache.entries| <= 1000
    decreases |es|
  {
    if es == [] {
      KeyCount(s.cache.entries.Keys, s.cache.order);
    } else {
      DoKeeps(v, s, es[0]);
      if es[0].step.Verify? { HitIsDirect(v, s, es[0].step.token, es[0].now); }
      CacheIsInvisible(v, Do(v, s, es[0]), es[1..]);
    }
  }

  lemma StartOk(v: Verifier)
    ensures Inv(v, START)
  {
  }

  // ---- What the answers are ----

  /** The token starts with three parts, none of them empty, with dots between and nothing or a dot behind. */
  ghost predicate LeadingParts(token: Token, a: string, b: string, c: string, rest: string) {
    && a != "" && b != "" && c != "" && '.' !in a && '.' !in b && '.' !in c
    && (rest == "" || rest[0] == '.') && token == a + "." + b + "." + c + rest
  }

  ghost predicate IsJwt(token: Token) { exists a, b, c, rest :: LeadingParts(token, a, b, c, rest) }

  lemma SplitFirst(s: string, a: string, rest: string)
    requires '.' !in a && s == a + rest && (rest == "" || rest[0] == '.')
    ensures Split(s) == [a] + if rest == "" then [] else Split(rest[1..])
  {
    var i := IndexOf(s, '.');
    assert forall k :: 0 <= k < |a| ==> s[k] == a[k] && a[k] in a;
    assert rest != "" ==> s[|a|] == rest[0];
    assert i == |a| && s[..i] == a;
    if rest == "" { assert s == a; }
    if rest != "" { assert s[i + 1..] == rest[1..]; }
  }

  lemma PartsSplit(token: Token, a: string, b: string, c: string, rest: string)
    requires LeadingParts(token, a, b, c, rest)
    ensures ThreeParts(token)
  {
    hide Split;
    var third := c + rest;
    var second := b + ("." + third);
    Regrouped(a, b, c, rest);
    AfterDot(second);
    AfterDot(third);
    SplitFirst(token, a, "." + second);
    SplitFirst(second, b, "." + third);
    SplitFirst(third, c, rest);
  }

  lemma Regrouped(a: string, b: string, c: string, rest: string)
    ensures a + "." + b + "." + c + rest == a + ("." + (b + ("." + (c + rest))))
  {
    assert a + "." + b + "." + c + rest == a + "." + b + "." + (c + rest);
    assert a + "." + b + "." + (c + rest) == a + "." + (b + ("." + (c + rest)));
  }

  lemma AfterDot(s: string)
    ensures ("." + s)[1..] == s && ("." + s)[0] == '.'
  {
  }

  lemma SplitParts(token: Token) returns (a: string, b: string, c: string, rest: string)
    requires ThreeParts(token)
    ensures LeadingParts(token, a, b, c, rest)
  {
    hide Split;
    var s1, s2;
    a, s1 := FirstPart(token);
    b, s2 := FirstPart(s1[1..]);
    c, rest := FirstPart(s2[1..]);
    assert s1 == "." + s1[1..] && s2 == "." + s2[1..];
    Joined(token, a, s1[1..], b, s2[1..], c, rest);
  }

  lemma Joined(token: Token, a: string, s1: string, b: string, s2: string, c: string, rest: string)
    requires token == a + ("." + s1) && s1 == b + ("." + s2) && s2 == c + rest
    ensures token == a + "." + b + "." + c + rest
  {
  }

  /** Three leading parts as the split sees them are three leading parts of the text. */
  lemma PartsIff(token: Token)
    ensures ThreeParts(token) <==> IsJwt(token)
  {
    hide ThreeParts, LeadingParts;
    if a, b, c, rest :| LeadingParts(token, a, b, c, rest) { PartsSplit(token, a, b, c, rest); }
    if ThreeParts(token) { var a, b, c, rest := SplitParts(token); }
  }

  lemma FirstPart(s: string) returns (a: string, rest: string)
    ensures '.' !in a && s == a + rest && (rest == "" || rest[0] == '.')
    ensures Split(s) == [a] + if rest == "" then [] else Split(rest[1..])
  {
    var i := IndexOf(s, '.');
    a, rest := s[..i], s[i..];
    SplitFirst(s, a, rest);
  }

  /** The claims have an expiry other than 0 that lies before the current second. */
  ghost predicate PastExpiry(p: Payload, now: Time) {
    p.exp.Some? && p.exp.value != 0.0 && p.exp.value < (now / 1000) as real
  }

  /** An issuer is expected, and the claims name another one or none. */
  ghost predicate ForeignIssuer(v: Verifier, p: Payload) {
    v.issuer.Some? && v.issuer.value != "" && (p.iss.None? || p.iss.value != v.issuer.value)
  }

  /** When each answer is the right one. */
  ghost predicate Right(v: Verifier, token: Token, now: Time, answer: Answer) {
    var sound := IsJwt(token) && v.decode(token).Some?;
    match answer
    case Rejected(Malformed) => !sound
    case Rejected(Expired) => sound && PastExpiry(v.decode(token).value, now)
    case Rejected(WrongIssuer) =>
      sound && !PastExpiry(v.decode(token).value, now) && ForeignIssuer(v, v.decode(token).value)
    case Rejected(BadSignature) =>
      && sound && !PastExpiry(v.decode(token).value, now) && !ForeignIssuer(v, v.decode(token).value)
      && !v.signed(token)
    case Accepted(p) =>
      && sound && v.decode(token) == Some(p) && v.signed(token)
      && (p.exp.None? || p.exp.value == 0.0 || p.exp.value >= (now / 1000) as real)
      && (v.issuer.None? || v.issuer.value == "" || p.iss == v.issuer)
  }

  /** Exactly one answer is right, and verification with no cache gives it. */
  lemma DirectIsRight(v: Verifier, token: Token, now: Time, answer: Answer)
    ensures Right(v, token, now, answer) <==> answer == Direct(v, token, now)
  {
    PartsIff(token);
    hide IsJwt, ThreeParts;
  }

  /** The verifications of a run. */
  ghost function Verifications(es: seq<Event>): seq<Event> {
    if es == [] then [] else (if es[0].step.Verify? then [es[0]] else []) + Verifications(es[1..])
  }

  lemma {:induction false} DirectAnswersAreRight(v: Verifier, es: seq<Event>)
    ensures var qs, answers := Verifications(es), DirectAnswers(v, es);
            && |answers| == |qs|
            && forall i :: 0 <= i < |qs| ==> qs[i].step.Verify? && Right(v, qs[i].step.token, qs[i].now, answers[i])
  {
    hide Right, Direct;
    if es != [] {
      DirectAnswersAreRight(v, es[1..]);
      if es[0].step.Verify? { DirectIsRight(v, es[0].step.token, es[0].now, Direct(v, es[0].step.token, es[0].now)); }
    }
  }

  /** Over any run from an empty cache every verification gets the one right answer. */
  lemma AnswersAreRight(v: Verifier, es: seq<Event>)
    requires LegalRun(v, START, es)
    ensures var qs, answers := Verifications(es), Answers(v, START, es);
            && |answers| == |qs|
            && forall i :: 0 <= i < |qs| ==> qs[i].step.Verify? && Right(v, qs[i].step.token, qs[i].now, answers[i])
  {
    StartOk(v);
    CacheIsInvisible(v, START, es);
    DirectAnswersAreRight(v, es);
  }

  /** Claims that were stored are served until they expire, for a minute at the most, and not a moment longer. */
  lemma ServedExactly(c: Cache, token: Token, p: Payload, now: Time, later: Time)
    requires now <= later && p.exp.Some? && p.exp.value * 1000.0 > now as real
    ensures var hit := Get(Put(c, token, p, now), token, later).1;
            if later as real <= p.exp.value * 1000.0 && later <= now + 60_000 then hit == Some(p) else hit == None
  {
    hide Evict;
  }

  // ---- First in, first out ----

  /** How many keys were inserted after this one. */
  function Behind(order: seq<Token>, token: Token): nat
    requires token in order
  {
    |order| - 1 - Place(order, token)
  }

  lemma BehindWithout(order: seq<Token>, token: Token, gone: Token)
    requires token in order && gone != token && Distinct(order)
    ensures token in Without(order, gone) && Behind(Without(order, gone), token) <= Behind(order, token)
  {
    var r, k, i := Without(order, gone), Place(order, token), Place(order, gone);
    if gone in order { assert r[if k < i then k else k - 1] == token; }
  }

  lemma BehindAppend(order: seq<Token>, token: Token, more: Token)
    requires token in order
    ensures token in order + [more] && Behind(order + [more], token) == Behind(order, token) + 1
  {
    assert (order + [more])[Place(order, token)] == token;
  }

  /** The event cannot remove this token by name: it neither invalidates it nor finds it expired. */
  ghost predicate Spares(s: State, e: Event, token: Token) {
    match e.step
    case Verify(t) => t == token ==> t in s.cache.entries && e.now as real <= s.cache.entries[t].expiresAt
    case Finish(t) => t != token
    case Invalidate(t) => t != token
  }

  ghost predicate SparedRun(v: Verifier, s: State, es: seq<Event>, token: Token)
    decreases |es|
  {
    es == [] || (Spares(s, es[0], token) && SparedRun(v, Do(v, s, es[0]), es[1..], token))
  }

  function Finishes(es: seq<Event>): nat {
    if es == [] then 0 else (if es[0].step.Finish? then 1 else 0) + Finishes(es[1..])
  }

  lemma PutSpares(c: Cache, other: Token, payload: Payload, now: Time, token: Token)
    requires Keyed(c) && "" !in c.entries && token in c.entries && other != token
    requires Behind(c.order, token) + 1 < MAX_TOKEN_CACHE_SIZE
    ensures var d := Put(c, other, payload, now);
            && token in d.entries && d.entries[token] == c.entries[token]
            && token in d.order && Behind(d.order, token) <= Behind(c.order, token) + 1
  {
    EvictMakesRoom(c);
    KeyCount(c.entries.Keys, c.order);
    var f := Evict(c);
    if f != c {
      assert c.order[0] != token;
      BehindWithout(c.order, token, c.order[0]);
    }
    if other !in f.entries { BehindAppend(f.order, token, other); }
  }

  /** A token stays cached, with its claims and expiry, through any run that does not remove it by name and stores fewer
      than a thousand results, counting those stored after it before the run: the oldest goes first. */
  lemma {:induction false} OldestGoesFirst(v: Verifier, s: State, es: seq<Event>, token: Token)
    requires Inv(v, s) && LegalRun(v, s, es) && SparedRun(v, s, es, token) && token in s.cache.entries
    requires Behind(s.cache.order, token) + Finishes(es) < MAX_TOKEN_CACHE_SIZE
    ensures var d := Run(v, s, es).cache; token in d.entries && d.entries[token] == s.cache.entries[token]
    decreases |es|
  {
    if es != [] {
      hide Inv, Do, Behind, Spares;
      DoKeeps(v, s, es[0]);
      EventSpares(v, s, es[0], token);
      OldestGoesFirst(v, Do(v, s, es[0]), es[1..], token);
    }
  }

  lemma EventSpares(v: Verifier, s: State, e: Event, token: Token)
    requires Inv(v, s) && Enabled(s, e) && Spares(s, e, token) && token in s.cache.entries
    requires Behind(s.cache.order, token) + (if e.step.Finish? then 1 else 0) < MAX_TOKEN_CACHE_SIZE
    ensures var c, d := s.cache, Do(v, s, e).cache;
            && token in d.entries && d.entries[token] == c.entries[token]
            && token in d.order && Behind(d.order, token) <= Behind(c.order, token) + if e.step.Finish? then 1 else 0
  {
    hide Behind, Put, Direct, EntryOk;
    if e.step.Finish? {
      NoEmptyKey(v, s);
      PutSpares(s.cache, e.step.token, v.decode(e.step.token).value, e.now, token);
    } else if e.step.token != token {
      DeleteKeeps(s.cache, e.step.token);
      BehindWithout(s.cache.order, token, e.step.token);
    }
  }

  // ---- The module's state and functions ----

  class TokenVerificationCache {
    var order: seq<Token>
    var entries: map<Token, Entry>

    constructor ()
      ensures Contents() == EMPTY
    {
      order, entries := [], map[];
    }

    ghost function Contents(): Cache
      reads this
    {
      Cache(order, entries)
    }

    method Remove(token: Token)
      modifies this
      ensures Contents() == Delete(old(Contents()), token)
    {
      if token in entries {
        order, entries := Without(order, token), entries - {token};
      }
    }

    method GetCachedVerifiedPayload(token: Token, now: Time) returns (hit: Option<Payload>)
      modifies this
      ensures (Contents(), hit) == Get(old(Contents()), token, now)
    {
      if token !in entries { return None; }
      var cached := entries[token];
      if now as real > cached.expiresAt {
        Remove(token);
        return None;
      }
      hit := Some(cached.payload);
    }

    method SetCachedVerifiedPayload(token: Token, payload: Payload, now: Time)
      modifies this
      ensures Contents() == Put(old(Contents()), token, payload, now)
    {
      if |entries| >= MAX_TOKEN_CACHE_SIZE && order != [] {
        var firstKey := order[0];
        if firstKey != "" { Remove(firstKey); }
      }
      var expMs := (if payload.exp.Some? then payload.exp.value else 0.0) * 1000.0;
      var ttlMs := Clamp(expMs - now as real);
      if ttlMs > 0.0 {
        if token !in entries { order := order + [token]; }
        entries := entries[token := Entry(payload, now as real + ttlMs)];
      }
    }

    /** One verification with no other request between its check and its store, at now and later. The answer is that of
        verifying with no cache whenever the contents are those of a run. */
    method VerifyRs256(v: Verifier, token: Token, now: Time, later: Time) returns (answer: Answer)
      modifies this
      ensures answer == Cached(v, old(Contents()), token, now)
      ensures var s := State(old(Contents()), multiset{}, map[]);
              Contents() == if answer.Accepted? && Get(old(Contents()), token, now).1.None?
                            then Do(v, Do(v, s, Event(now, Verify(token))), Event(later, Finish(token))).cache
                            else Do(v, s, Event(now, Verify(token))).cache
      ensures forall s: State, other: Answer :: s.cache == old(Contents()) && Inv(v, s) ==>
                (Right(v, token, now, other) <==> other == answer)
    {
      ghost var was := Contents();
      forall s: State, other: Answer | s.cache == was && Inv(v, s)
        ensures Right(v, token, now, other) <==> other == Cached(v, was, token, now)
      {
        HitIsDirect(v, s, token, now);
        DirectIsRight(v, token, now, other);
      }
      hide Right;
      var cached := GetCachedVerifiedPayload(token, now);
      if cached.Some? { return Accepted(cached.value); }
      if !ThreeParts(token) { return Rejected(Malformed); }
      var decoded := v.decode(token);
      if decoded.None? { return Rejected(Malformed); }
      var payload := decoded.value;
      if payload.exp.Some? && payload.exp.value != 0.0
          && payload.exp.value < (now / 1000) as real { return Rejected(Expired); }
      if v.issuer.Some? && v.issuer.value != "" && payload.iss != v.issuer { return Rejected(WrongIssuer); }
      if !v.signed(token) { return Rejected(BadSignature); }
      SetCachedVerifiedPayload(token, payload, later);
      answer := Accepted(payload);
    }

    method InvalidateTokenCache(token: Token)
      modifies this
      ensures Contents() == Delete(old(Contents()), token)
    {
      Remove(token);
    }
  }
}
