/** Who is online: the conditional heartbeat write, the ranked and paged administrator view. */
module Presence {
  import opened Wrappers
  import opened UserEntity
  import opened Accounts
  import opened LikeSearch

  const ONLINE_MS := 150_000
  const WRITE_COOLDOWN_MS := 45_000
  const HISTORY_MS := 7 * 86_400_000
  const PAGE_SIZE := 10

  type Seen = map<UserId, Time>

  // ---- Heartbeats ----

  predicate HasLiveSession(tokens: map<TokenHash, TokenRow>, u: UserId, now: Time) {
    exists h :: h in tokens && tokens[h].user == u && !tokens[h].revoked && tokens[h].expiresAt > now
  }

  predicate Eligible(users: map<UserId, User>, tokens: map<TokenHash, TokenRow>, u: UserId, now: Time) {
    Available(users, u) && HasLiveSession(tokens, u, now)
  }

  predicate CanView(users: map<UserId, User>, tokens: map<TokenHash, TokenRow>, u: UserId, now: Time) {
    Eligible(users, tokens, u, now) && users[u].role == Admin
  }

  /** One accepted heartbeat on the stored instant. */
  function Beat(last: Option<Time>, now: Time): Time {
    if last.None? || last.value < now - WRITE_COOLDOWN_MS then now else last.value
  }

  predicate IsOnline(seen: Seen, tokens: map<TokenHash, TokenRow>, u: UserId, now: Time) {
    u in seen && seen[u] > now - ONLINE_MS && HasLiveSession(tokens, u, now)
  }

  function SeenOf(seen: Seen, u: UserId): Option<Time> {
    if u in seen then Some(seen[u]) else None
  }

  /** A heartbeat: whether it is accepted, and the stored instants after it. */
  function Observed(users: map<UserId, User>, tokens: map<TokenHash, TokenRow>, seen: Seen, u: UserId,
                    now: Time): (bool, Seen) {
    if Eligible(users, tokens, u, now) then (true, seen[u := Beat(SeenOf(seen, u), now)]) else (false, seen)
  }

  class PresenceStore {
    var seen: Seen

    constructor ()
      ensures seen == map[]
    {
      seen := map[];
    }

    method Observe(users: map<UserId, User>, tokens: map<TokenHash, TokenRow>, u: UserId, now: Time)
      returns (allowed: bool)
      modifies this
      ensures (allowed, seen) == Observed(users, tokens, old(seen), u, now)
    {
      allowed := Eligible(users, tokens, u, now);
      if allowed {
        if u !in seen {
          seen := seen[u := now];
        } else if seen[u] < now - WRITE_COOLDOWN_MS {
          seen := seen[u := now];
        } else {
          assert seen == seen[u := seen[u]];
        }
      }
    }
  }

  // ---- The ranked view ----

  datatype Row = Row(subject: UserId, online: bool, lastActivity: Time)

  /** Online first, then the most recent activity, then the subject. */
  predicate Before(a: Row, b: Row) {
    if a.online != b.online then a.online
    else if a.lastActivity != b.lastActivity then a.lastActivity > b.lastActivity
    else a.subject < b.subject
  }

  /** The accounts of one role that the requester may see and the search matches. */
  ghost function Candidates(s: State, seen: Seen, role: Role, requester: UserId, q: string,
                            text: UserId -> string, fold: char -> char, now: Time): set<Row>
  {
    set u | u in s.users && u in seen && s.users[u].role == role && Available(s.users, u) && u != requester
            && seen[u] >= now - HISTORY_MS && (q == "" || ILike(fold, "%" + (Escape(q) + "%"), text(u)))
      :: Row(u, IsOnline(seen, s.tokens, u, now), seen[u])
  }

  ghost predicate OneRowPerSubject(rows: set<Row>) {
    forall a, b :: a in rows && b in rows && a.subject == b.subject ==> a == b
  }

  ghost predicate IsFirst(rows: set<Row>, a: Row) {
    a in rows && forall b :: b in rows && b != a ==> Before(a, b)
  }

  lemma {:induction false} FirstExists(rows: set<Row>)
    requires rows != {} && OneRowPerSubject(rows)
    ensures exists a :: IsFirst(rows, a)
    decreases |rows|
  {
    var x :| x in rows;
    var others := rows - {x};
    assert forall b :: b in rows ==> b == x || b in others;
    if others == {} {
      assert IsFirst(rows, x);
    } else {
      FirstExists(others);
      var a :| IsFirst(others, a);
      assert Before(a, x) || Before(x, a);
      assert IsFirst(rows, if Before(x, a) then x else a);
    }
  }

  /** row_number(): the rows in ranking order. */
  ghost function Ranked(rows: set<Row>): (r: seq<Row>)
    requires OneRowPerSubject(rows)
    ensures |r| == |rows| && (forall a :: a in r <==> a in rows)
    decreases |rows|
  {
    if rows == {} then []
    else
      FirstExists(rows);
      var a :| IsFirst(rows, a);
      [a] + Ranked(rows - {a})
  }

  lemma {:induction false} RankedInOrder(rows: set<Row>)
    requires OneRowPerSubject(rows)
    ensures InOrder(Ranked(rows))
    decreases |rows|
  {
    if rows != {} {
      FirstExists(rows);
      var a := Ranked(rows)[0];
      assert IsFirst(rows, a);
      RankedInOrder(rows - {a});
      assert Ranked(rows)[1..] == Ranked(rows - {a});
      forall i, j | 0 <= i < j < |Ranked(rows)| ensures Before(Ranked(rows)[i], Ranked(rows)[j]) {
        assert Ranked(rows)[j] == Ranked(rows)[1..][j - 1];
        if i > 0 { assert Ranked(rows)[i] == Ranked(rows)[1..][i - 1]; }
        else { assert Ranked(rows)[j] in rows - {a}; }
      }
    }
  }

  ghost predicate InOrder(r: seq<Row>) {
    forall i, j :: 0 <= i < j < |r| ==> Before(r[i], r[j])
  }

  ghost predicate Lists(r: seq<Row>, rows: set<Row>) {
    forall a :: a in r <==> a in rows
  }

  lemma TailLists(r: seq<Row>, rows: set<Row>)
    requires r != [] && InOrder(r) && Lists(r, rows)
    ensures InOrder(r[1..]) && Lists(r[1..], rows - {r[0]}) && r[0] in rows
  {
  }

  /** Online before offline, then the later activity, then the smaller subject. */
  lemma RankingSorts(rows: set<Row>, i: nat, j: nat)
    requires OneRowPerSubject(rows) && i < j < |Ranked(rows)|
    ensures var a, b := Ranked(rows)[i], Ranked(rows)[j];
            && (b.online ==> a.online)
            && (a.online == b.online ==> a.lastActivity >= b.lastActivity)
            && (a.online == b.online && a.lastActivity == b.lastActivity ==> a.subject < b.subject)
  {
    RankedInOrder(rows);
  }

  /** Any listing of the same rows in ranking order is the ranking: the order in which the table is
      read is immaterial. */
  lemma {:induction false} RankingIsUnique(rows: set<Row>, r: seq<Row>)
    requires OneRowPerSubject(rows) && Lists(r, rows) && InOrder(r)
    ensures r == Ranked(rows)
    decreases |rows|
  {
    if r == [] {
      assert forall a :: a in rows ==> a in r;
      assert rows == {};
    } else {
      FirstIsFirst(rows, r);
      TailLists(r, rows);
      hide InOrder, Lists, IsFirst;
      RankingIsUnique(rows - {r[0]}, r[1..]);
      assert r == [r[0]] + r[1..];
    }
  }

  lemma FirstIsFirst(rows: set<Row>, r: seq<Row>)
    requires OneRowPerSubject(rows) && Lists(r, rows) && InOrder(r) && r != []
    ensures rows != {} && Ranked(rows) == [r[0]] + Ranked(rows - {r[0]})
  {
    assert r[0] in r;
    FirstExists(rows);
    var a := Ranked(rows)[0];
    assert IsFirst(rows, a) && a in r;
    var k :| 0 <= k < |r| && r[k] == a;
    assert r[0] == a || Before(a, r[0]);
    assert k == 0;
  }

  // ---- Pages ----

  function CeilDiv(n: nat, d: nat): nat
    requires d > 0
  {
    (n + d - 1) / d
  }

  function LastPage(total: nat): (p: nat)
    ensures p >= 1 && (p - 1) * PAGE_SIZE <= total <= p * PAGE_SIZE && (total > 0 ==> (p - 1) * PAGE_SIZE < total)
  {
    if CeilDiv(total, PAGE_SIZE) > 1 then CeilDiv(total, PAGE_SIZE) else 1
  }

  function ShownPage(total: nat, requested: nat): nat {
    if requested < LastPage(total) then requested else LastPage(total)
  }

  function PageRows(ranked: seq<Row>, requested: nat): seq<Row>
    requires requested >= 1
  {
    var p := ShownPage(|ranked|, requested);
    var from := (p - 1) * PAGE_SIZE;
    var to := if p * PAGE_SIZE <= |ranked| then p * PAGE_SIZE else |ranked|;
    ranked[from..to]
  }

  /** Pages 1 to p, one after the other. */
  ghost function FirstPages(ranked: seq<Row>, p: nat): seq<Row> {
    if p == 0 then [] else FirstPages(ranked, p - 1) + PageRows(ranked, p)
  }

  lemma {:induction false} FirstPagesArePrefix(ranked: seq<Row>, p: nat)
    requires p <= LastPage(|ranked|)
    ensures FirstPages(ranked, p) == ranked[..if p * PAGE_SIZE <= |ranked| then p * PAGE_SIZE else |ranked|]
  {
    if p > 0 { FirstPagesArePrefix(ranked, p - 1); }
  }

  /** No page is empty while there is anyone to list, only the last is short, and asking past the end shows the last. */
  lemma PageSizes(r: seq<Row>, requested: nat)
    requires requested >= 1
    ensures |PageRows(r, requested)| <= 10
    ensures r != [] ==> PageRows(r, requested) != []
    ensures requested > LastPage(|r|) ==> PageRows(r, requested) == PageRows(r, LastPage(|r|))
    ensures requested < LastPage(|r|) ==> |PageRows(r, requested)| == 10
  {
  }

  lemma AllPages(r: seq<Row>)
    ensures FirstPages(r, LastPage(|r|)) == r
  {
    hide FirstPages;
    FirstPagesArePrefix(r, LastPage(|r|));
  }

  /** The pages of a role, put together, list every candidate, each exactly once, in ranking order. */
  lemma PagesPartition(rows: set<Row>)
    requires OneRowPerSubject(rows)
    ensures var all := FirstPages(Ranked(rows), LastPage(|rows|));
            && all == Ranked(rows) && Lists(all, rows) && |all| == |rows| && InOrder(all)
            && forall i, j :: 0 <= i < j < |all| ==> all[i] != all[j]
  {
    hide InOrder, LastPage, FirstPages;
    var r := Ranked(rows);
    RankedInOrder(rows);
    AllPages(r);
    NoRepeats(r);
  }

  lemma NoRepeats(r: seq<Row>)
    requires InOrder(r)
    ensures forall i, j :: 0 <= i < j < |r| ==> r[i] != r[j]
  {
  }

  /** The first rows of the ranking, as many as the reported online count, are exactly the online ones. */
  lemma OnlineRowsLead(rows: set<Row>)
    requires OneRowPerSubject(rows)
    ensures var online := |set a | a in rows && a.online|;
            && online <= |Ranked(rows)|
            && forall i :: 0 <= i < |Ranked(rows)| ==> (Ranked(rows)[i].online <==> i < online)
  {
    hide InOrder;
    var r := Ranked(rows);
    RankedInOrder(rows);
    var k := LeadLength(r);
    var onlineRows := set a | a in rows && a.online;
    forall a | a in onlineRows ensures a in r[..k] {
      var i :| 0 <= i < |r| && r[i] == a;
      assert r[..k][i] == a;
    }
    assert forall a :: a in r[..k] ==> a in onlineRows by {
      forall a | a in r[..k] ensures a in onlineRows {
        var i :| 0 <= i < k && r[i] == a;
      }
    }
    DistinctSize(r[..k], onlineRows);
  }

  /** The length of the leading run of online rows in a ranking. */
  lemma {:induction false} LeadLength(r: seq<Row>) returns (k: nat)
    requires InOrder(r)
    ensures k <= |r| && forall i :: 0 <= i < |r| ==> (r[i].online <==> i < k)
    decreases |r|
  {
    if r == [] || !r[0].online {
      k := 0;
      forall i | 0 <= i < |r| ensures !r[i].online {
        if i > 0 { assert Before(r[0], r[i]); }
      }
    } else {
      var rest := LeadLength(r[1..]);
      k := rest + 1;
      forall i | 0 <= i < |r| ensures r[i].online <==> i < k {
        if i > 0 { assert r[1..][i - 1] == r[i]; }
      }
    }
  }

  lemma {:induction false} DistinctSize(r: seq<Row>, rows: set<Row>)
    requires InOrder(r) && Lists(r, rows)
    ensures |rows| == |r|
  {
    if r == [] {
      assert forall a :: a in rows ==> a in r;
      assert rows == {};
    } else {
      TailLists(r, rows);
      DistinctSize(r[1..], rows - {r[0]});
    }
  }
}
