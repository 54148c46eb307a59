/** Identity replay: reading all accounts page by page and writing one event for each. Pages are sorted by creation,
    newest first, and nothing else: accounts created in the same instant may come in another order at each read. */
module Replay {
  import opened Wrappers

  type Time = int

  const BATCH_SIZE := 500

  datatype Account = Account(subject: nat, email: string, createdAt: Time, deletedAt: Option<Time>)

  datatype Inserted = Registered(account: Account)

  function Live(table: seq<Account>): (r: seq<Account>)
    ensures forall a :: a in r <==> a in table && a.deletedAt.None?
  {
    if table == [] then [] else (if table[0].deletedAt.None? then [table[0]] else []) + Live(table[1..])
  }

  ghost predicate Sorted(o: seq<Account>) {
    forall i, j :: 0 <= i < j < |o| ==> o[i].createdAt >= o[j].createdAt
  }

  /** An order the database may list the accounts in. */
  ghost predicate Listing(table: seq<Account>, o: seq<Account>) {
    Sorted(o) && multiset(o) == multiset(Live(table))
  }

  /** One order per page read. */
  ghost predicate Listings(table: seq<Account>, orders: nat -> seq<Account>) {
    forall page: nat :: Listing(table, orders(page))
  }

  ghost predicate Rows(orders: nat -> seq<Account>, n: nat) {
    forall page: nat :: |orders(page)| == n
  }

  /** LIMIT and OFFSET. */
  function Page(o: seq<Account>, page: nat): seq<Account>
    requires page >= 1
  {
    var offset := (page - 1) * BATCH_SIZE;
    if offset >= |o| then [] else if offset + BATCH_SIZE > |o| then o[offset..] else o[offset..offset + BATCH_SIZE]
  }

  /** The accounts replayed from this page on, and the pages read. */
  function ReplayFrom(orders: nat -> seq<Account>, page: nat, n: nat): (seq<Account>, nat)
    requires page >= 1 && Rows(orders, n)
    decreases n + BATCH_SIZE - page * BATCH_SIZE
  {
    var rows := Page(orders(page), page);
    if rows == [] || |rows| < BATCH_SIZE then (rows, 1)
    else
      var (later, pages) := ReplayFrom(orders, page + 1, n);
      (rows + later, 1 + pages)
  }

  /** A whole replay. */
  function Replayed(orders: nat -> seq<Account>, n: nat): (seq<Account>, nat)
    requires Rows(orders, n)
  {
    ReplayFrom(orders, 1, n)
  }

  // ---- A fixed order ----

  /** However the reads are ordered, the loop stops after one page more than the full ones. */
  lemma {:induction false} ReadsFrom(orders: nat -> seq<Account>, page: nat, n: nat)
    requires page >= 1 && Rows(orders, n) && (page - 1) * BATCH_SIZE <= n
    ensures ReplayFrom(orders, page, n).1 == (n - (page - 1) * BATCH_SIZE) / BATCH_SIZE + 1
    decreases n + BATCH_SIZE - page * BATCH_SIZE
  {
    var left := n - (page - 1) * BATCH_SIZE;
    if left >= BATCH_SIZE {
      ReadsFrom(orders, page + 1, n);
    }
  }

  lemma {:induction false} FixedFrom(o: seq<Account>, orders: nat -> seq<Account>, page: nat)
    requires page >= 1 && (page - 1) * BATCH_SIZE <= |o| && forall k: nat :: orders(k) == o
    ensures ReplayFrom(orders, page, |o|).0 == o[(page - 1) * BATCH_SIZE..]
    decreases |o| + BATCH_SIZE - page * BATCH_SIZE
  {
    if |o| - (page - 1) * BATCH_SIZE >= BATCH_SIZE {
      FixedFrom(o, orders, page + 1);
    }
  }

  /** If every read lists the accounts in one order, they are all replayed, in that order, each once. */
  lemma ReplayIsExact(table: seq<Account>, orders: nat -> seq<Account>)
    requires Listings(table, orders) && forall k: nat :: orders(k) == orders(0)
    ensures Rows(orders, |Live(table)|)
    ensures Replayed(orders, |Live(table)|) == (orders(0), |Live(table)| / 500 + 1)
    ensures multiset(orders(0)) == multiset(Live(table))
  {
    hide Live, Sorted, ReplayFrom, Page;
    assert Listing(table, orders(0));
    SameLength(orders(0), Live(table));
    FixedFrom(orders(0), orders, 1);
    ReadsFrom(orders, 1, |Live(table)|);
  }

  lemma SameLength<T>(a: seq<T>, b: seq<T>)
    requires multiset(a) == multiset(b)
    ensures |a| == |b|
  {
    assert |multiset(a)| == |a| && |multiset(b)| == |b|;
  }

  // ---- Any order at each read ----

  /** Two accounts of the same instant sit on both sides of a page boundary. */
  ghost predicate TieAt(o: seq<Account>, page: nat) {
    page >= 1 && page * BATCH_SIZE < |o| && page * BATCH_SIZE >= 1
      && o[page * BATCH_SIZE - 1].createdAt == o[page * BATCH_SIZE].createdAt
  }

  ghost predicate TieAcrossPages(o: seq<Account>) {
    exists page: nat :: TieAt(o, page)
  }

  lemma Prefix(o: seq<Account>, i: nat, x: Account)
    requires i <= |o|
    ensures multiset(o)[x] == multiset(o[..i])[x] + multiset(o[i..])[x]
  {
    assert o == o[..i] + o[i..];
  }

  /** Where the creation times drop, any two listings agree on which accounts come before. */
  lemma SamePrefix(a: seq<Account>, b: seq<Account>, i: nat, m: nat)
    requires Sorted(a) && Sorted(b) && multiset(a) == multiset(b) && i <= |a| && m <= |b|
    requires 0 < i && m < |b| ==> a[i - 1].createdAt > b[m].createdAt
    ensures multiset(a[..i]) <= multiset(b[..m])
  {
    forall x ensures multiset(a[..i])[x] <= multiset(b[..m])[x] {
      Prefix(a, i, x);
      Prefix(b, m, x);
      if x in a[..i] {
        var k :| 0 <= k < i && a[k] == x;
        assert a[k].createdAt >= a[i - 1].createdAt;
        assert forall l :: m <= l < |b| ==> b[m].createdAt >= b[l].createdAt;
        assert x !in b[m..];
      }
    }
  }

  /** Two listings of the same accounts have the same creation times in the same places. */
  lemma SameTimes(a: seq<Account>, b: seq<Account>, i: nat)
    requires Sorted(a) && Sorted(b) && multiset(a) == multiset(b) && i < |a|
    ensures i < |b| && a[i].createdAt == b[i].createdAt
  {
    SameLength(a, b);
    NotLater(a, b, i);
    NotLater(b, a, i);
  }

  lemma PartIsShorter<T>(a: seq<T>, b: seq<T>)
    requires multiset(a) <= multiset(b)
    ensures |a| <= |b|
  {
    var rest := multiset(b) - multiset(a);
    assert multiset(b) == multiset(a) + rest;
    assert |multiset(b)| == |b| && |multiset(a)| == |a|;
  }

  lemma NotLater(a: seq<Account>, b: seq<Account>, i: nat)
    requires Sorted(a) && Sorted(b) && multiset(a) == multiset(b) && i < |a| == |b|
    ensures a[i].createdAt <= b[i].createdAt
  {
    if a[i].createdAt > b[i].createdAt {
      SamePrefix(a, b, i + 1, i);
      PartIsShorter(a[..i + 1], b[..i]);
    }
  }

  lemma SameFirstPages(a: seq<Account>, b: seq<Account>, page: nat)
    requires Sorted(a) && Sorted(b) && multiset(a) == multiset(b) && page * BATCH_SIZE <= |a| == |b|
    requires !TieAt(a, page)
    ensures multiset(a[..page * BATCH_SIZE]) == multiset(b[..page * BATCH_SIZE])
  {
    var m := page * BATCH_SIZE;
    if 0 < m < |a| {
      assert page >= 1;
      SameTimes(a, b, m);
      SameTimes(a, b, m - 1);
      assert a[m - 1].createdAt > a[m].createdAt;
      SamePrefix(a, b, m, m);
      SamePrefix(b, a, m, m);
    } else if m == |a| {
      assert a[..m] == a && b[..m] == b;
    }
  }

  /** Without a tie at its ends, a page holds the same accounts in every listing. */
  lemma SamePage(a: seq<Account>, b: seq<Account>, page: nat)
    requires page >= 1 && (page - 1) * BATCH_SIZE <= |a| && Sorted(a) && !TieAcrossPages(a)
    requires Sorted(b) && multiset(a) == multiset(b)
    ensures multiset(Page(a, page)) == multiset(Page(b, page))
  {
    hide Sorted, TieAt;
    SameLength(a, b);
    var from, upto := (page - 1) * BATCH_SIZE, page * BATCH_SIZE;
    assert !TieAt(a, page - 1) && !TieAt(a, page);
    SameFirstPages(a, b, page - 1);
    if upto <= |a| {
      SameFirstPages(a, b, page);
      Between(a, b, from, upto);
    } else {
      assert a[..|a|] == a && b[..|a|] == b;
      Between(a, b, from, |a|);
    }
  }

  lemma Between(a: seq<Account>, b: seq<Account>, from: nat, upto: nat)
    requires from <= upto <= |a| == |b|
    requires multiset(a[..from]) == multiset(b[..from]) && multiset(a[..upto]) == multiset(b[..upto])
    ensures multiset(a[from..upto]) == multiset(b[from..upto])
  {
    assert a[..upto] == a[..from] + a[from..upto] && b[..upto] == b[..from] + b[from..upto];
    assert multiset(a[from..upto]) == multiset(a[..upto]) - multiset(a[..from]);
  }

  lemma PageSplit(o: seq<Account>, page: nat)
    requires page >= 1 && (page - 1) * BATCH_SIZE <= |o|
    ensures |Page(o, page)| <= BATCH_SIZE
    ensures |Page(o, page)| == BATCH_SIZE <==> page * BATCH_SIZE <= |o|
    ensures o[(page - 1) * BATCH_SIZE..] == Page(o, page) + if page * BATCH_SIZE <= |o| then o[page * BATCH_SIZE..]
            else []
  {
  }

  lemma ReplayUnfolds(orders: nat -> seq<Account>, page: nat, n: nat)
    requires page >= 1 && Rows(orders, n)
    ensures var rows := Page(orders(page), page);
            && ReplayFrom(orders, page, n).0 == rows
               + (if |rows| == BATCH_SIZE then ReplayFrom(orders, page + 1, n).0 else [])
            && ReplayFrom(orders, page, n).1 == 1 + if |rows| == BATCH_SIZE then ReplayFrom(orders, page + 1, n).1
               else 0
  {
  }

  lemma SameJoin<T>(a: seq<T>, b: seq<T>, c: seq<T>, d: seq<T>)
    requires multiset(a) == multiset(b) && multiset(c) == multiset(d)
    ensures multiset(a + c) == multiset(b + d)
  {
  }

  lemma {:induction false} PagesFrom(o: seq<Account>, orders: nat -> seq<Account>, page: nat)
    requires page >= 1 && (page - 1) * BATCH_SIZE <= |o| && Sorted(o) && !TieAcrossPages(o)
    requires Rows(orders, |o|) && forall k: nat :: Sorted(orders(k)) && multiset(orders(k)) == multiset(o)
    ensures multiset(ReplayFrom(orders, page, |o|).0) == multiset(o[(page - 1) * BATCH_SIZE..])
    decreases |o| + BATCH_SIZE - page * BATCH_SIZE
  {
    hide Sorted, TieAcrossPages, Page, ReplayFrom;
    var p := orders(page);
    assert |p| == |o| && Sorted(p) && multiset(p) == multiset(o);
    SamePage(o, p, page);
    PageSplit(o, page);
    PageSplit(p, page);
    ReplayUnfolds(orders, page, |o|);
    if page * BATCH_SIZE <= |o| {
      PagesFrom(o, orders, page + 1);
      SameJoin(Page(p, page), Page(o, page), ReplayFrom(orders, page + 1, |o|).0, o[page * BATCH_SIZE..]);
    } else {
      SameJoin(Page(p, page), Page(o, page), [], []);
    }
  }

  ghost predicate AlwaysExact(table: seq<Account>)
  {
    forall orders: nat -> seq<Account> :: Listings(table, orders) ==> Exact(table, orders)
  }

  ghost predicate Exact(table: seq<Account>, orders: nat -> seq<Account>)
  {
    && Rows(orders, |Live(table)|)
    && multiset(Replayed(orders, |Live(table)|).0) == multiset(Live(table))
  }

  predicate Unique(table: seq<Account>) {
    forall i, j :: 0 <= i < j < |table| ==> table[i].subject != table[j].subject
  }

  lemma ExactWithoutTies(table: seq<Account>, o: seq<Account>, orders: nat -> seq<Account>)
    requires Listing(table, o) && !TieAcrossPages(o) && Listings(table, orders)
    ensures Exact(table, orders)
  {
    SameLength(o, Live(table));
    forall k: nat ensures |orders(k)| == |o| && Sorted(orders(k)) && multiset(orders(k)) == multiset(o) {
      assert Listing(table, orders(k));
      SameLength(orders(k), o);
    }
    PagesFrom(o, orders, 1);
    assert o[0..] == o;
  }

  // ---- A tie across pages ----

  function Swapped(o: seq<Account>, m: nat): seq<Account>
    requires 0 < m < |o|
  {
    o[m - 1 := o[m]][m := o[m - 1]]
  }

  lemma SwapLists(table: seq<Account>, o: seq<Account>, m: nat)
    requires Listing(table, o) && 0 < m < |o| && o[m - 1].createdAt == o[m].createdAt
    ensures Listing(table, Swapped(o, m))
  {
    var s := Swapped(o, m);
    assert o == o[..m - 1] + [o[m - 1], o[m]] + o[m + 1..];
    assert s == o[..m - 1] + [o[m], o[m - 1]] + o[m + 1..];
    SameJoin([o[m - 1], o[m]], [o[m], o[m - 1]], o[m + 1..], o[m + 1..]);
    assert forall i :: 0 <= i < |s| ==> s[i].createdAt == o[i].createdAt;
  }

  lemma {:induction false} PagesBefore(o: seq<Account>, orders: nat -> seq<Account>, page: nat, next: nat)
    requires 1 <= page <= next && (next - 1) * BATCH_SIZE <= |o|
    requires Rows(orders, |o|) && forall k: nat :: page <= k < next ==> orders(k) == o
    ensures ReplayFrom(orders, page, |o|).0 == o[(page - 1) * BATCH_SIZE..(next - 1) * BATCH_SIZE]
            + ReplayFrom(orders, next, |o|).0
    decreases next - page
  {
    hide Page, ReplayFrom;
    if page < next {
      PageSplit(o, page);
      ReplayUnfolds(orders, page, |o|);
      PagesBefore(o, orders, page + 1, next);
      var between, later := o[page * BATCH_SIZE..(next - 1) * BATCH_SIZE], ReplayFrom(orders, next, |o|).0;
      assert Page(o, page) + (between + later) == Page(o, page) + between + later;
    }
  }

  lemma {:induction false} ListedOnce(table: seq<Account>, x: Account)
    requires Unique(table)
    ensures multiset(Live(table))[x] <= 1
  {
    if table != [] {
      ListedOnce(table[1..], x);
      assert table[0] !in table[1..];
      assert Live(table) == (if table[0].deletedAt.None? then [table[0]] else []) + Live(table[1..]);
    }
  }

  lemma Twice<T>(s: seq<T>, i: nat, j: nat)
    requires i < j < |s| && s[i] == s[j]
    ensures multiset(s)[s[i]] >= 2
  {
    assert s == s[..j] + s[j..];
    assert s[i] in s[..j] && s[j] in s[j..];
    assert multiset(s[..j])[s[i]] >= 1 && multiset(s[j..])[s[i]] >= 1;
  }

  lemma SwappedPage(o: seq<Account>, page: nat)
    requires page >= 1 && page * BATCH_SIZE < |o|
    ensures var rows := Page(Swapped(o, page * BATCH_SIZE), page + 1);
            |rows| >= 1 && rows[0] == o[page * BATCH_SIZE - 1]
  {
  }

  lemma RepeatsAcross(o: seq<Account>, orders: nat -> seq<Account>, page: nat, m: nat)
    requires page >= 1 && m == page * BATCH_SIZE < |o| && Rows(orders, |o|)
    requires (forall k: nat :: k <= page ==> orders(k) == o) && orders(page + 1) == Swapped(o, m)
    ensures multiset(Replayed(orders, |o|).0)[o[m - 1]] >= 2
  {
    hide Page, ReplayFrom, Swapped;
    var all := Replayed(orders, |o|).0;
    assert all[..m] == o[..m] && |all| > m && all[m] == o[m - 1] by {
      PagesBefore(o, orders, 1, page + 1);
      SwappedPage(o, page);
      ReplayUnfolds(orders, page + 1, |o|);
    }
    Twice(all, m - 1, m);
  }

  function SwapOn(o: seq<Account>, page: nat): nat -> seq<Account>
    requires page >= 1 && page * BATCH_SIZE < |o|
  {
    k => if k == page + 1 then Swapped(o, page * BATCH_SIZE) else o
  }

  lemma TieRepeats(table: seq<Account>, o: seq<Account>, page: nat)
    requires Unique(table) && Listing(table, o) && TieAt(o, page)
    ensures !AlwaysExact(table)
  {
    var m := page * BATCH_SIZE;
    var orders := SwapOn(o, page);
    SwapLists(table, o, m);
    assert Rows(orders, |o|) && Listings(table, orders) && orders(page + 1) == Swapped(o, m);
    assert forall k: nat :: k <= page ==> orders(k) == o;
    hide Listing, Swapped, ReplayFrom, Page, Sorted, Live, SwapOn, Unique;
    RepeatsAcross(o, orders, page, m);
    SameLength(o, Live(table)) by { ListingRows(table, o); }
    ListedOnce(table, o[m - 1]);
    assert !Exact(table, orders);
  }

  lemma ListingRows(table: seq<Account>, o: seq<Account>)
    requires Listing(table, o)
    ensures multiset(o) == multiset(Live(table))
  {
  }

  /** Replay writes every account exactly once, whatever order each read settles ties in, if and only if no two accounts
      of one instant fall on both sides of a page boundary. */
  lemma ReplayExactIff(table: seq<Account>, o: seq<Account>)
    requires Unique(table) && Listing(table, o)
    ensures AlwaysExact(table) <==> !TieAcrossPages(o)
  {
    if TieAcrossPages(o) {
      var page: nat :| TieAt(o, page);
      TieRepeats(table, o, page);
    } else {
      forall orders: nat -> seq<Account> | Listings(table, orders) ensures Exact(table, orders) {
        ExactWithoutTies(table, o, orders);
      }
    }
  }

  // ---- The loop ----

  function Events(accounts: seq<Account>): (r: seq<Inserted>)
    ensures |r| == |accounts| && forall i :: 0 <= i < |r| ==> r[i] == Registered(accounts[i])
  {
    seq(|accounts|, i requires 0 <= i < |accounts| => Registered(accounts[i]))
  }

  /** What is still to be written from this page on. */
  function Remaining(orders: nat -> seq<Account>, page: nat, n: nat): seq<Inserted>
    requires page >= 1 && Rows(orders, n)
  {
    Events(ReplayFrom(orders, page, n).0)
  }

  function PagesLeft(orders: nat -> seq<Account>, page: nat, n: nat): nat
    requires page >= 1 && Rows(orders, n)
  {
    ReplayFrom(orders, page, n).1
  }

  /** One read further: what was written, and what is left. */
  lemma OnePageFurther(orders: nat -> seq<Account>, page: nat, n: nat, written: seq<Inserted>)
    requires page >= 1 && Rows(orders, n) && (page - 1) * BATCH_SIZE <= n
    ensures var rows := Page(orders(page), page);
            && |rows| <= BATCH_SIZE
            && (|rows| == BATCH_SIZE ==> page * BATCH_SIZE <= n)
            && written + Remaining(orders, page, n)
               == written + Events(rows) + (if |rows| == BATCH_SIZE then Remaining(orders, page + 1, n) else [])
            && |Remaining(orders, page, n)| == |rows|
               + (if |rows| == BATCH_SIZE then |Remaining(orders, page + 1, n)| else 0)
            && PagesLeft(orders, page, n) == 1 + if |rows| == BATCH_SIZE then PagesLeft(orders, page + 1, n) else 0
  {
    hide ReplayFrom, Page, Events, Rows;
    var rows := Page(orders(page), page);
    var later := if |rows| == BATCH_SIZE then ReplayFrom(orders, page + 1, n).0 else [];
    ReadLength(orders, page, n);
    ReplayUnfolds(orders, page, n);
    PageSplit(orders(page), page);
    assert written + (Events(rows) + Events(later)) == written + Events(rows) + Events(later);
  }

  lemma ReadLength(orders: nat -> seq<Account>, page: nat, n: nat)
    requires Rows(orders, n)
    ensures |orders(page)| == n
  {
  }

  class ReplayJob {
    var outbox: seq<Inserted>

    constructor ()
      ensures outbox == []
    {
      outbox := [];
    }

    method CreateIdentityOutboxEventsBatch(events: seq<Inserted>)
      modifies this
      ensures outbox == old(outbox) + events
    {
      if events == [] { return; }
      outbox := outbox + events;
    }

    /** orders gives the order the database lists the accounts in at each read. */
    method TriggerIdentityReplay(orders: nat -> seq<Account>, ghost n: nat)
      returns (totalReplayed: nat, ghost pages: nat)
      requires Rows(orders, n)
      modifies this
      ensures outbox == old(outbox) + Events(Replayed(orders, n).0)
      ensures totalReplayed == |Replayed(orders, n).0| && pages == n / BATCH_SIZE + 1
    {
      ghost var was := outbox;
      var page := 1;
      totalReplayed, pages := 0, 0;
      ReadsFrom(orders, page, n);
      ghost var all, reading := Remaining(orders, page, n), PagesLeft(orders, page, n);
      hide Remaining, PagesLeft, ReplayFrom, Page, Rows, Events;
      while true
        invariant page >= 1 && (page - 1) * BATCH_SIZE <= n
        invariant outbox + Remaining(orders, page, n) == was + all
        invariant totalReplayed + |Remaining(orders, page, n)| == |all|
        invariant pages + PagesLeft(orders, page, n) == reading
        decreases n + BATCH_SIZE - page * BATCH_SIZE
      {
        var rows := Page(orders(page), page);
        pages := pages + 1;
        OnePageFurther(orders, page, n, outbox);
        if rows == [] { break; }
        CreateIdentityOutboxEventsBatch(Events(rows));
        totalReplayed := totalReplayed + |rows|;
        if |rows| < BATCH_SIZE { break; }
        page := page + 1;
      }
    }
  }
}
