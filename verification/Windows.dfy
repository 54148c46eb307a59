/** Counting the events of a log that fall into a window of time. */
module Windows {
  /** Positions of times that fall in the half-open window of this length starting at w. */
  ghost function InWindow(times: seq<int>, w: int, length: int): set<nat> {
    set i: nat | i < |times| && w <= times[i] < w + length
  }

  /** The log is in time order, and any n + 1 consecutive events span at least this length. */
  ghost predicate Spread(times: seq<int>, n: nat, length: nat) {
    && (forall i, j :: 0 <= i < j < |times| ==> times[i] <= times[j])
    && (forall i, j :: 0 <= i && i + n <= j < |times| ==> times[j] >= times[i] + length)
  }

  lemma {:induction false} SubsetSize<T>(a: set<T>, b: set<T>)
    requires a <= b
    ensures |a| <= |b|
  {
    if x :| x in a {
      SubsetSize(a - {x}, b - {x});
    } else {
      assert a == {};
    }
  }

  /** Positions that span less than n hold at most n of them. */
  lemma {:induction false} SpanSize(xs: set<nat>, first: nat, n: nat)
    requires forall x :: x in xs ==> first <= x < first + n
    ensures |xs| <= n
    decreases n
  {
    if n == 0 {
      if x :| x in xs {
        assert false;
      } else {
        assert xs == {};
      }
    } else {
      var last := first + n - 1;
      SpanSize(xs - {last}, first, n - 1);
      assert xs <= (xs - {last}) + {last};
      SubsetSize(xs, (xs - {last}) + {last});
    }
  }

  lemma {:induction false} Least(xs: set<nat>) returns (first: nat)
    requires xs != {}
    ensures first in xs && forall x :: x in xs ==> first <= x
    decreases |xs|
  {
    var x: nat :| x in xs;
    first := x;
    var others := xs - {x};
    if others != {} {
      var rest := Least(others);
      if rest < x { first := rest; }
      assert forall y :: y in xs ==> y == x || y in others;
    } else {
      assert forall y :: y in xs ==> y == x || y in others;
    }
  }

  /** In a spread log no half-open window of the length holds more than n events. */
  lemma SpreadBoundsWindow(times: seq<int>, n: nat, w: int, length: nat)
    requires Spread(times, n, length)
    ensures |InWindow(times, w, length)| <= n
  {
    var xs := InWindow(times, w, length);
    if xs != {} {
      var first := Least(xs);
      assert forall x :: x in xs && first + n <= x ==> times[x] >= times[first] + length;
      SpanSize(xs, first, n);
    }
  }

  /** A window that takes in n positions in a row holds at least n events. */
  lemma {:induction false} SpanFills(xs: set<nat>, first: nat, n: nat)
    requires forall x :: first <= x < first + n ==> x in xs
    ensures |xs| >= n
    decreases n
  {
    if n > 0 {
      SpanFills(xs - {first + n - 1}, first, n - 1);
    }
  }
}
