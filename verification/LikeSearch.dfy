/** The presence search box: escaping a text so that an ILIKE pattern finds it literally. */
module LikeSearch {
  predicate Special(c: char) { c == '\\' || c == '%' || c == '_' }

  /** Every backslash, percent sign and underscore gets a backslash in front. */
  function Escape(q: string): string {
    if q == "" then ""
    else if Special(q[0]) then ['\\', q[0]] + Escape(q[1..])
    else [q[0]] + Escape(q[1..])
  }

  /** LIKE with backslash as escape character: % matches any text, _ any one character, a backslash makes the next
      character stand for itself. A pattern that ends in a lone backslash matches nothing. */
  predicate Like(p: string, s: string)
    decreases |p| + |s|
  {
    if p == "" then s == ""
    else if p[0] == '%' then Like(p[1..], s) || (s != "" && Like(p, s[1..]))
    else if s == "" then false
    else if p[0] == '_' then Like(p[1..], s[1..])
    else if p[0] == '\\' then |p| > 1 && p[1] == s[0] && Like(p[2..], s[1..])
    else p[0] == s[0] && Like(p[1..], s[1..])
  }

  /** Case folding, one character at a time. */
  ghost predicate Folding(fold: char -> char) {
    forall c :: (Special(c) ==> fold(c) == c) && (Special(fold(c)) ==> Special(c))
  }

  function Fold(fold: char -> char, s: string): (r: string)
    ensures |r| == |s| && forall i :: 0 <= i < |s| ==> r[i] == fold(s[i])
  {
    if s == "" then "" else [fold(s[0])] + Fold(fold, s[1..])
  }

  /** ILIKE folds both sides, then matches. */
  predicate ILike(fold: char -> char, p: string, s: string) {
    Like(Fold(fold, p), Fold(fold, s))
  }

  ghost predicate OccursAt(q: string, s: string, i: nat) {
    i + |q| <= |s| && s[i..i + |q|] == q
  }

  ghost predicate Occurs(q: string, s: string) {
    exists i: nat :: OccursAt(q, s, i)
  }

  /** A trailing percent sign after an escaped text matches exactly the strings that start with the text. */
  lemma {:induction false} EscapedPrefix(q: string, s: string)
    ensures Like(Escape(q) + "%", s) <==> q <= s
  {
    if q == "" {
      assert Escape(q) + "%" == "%";
      AnyText(s);
    } else if s != "" {
      EscapedPrefix(q[1..], s[1..]);
      var rest := Escape(q[1..]) + "%";
      if Special(q[0]) {
        assert Escape(q) + "%" == ['\\', q[0]] + rest;
        assert (['\\', q[0]] + rest)[2..] == rest;
      } else {
        assert Escape(q) + "%" == [q[0]] + rest;
        assert ([q[0]] + rest)[1..] == rest;
      }
      assert q <= s <==> q[0] == s[0] && q[1..] <= s[1..] by {
        if q[0] == s[0] && q[1..] <= s[1..] { assert q == [q[0]] + q[1..] && s == [s[0]] + s[1..]; }
      }
    } else {
      assert Escape(q) != "" && Escape(q)[0] != '%';
      assert (Escape(q) + "%")[0] == Escape(q)[0];
    }
  }

  lemma {:induction false} AnyText(s: string)
    ensures Like("%", s)
  {
    assert "%"[1..] == "";
    if s != "" { AnyText(s[1..]); }
  }

  lemma {:induction false} LeadingPercent(p: string, s: string)
    ensures Like("%" + p, s) <==> exists i :: 0 <= i <= |s| && Like(p, s[i..])
  {
    assert ("%" + p)[1..] == p;
    assert s[0..] == s;
    if s == "" {
      assert forall i :: 0 <= i <= |s| ==> s[i..] == s;
    } else {
      LeadingPercent(p, s[1..]);
      assert forall i :: 0 <= i <= |s[1..]| ==> s[1..][i..] == s[i + 1..];
      if i :| 0 <= i <= |s| && Like(p, s[i..]) {
        if i > 0 { assert s[1..][i - 1..] == s[i..]; }
      }
    }
  }

  /** The pattern % + escaped text + % matches exactly the strings that contain the text. */
  lemma EscapedIsLiteral(q: string, s: string)
    ensures Like("%" + (Escape(q) + "%"), s) <==> Occurs(q, s)
  {
    LeadingPercent(Escape(q) + "%", s);
    forall i | 0 <= i <= |s| ensures Like(Escape(q) + "%", s[i..]) <==> OccursAt(q, s, i) {
      EscapedPrefix(q, s[i..]);
      if i + |q| <= |s| { assert s[i..][..|q|] == s[i..i + |q|]; }
    }
    if Occurs(q, s) {
      var i: nat :| OccursAt(q, s, i);
      assert 0 <= i <= |s| && Like(Escape(q) + "%", s[i..]);
    }
  }

  lemma {:induction false} FoldEscape(fold: char -> char, q: string)
    requires Folding(fold)
    ensures Fold(fold, Escape(q)) == Escape(Fold(fold, q))
  {
    if q != "" {
      FoldEscape(fold, q[1..]);
      var head := if Special(q[0]) then ['\\', q[0]] else [q[0]];
      FoldConcat(fold, head, Escape(q[1..]));
      assert Fold(fold, head) == if Special(q[0]) then ['\\', q[0]] else [fold(q[0])];
      assert Fold(fold, q)[1..] == Fold(fold, q[1..]);
    }
  }

  lemma FoldConcat(fold: char -> char, a: string, b: string)
    ensures Fold(fold, a + b) == Fold(fold, a) + Fold(fold, b)
  {
  }

  /** The search finds a text exactly where it occurs, up to case: no character of it acts as a wildcard. */
  lemma SearchIsLiteral(fold: char -> char, q: string, s: string)
    requires Folding(fold)
    ensures ILike(fold, "%" + (Escape(q) + "%"), s) <==> Occurs(Fold(fold, q), Fold(fold, s))
  {
    FoldConcat(fold, "%", Escape(q) + "%");
    FoldConcat(fold, Escape(q), "%");
    FoldEscape(fold, q);
    assert Special('%') && Fold(fold, "%") == "%";
    EscapedIsLiteral(Fold(fold, q), Fold(fold, s));
  }
}
