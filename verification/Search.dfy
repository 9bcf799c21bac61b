/** Search terms as ILIKE patterns. Matching follows section 9.7.1 of the PostgreSQL
    documentation, with the backslash as the escape character. */
module Search {
  import opened Options

  const ESCAPE := '\\'

  predicate IsSpecial(c: char) {
    c == ESCAPE || c == '%' || c == '_'
  }

  /** What the replacer does, one character at a time and never rescanning. */
  function Escape(q: string): string {
    if q == [] then []
    else (if IsSpecial(q[0]) then [ESCAPE, q[0]] else [q[0]]) + Escape(q[1..])
  }

  /** The query parameter of a search: none for the empty term. */
  function SearchParam(q: string): Option<string> {
    if q == "" then None else Some("%" + Escape(q) + "%")
  }

  /** Every escape character has a character to escape. */
  predicate WellFormed(p: string) {
    if p == [] then true
    else if p[0] == ESCAPE then |p| >= 2 && WellFormed(p[2..])
    else WellFormed(p[1..])
  }

  ghost predicate Like(p: string, s: string)
    decreases |p|
  {
    if p == [] then s == []
    else if p[0] == '%' then exists k | 0 <= k <= |s| :: Like(p[1..], s[k..])
    else if p[0] == '_' then |s| > 0 && Like(p[1..], s[1..])
    else if p[0] == ESCAPE then |p| >= 2 && |s| > 0 && p[1] == s[0] && Like(p[2..], s[1..])
    else |s| > 0 && p[0] == s[0] && Like(p[1..], s[1..])
  }

  /** A case folding, which may turn one character into several, leaves the three
      special ones alone and makes none. */
  ghost predicate IsCaseFold(fold: char -> string) {
    forall c :: if IsSpecial(c) then fold(c) == [c] else forall d | d in fold(c) :: !IsSpecial(d)
  }

  function Map(fold: char -> string, s: string): string {
    if s == [] then [] else fold(s[0]) + Map(fold, s[1..])
  }

  /** Case-insensitive matching folds both sides and then matches. */
  ghost predicate ILike(fold: char -> string, p: string, s: string) {
    Like(Map(fold, p), Map(fold, s))
  }

  ghost predicate OccursAt(q: string, s: string, i: nat) {
    i + |q| <= |s| && s[i..i + |q|] == q
  }

  ghost predicate Contains(s: string, q: string) {
    exists i :: OccursAt(q, s, i)
  }

  lemma {:induction false} EscapeWellFormed(q: string)
    ensures WellFormed(Escape(q) + "%")
  {
    if q == [] {
      assert Escape(q) + "%" == "%";
    } else {
      EscapeWellFormed(q[1..]);
      var rest := Escape(q[1..]) + "%";
      if IsSpecial(q[0]) {
        assert Escape(q) + "%" == [ESCAPE, q[0]] + rest;
        assert ([ESCAPE, q[0]] + rest)[2..] == rest;
      } else {
        assert Escape(q) + "%" == [q[0]] + rest;
        assert ([q[0]] + rest)[1..] == rest;
      }
    }
  }

  lemma LikeAnything(s: string)
    ensures Like("%", s)
  {
    assert Like("%"[1..], s[|s|..]);
  }

  /** An escaped term followed by % matches exactly the strings it begins. */
  lemma {:induction false} EscapedPrefix(q: string, s: string)
    ensures Like(Escape(q) + "%", s) <==> OccursAt(q, s, 0)
  {
    if q == [] {
      assert Escape(q) + "%" == "%";
      LikeAnything(s);
    } else {
      var rest := Escape(q[1..]) + "%";
      if IsSpecial(q[0]) {
        assert Escape(q) + "%" == [ESCAPE, q[0]] + rest;
        assert ([ESCAPE, q[0]] + rest)[2..] == rest;
      } else {
        assert Escape(q) + "%" == [q[0]] + rest;
        assert ([q[0]] + rest)[1..] == rest;
      }
      if |s| > 0 {
        EscapedPrefix(q[1..], s[1..]);
        assert |s| >= |q| ==> s[..|q|] == [s[0]] + s[1..][..|q| - 1];
        assert q == [q[0]] + q[1..];
      }
    }
  }

  lemma PatternMatches(q: string, s: string)
    ensures Like("%" + Escape(q) + "%", s) <==> Contains(s, q)
  {
    var p := "%" + Escape(q) + "%";
    assert p[1..] == Escape(q) + "%";
    forall k | 0 <= k <= |s| ensures Like(p[1..], s[k..]) <==> OccursAt(q, s, k) {
      EscapedPrefix(q, s[k..]);
      assert k + |q| <= |s| ==> s[k..][..|q|] == s[k..k + |q|];
    }
  }

  /** The pattern of a term matches exactly the strings that contain it: the term is
      data, whatever it is made of; and only the empty term has no pattern. */
  lemma PatternMeansSubstring(q: string, s: string)
    ensures SearchParam(q).None? <==> q == ""
    ensures SearchParam(q).Some? ==>
              WellFormed(SearchParam(q).value) && (Like(SearchParam(q).value, s) <==> Contains(s, q))
  {
    if q != "" {
      EscapeWellFormed(q);
      assert SearchParam(q).value[1..] == Escape(q) + "%";
      PatternMatches(q, s);
    }
  }

  lemma {:induction false} EscapeConcat(a: string, b: string)
    ensures Escape(a + b) == Escape(a) + Escape(b)
  {
    if a == [] {
      assert a + b == b;
    } else {
      assert (a + b)[1..] == a[1..] + b;
      EscapeConcat(a[1..], b);
    }
  }

  lemma {:induction false} PlainEscape(s: string)
    requires forall c | c in s :: !IsSpecial(c)
    ensures Escape(s) == s
  {
    if s != [] {
      PlainEscape(s[1..]);
      assert s == [s[0]] + s[1..];
    }
  }

  lemma {:induction false} MapConcat(fold: char -> string, a: string, b: string)
    ensures Map(fold, a + b) == Map(fold, a) + Map(fold, b)
  {
    if a == [] {
      assert a + b == b;
    } else {
      assert (a + b)[1..] == a[1..] + b;
      MapConcat(fold, a[1..], b);
    }
  }

  lemma MapOne(fold: char -> string, c: char)
    ensures Map(fold, [c]) == fold(c)
  {
    assert [c][1..] == [] && Map(fold, []) == [];
  }

  /** Folding one character of the term and escaping it commute. */
  lemma EscapeFoldsOne(fold: char -> string, c: char)
    requires IsCaseFold(fold)
    ensures Map(fold, if IsSpecial(c) then [ESCAPE, c] else [c]) == Escape(fold(c))
  {
    MapOne(fold, c);
    if IsSpecial(c) {
      MapOne(fold, ESCAPE);
      MapConcat(fold, [ESCAPE], [c]);
      assert [ESCAPE, c] == [ESCAPE] + [c];
      assert fold(c) == [c] && Escape([c]) == [ESCAPE, c] + Escape([c][1..]);
    } else {
      PlainEscape(fold(c));
    }
  }

  lemma {:induction false} EscapeFolds(fold: char -> string, q: string)
    requires IsCaseFold(fold)
    ensures Map(fold, Escape(q)) == Escape(Map(fold, q))
  {
    if q != [] {
      EscapeFolds(fold, q[1..]);
      EscapeFoldsOne(fold, q[0]);
      MapConcat(fold, if IsSpecial(q[0]) then [ESCAPE, q[0]] else [q[0]], Escape(q[1..]));
      EscapeConcat(fold(q[0]), Map(fold, q[1..]));
    }
  }

  /** The filter of a query: no pattern lets every row through. */
  ghost predicate Finds(fold: char -> string, param: Option<string>, s: string) {
    param.Some? ==> ILike(fold, param.value, s)
  }

  /** Up to case, a search finds exactly the rows whose column contains the term, which
      for the empty term are all. */
  lemma SearchMeansSubstring(fold: char -> string, q: string, s: string)
    requires IsCaseFold(fold)
    ensures Finds(fold, SearchParam(q), s) <==> Contains(Map(fold, s), Map(fold, q))
  {
    PatternMeansSubstring(q, s);
    PatternMatches(Map(fold, q), Map(fold, s));
    EscapeFolds(fold, q);
    MapOne(fold, '%');
    MapConcat(fold, "%" + Escape(q), "%");
    MapConcat(fold, "%", Escape(q));
    assert q == "" ==> OccursAt(Map(fold, q), Map(fold, s), 0);
  }

  /** The escaped term determines the term. */
  function Unescape(p: string): string {
    if p == [] then []
    else if p[0] == ESCAPE && |p| >= 2 then [p[1]] + Unescape(p[2..])
    else [p[0]] + Unescape(p[1..])
  }

  lemma {:induction false} EscapeRoundTrip(q: string)
    ensures Unescape(Escape(q)) == q
  {
    if q != [] {
      EscapeRoundTrip(q[1..]);
      assert q == [q[0]] + q[1..];
      if IsSpecial(q[0]) {
        assert Escape(q)[2..] == Escape(q[1..]);
      } else {
        assert Escape(q)[1..] == Escape(q[1..]);
      }
    }
  }
}
