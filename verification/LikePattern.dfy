/**
 SQL LIKE with `%`, `_` and the backslash escape (PostgreSQL's default), and what the patterns
 the query builder composes from a value match. A pattern that ends in an unfinished escape is
 an error in PostgreSQL; here it matches nothing.
 */
module LikePattern {
  import opened Common

  function Like(p: string, s: string): bool
    decreases |p| + |s|
  {
    if p == "" then s == ""
    else if p[0] == '%' then Like(p[1..], s) || (s != "" && Like(p, s[1..]))
    else if p[0] == '_' then s != "" && Like(p[1..], s[1..])
    else if p[0] == '\\' then |p| > 1 && s != "" && s[0] == p[1] && Like(p[2..], s[1..])
    else s != "" && s[0] == p[0] && Like(p[1..], s[1..])
  }

  /** ILIKE compares without regard to (ASCII) case. */
  predicate ILike(p: string, s: string) {
    Like(Lower(p), Lower(s))
  }

  predicate Plain(v: string) {
    forall c | c in v :: c != '%' && c != '_' && c != '\\'
  }

  predicate Substring(v: string, s: string) {
    exists i :: 0 <= i <= |s| && v <= s[i..]
  }

  predicate Suffix(v: string, s: string) {
    exists i :: 0 <= i <= |s| && v == s[i..]
  }

  // ---------------------------------------------------------------- plain values

  lemma {:induction false} LikePlainThen(v: string, q: string, s: string)
    requires Plain(v)
    ensures Like(v + q, s) <==> v <= s && Like(q, s[|v|..])
  {
    if v == "" {
      assert v + q == q && s[0..] == s;
    } else {
      assert v[0] in v && forall c | c in v[1..] :: c in v;
      assert (v + q)[0] == v[0] && (v + q)[1..] == v[1..] + q;
      if s != "" && s[0] == v[0] {
        LikePlainThen(v[1..], q, s[1..]);
        assert v <= s <==> v[1..] <= s[1..];
        assert v <= s ==> s[1..][|v[1..]|..] == s[|v|..];
      }
    }
  }

  lemma {:induction false} LikeAnyThen(q: string, s: string)
    ensures Like("%" + q, s) <==> exists i :: 0 <= i <= |s| && Like(q, s[i..])
    decreases |s|
  {
    assert ("%" + q)[1..] == q && s[0..] == s;
    if s != "" {
      LikeAnyThen(q, s[1..]);
      forall i | 0 <= i < |s| ensures s[1..][i..] == s[i + 1..] {}
      if i :| 0 <= i <= |s| && Like(q, s[i..]) {
        if i > 0 {
          assert Like(q, s[1..][i - 1..]);
        }
      }
      if i :| 0 <= i <= |s[1..]| && Like(q, s[1..][i..]) {
        assert Like(q, s[i + 1..]);
      }
    }
  }

  lemma AnythingMatchesPercent(s: string)
    ensures Like("%", s)
  {
    LikeAnyThen("", s);
    assert "%" + "" == "%";
    assert Like("", s[|s|..]);
  }

  lemma ContainsPlain(v: string, s: string)
    requires Plain(v)
    ensures Like("%" + v + "%", s) <==> Substring(v, s)
  {
    assert "%" + v + "%" == "%" + (v + "%");
    LikeAnyThen(v + "%", s);
    forall i | 0 <= i <= |s| ensures Like(v + "%", s[i..]) <==> v <= s[i..] {
      StartsPlain(v, s[i..]);
    }
  }

  lemma StartsPlain(v: string, s: string)
    requires Plain(v)
    ensures Like(v + "%", s) <==> v <= s
  {
    LikePlainThen(v, "%", s);
    if v <= s {
      AnythingMatchesPercent(s[|v|..]);
    }
  }

  lemma ExactPlain(v: string, s: string)
    requires Plain(v)
    ensures Like(v, s) <==> s == v
  {
    LikePlainThen(v, "", s);
    assert v + "" == v;
    assert v <= s && s[|v|..] == "" ==> s == v;
  }

  lemma EndsPlain(v: string, s: string)
    requires Plain(v)
    ensures Like("%" + v, s) <==> Suffix(v, s)
  {
    LikeAnyThen(v, s);
    forall i | 0 <= i <= |s| ensures Like(v, s[i..]) <==> v == s[i..] {
      ExactPlain(v, s[i..]);
    }
  }

  lemma LowerPlain(v: string)
    ensures Plain(Lower(v)) <==> Plain(v)
    ensures Lower("%" + v + "%") == "%" + Lower(v) + "%"
    ensures Lower(v + "%") == Lower(v) + "%" && Lower("%" + v) == "%" + Lower(v)
  {
    forall c ensures c in v ==> LowerChar(c) in Lower(v) {
      if i :| 0 <= i < |v| && v[i] == c {
        assert Lower(v)[i] == LowerChar(c);
      }
    }
    forall d ensures d in Lower(v) ==> exists c :: c in v && LowerChar(c) == d {
      if i :| 0 <= i < |v| && Lower(v)[i] == d {
        assert v[i] in v && LowerChar(v[i]) == d;
      }
    }
  }

  // ---------------------------------------------------------------- escaped values

  function EscapeChar(c: char): string {
    if c == '%' || c == '_' || c == '\\' then ['\\', c] else [c]
  }

  function Escape(v: string): string {
    if v == "" then "" else EscapeChar(v[0]) + Escape(v[1..])
  }

  lemma LikeOneThen(c: char, q: string, s: string)
    ensures Like(EscapeChar(c) + q, s) <==> s != "" && s[0] == c && Like(q, s[1..])
  {
    var p := EscapeChar(c) + q;
    assert p[|EscapeChar(c)|..] == q;
  }

  lemma {:induction false} LikeEscapedThen(v: string, q: string, s: string)
    ensures Like(Escape(v) + q, s) <==> v <= s && Like(q, s[|v|..])
  {
    if v == "" {
      assert Escape(v) + q == q && s[0..] == s;
    } else {
      LikeOneThen(v[0], Escape(v[1..]) + q, s);
      assert Escape(v) + q == EscapeChar(v[0]) + (Escape(v[1..]) + q);
      hide Like, EscapeChar;
      if s != "" && s[0] == v[0] {
        LikeEscapedThen(v[1..], q, s[1..]);
        assert v <= s <==> v[1..] <= s[1..];
        assert v <= s ==> s[1..][|v[1..]|..] == s[|v|..];
      }
    }
  }

  /** With its wildcards and backslashes escaped, which the builder does not do, any value would be exact. */
  lemma EscapedValuesAreExact(v: string, s: string)
    ensures Like(Escape(v), s) <==> s == v
    ensures Like(Escape(v) + "%", s) <==> v <= s
    ensures Like("%" + Escape(v), s) <==> Suffix(v, s)
    ensures Like("%" + Escape(v) + "%", s) <==> Substring(v, s)
  {
    EscapedHere(v, s);
    assert "%" + Escape(v) + "%" == "%" + (Escape(v) + "%");
    LikeAnyThen(Escape(v), s);
    LikeAnyThen(Escape(v) + "%", s);
    forall i | 0 <= i <= |s| ensures Like(Escape(v), s[i..]) <==> v == s[i..] { EscapedHere(v, s[i..]); }
    forall i | 0 <= i <= |s| ensures Like(Escape(v) + "%", s[i..]) <==> v <= s[i..] { EscapedHere(v, s[i..]); }
  }

  lemma EscapedHere(v: string, s: string)
    ensures Like(Escape(v), s) <==> s == v
    ensures Like(Escape(v) + "%", s) <==> v <= s
  {
    LikeEscapedThen(v, "", s);
    LikeEscapedThen(v, "%", s);
    assert Escape(v) + "" == Escape(v);
    assert v <= s && s[|v|..] == "" ==> s == v;
    if v <= s {
      AnythingMatchesPercent(s[|v|..]);
    }
  }

  // ---------------------------------------------------------------- values that are not plain

  /** A shortest text the pattern `v + "%"` matches. */
  function Witness(v: string): (w: string)
    ensures |w| <= |v|
  {
    if v == "" then ""
    else if v[0] == '%' then Witness(v[1..])
    else if v[0] == '_' then "x" + Witness(v[1..])
    else if v[0] == '\\' then (if |v| == 1 then "%" else [v[1]] + Witness(v[2..]))
    else [v[0]] + Witness(v[1..])
  }

  predicate UnfinishedEscape(v: string) {
    v != "" && (if v[0] == '\\' then |v| == 1 || UnfinishedEscape(v[2..]) else UnfinishedEscape(v[1..]))
  }

  lemma {:induction false} WitnessIsValueIffPlain(v: string)
    ensures Witness(v) == v <==> Plain(v)
  {
    if v != "" {
      assert v == [v[0]] + v[1..];
      assert v[0] in v && forall c | c in v[1..] :: c in v;
      WitnessIsValueIffPlain(v[1..]);
      if v[0] != '%' && v[0] != '_' && v[0] != '\\' {
        assert Witness(v)[1..] == Witness(v[1..]);
        assert Plain(v[1..]) ==> Plain(v);
      }
    }
  }

  lemma {:induction false} WitnessStarts(v: string)
    ensures Like(v + "%", Witness(v))
  {
    if v == "" {
      assert v + "%" == "%";
      AnythingMatchesPercent("");
    } else {
      var w := Witness(v);
      assert (v + "%")[1..] == v[1..] + "%";
      if v[0] == '\\' && |v| > 1 {
        WitnessStarts(v[2..]);
        assert (v + "%")[2..] == v[2..] + "%" && w[1..] == Witness(v[2..]);
      } else if v[0] == '\\' {
        assert (v + "%")[1] == '%' && (v + "%")[2..] == "" && w == "%" && w[1..] == "";
      } else {
        WitnessStarts(v[1..]);
        if v[0] != '%' { assert w[1..] == Witness(v[1..]); }
      }
    }
  }

  lemma {:induction false} WitnessExact(v: string)
    requires !UnfinishedEscape(v)
    ensures Like(v, Witness(v))
  {
    if v != "" {
      var w := Witness(v);
      if v[0] == '\\' {
        WitnessExact(v[2..]);
        assert w[1..] == Witness(v[2..]);
      } else {
        WitnessExact(v[1..]);
        if v[0] != '%' { assert w[1..] == Witness(v[1..]); }
      }
    }
  }

  lemma {:induction false} UnfinishedNeverMatches(v: string, s: string)
    requires UnfinishedEscape(v)
    ensures !Like(v, s)
    decreases |v| + |s|
  {
    if v[0] == '\\' {
      if |v| > 1 && s != "" {
        UnfinishedNeverMatches(v[2..], s[1..]);
      }
    } else {
      if v[0] == '%' {
        UnfinishedNeverMatches(v[1..], s);
      }
      if s != "" {
        UnfinishedNeverMatches(if v[0] == '%' then v else v[1..], s[1..]);
      }
    }
  }

  /** A text no longer than `v` contains, ends in or starts with `v` only when it is `v`. */
  lemma ShortTexts(v: string, w: string)
    requires |w| <= |v|
    ensures (Substring(v, w) ==> w == v) && (Suffix(v, w) ==> w == v) && (v <= w ==> w == v)
  {
    if i :| 0 <= i <= |w| && v <= w[i..] {
      assert i == 0 && w[0..] == w;
    }
    if i :| 0 <= i <= |w| && v == w[i..] {
      assert i == 0 && w[0..] == w;
    }
  }

  // ---------------------------------------------------------------- texts on which a pattern errs

  /** What a pattern that ends with the value matches, or should match and does not. */
  function EndWitness(v: string): string {
    if UnfinishedEscape(v) then v else Witness(v)
  }

  lemma ContainsErrs(v: string)
    requires !Plain(v)
    ensures Like("%" + v + "%", Witness(v)) && !Substring(v, Witness(v))
  {
    var w := Witness(v);
    WitnessStarts(v);
    LikeAnyThen(v + "%", w);
    assert "%" + v + "%" == "%" + (v + "%") && w[0..] == w;
    WitnessIsValueIffPlain(v);
    ShortTexts(v, w);
  }

  lemma StartsErrs(v: string)
    requires !Plain(v)
    ensures Like(v + "%", Witness(v)) && !(v <= Witness(v))
  {
    WitnessStarts(v);
    WitnessIsValueIffPlain(v);
    ShortTexts(v, Witness(v));
  }

  lemma EndsErrs(v: string)
    requires !Plain(v)
    ensures Like("%" + v, EndWitness(v)) != Suffix(v, EndWitness(v))
  {
    if UnfinishedEscape(v) {
      assert ("%" + v)[1..] == v && v[0..] == v;
      UnfinishedNeverMatches("%" + v, v);
    } else {
      var w := Witness(v);
      WitnessExact(v);
      LikeAnyThen(v, w);
      assert w[0..] == w;
      WitnessIsValueIffPlain(v);
      ShortTexts(v, w);
    }
  }

  lemma ExactErrs(v: string)
    requires !Plain(v)
    ensures Like(v, EndWitness(v)) != (EndWitness(v) == v)
  {
    if UnfinishedEscape(v) {
      UnfinishedNeverMatches(v, v);
    } else {
      WitnessExact(v);
      WitnessIsValueIffPlain(v);
    }
  }

  lemma {:induction false} LowerMembers(v: string)
    ensures Lower(v) == v <==> forall c | c in v :: LowerChar(c) == c
  {
    if forall c | c in v :: LowerChar(c) == c {
      forall i | 0 <= i < |v| ensures Lower(v)[i] == v[i] { assert v[i] in v; }
    } else {
      var c :| c in v && LowerChar(c) != c;
      var i :| 0 <= i < |v| && v[i] == c;
      assert Lower(v)[i] != v[i];
    }
  }

  lemma {:induction false} WitnessMembers(v: string)
    ensures forall c | c in Witness(v) :: c in v || c == 'x' || c == '%'
  {
    if v != "" {
      assert forall c | c in v[1..] :: c in v;
      if v[0] == '\\' && |v| > 1 {
        assert forall c | c in v[2..] :: c in v;
        WitnessMembers(v[2..]);
        assert v[1] in v && Witness(v) == [v[1]] + Witness(v[2..]);
      } else {
        WitnessMembers(v[1..]);
      }
    }
  }

  /** The texts found for a lower-cased value are lower-cased. */
  lemma WitnessStaysLower(v: string)
    ensures Lower(Witness(Lower(v))) == Witness(Lower(v)) && Lower(EndWitness(Lower(v))) == EndWitness(Lower(v))
  {
    var u := Lower(v);
    assert Lower(u) == u;
    WitnessMembers(u);
    LowerMembers(u);
    LowerMembers(Witness(u));
  }

  // ---------------------------------------------------------------- exactly the plain values

  /**
   The patterns mean what the operator names say, for all texts, exactly when the value has no
   `%`, `_` or backslash: values are pasted into the pattern unescaped.
   */
  lemma ContainsMeansSubstringIffPlain(v: string)
    ensures (forall s :: Like("%" + v + "%", s) <==> Substring(v, s)) <==> Plain(v)
  {
    if Plain(v) {
      forall s ensures Like("%" + v + "%", s) <==> Substring(v, s) { ContainsPlain(v, s); }
    } else {
      ContainsErrs(v);
    }
  }

  lemma StartsMeansPrefixIffPlain(v: string)
    ensures (forall s :: Like(v + "%", s) <==> v <= s) <==> Plain(v)
  {
    if Plain(v) {
      forall s ensures Like(v + "%", s) <==> v <= s { StartsPlain(v, s); }
    } else {
      StartsErrs(v);
      assert !(Like(v + "%", Witness(v)) <==> v <= Witness(v));
    }
  }

  lemma EndsMeansSuffixIffPlain(v: string)
    ensures (forall s :: Like("%" + v, s) <==> Suffix(v, s)) <==> Plain(v)
  {
    if Plain(v) {
      forall s ensures Like("%" + v, s) <==> Suffix(v, s) { EndsPlain(v, s); }
    } else {
      EndsErrs(v);
      assert !(Like("%" + v, EndWitness(v)) <==> Suffix(v, EndWitness(v)));
    }
  }

  /** The case-insensitive operators, `icontains`, `istartswith`, `iendswith`, `ci` and `iexact`. */
  lemma AnyCaseContainsIffPlain(v: string)
    ensures (forall s :: ILike("%" + v + "%", s) <==> Substring(Lower(v), Lower(s))) <==> Plain(v)
  {
    LowerPlain(v);
    if Plain(v) {
      forall s ensures ILike("%" + v + "%", s) <==> Substring(Lower(v), Lower(s)) { ContainsPlain(Lower(v), Lower(s)); }
    } else {
      ContainsErrs(Lower(v));
      WitnessStaysLower(v);
      assert !(ILike("%" + v + "%", Witness(Lower(v))) <==> Substring(Lower(v), Lower(Witness(Lower(v)))));
    }
  }

  lemma AnyCaseStartsIffPlain(v: string)
    ensures (forall s :: ILike(v + "%", s) <==> Lower(v) <= Lower(s)) <==> Plain(v)
  {
    LowerPlain(v);
    if Plain(v) {
      forall s ensures ILike(v + "%", s) <==> Lower(v) <= Lower(s) { StartsPlain(Lower(v), Lower(s)); }
    } else {
      StartsErrs(Lower(v));
      WitnessStaysLower(v);
      assert !(ILike(v + "%", Witness(Lower(v))) <==> Lower(v) <= Lower(Witness(Lower(v))));
    }
  }

  lemma AnyCaseEndsIffPlain(v: string)
    ensures (forall s :: ILike("%" + v, s) <==> Suffix(Lower(v), Lower(s))) <==> Plain(v)
  {
    LowerPlain(v);
    if Plain(v) {
      forall s ensures ILike("%" + v, s) <==> Suffix(Lower(v), Lower(s)) { EndsPlain(Lower(v), Lower(s)); }
    } else {
      EndsErrs(Lower(v));
      WitnessStaysLower(v);
      assert !(ILike("%" + v, EndWitness(Lower(v))) <==> Suffix(Lower(v), Lower(EndWitness(Lower(v)))));
    }
  }

  lemma AnyCaseExactIffPlain(v: string)
    ensures (forall s :: ILike(v, s) <==> Lower(s) == Lower(v)) <==> Plain(v)
  {
    LowerPlain(v);
    if Plain(v) {
      forall s ensures ILike(v, s) <==> Lower(s) == Lower(v) { ExactPlain(Lower(v), Lower(s)); }
    } else {
      ExactErrs(Lower(v));
      WitnessStaysLower(v);
      assert !(ILike(v, EndWitness(Lower(v))) <==> Lower(EndWitness(Lower(v))) == Lower(v));
    }
  }
}
