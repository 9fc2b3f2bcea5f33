/**
 What the compiled queries select: the promised meaning of every operator, the meaning of whole
 dictionaries under AND and OR, and the advanced builder as a composition of the simple ones.
 */
module QueryBuilderLaws {
  import opened Common
  import opened LikePattern
  import opened QueryBuilder

  // ---------------------------------------------------------------- keys

  ghost predicate NoDunder(key: string) {
    forall i | 0 <= i < |key| - 1 :: key[i] != '_' || key[i + 1] != '_'
  }

  lemma {:induction false} DunderIsFirst(key: string, i: nat)
    requires i <= |key|
    ensures var d := Dunder(key, i);
            && (forall j | i <= j < d && j < |key| - 1 :: key[j] != '_' || key[j + 1] != '_')
            && (d < |key| ==> d + 2 <= |key| && key[d] == '_' && key[d + 1] == '_')
    decreases |key| - i
  {
    if |key| - i >= 2 && !(key[i] == '_' && key[i + 1] == '_') {
      DunderIsFirst(key, i + 1);
    }
  }

  /**
   A key splits back into the field and operator it was made of exactly when the field has no double
   underscore and does not end in one underscore; a field alone means `eq` exactly when it has none.
   */
  lemma KeysSplitBack(field: string, operator: string)
    ensures NoDunder(field + "_") <==> FieldOf(field + "__" + operator) == field
    ensures NoDunder(field + "_") ==> OperatorOf(field + "__" + operator) == operator
    ensures NoDunder(field) <==> FieldOf(field) == field
    ensures NoDunder(field) ==> OperatorOf(field) == "eq"
  {
    var key := field + "__" + operator;
    DunderIsFirst(key, 0);
    DunderIsFirst(field, 0);
    var d := Dunder(key, 0);
    assert key[|field|] == '_' && key[|field| + 1] == '_';
    assert forall j | 0 <= j < |field| + 1 :: key[j] == (field + "_")[j];
    if NoDunder(field + "_") {
      assert d == |field|;
      assert key[..d] == field && key[d + 2..] == operator;
    }
    if FieldOf(key) == field {
      assert d == |field|;
    }
    if NoDunder(field) {
      assert field[..Dunder(field, 0)] == field;
    }
  }

  // ---------------------------------------------------------------- what an operator promises

  predicate KnownOperator(op: string) {
    op in {"eq", "neq", "icontains", "contains", "gt", "gte", "lt", "lte", "in", "nin", "isnull",
           "startswith", "istartswith", "endswith", "iendswith", "ci", "iexact", "date"}
  }

  predicate TextOperator(op: string) {
    op in {"icontains", "contains", "startswith", "istartswith", "endswith", "iendswith", "ci", "iexact"}
  }

  /** True when some listed value equals x, false when all are known to differ, else unknown. */
  ghost function AmongThem(x: Scalar, values: seq<Scalar>): Truth {
    if exists v :: v in values && Equal3(x, v) == T then T
    else if forall v | v in values :: Equal3(x, v) == F then F
    else U
  }

  ghost predicate TextHolds(op: string, value: string, s: string) {
    if op == "contains" then Substring(value, s)
    else if op == "icontains" then Substring(Lower(value), Lower(s))
    else if op == "startswith" then value <= s
    else if op == "istartswith" then Lower(value) <= Lower(s)
    else if op == "endswith" then Suffix(value, s)
    else if op == "iendswith" then Suffix(Lower(value), Lower(s))
    else Lower(s) == Lower(value)
  }

  function Listed(value: Arg): seq<Scalar>
    requires value.Arg?
  {
    if value.items.Some? then value.items.value else [value.one]
  }

  /** The meaning of `field__op = value` for a column holding x, as the builder's documentation lists it. */
  ghost function Meaning(op: string, value: Arg, x: Scalar): Truth
    requires value.Arg?
  {
    if TextOperator(op) then (if x.Text? then Known(TextHolds(op, value.text, x.s)) else U)
    else if op == "eq" || op == "in" then AmongThem(x, Listed(value))
    else if op == "nin" then Not3(AmongThem(x, Listed(value)))
    else if op == "neq" then Not3(Equal3(x, value.one))
    else if op == "gt" then Less3(value.one, x)
    else if op == "gte" then Not3(Less3(x, value.one))
    else if op == "lt" then Less3(x, value.one)
    else if op == "lte" then Not3(Less3(value.one, x))
    else if op == "isnull" then Known(x.Null? == value.truthy)
    else if x.Moment? && value.day.Some? then Known(x.day == value.day.value)
    else U
  }

  // ---------------------------------------------------------------- what comparing means

  predicate Comparable(a: Scalar, b: Scalar) {
    (a.Num? && b.Num?) || (a.Text? && b.Text?) || (a.Moment? && b.Moment?)
  }

  /** s is a proper prefix of t, or smaller in the first character that differs. */
  ghost predicate FirstDifference(s: string, t: string, n: nat) {
    n <= |s| && n < |t| && s[..n] == t[..n] && (n == |s| || s[n] < t[n])
  }

  lemma {:induction false} BeforeMeans(s: string, t: string)
    ensures Before(s, t) <==> exists n: nat :: FirstDifference(s, t, n)
  {
    if t != "" && s != "" && s[0] == t[0] {
      BeforeMeans(s[1..], t[1..]);
      if n: nat :| FirstDifference(s[1..], t[1..], n) {
        assert s[..n + 1] == [s[0]] + s[1..][..n] && t[..n + 1] == [t[0]] + t[1..][..n];
        assert FirstDifference(s, t, n + 1);
      }
      if n: nat :| FirstDifference(s, t, n) {
        assert s[1..][..n - 1] == s[..n][1..] && t[1..][..n - 1] == t[..n][1..];
        assert FirstDifference(s[1..], t[1..], n - 1);
      }
    } else if Before(s, t) {
      assert FirstDifference(s, t, 0);
    } else {
      forall n: nat ensures !FirstDifference(s, t, n) { SameHead(s, t, n); }
    }
  }

  lemma SameHead(s: string, t: string, n: nat)
    ensures n > 0 && FirstDifference(s, t, n) ==> s != "" && s[0] == t[0]
  {
    if n > 0 && FirstDifference(s, t, n) {
      assert s[..n][0] == t[..n][0];
    }
  }

  lemma {:induction false} BeforeIsTotal(s: string, t: string)
    ensures !(Before(s, t) && Before(t, s)) && (s != t <==> Before(s, t) || Before(t, s))
  {
    if s != "" && t != "" && s[0] == t[0] {
      BeforeIsTotal(s[1..], t[1..]);
      assert s == [s[0]] + s[1..] && t == [t[0]] + t[1..];
    }
  }

  /**
   Equality holds between equal values and nothing else; of two comparable values exactly one of less,
   equal and greater holds; anything else, NULL included, is unknown. Texts are ordered by their first
   difference, moments by day and then by second.
   */
  lemma ComparingMeans(a: Scalar, b: Scalar)
    ensures Comparable(a, b) ==> Equal3(a, b) == Known(a == b)
    ensures Comparable(a, b) ==> Known(a != b) == Or3(Less3(a, b), Less3(b, a)) && And3(Less3(a, b), Less3(b, a)) == F
    ensures !Comparable(a, b) ==> Equal3(a, b) == Less3(a, b) == U
    ensures a.Num? && b.Num? ==> Less3(a, b) == Known(a.n - b.n < 0)
    ensures a.Text? && b.Text? ==> Less3(a, b) == Known(exists n: nat :: FirstDifference(a.s, b.s, n))
    ensures a.Moment? && b.Moment? && a.day != b.day ==> Less3(a, b) == Known(a.day < b.day)
    ensures a.Moment? && b.Moment? && a.day == b.day ==> Less3(a, b) == Known(a.second < b.second)
  {
    if a.Text? && b.Text? {
      BeforeMeans(a.s, b.s);
      BeforeIsTotal(a.s, b.s);
    }
    hide Before;
  }

  lemma {:induction false} InIsAmongThem(x: Scalar, values: seq<Scalar>)
    ensures In3(x, values) == AmongThem(x, values)
  {
    hide Equal3;
    if values != [] {
      var n := |values| - 1;
      InIsAmongThem(x, values[..n]);
      assert values == values[..n] + [values[n]];
      AmongThemSnoc(x, values[..n], values[n]);
    }
  }

  lemma AmongThemSnoc(x: Scalar, values: seq<Scalar>, v: Scalar)
    ensures AmongThem(x, values + [v]) == Or3(AmongThem(x, values), Equal3(x, v))
  {
    hide Equal3;
    var all := values + [v];
    assert all[|values|] == v;
    assert forall u :: u in all <==> u in values || u == v;
    if Equal3(x, v) == T {
      assert v in all;
    } else if u :| u in values && Equal3(x, u) == T {
      assert u in all;
    } else {
      assert forall u | u in all :: Equal3(x, u) != T;
    }
  }

  lemma SingleIn(x: Scalar, v: Scalar)
    ensures Equal3(x, v) == AmongThem(x, [v])
  {
    assert [v][0] == v;
  }

  function PatternOf(op: string, value: string): string {
    if op == "contains" || op == "icontains" then "%" + value + "%"
    else if op == "startswith" || op == "istartswith" then value + "%"
    else if op == "endswith" || op == "iendswith" then "%" + value
    else value
  }

  predicate AnyCase(op: string) {
    op in {"icontains", "istartswith", "iendswith", "ci", "iexact"}
  }

  predicate PatternMatches(op: string, value: string, s: string) {
    if AnyCase(op) then ILike(PatternOf(op, value), s) else Like(PatternOf(op, value), s)
  }

  lemma TextConditions(model: Model, field: string, op: string, value: Arg)
    requires field in model && TextOperator(op) && value.Arg?
    ensures Single(model, field, op, value) == Ok(Some(Match(field, PatternOf(op, value.text), AnyCase(op))))
  {
  }

  lemma TextOperatorsMean(op: string, value: string, s: string)
    requires TextOperator(op) && Plain(value)
    ensures PatternMatches(op, value, s) <==> TextHolds(op, value, s)
  {
    hide Like, Substring, Suffix;
    LowerPlain(value);
    ContainsPlain(value, s);
    StartsPlain(value, s);
    EndsPlain(value, s);
    ContainsPlain(Lower(value), Lower(s));
    StartsPlain(Lower(value), Lower(s));
    EndsPlain(Lower(value), Lower(s));
    ExactPlain(Lower(value), Lower(s));
  }

  lemma TextConditionsMean(model: Model, field: string, op: string, value: Arg, row: Row)
    requires field in model && TextOperator(op) && value.Arg? && Plain(value.text)
    ensures var r := Single(model, field, op, value);
            && r.Ok? && r.value.Some?
            && Eval(r.value.value, row) == Meaning(op, value, Column(row, field))
  {
    hide Single, TextHolds, Like, ILike, Plain, PatternOf;
    TextConditions(model, field, op, value);
    if Column(row, field).Text? {
      TextOperatorsMean(op, value.text, Column(row, field).s);
    }
  }

  lemma OtherConditionsMean(model: Model, field: string, op: string, value: Arg, row: Row)
    requires field in model && KnownOperator(op) && !TextOperator(op) && value.Arg?
    requires op == "date" ==> !(value.isStr && value.day.None?)
    ensures var r := Single(model, field, op, value);
            && r.Ok? && r.value.Some?
            && Eval(r.value.value, row) == Meaning(op, value, Column(row, field))
  {
    hide AmongThem, In3, Equal3, Less3;
    InIsAmongThem(Column(row, field), Listed(value));
    SingleIn(Column(row, field), value.one);
  }

  /** Compilation preserves meaning: every operator's condition evaluates to what its name promises. */
  lemma OperatorsMeanWhatTheySay(model: Model, field: string, op: string, value: Arg, row: Row)
    requires field in model && KnownOperator(op) && value.Arg?
    requires TextOperator(op) ==> Plain(value.text)
    requires op == "date" ==> !(value.isStr && value.day.None?)
    ensures var r := Single(model, field, op, value);
            && r.Ok? && r.value.Some?
            && Eval(r.value.value, row) == Meaning(op, value, Column(row, field))
  {
    hide Single, Eval, Meaning;
    if TextOperator(op) {
      TextConditionsMean(model, field, op, value, row);
    } else {
      OtherConditionsMean(model, field, op, value, row);
    }
  }

  /** A text on which the operator errs, for a value that is not plain. */
  lemma PatternErrs(op: string, value: string) returns (s: string)
    requires TextOperator(op) && !Plain(value)
    ensures PatternMatches(op, value, s) != TextHolds(op, value, s)
  {
    hide Like, Plain, Substring, Suffix;
    if op == "contains" {
      ContainsMeansSubstringIffPlain(value);
      s :| Like("%" + value + "%", s) != Substring(value, s);
    } else if op == "startswith" {
      StartsMeansPrefixIffPlain(value);
      s :| Like(value + "%", s) != (value <= s);
    } else if op == "endswith" {
      EndsMeansSuffixIffPlain(value);
      s :| Like("%" + value, s) != Suffix(value, s);
    } else {
      s := AnyCasePatternErrs(op, value);
    }
  }

  lemma AnyCasePatternErrs(op: string, value: string) returns (s: string)
    requires op in {"icontains", "istartswith", "iendswith", "ci", "iexact"} && !Plain(value)
    ensures PatternMatches(op, value, s) != TextHolds(op, value, s)
  {
    hide ILike, Plain, Substring, Suffix;
    if op == "icontains" {
      AnyCaseContainsIffPlain(value);
      s :| ILike("%" + value + "%", s) != Substring(Lower(value), Lower(s));
    } else if op == "istartswith" {
      AnyCaseStartsIffPlain(value);
      s :| ILike(value + "%", s) != (Lower(value) <= Lower(s));
    } else if op == "iendswith" {
      AnyCaseEndsIffPlain(value);
      s :| ILike("%" + value, s) != Suffix(Lower(value), Lower(s));
    } else {
      AnyCaseExactIffPlain(value);
      s :| ILike(value, s) != (Lower(s) == Lower(value));
    }
  }

  /** Each of the eight text operators keeps the texts that its name says exactly for plain values. */
  lemma TextOperatorsExactIffPlain(model: Model, field: string, op: string, value: Arg)
    requires field in model && TextOperator(op) && value.Arg?
    ensures Single(model, field, op, value).Ok? && Single(model, field, op, value).value.Some?
    ensures var c := Single(model, field, op, value).value.value;
            (forall s :: Eval(c, map[field := Text(s)]) == Known(TextHolds(op, value.text, s))) <==> Plain(value.text)
  {
    hide Single, Like, ILike, TextHolds, Plain, TextOperator, PatternMatches;
    TextConditions(model, field, op, value);
    var c := Single(model, field, op, value).value.value;
    forall s ensures Eval(c, map[field := Text(s)]) == Known(PatternMatches(op, value.text, s)) {
      OneColumn(c, field, op, value.text, s);
    }
    if Plain(value.text) {
      forall s ensures Eval(c, map[field := Text(s)]) == Known(TextHolds(op, value.text, s)) {
        TextOperatorsMean(op, value.text, s);
      }
    } else {
      var s := PatternErrs(op, value.text);
      assert Eval(c, map[field := Text(s)]) != Known(TextHolds(op, value.text, s));
    }
  }

  lemma OneColumn(c: Cond, field: string, op: string, value: string, s: string)
    requires c == Match(field, PatternOf(op, value), AnyCase(op))
    ensures Eval(c, map[field := Text(s)]) == Known(PatternMatches(op, value, s))
  {
    hide Like, ILike;
    assert Column(map[field := Text(s)], field) == Text(s);
  }

  /** An entry contributes nothing exactly when its value is None or its field or operator is unknown. */
  lemma IgnoredExactlyWhen(model: Model, e: Entry)
    ensures Contribution(model, e) == Ok(None)
            <==> e.1.Absent? || FieldOf(e.0) !in model || !KnownOperator(OperatorOf(e.0))
    ensures Contribution(model, e).Err?
            <==> e.1.Arg? && FieldOf(e.0) in model && OperatorOf(e.0) == "date" && e.1.isStr && e.1.day.None?
  {
  }

  /** A NULL column satisfies no condition but `isnull` and exclusion from an empty list. */
  lemma NullSatisfiesNothing(model: Model, field: string, op: string, value: Arg, row: Row)
    requires value.Arg? && Column(row, field) == Null
    requires op != "isnull" && !(op == "nin" && Listed(value) == [])
    ensures var r := Single(model, field, op, value);
            r.Ok? && r.value.Some? ==> Eval(r.value.value, row) != T
  {
    NullAmongThem(Listed(value));
    SingleIn(Null, value.one);
    hide In3;
  }

  lemma {:induction false} NullAmongThem(values: seq<Scalar>)
    ensures In3(Null, values) == if values == [] then F else U
  {
    if values != [] { NullAmongThem(values[..|values| - 1]); }
  }

  // ---------------------------------------------------------------- what a dictionary selects

  predicate Restricts(model: Model, e: Entry) {
    Contribution(model, e).Ok? && Contribution(model, e).value.Some?
  }

  function EntryTruth(model: Model, e: Entry, row: Row): Truth
    requires Restricts(model, e)
  {
    Eval(Contribution(model, e).value.value, row)
  }

  lemma {:induction false} ConditionsOk(model: Model, d: Filters)
    ensures Conditions(model, d).Ok? <==> forall e | e in d :: Contribution(model, e).Ok?
  {
    hide Contribution;
    if d != [] {
      var n := |d| - 1;
      ConditionsOk(model, d[..n]);
      assert d == d[..n] + [d[n]];
    }
  }

  function CondOf(model: Model, e: Entry): Cond
    requires Restricts(model, e)
  {
    Contribution(model, e).value.value
  }

  /** The conditions of a dictionary are those of its restricting entries. */
  lemma {:induction false} ConditionsAre(model: Model, d: Filters)
    requires Conditions(model, d).Ok?
    ensures forall e | e in d && Restricts(model, e) :: CondOf(model, e) in Conditions(model, d).value
    ensures forall c | c in Conditions(model, d).value :: exists e :: e in d && Restricts(model, e) && CondOf(model, e) == c
  {
    if d != [] {
      hide Contribution;
      var n := |d| - 1;
      var last := d[n];
      ConditionsAre(model, d[..n]);
      var cs, rest := Conditions(model, d).value, Conditions(model, d[..n]).value;
      assert d == d[..n] + [last] && last in d;
      assert cs == if Restricts(model, last) then rest + [CondOf(model, last)] else rest;
      forall e | e in d && Restricts(model, e) ensures CondOf(model, e) in cs {
        assert e in d[..n] || e == last;
      }
      forall c | c in cs ensures exists e :: e in d && Restricts(model, e) && CondOf(model, e) == c {
        if c in rest {
          var e :| e in d[..n] && Restricts(model, e) && CondOf(model, e) == c;
          assert e in d;
        }
      }
    }
  }

  lemma ConditionsTruth(model: Model, d: Filters, row: Row)
    requires Conditions(model, d).Ok?
    ensures var cs := Conditions(model, d).value;
            && (Selected(cs, row) <==> forall e | e in d && Restricts(model, e) :: EntryTruth(model, e, row) == T)
            && ((exists c :: c in cs && Eval(c, row) == T)
                <==> exists e :: e in d && Restricts(model, e) && EntryTruth(model, e, row) == T)
            && (cs == [] <==> forall e | e in d :: !Restricts(model, e))
  {
    ConditionsAre(model, d);
    var cs := Conditions(model, d).value;
    forall e | e in d && Restricts(model, e) ensures CondOf(model, e) in cs && EntryTruth(model, e, row) == Eval(CondOf(model, e), row) {}
    hide Conditions, Contribution, Eval;
    if cs != [] {
      assert cs[0] in cs;
    }
  }

  ghost predicate Admits(model: Model, d: Filters, conjunction: bool, row: Row) {
    if conjunction then forall e | e in d && Restricts(model, e) :: EntryTruth(model, e, row) == T
    else (forall e | e in d :: !Restricts(model, e))
         || exists e :: e in d && Restricts(model, e) && EntryTruth(model, e, row) == T
  }

  lemma SelectedConcat(a: seq<Cond>, b: seq<Cond>, row: Row)
    ensures Selected(a + b, row) <==> Selected(a, row) && Selected(b, row)
  {
    assert forall c :: c in a + b <==> c in a || c in b;
  }

  /**
   `build_filters` keeps the rows on which every restricting entry is true, `build_or_filters`
   those on which some is; a dictionary that restricts nothing leaves the statement alone.
   */
  lemma FilterSelects(model: Model, clauses: seq<Cond>, d: Filters, conjunction: bool, row: Row)
    requires Filter(model, clauses, d, conjunction).Ok?
    ensures Selected(Filter(model, clauses, d, conjunction).value, row)
            <==> Selected(clauses, row) && Admits(model, d, conjunction, row)
  {
    ConditionsTruth(model, d, row);
    var cs := Conditions(model, d).value;
    var clause := if conjunction then And(cs) else Or(cs);
    WhereSelects(clauses, cs, conjunction, row);
    if cs == [] {
      assert Selected(cs, row);
    }
    hide Conditions, Restricts, EntryTruth, Where;
  }

  lemma WhereSelects(clauses: seq<Cond>, cs: seq<Cond>, conjunction: bool, row: Row)
    ensures Selected(Where(clauses, cs, conjunction), row)
            <==> Selected(clauses, row)
                 && (cs == [] || (if conjunction then Selected(cs, row) else exists c :: c in cs && Eval(c, row) == T))
  {
    AllIsTrue(cs, row);
    AnyIsTrue(cs, row);
    var clause := if conjunction then And(cs) else Or(cs);
    SelectedConcat(clauses, [clause], row);
    assert [clause][0] == clause;
    assert Selected([clause], row) <==> Eval(clause, row) == T;
    assert Eval(clause, row) == if conjunction then EvalAll(cs, row) else EvalAny(cs, row);
  }

  /** The order of the keys does not matter: not for raising, not for the rows selected. */
  lemma KeyOrderDoesNotMatter(model: Model, clauses: seq<Cond>, d: Filters, d': Filters, conjunction: bool, row: Row)
    requires SameElements(d, d')
    ensures var r, r' := Filter(model, clauses, d, conjunction), Filter(model, clauses, d', conjunction);
            (r.Ok? <==> r'.Ok?) && (r.Ok? ==> (Selected(r.value, row) <==> Selected(r'.value, row)))
  {
    assert forall e :: e in d <==> e in multiset(d);
    assert forall e :: e in d' <==> e in multiset(d');
    hide Conditions, Contribution, Selected, Where;
    ConditionsOk(model, d);
    ConditionsOk(model, d');
    if Filter(model, clauses, d, conjunction).Ok? {
      FilterSelects(model, clauses, d, conjunction, row);
      FilterSelects(model, clauses, d', conjunction, row);
    }
  }

  function Relevant(model: Model, d: Filters): Filters {
    if d == [] then []
    else
      var rest := Relevant(model, d[..|d| - 1]);
      if Contribution(model, d[|d| - 1]) == Ok(None) then rest else rest + [d[|d| - 1]]
  }

  /** None values, unknown fields and unknown operators can be left out without any effect. */
  lemma {:induction false} IgnoredEntriesHaveNoEffect(model: Model, d: Filters)
    ensures Conditions(model, Relevant(model, d)) == Conditions(model, d)
  {
    hide Contribution, Conditions;
    if d == [] {
      assert Relevant(model, d) == d;
    } else {
      var n := |d| - 1;
      IgnoredEntriesHaveNoEffect(model, d[..n]);
      assert d == d[..n] + [d[n]];
      ConditionsSnoc(model, d[..n], d[n]);
      ConditionsSnoc(model, Relevant(model, d[..n]), d[n]);
    }
  }

  function Extended(cs: Result<seq<Cond>, BuildError>, c: Result<Option<Cond>, BuildError>): Result<seq<Cond>, BuildError> {
    if cs.Err? then cs
    else if c.Err? then Err(c.error)
    else if c.value.None? then cs
    else Ok(cs.value + [c.value.value])
  }

  lemma ConditionsSnoc(model: Model, d: Filters, e: Entry)
    ensures Conditions(model, d + [e]) == Extended(Conditions(model, d), Contribution(model, e))
  {
    hide Contribution;
    assert (d + [e])[..|d|] == d;
  }

  // ---------------------------------------------------------------- the advanced builder

  lemma FilterExtends(model: Model, before: seq<Cond>, clauses: seq<Cond>, d: Filters, conjunction: bool)
    ensures var r, r' := Filter(model, clauses, d, conjunction), Filter(model, before + clauses, d, conjunction);
            && (r.Err? ==> r' == r)
            && (r.Ok? ==> r' == Ok(before + r.value))
  {
    var cs := Conditions(model, d);
    if cs.Ok? && cs.value != [] {
      var clause := if conjunction then And(cs.value) else Or(cs.value);
      assert before + (clauses + [clause]) == before + clauses + [clause];
    }
  }

  lemma {:induction false} ComposedExtends(model: Model, clauses: seq<Cond>, ands: Filters, ors: Filters, groups: seq<Filters>)
    ensures var g, r := Composed(model, [], ands, ors, groups), Composed(model, clauses, ands, ors, groups);
            && (g.Err? ==> r == g)
            && (g.Ok? ==> r == Ok(clauses + g.value))
  {
    if groups != [] {
      var n := |groups| - 1;
      ComposedExtends(model, clauses, ands, ors, groups[..n]);
      var g := Composed(model, [], ands, ors, groups[..n]);
      if g.Ok? {
        FilterExtends(model, clauses, g.value, groups[n], false);
      }
    } else {
      assert clauses + [] == clauses;
      FilterExtends(model, clauses, [], ands, true);
      var g := Filter(model, [], ands, true);
      if g.Ok? {
        FilterExtends(model, clauses, g.value, ors, false);
      }
    }
  }

  /**
   `build_filters_advanced` raises exactly when the chain of simple builders does, with the same
   error, and otherwise selects exactly the rows that the chain selects.
   */
  lemma AdvancedIsComposition(model: Model, clauses: seq<Cond>, ands: Filters, ors: Filters, groups: seq<Filters>, row: Row)
    ensures var g, r := Gathered(model, ands, ors, groups), Composed(model, clauses, ands, ors, groups);
            && (g.Err? <==> r.Err?) && (g.Err? ==> g.error == r.error)
            && (g.Ok? ==> (Selected(Where(clauses, g.value, true), row) <==> Selected(r.value, row)))
  {
    ComposedExtends(model, clauses, ands, ors, groups);
    var g := Gathered(model, ands, ors, groups);
    if g.Ok? {
      WhereSelects(clauses, g.value, true, row);
      SelectedConcat(clauses, g.value, row);
    }
  }

  ghost predicate AdmitsAll(model: Model, groups: seq<Filters>, row: Row) {
    forall g | g in groups :: Admits(model, g, false, row)
  }

  /** So a row is selected when the AND part, the OR part and every group admit it. */
  lemma {:induction false} ComposedSelects(model: Model, clauses: seq<Cond>, ands: Filters, ors: Filters, groups: seq<Filters>, row: Row)
    requires Composed(model, clauses, ands, ors, groups).Ok?
    ensures Selected(Composed(model, clauses, ands, ors, groups).value, row)
            <==> Selected(clauses, row) && Admits(model, ands, true, row) && Admits(model, ors, false, row)
                 && AdmitsAll(model, groups, row)
  {
    hide Filter, Selected, Admits;
    if groups != [] {
      var n := |groups| - 1;
      ComposedSelects(model, clauses, ands, ors, groups[..n], row);
      FilterSelects(model, Composed(model, clauses, ands, ors, groups[..n]).value, groups[n], false, row);
      assert groups == groups[..n] + [groups[n]];
    } else {
      FilterSelects(model, clauses, ands, true, row);
      FilterSelects(model, Filter(model, clauses, ands, true).value, ors, false, row);
    }
  }
}
