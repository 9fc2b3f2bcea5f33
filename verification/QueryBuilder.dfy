/**
 Filter dictionaries compiled to a condition tree, with SQL's three-valued meaning of the tree
 and the meaning the operator names promise. Dictionaries keep their order; a Python value
 arrives with what the builder asks of it (its text, its truth value, the day it denotes).
 */
module QueryBuilder {
  import opened Common
  import opened LikePattern

  datatype Scalar = Null | Num(n: int) | Text(s: string) | Moment(day: int, second: nat)

  /** `items` is set for lists and tuples; `day` is what `strptime` gives, or the date itself. */
  datatype Arg = Absent | Arg(one: Scalar, items: Option<seq<Scalar>>, text: string, truthy: bool, isStr: bool, day: Option<int>)

  datatype Comparison = Equal | Different | Greater | AtLeast | Less | AtMost

  datatype Cond =
    | Compare(op: Comparison, field: string, value: Scalar)
    | In(field: string, values: seq<Scalar>, negated: bool)
    | Match(field: string, pattern: string, anyCase: bool)
    | IsNull(field: string, negated: bool)
    | OnDay(field: string, day: Option<int>)
    | And(conds: seq<Cond>)
    | Or(conds: seq<Cond>)

  datatype BuildError = InvalidDate(field: string)

  type Row = map<string, Scalar>
  type Model = set<string>
  type Entry = (string, Arg)
  type Filters = seq<Entry>

  // ---------------------------------------------------------------- three-valued logic

  datatype Truth = T | F | U

  function Known(b: bool): Truth { if b then T else F }

  function Not3(a: Truth): Truth {
    match a case T => F case F => T case U => U
  }

  function And3(a: Truth, b: Truth): Truth {
    if a == F || b == F then F else if a == U || b == U then U else T
  }

  function Or3(a: Truth, b: Truth): Truth {
    if a == T || b == T then T else if a == U || b == U then U else F
  }

  predicate Before(s: string, t: string) {
    t != "" && (s == "" || s[0] < t[0] || (s[0] == t[0] && Before(s[1..], t[1..])))
  }

  function Equal3(a: Scalar, b: Scalar): Truth {
    match (a, b)
    case (Num(x), Num(y)) => Known(x == y)
    case (Text(x), Text(y)) => Known(x == y)
    case (Moment(d, s), Moment(e, t)) => Known(d == e && s == t)
    case (_, _) => U
  }

  function Less3(a: Scalar, b: Scalar): Truth {
    match (a, b)
    case (Num(x), Num(y)) => Known(x < y)
    case (Text(x), Text(y)) => Known(Before(x, y))
    case (Moment(d, s), Moment(e, t)) => Known(d < e || (d == e && s < t))
    case (_, _) => U
  }

  function Compare3(op: Comparison, a: Scalar, b: Scalar): Truth {
    match op
    case Equal => Equal3(a, b)
    case Different => Not3(Equal3(a, b))
    case Greater => Less3(b, a)
    case AtLeast => Not3(Less3(a, b))
    case Less => Less3(a, b)
    case AtMost => Not3(Less3(b, a))
  }

  function In3(a: Scalar, values: seq<Scalar>): Truth {
    if values == [] then F else Or3(In3(a, values[..|values| - 1]), Equal3(a, values[|values| - 1]))
  }

  function Column(row: Row, field: string): Scalar {
    if field in row then row[field] else Null
  }

  function Eval(c: Cond, row: Row): Truth
    decreases c, 0
  {
    match c
    case Compare(op, f, v) => Compare3(op, Column(row, f), v)
    case In(f, vs, negated) =>
      var t := In3(Column(row, f), vs);
      if negated then Not3(t) else t
    case Match(f, p, anyCase) =>
      (match Column(row, f) case Text(s) => Known(if anyCase then ILike(p, s) else Like(p, s)) case _ => U)
    case IsNull(f, negated) => Known(Column(row, f).Null? != negated)
    case OnDay(f, day) =>
      (match Column(row, f) case Moment(d, _) => (if day.Some? then Known(d == day.value) else U) case _ => U)
    case And(cs) => EvalAll(cs, row)
    case Or(cs) => EvalAny(cs, row)
  }

  function EvalAll(cs: seq<Cond>, row: Row): Truth
    decreases cs, 1
  {
    if cs == [] then T else And3(Eval(cs[0], row), EvalAll(cs[1..], row))
  }

  function EvalAny(cs: seq<Cond>, row: Row): Truth
    decreases cs, 1
  {
    if cs == [] then F else Or3(Eval(cs[0], row), EvalAny(cs[1..], row))
  }

  /** WHERE keeps the rows on which every clause is true, not merely not false. */
  predicate Selected(clauses: seq<Cond>, row: Row) {
    forall c | c in clauses :: Eval(c, row) == T
  }

  lemma {:induction false} AllIsTrue(cs: seq<Cond>, row: Row)
    ensures EvalAll(cs, row) == T <==> Selected(cs, row)
  {
    if cs != [] {
      AllIsTrue(cs[1..], row);
      assert cs == [cs[0]] + cs[1..];
      assert EvalAll(cs, row) == T <==> Eval(cs[0], row) == T && EvalAll(cs[1..], row) == T;
    }
  }

  lemma {:induction false} AnyIsTrue(cs: seq<Cond>, row: Row)
    ensures EvalAny(cs, row) == T <==> exists c :: c in cs && Eval(c, row) == T
  {
    if cs != [] {
      AnyIsTrue(cs[1..], row);
      assert cs == [cs[0]] + cs[1..];
      assert EvalAny(cs, row) == T <==> Eval(cs[0], row) == T || EvalAny(cs[1..], row) == T;
      if c :| c in cs && Eval(c, row) == T {
        assert c == cs[0] || c in cs[1..];
      }
    }
  }

  // ---------------------------------------------------------------- one condition

  /** `key.split('__', 1)` when the key contains a double underscore, else (key, 'eq'). */
  function Dunder(key: string, i: nat): nat
    requires i <= |key|
    ensures i <= Dunder(key, i) <= |key|
    decreases |key| - i
  {
    if |key| - i < 2 then |key|
    else if key[i] == '_' && key[i + 1] == '_' then i
    else Dunder(key, i + 1)
  }

  function FieldOf(key: string): string {
    key[..Dunder(key, 0)]
  }

  function OperatorOf(key: string): string {
    var i := Dunder(key, 0);
    if i + 2 <= |key| then key[i + 2..] else "eq"
  }

  function Single(model: Model, field: string, operator: string, value: Arg): Result<Option<Cond>, BuildError>
    requires value.Arg?
  {
    if field !in model then Ok(None)
    else if operator == "eq" then
      Ok(Some(if value.items.Some? then In(field, value.items.value, false) else Compare(Equal, field, value.one)))
    else if operator == "neq" then Ok(Some(Compare(Different, field, value.one)))
    else if operator == "icontains" then Ok(Some(Match(field, "%" + value.text + "%", true)))
    else if operator == "contains" then Ok(Some(Match(field, "%" + value.text + "%", false)))
    else if operator == "gt" then Ok(Some(Compare(Greater, field, value.one)))
    else if operator == "gte" then Ok(Some(Compare(AtLeast, field, value.one)))
    else if operator == "lt" then Ok(Some(Compare(Less, field, value.one)))
    else if operator == "lte" then Ok(Some(Compare(AtMost, field, value.one)))
    else if operator == "in" then
      Ok(Some(In(field, if value.items.Some? then value.items.value else [value.one], false)))
    else if operator == "nin" then
      Ok(Some(In(field, if value.items.Some? then value.items.value else [value.one], true)))
    else if operator == "isnull" then Ok(Some(IsNull(field, !value.truthy)))
    else if operator == "startswith" then Ok(Some(Match(field, value.text + "%", false)))
    else if operator == "istartswith" then Ok(Some(Match(field, value.text + "%", true)))
    else if operator == "endswith" then Ok(Some(Match(field, "%" + value.text, false)))
    else if operator == "iendswith" then Ok(Some(Match(field, "%" + value.text, true)))
    else if operator == "ci" || operator == "iexact" then Ok(Some(Match(field, value.text, true)))
    else if operator == "date" then
      if value.isStr && value.day.None? then Err(InvalidDate(field)) else Ok(Some(OnDay(field, value.day)))
    else Ok(None)
  }

  /** What one dictionary entry contributes: nothing, a condition, or an exception. */
  function Contribution(model: Model, e: Entry): Result<Option<Cond>, BuildError> {
    if e.1.Absent? then Ok(None) else Single(model, FieldOf(e.0), OperatorOf(e.0), e.1)
  }

  // ---------------------------------------------------------------- the builders

  function Conditions(model: Model, d: Filters): Result<seq<Cond>, BuildError> {
    if d == [] then Ok([])
    else
      match Conditions(model, d[..|d| - 1])
      case Err(e) => Err(e)
      case Ok(cs) =>
        match Contribution(model, d[|d| - 1])
        case Err(e) => Err(e)
        case Ok(None) => Ok(cs)
        case Ok(Some(c)) => Ok(cs + [c])
  }

  /** `stm.where(and_(*conditions))`, or the statement itself when there are none. */
  function Where(clauses: seq<Cond>, cs: seq<Cond>, conjunction: bool): seq<Cond> {
    if cs == [] then clauses else clauses + [if conjunction then And(cs) else Or(cs)]
  }

  function Filter(model: Model, clauses: seq<Cond>, d: Filters, conjunction: bool): Result<seq<Cond>, BuildError> {
    match Conditions(model, d)
    case Err(e) => Err(e)
    case Ok(cs) => Ok(Where(clauses, cs, conjunction))
  }

  /** `build_filters` on the AND part, then `build_or_filters` on the OR part and on each group in turn. */
  function Composed(model: Model, clauses: seq<Cond>, ands: Filters, ors: Filters, groups: seq<Filters>): Result<seq<Cond>, BuildError> {
    if groups != [] then
      match Composed(model, clauses, ands, ors, groups[..|groups| - 1])
      case Err(e) => Err(e)
      case Ok(clauses') => Filter(model, clauses', groups[|groups| - 1], false)
    else
      match Filter(model, clauses, ands, true)
      case Err(e) => Err(e)
      case Ok(clauses') => Filter(model, clauses', ors, false)
  }

  /** What `build_filters_advanced` gathers in `all_conditions`. */
  function Gathered(model: Model, ands: Filters, ors: Filters, groups: seq<Filters>): Result<seq<Cond>, BuildError> {
    Composed(model, [], ands, ors, groups)
  }

  method CollectConditions(model: Model, d: Filters) returns (r: Result<seq<Cond>, BuildError>)
    ensures r == Conditions(model, d)
  {
    var conditions: seq<Cond> := [];
    for i := 0 to |d|
      invariant Conditions(model, d[..i]) == Ok(conditions)
    {
      assert d[..i + 1][..i] == d[..i] && d[..i + 1][i] == d[i];
      var (key, value) := d[i];
      if value.Absent? {
        continue;
      }
      var condition := Single(model, FieldOf(key), OperatorOf(key), value);
      if condition.Err? {
        ErrorPropagates(model, d, i + 1);
        return Err(condition.error);
      }
      if condition.value.Some? {
        conditions := conditions + [condition.value.value];
      }
    }
    assert d[..|d|] == d;
    r := Ok(conditions);
  }

  lemma {:induction false} ErrorPropagates(model: Model, d: Filters, i: nat)
    requires i <= |d| && Conditions(model, d[..i]).Err?
    ensures Conditions(model, d) == Conditions(model, d[..i])
  {
    if i < |d| {
      assert d[..|d| - 1][..i] == d[..i];
      ErrorPropagates(model, d[..|d| - 1], i);
    } else {
      assert d[..i] == d;
    }
  }

  method BuildFilters(model: Model, clauses: seq<Cond>, d: Filters) returns (r: Result<seq<Cond>, BuildError>)
    ensures r == Filter(model, clauses, d, true)
  {
    var conditions := CollectConditions(model, d);
    if conditions.Err? {
      return Err(conditions.error);
    }
    return Ok(if conditions.value != [] then clauses + [And(conditions.value)] else clauses);
  }

  method BuildOrFilters(model: Model, clauses: seq<Cond>, d: Filters) returns (r: Result<seq<Cond>, BuildError>)
    ensures r == Filter(model, clauses, d, false)
  {
    var conditions := CollectConditions(model, d);
    if conditions.Err? {
      return Err(conditions.error);
    }
    return Ok(if conditions.value != [] then clauses + [Or(conditions.value)] else clauses);
  }

  method BuildFiltersAdvanced(model: Model, clauses: seq<Cond>, ands: Filters, ors: Filters, groups: seq<Filters>)
    returns (r: Result<seq<Cond>, BuildError>)
    ensures var g := Gathered(model, ands, ors, groups);
            && (g.Err? ==> r == Err(g.error))
            && (g.Ok? ==> r == Ok(Where(clauses, g.value, true)))
  {
    var all: seq<Cond> := [];
    var cs := CollectConditions(model, ands);
    if cs.Err? {
      AdvancedError(model, ands, ors, groups, 0);
      return Err(cs.error);
    }
    if cs.value != [] {
      all := all + [And(cs.value)];
    }
    cs := CollectConditions(model, ors);
    if cs.Err? {
      AdvancedError(model, ands, ors, groups, 0);
      return Err(cs.error);
    }
    if cs.value != [] {
      all := all + [Or(cs.value)];
    }
    for i := 0 to |groups|
      invariant Composed(model, [], ands, ors, groups[..i]) == Ok(all)
    {
      assert groups[..i + 1][..i] == groups[..i] && groups[..i + 1][i] == groups[i];
      cs := CollectConditions(model, groups[i]);
      if cs.Err? {
        AdvancedError(model, ands, ors, groups, i + 1);
        return Err(cs.error);
      }
      if cs.value != [] {
        all := all + [Or(cs.value)];
      }
    }
    assert groups[..|groups|] == groups;
    return Ok(if all != [] then clauses + [And(all)] else clauses);
  }

  lemma {:induction false} AdvancedError(model: Model, ands: Filters, ors: Filters, groups: seq<Filters>, i: nat)
    requires i <= |groups| && Composed(model, [], ands, ors, groups[..i]).Err?
    ensures Composed(model, [], ands, ors, groups) == Composed(model, [], ands, ors, groups[..i])
  {
    if i < |groups| {
      assert groups[..|groups| - 1][..i] == groups[..i];
      AdvancedError(model, ands, ors, groups[..|groups| - 1], i);
    } else {
      assert groups[..i] == groups;
    }
  }
}
