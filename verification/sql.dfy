/** The pieces of BigQuery SQL the fallback templates are made of: decimal
    numerals, date windows counted in days before `CURRENT_DATE()`, and the
    arithmetic of the metric columns (`/`, `*`, `NULLIF`, `ROUND`) with the
    engine's NULL propagation and division-by-zero error. */
module Sql {

  // ---------------------------------------------------------------- numerals

  predicate IsDigit(c: char) {
    '0' <= c <= '9'
  }

  function DigitChar(d: nat): (c: char)
    requires d < 10
    ensures IsDigit(c) && c as int - '0' as int == d
  {
    ('0' as int + d) as char
  }

  /** The decimal numeral of `n`, without sign or leading zeros. */
  function DecimalText(n: nat): (r: string)
    ensures 0 < |r|
    ensures forall i :: 0 <= i < |r| ==> IsDigit(r[i])
    ensures |r| > 1 ==> r[0] != '0'
    decreases n
  {
    if n < 10 then [DigitChar(n)] else DecimalText(n / 10) + [DigitChar(n % 10)]
  }

  /** Reads a string of digits as a number, most significant digit first. */
  function ParseDecimal(s: string): nat
    requires forall i :: 0 <= i < |s| ==> IsDigit(s[i])
    decreases |s|
  {
    if |s| == 0 then 0
    else
      assert IsDigit(s[|s| - 1]);
      10 * ParseDecimal(s[..|s| - 1]) + (s[|s| - 1] as int - '0' as int)
  }

  /** Reading back a rendered numeral gives the number. */
  lemma {:induction false} DecimalRoundTrip(n: nat)
    ensures ParseDecimal(DecimalText(n)) == n
    decreases n
  {
    var r := DecimalText(n);
    if n >= 10 {
      DecimalRoundTrip(n / 10);
      assert r[..|r| - 1] == DecimalText(n / 10);
    }
  }

  /** Different numbers are rendered differently. */
  lemma DecimalInjective(m: nat, n: nat)
    requires DecimalText(m) == DecimalText(n)
    ensures m == n
  {
    DecimalRoundTrip(m);
    DecimalRoundTrip(n);
  }

  // ----------------------------------------------------------------- windows

  /** A set of dates, each date measured by its age: how many days before
      `CURRENT_DATE()` it lies (negative for future dates). */
  datatype Window =
    | Between(oldest: nat, newest: nat)   // date BETWEEN <oldest> AND <newest>
    | Since(days: nat)                    // date >= <days>

  /** The dates a window's `WHERE` condition keeps; `BETWEEN` is inclusive
      at both ends. */
  predicate InWindow(w: Window, age: int) {
    match w
    case Between(oldest, newest) => newest <= age <= oldest
    case Since(days) => age <= days
  }

  /** `CURRENT_DATE()` for zero, `DATE_SUB(CURRENT_DATE(), INTERVAL n DAY)`
      otherwise. */
  function DaysBack(n: nat): (r: string)
    ensures n == 0 <==> r == "CURRENT_DATE()"
  {
    if n == 0 then "CURRENT_DATE()"
    else
      var r := "DATE_SUB(CURRENT_DATE(), INTERVAL " + DecimalText(n) + " DAY)";
      assert r[0] != "CURRENT_DATE()"[0];
      r
  }

  /** The `WHERE` condition of a window. */
  function WindowSql(w: Window): string {
    match w
    case Between(oldest, newest) => "date BETWEEN " + DaysBack(oldest) + " AND " + DaysBack(newest)
    case Since(days) => "date >= " + DaysBack(days)
  }

  /** Today and the 30 days before it. */
  const LastThirtyDays := Between(30, 0)
  /** The 30 days before those. */
  const PriorThirtyDays := Between(60, 31)

  /** The integers from `lo` to `hi` inclusive. */
  function Interval(lo: int, hi: int): (r: set<int>)
    ensures forall a :: a in r <==> lo <= a <= hi
    ensures lo <= hi + 1 ==> |r| == hi - lo + 1
    decreases hi - lo
  {
    if lo > hi then {} else Interval(lo, hi - 1) + {hi}
  }

  /** The days a bounded window covers. */
  function Days(w: Window): (d: set<int>)
    requires w.Between?
    ensures forall age :: age in d <==> InWindow(w, age)
  {
    Interval(w.newest, w.oldest)
  }

  /** The two periods compared by the two-period report share no day, leave
      no gap, together cover the 61 days up to today, and are 31 and 30 days
      long. */
  lemma PeriodsPartition()
    ensures forall age :: !(InWindow(LastThirtyDays, age) && InWindow(PriorThirtyDays, age))
    ensures forall age :: InWindow(LastThirtyDays, age) || InWindow(PriorThirtyDays, age) <==> 0 <= age <= 60
    ensures |Days(LastThirtyDays)| == 31 && |Days(PriorThirtyDays)| == 30
  {
  }

  // ------------------------------------------------------------- expressions

  /** A metric expression of the templates. `Col` is a column of the
      enclosing query, `Sum` an aggregate over a table column. */
  datatype Expr =
    | Col(name: string)
    | Sum(column: string)
    | Lit(n: nat)
    | Div(num: Expr, den: Expr)
    | Mul(left: Expr, right: Expr)
    | NullIf(arg: Expr, zero: nat)
    | Round(arg: Expr, digits: nat)

  function Render(e: Expr): string {
    match e
    case Col(name) => name
    case Sum(column) => "SUM(" + column + ")"
    case Lit(n) => DecimalText(n)
    case Div(a, b) => Render(a) + " / " + Render(b)
    case Mul(a, b) => Render(a) + " * " + Render(b)
    case NullIf(a, z) => "NULLIF(" + Render(a) + ", " + DecimalText(z) + ")"
    case Round(a, d) => "ROUND(" + Render(a) + ", " + DecimalText(d) + ")"
  }

  /** Every division divides by `NULLIF(_, 0)`. */
  predicate Guarded(e: Expr) {
    match e
    case Col(_) => true
    case Sum(_) => true
    case Lit(_) => true
    case Div(a, b) => b.NullIf? && b.zero == 0 && Guarded(a) && Guarded(b)
    case Mul(a, b) => Guarded(a) && Guarded(b)
    case NullIf(a, _) => Guarded(a)
    case Round(a, _) => Guarded(a)
  }

  // --------------------------------------------------------------- semantics

  datatype Value = Null | Num(x: real)

  /** What evaluating an expression yields: a value or the engine's
      "division by zero" error. */
  datatype Outcome = Ok(v: Value) | DivisionByZero

  /** The values of the query's columns and aggregates; a missing entry is
      NULL (`SUM` over no rows is NULL). */
  datatype Env = Env(columns: map<string, Value>, sums: map<string, Value>)

  function Lookup(m: map<string, Value>, k: string): Value {
    if k in m then m[k] else Null
  }

  function Pow10(d: nat): (p: nat)
    ensures p >= 1
  {
    if d == 0 then 1 else 10 * Pow10(d - 1)
  }

  /** `x` rounded to a multiple of `1 / p`, halves away from zero. */
  function RoundScaled(x: real, p: real): real
    requires p > 0.0
  {
    if x >= 0.0 then (x * p + 0.5).Floor as real / p
    else -((-x * p + 0.5).Floor as real / p)
  }

  /** `ROUND(x, d)`: to `d` decimal places, halves away from zero. */
  function RoundTo(x: real, d: nat): real {
    RoundScaled(x, Pow10(d) as real)
  }

  /** Halves go away from zero, so rounding commutes with negation. */
  lemma RoundOdd(x: real, d: nat)
    ensures RoundTo(-x, d) == -RoundTo(x, d)
  {
    if x == 0.0 {
      assert (0.5).Floor == 0;
    }
  }

  /** A tie, a value exactly halfway between two neighbours on the grid of
      `d` decimal places, rounds to the neighbour farther from zero, on both
      sides of zero. */
  lemma RoundHalfAway(k: nat, d: nat)
    ensures var p := Pow10(d) as real;
      RoundTo((k as real + 0.5) / p, d) == (k + 1) as real / p
      && RoundTo(-((k as real + 0.5) / p), d) == -((k + 1) as real / p)
  {
    var p := Pow10(d) as real;
    RoundScaledTie(k, p);
    RoundOdd((k as real + 0.5) / p, d);
  }

  lemma RoundScaledTie(k: nat, p: real)
    requires p > 0.0
    ensures RoundScaled((k as real + 0.5) / p, p) == (k + 1) as real / p
  {
    var x := (k as real + 0.5) / p;
    ScaleBack(k as real + 0.5, p);
    assert x >= 0.0;
    assert x * p + 0.5 == (k + 1) as real;
    RoundScaledNonNegative(x, p);
  }

  lemma RoundScaledNonNegative(x: real, p: real)
    requires p > 0.0 && x >= 0.0
    ensures RoundScaled(x, p) == (x * p + 0.5).Floor as real / p
  {
  }

  /** Dividing by a positive scale and scaling back is exact. */
  lemma ScaleBack(f: real, p: real)
    requires p > 0.0
    ensures (f / p) * p == f && -(f / p) * p == -f
  {
  }

  /** Rounding to the nearest integer, halves up, moves by at most one half. */
  lemma NearestInteger(y: real)
    ensures var f := (y + 0.5).Floor as real; -0.5 < f - y <= 0.5
  {
  }

  /** The rounded value, scaled by `p` (for `ROUND(x, d)`, `p` is `10^d`), is
      an integer within one half of the scaled input. */
  lemma RoundScaledClose(x: real, p: real)
    requires p > 0.0
    ensures -0.5 <= RoundScaled(x, p) * p - x * p <= 0.5
    ensures RoundScaled(x, p) * p == (RoundScaled(x, p) * p).Floor as real
  {
    if x >= 0.0 {
      var f := (x * p + 0.5).Floor;
      RoundScaledUp(x, p);
      NearestInteger(x * p);
      assert RoundScaled(x, p) * p == f as real;
    } else {
      var k := (-x * p + 0.5).Floor;
      RoundScaledDown(x, p);
      NearestInteger(-x * p);
      assert RoundScaled(x, p) * p == (-k) as real;
    }
  }

  lemma RoundScaledUp(x: real, p: real)
    requires p > 0.0 && x >= 0.0
    ensures RoundScaled(x, p) * p == (x * p + 0.5).Floor as real
  {
    ScaleBack((x * p + 0.5).Floor as real, p);
  }

  lemma RoundScaledDown(x: real, p: real)
    requires p > 0.0 && x < 0.0
    ensures RoundScaled(x, p) * p == -((-x * p + 0.5).Floor as real)
  {
    ScaleBack((-x * p + 0.5).Floor as real, p);
  }

  /** BigQuery's evaluation: NULL in, NULL out; `NULLIF(a, z)` is NULL when
      `a` equals `z`; dividing by zero is an error. */
  function Eval(e: Expr, env: Env): Outcome {
    match e
    case Col(name) => Ok(Lookup(env.columns, name))
    case Sum(column) => Ok(Lookup(env.sums, column))
    case Lit(n) => Ok(Num(n as real))
    case Div(a, b) => DivOutcome(Eval(a, env), Eval(b, env))
    case Mul(a, b) => MulOutcome(Eval(a, env), Eval(b, env))
    case NullIf(a, z) => NullIfOutcome(Eval(a, env), z)
    case Round(a, d) => RoundOutcome(Eval(a, env), d)
  }

  function DivOutcome(a: Outcome, b: Outcome): Outcome {
    match (a, b)
    case (Ok(Num(x)), Ok(Num(y))) => if y == 0.0 then DivisionByZero else Ok(Num(x / y))
    case (Ok(_), Ok(_)) => Ok(Null)
    case _ => DivisionByZero
  }

  function MulOutcome(a: Outcome, b: Outcome): Outcome {
    match (a, b)
    case (Ok(Num(x)), Ok(Num(y))) => Ok(Num(x * y))
    case (Ok(_), Ok(_)) => Ok(Null)
    case _ => DivisionByZero
  }

  function NullIfOutcome(a: Outcome, z: nat): Outcome {
    match a
    case Ok(Num(x)) => if x == z as real then Ok(Null) else Ok(Num(x))
    case other => other
  }

  function RoundOutcome(a: Outcome, d: nat): Outcome {
    match a
    case Ok(Num(x)) => Ok(Num(RoundTo(x, d)))
    case other => other
  }

  /** `NULLIF(_, 0)` never yields zero. */
  lemma NullIfZeroNotZero(a: Expr, env: Env)
    ensures Eval(NullIf(a, 0), env) != Ok(Num(0.0))
  {
  }

  /** A guarded expression never raises "division by zero", whatever the
      data. */
  lemma {:induction false} NullSafe(e: Expr, env: Env)
    requires Guarded(e)
    ensures Eval(e, env).Ok?
  {
    match e
    case Col(_) =>
    case Sum(_) =>
    case Lit(_) =>
    case Div(a, b) =>
      NullSafe(a, env);
      NullSafe(b, env);
      NullIfZeroNotZero(b.arg, env);
    case Mul(a, b) =>
      NullSafe(a, env);
      NullSafe(b, env);
    case NullIf(a, _) =>
      NullSafe(a, env);
    case Round(a, _) =>
      NullSafe(a, env);
  }

  /** A ratio over `NULLIF(d, 0)` is NULL exactly when the numerator is NULL
      or the denominator is NULL or zero, and is the quotient otherwise. */
  lemma GuardedRatio(n: Expr, d: Expr, env: Env)
    requires Eval(n, env).Ok? && Eval(d, env).Ok?
    ensures var r := Eval(Div(n, NullIf(d, 0)), env);
      r == Ok(Null) <==> (Eval(n, env) == Ok(Null) || Eval(d, env) == Ok(Null) || Eval(d, env) == Ok(Num(0.0)))
    ensures var r := Eval(Div(n, NullIf(d, 0)), env);
      (Eval(n, env).v.Num? && Eval(d, env).v.Num? && Eval(d, env).v.x != 0.0)
        ==> r == Ok(Num(Eval(n, env).v.x / Eval(d, env).v.x))
  {
    EvalGuardedDiv(n, d, env);
    GuardedDivOutcome(Eval(n, env), Eval(d, env));
  }

  lemma EvalGuardedDiv(n: Expr, d: Expr, env: Env)
    ensures Eval(Div(n, NullIf(d, 0)), env) == DivOutcome(Eval(n, env), NullIfOutcome(Eval(d, env), 0))
  {
  }

  lemma GuardedDivOutcome(a: Outcome, b: Outcome)
    requires a.Ok? && b.Ok?
    ensures var r := DivOutcome(a, NullIfOutcome(b, 0));
      (r == Ok(Null) <==> (a == Ok(Null) || b == Ok(Null) || b == Ok(Num(0.0))))
      && (a.v.Num? && b.v.Num? && b.v.x != 0.0 ==> r == Ok(Num(a.v.x / b.v.x)))
  {
  }

  /** The same ratio without the guard fails on a zero denominator. */
  lemma UnguardedRatioFails(n: Expr, d: Expr, env: Env)
    requires Eval(n, env).Ok? && Eval(n, env).v.Num? && Eval(d, env) == Ok(Num(0.0))
    ensures Eval(Div(n, d), env) == DivisionByZero
  {
  }
}
