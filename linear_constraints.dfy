/** The vocabulary of the `cassowary` constraint solver that `src/layout.rs`
    builds constraints in, as plain data: variables, linear expressions,
    weighted relations and strengths. Solving is not modelled; `Holds` gives
    the meaning of a constraint under an assignment of values to variables. */
module LinearConstraints {

  /** A `cassowary::Variable`, identified by a number. */
  type VarId = nat

  /** The strengths `src/layout.rs` uses. */
  datatype Strength = Required | Strong

  /** The weighted relations `src/layout.rs` uses: `EQ` and `GE`. */
  datatype Relation = Eq | Ge

  datatype Term = Term(variable: VarId, coefficient: real)

  /** A linear expression: a sum of weighted variables plus a constant. */
  datatype Expression = Expression(terms: seq<Term>, constant: real)

  /** `lhs |rel(strength)| rhs`. */
  datatype Constraint = Constraint(lhs: Expression, relation: Relation, strength: Strength, rhs: Expression)

  function Variable(v: VarId): Expression
  {
    Expression([Term(v, 1.0)], 0.0)
  }

  function Constant(c: real): Expression
  {
    Expression([], c)
  }

  /** `hi - lo`, the expression `src/layout.rs` writes as a difference of two variables. */
  function Difference(hi: VarId, lo: VarId): Expression
  {
    Expression([Term(hi, 1.0), Term(lo, -1.0)], 0.0)
  }

  function EvalTerms(ts: seq<Term>, a: VarId -> real): real
  {
    if ts == [] then 0.0 else ts[0].coefficient * a(ts[0].variable) + EvalTerms(ts[1..], a)
  }

  function Eval(e: Expression, a: VarId -> real): real
  {
    EvalTerms(e.terms, a) + e.constant
  }

  /** What the three expression builders evaluate to. */
  lemma EvalBuilders(v: VarId, hi: VarId, lo: VarId, c: real, a: VarId -> real)
    ensures Eval(Variable(v), a) == a(v)
    ensures Eval(Constant(c), a) == c
    ensures Eval(Difference(hi, lo), a) == a(hi) - a(lo)
  {
    var t := Variable(v).terms;
    assert EvalTerms(t, a) == 1.0 * a(v) + EvalTerms(t[1..], a);
    assert t[1..] == [];
    var d := Difference(hi, lo).terms;
    assert EvalTerms(d, a) == a(hi) + EvalTerms(d[1..], a);
    assert EvalTerms(d[1..], a) == -1.0 * a(lo) + EvalTerms(d[1..][1..], a);
    assert d[1..][1..] == [];
  }

  /** The constraint is met by the assignment `a`. */
  predicate Holds(c: Constraint, a: VarId -> real)
  {
    match c.relation
    case Eq => Eval(c.lhs, a) == Eval(c.rhs, a)
    case Ge => Eval(c.lhs, a) >= Eval(c.rhs, a)
  }

  /** Every constraint of the given strength is met by `a`. */
  predicate HoldsAt(cs: seq<Constraint>, s: Strength, a: VarId -> real)
  {
    forall c | c in cs && c.strength == s :: Holds(c, a)
  }

  /** The number of constraints of the given strength. */
  function Count(cs: seq<Constraint>, s: Strength): (n: nat)
    ensures n <= |cs|
  {
    if cs == [] then 0 else (if cs[0].strength == s then 1 else 0) + Count(cs[1..], s)
  }

  lemma {:induction false} CountAppend(xs: seq<Constraint>, ys: seq<Constraint>, s: Strength)
    ensures Count(xs + ys, s) == Count(xs, s) + Count(ys, s)
  {
    if xs != [] {
      assert (xs + ys)[1..] == xs[1..] + ys;
      CountAppend(xs[1..], ys, s);
    } else {
      assert xs + ys == ys;
    }
  }
}
