/** The optimisation engine as seen by the formulators: variables with a
    domain, linear and boolean constraints, an objective, and what it
    means for an assignment of values to satisfy all of them.  The
    engine's search is not modelled; a solver answer is any assignment. */
module LinearModel {

  datatype Option<T> = None | Some(value: T)

  /** The bounds (absent bound: infinite) and the integrality a variable is declared with. */
  datatype Domain = Domain(lower: Option<real>, upper: Option<real>, integral: bool)

  /** A continuous variable in [lo, hi]. */
  function Interval(lo: real, hi: real): Domain {
    Domain(Some(lo), Some(hi), false)
  }

  /** A 0/1 variable (a boolean, or an integer variable in [0, 1]). */
  const Boolean: Domain := Domain(Some(0.0), Some(1.0), true)

  /** A continuous variable without bounds. */
  const Free: Domain := Domain(None, None, false)

  predicate InDomain(x: real, d: Domain) {
    && (d.lower.Some? ==> d.lower.value <= x)
    && (d.upper.Some? ==> x <= d.upper.value)
    && (d.integral ==> x == x.Floor as real)
  }

  lemma BooleanValue(x: real)
    requires InDomain(x, Boolean)
    ensures x == 0.0 || x == 1.0
  {
  }

  /** The term coef times v. */
  datatype Term<V> = Term(coef: real, v: V)

  /** The value of the linear expression (the sum of coef times v) under assignment a. */
  function Eval<V>(ts: seq<Term<V>>, a: V -> real): real {
    if ts == [] then 0.0 else ts[0].coef * a(ts[0].v) + Eval(ts[1..], a)
  }

  lemma {:induction false} EvalAppend<V>(xs: seq<Term<V>>, ys: seq<Term<V>>, a: V -> real)
    ensures Eval(xs + ys, a) == Eval(xs, a) + Eval(ys, a)
  {
    if xs != [] {
      assert (xs + ys)[1..] == xs[1..] + ys;
      EvalAppend(xs[1..], ys, a);
    } else {
      assert xs + ys == ys;
    }
  }

  lemma EvalOne<V>(t: Term<V>, a: V -> real)
    ensures Eval([t], a) == t.coef * a(t.v)
  {
  }

  lemma EvalTwo<V>(t1: Term<V>, t2: Term<V>, a: V -> real)
    ensures Eval([t1, t2], a) == t1.coef * a(t1.v) + t2.coef * a(t2.v)
  {
    assert [t1, t2][1..] == [t2];
    EvalOne(t2, a);
  }

  lemma EvalThree<V>(t1: Term<V>, t2: Term<V>, t3: Term<V>, a: V -> real)
    ensures Eval([t1, t2, t3], a) == t1.coef * a(t1.v) + t2.coef * a(t2.v) + t3.coef * a(t3.v)
  {
    assert [t1, t2, t3][1..] == [t2, t3];
    EvalTwo(t2, t3, a);
  }

  datatype Relation = AtMost | Equal | AtLeast

  datatype Constraint<V> =
    /** The sum of the terms compared with the bound. */
    | Linear(terms: seq<Term<V>>, rel: Relation, bound: real)
    /** when guard is true, every conjunct is true (an AND enforced only if guard) */
    | Implies(guard: V, conjuncts: seq<V>)

  predicate Holds<V>(a: V -> real, c: Constraint<V>) {
    match c
    case Linear(ts, rel, b) =>
      (match rel
       case AtMost => Eval(ts, a) <= b
       case Equal => Eval(ts, a) == b
       case AtLeast => Eval(ts, a) >= b)
    case Implies(g, xs) =>
      a(g) == 1.0 ==> forall i :: 0 <= i < |xs| ==> a(xs[i]) == 1.0
  }

  datatype Sense = Minimize | Maximize

  datatype Model<V> = Model(domains: map<V, Domain>, constraints: seq<Constraint<V>>,
                            sense: Sense, objective: seq<Term<V>>)

  /** A fresh model: no variables, no constraints, nothing to optimise. */
  function Empty<V>(): Model<V> {
    Model(map[], [], Minimize, [])
  }

  /** Creating a variable under key v (re-creating one replaces its declaration). */
  function Declare<V>(m: Model<V>, v: V, d: Domain): Model<V> {
    m.(domains := m.domains[v := d])
  }

  /** Appends constraint c to the model's constraints. */
  function Add<V>(m: Model<V>, c: Constraint<V>): Model<V> {
    m.(constraints := m.constraints + [c])
  }

  /** An assignment satisfies a model when every declared variable lies
      in its domain and every constraint holds. */
  predicate Satisfies<V>(a: V -> real, m: Model<V>) {
    && (forall v :: v in m.domains ==> InDomain(a(v), m.domains[v]))
    && (forall c :: c in m.constraints ==> Holds(a, c))
  }

  lemma SatisfiedConstraint<V>(a: V -> real, m: Model<V>, c: Constraint<V>)
    requires Satisfies(a, m) && c in m.constraints
    ensures Holds(a, c)
  {
  }

  /** m' was obtained from m by declaring variables and adding constraints. */
  predicate Extends<V>(m: Model<V>, m': Model<V>) {
    m.domains.Keys <= m'.domains.Keys && m.constraints <= m'.constraints
  }

  lemma ExtendsTrans<V>(m1: Model<V>, m2: Model<V>, m3: Model<V>)
    requires Extends(m1, m2) && Extends(m2, m3)
    ensures Extends(m1, m3)
  {
  }

  lemma ExtendsKeeps<V>(m: Model<V>, m': Model<V>, c: Constraint<V>)
    requires Extends(m, m') && c in m.constraints
    ensures c in m'.constraints
  {
  }
}
