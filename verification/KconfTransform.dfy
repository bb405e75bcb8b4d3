/** Pushing negations inward (kconf/expr.c: expr_transform). */
module KconfTransform {
  import opened Wrappers
  import opened KconfExpr
  import opened KconfDups

  /** A boolean symbol tested against y, m or n. */
  predicate BooleanTest(e: Expr) {
    e.Cmp? && (e.rel.Eq? || e.rel.Neq?) && TypeOf(e.lhs) == Boolean && !e.rhs.Named?
  }

  /** Negation normal form: every negation sits on a symbol other than y, m and n, and no
      boolean symbol is tested against y, m or n. */
  predicate Normal(e: Expr) {
    match e
    case Symbol(_) => true
    case Not(a) => a.Symbol? && a.sym.Named?
    case Bin(_, l, r) => Normal(l) && Normal(r)
    case Cmp(_, _, _) => !BooleanTest(e)
  }

  function Dual(op: Op): Op { if op.AndOp? then OrOp else AndOp }

  function Flip(rel: Rel): Rel {
    match rel
    case Eq => Neq
    case Neq => Eq
    case Lt => Ge
    case Le => Gt
    case Gt => Le
    case Ge => Lt
  }

  function NotConst(s: Sym): Sym { if s == Y then N else if s == N then Y else M }

  function TransformTest(e: Expr): Expr
    requires BooleanTest(e)
  {
    if e.rel.Eq? then
      match e.rhs
      case N => Not(Symbol(e.lhs))
      case M => Symbol(N)
      case Y => Symbol(e.lhs)
    else
      match e.rhs
      case N => Symbol(e.lhs)
      case M => Symbol(Y)
      case Y => Not(Symbol(e.lhs))
  }

  /** Nodes other than negations: what a rewrite leaves constant. */
  function Weight(e: Expr): nat {
    match e
    case Symbol(_) => 1
    case Not(a) => Weight(a)
    case Bin(_, l, r) => 1 + Weight(l) + Weight(r)
    case Cmp(_, _, _) => 1
  }

  function LeadingNots(e: Expr): nat {
    if e.Not? then 1 + LeadingNots(e.arg) else 0
  }

  /** !(a || b) becomes !a && !b, and !(a && b) becomes !a || !b. */
  function DeMorgan(e: Expr): (r: Expr)
    requires e.Bin?
    ensures r.Bin? && Weight(r) == Weight(e)
  {
    var l, r := Not(e.left), Not(e.right);
    assert Weight(l) == Weight(e.left) && Weight(r) == Weight(e.right);
    Bin(Dual(e.op), l, r)
  }

  /** expr_transform.  It re-enters itself on the rebuilt tree after each De Morgan step;
      the weight is unchanged and the leading negations are gone. */
  function Transform(e: Expr): (r: Expr)
    ensures Normal(r) && Weight(r) == Weight(e)
    decreases Weight(e), LeadingNots(e)
  {
    match e
    case Symbol(_) => e
    case Cmp(_, _, _) => if BooleanTest(e) then TransformTest(e) else e
    case Bin(op, l, r) => Bin(op, Transform(l), Transform(r))
    case Not(a) =>
      match Transform(a)
      case Not(b) => Transform(b)
      case Cmp(rel, l, r) => Cmp(Flip(rel), l, r)
      case Bin(op, l, r) => Transform(DeMorgan(Bin(op, l, r)))
      case Symbol(s) => if s.Named? then Not(Symbol(s)) else Symbol(NotConst(s))
  }

  /** The value of e, or of !e, with the negations pushed down to the symbols and each comparison
      turned around as often as it is negated. */
  function Pushed(v: Valuation, e: Expr, neg: bool): Tri {
    match e
    case Symbol(s) => if neg then 2 - v.tri(s) else v.tri(s)
    case Not(a) => Pushed(v, a, !neg)
    case Bin(op, l, r) => Apply(if neg then Dual(op) else op, Pushed(v, l, neg), Pushed(v, r, neg))
    case Cmp(rel, l, r) => Relate(if neg then Flip(rel) else rel, v.cmp(l, r))
  }

  /** Under an odd number of negations, every ordering comparison is between symbols that can be
      ordered. */
  ghost predicate Ordered(v: Valuation, e: Expr, neg: bool) {
    match e
    case Symbol(_) => true
    case Not(a) => Ordered(v, a, !neg)
    case Bin(_, l, r) => Ordered(v, l, neg) && Ordered(v, r, neg)
    case Cmp(rel, l, r) => neg ==> rel.Eq? || rel.Neq? || v.cmp(l, r).ordered
  }

  /** What expr_transform computes, under every well-formed valuation. */
  lemma {:induction false} TransformPushes(v: Valuation, e: Expr, neg: bool)
    requires WellFormed(v)
    ensures Pushed(v, Transform(e), neg) == Pushed(v, e, neg)
    decreases Weight(e), LeadingNots(e)
  {
    match e
    case Symbol(_) =>
    case Cmp(_, _, _) =>
    case Bin(op, l, r) =>
      TransformPushes(v, l, neg);
      TransformPushes(v, r, neg);
    case Not(a) =>
      TransformPushes(v, a, !neg);
      var a' := Transform(a);
      if a'.Not? { TransformPushes(v, a'.arg, neg); }
      if a'.Bin? {
        DeMorganPushes(v, a', neg);
        TransformPushes(v, DeMorgan(a'), neg);
      }
  }

  lemma DeMorganPushes(v: Valuation, e: Expr, neg: bool)
    requires e.Bin?
    ensures Pushed(v, DeMorgan(e), neg) == Pushed(v, e, !neg)
  {
    assert Pushed(v, Not(e.left), neg) == Pushed(v, e.left, !neg) && Pushed(v, Not(e.right), neg) == Pushed(v, e.right, !neg);
  }

  lemma {:induction false} PushedIsValue(v: Valuation, e: Expr, neg: bool)
    requires Ordered(v, e, neg)
    ensures Pushed(v, e, neg) == if neg then 2 - Eval(v, e) else Eval(v, e)
  {
    match e
    case Symbol(_) =>
    case Not(a) => PushedIsValue(v, a, !neg);
    case Bin(_, l, r) =>
      PushedIsValue(v, l, neg);
      PushedIsValue(v, r, neg);
    case Cmp(_, _, _) =>
  }

  /** In normal form no comparison is negated. */
  lemma {:induction false} NormalOrdered(v: Valuation, e: Expr)
    requires Normal(e)
    ensures Ordered(v, e, false)
  {
    if e.Bin? {
      NormalOrdered(v, e.left);
      NormalOrdered(v, e.right);
    }
  }

  /** expr_transform keeps the value whenever the comparisons that it turns around can be ordered. */
  lemma TransformKeepsValue(v: Valuation, e: Expr)
    requires WellFormed(v) && Ordered(v, e, false)
    ensures Eval(v, Transform(e)) == Eval(v, e)
  {
    NormalOrdered(v, Transform(e));
    PushedIsValue(v, Transform(e), false);
    TransformPushes(v, e, false);
    PushedIsValue(v, e, false);
  }

  lemma {:induction false} TransformWithin(c: Constraints, e: Expr)
    requires Within(c, e)
    ensures Within(c, Transform(e))
    decreases Weight(e), LeadingNots(e)
  {
    match e
    case Symbol(_) =>
    case Cmp(_, _, _) =>
    case Bin(op, l, r) =>
      TransformWithin(c, l);
      TransformWithin(c, r);
    case Not(a) =>
      TransformWithin(c, a);
      var a' := Transform(a);
      if a'.Not? { TransformWithin(c, a'.arg); }
      if a'.Bin? {
        assert Within(c, Not(a'.left)) && Within(c, Not(a'.right));
        TransformWithin(c, DeMorgan(a'));
      }
  }

  /** Normal forms are exactly the expressions expr_transform leaves alone. */
  lemma {:induction false} TransformFixpoint(e: Expr)
    ensures Transform(e) == e <==> Normal(e)
    ensures Transform(Transform(e)) == Transform(e)
    decreases Weight(e)
  {
    if Normal(e) { NormalStays(e); }
    NormalStays(Transform(e));
  }

  lemma {:induction false} NormalStays(e: Expr)
    requires Normal(e)
    ensures Transform(e) == e
  {
    if e.Bin? {
      NormalStays(e.left);
      NormalStays(e.right);
    }
  }

  /** Turning a negated comparison around is exact if and only if it is an (in)equality or
      the two symbols can be ordered. */
  lemma FlipExact(v: Valuation, rel: Rel, l: Sym, r: Sym)
    ensures Eval(v, Not(Cmp(rel, l, r))) == Eval(v, Cmp(Flip(rel), l, r))
            <==> rel.Eq? || rel.Neq? || v.cmp(l, r).ordered
  {
  }

  /** !(a < b) for two symbols that cannot be ordered is y, and a >= b is n. */
  lemma FlipCanChange() returns (v: Valuation, e: Expr)
    ensures WellFormed(v) && Eval(v, e) == 2 && Eval(v, Transform(e)) == 0
  {
    var tri := (s: Sym) => if s == Y then 2 as Tri else if s == M then 1 else 0;
    var a, b := Named(0, Other, false), Named(1, Other, false);
    v := Valuation(tri, (s, t) => Order(tri(s) - tri(t), false));
    e := Not(Cmp(Lt, a, b));
    assert Transform(Cmp(Lt, a, b)) == Cmp(Lt, a, b);
  }

  // ----- the dependency of a menu entry -----

  /** rewrite_m: m becomes m && MODULES. */
  function RewriteM(modules: Sym, e: Expr): Expr {
    match e
    case Symbol(s) => if s == M then Bin(AndOp, e, Symbol(modules)) else e
    case Not(a) => Not(RewriteM(modules, a))
    case Bin(op, l, r) => Bin(op, RewriteM(modules, l), RewriteM(modules, r))
    case Cmp(_, _, _) => e
  }

  /** Without modules, m counts as n. */
  function Restricted(modules: Sym, v: Valuation): Valuation {
    var tri, m := v.tri, Min(v.tri(M), v.tri(modules));
    v.(tri := (s: Sym) => if s == M then m else tri(s))
  }

  lemma {:induction false} RewriteMRestricts(modules: Sym, v: Valuation, e: Expr, neg: bool)
    ensures Eval(v, RewriteM(modules, e)) == Eval(Restricted(modules, v), e)
    ensures Ordered(v, e, neg) ==> Ordered(v, RewriteM(modules, e), neg)
    ensures PlainConstants(e) ==> PlainConstants(RewriteM(modules, e))
  {
    match e
    case Symbol(_) =>
    case Not(a) => RewriteMRestricts(modules, v, a, !neg);
    case Bin(_, l, r) =>
      RewriteMRestricts(modules, v, l, neg);
      RewriteMRestricts(modules, v, r, neg);
    case Cmp(_, _, _) =>
  }

  /** expr_alloc_and: an absent expression is y. */
  function AllocAnd(a: Option<Expr>, b: Option<Expr>): Option<Expr> {
    if a.None? then b else if b.None? then a else Some(Bin(AndOp, a.value, b.value))
  }

  ghost predicate PlainOrNone(e: Option<Expr>) {
    e.None? || PlainConstants(e.value)
  }

  function Prepare(modules: Sym, own: Option<Expr>): Option<Expr> {
    if own.None? then None else Some(Transform(RewriteM(modules, own.value)))
  }

  lemma PrepareValue(modules: Sym, v: Valuation, own: Option<Expr>)
    requires WellFormed(v) && (own.Some? ==> Ordered(v, own.value, false))
    ensures EvalOrY(v, Prepare(modules, own)) == EvalOrY(Restricted(modules, v), own)
  {
    if own.Some? {
      RewriteMRestricts(modules, v, own.value, false);
      TransformKeepsValue(v, RewriteM(modules, own.value));
    }
  }

  lemma PreparePlain(modules: Sym, own: Option<Expr>)
    requires PlainOrNone(own)
    ensures PlainOrNone(Prepare(modules, own))
  {
    if own.Some? {
      RewriteMRestricts(modules, Standard(), own.value, false);
      TransformWithin(Plain(), RewriteM(modules, own.value));
    }
  }

  /** The dependency of a menu entry (menu_finalize) is the weaker of the parent's and its own,
      where the entry's own m counts as n without modules, and cannot be simplified further. */
  method Propagate(parent: Option<Expr>, own: Option<Expr>, modules: Sym) returns (dep: Option<Expr>)
    ensures dep.None? <==> parent.None? && own.None?
    ensures dep.Some? ==> FullPass(dep.value) == (dep.value, 0)
    ensures PlainOrNone(own) && PlainOrNone(parent) ==>
              forall v: Valuation :: WellFormed(v) && (own.Some? ==> Ordered(v, own.value, false)) ==>
                EvalOrY(v, dep) == Min(EvalOrY(v, parent), EvalOrY(Restricted(modules, v), own))
  {
    var both := AllocAnd(parent, Prepare(modules, own));
    if both.None? { return None; }
    var r := EliminateDups(both.value);
    dep := Some(r);
    if PlainOrNone(own) && PlainOrNone(parent) {
      PreparePlain(modules, own);
      assert PlainConstants(both.value);
      forall v: Valuation | WellFormed(v) && (own.Some? ==> Ordered(v, own.value, false))
        ensures EvalOrY(v, dep) == Min(EvalOrY(v, parent), EvalOrY(Restricted(modules, v), own))
      {
        PlainSeparates(v);
        PrepareValue(modules, v, own);
        assert Eval(v, both.value) == Eval(v, r);
      }
    }
  }
}
