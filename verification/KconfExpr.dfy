/** Kconfig dependency expressions (kconf/expr.h, kconf/expr.c): three-valued meaning,
    constant elimination and the equality test built on common-operand elimination. */
module KconfExpr {
  import opened Wrappers

  /** no = 0, mod = 1, yes = 2. */
  type Tri = x: int | 0 <= x <= 2

  datatype SymType = Unknown | Boolean | Tristate | Integer | Hex | Str | Other

  /** symbol_yes, symbol_mod and symbol_no are distinguished constants; every other symbol
      has an identity, a declared type and the SYMBOL_CONST flag. */
  datatype Sym = Y | M | N | Named(id: nat, kind: SymType, isConst: bool)

  function TypeOf(s: Sym): SymType {
    if s.Named? then s.kind else Unknown
  }

  predicate Const(s: Sym) {
    s.Named? ==> s.isConst
  }

  datatype Rel = Eq | Neq | Lt | Le | Gt | Ge

  datatype Op = AndOp | OrOp

  datatype Expr =
    | Symbol(sym: Sym)
    | Not(arg: Expr)
    | Bin(op: Op, left: Expr, right: Expr)
    | Cmp(rel: Rel, lhs: Sym, rhs: Sym)

  // ----- meaning -----

  /** Outcome of comparing the string values of two symbols: the sign of `res`, and whether
      the pair can be ordered at all. */
  datatype Order = Order(res: int, ordered: bool)

  datatype Valuation = Valuation(tri: Sym -> Tri, cmp: (Sym, Sym) -> Order)

  function Min(a: Tri, b: Tri): Tri { if a < b then a else b }
  function Max(a: Tri, b: Tri): Tri { if a > b then a else b }

  function Apply(op: Op, a: Tri, b: Tri): Tri {
    if op.AndOp? then Min(a, b) else Max(a, b)
  }

  function Truth(b: bool): Tri { if b then 2 else 0 }

  function Relate(rel: Rel, o: Order): Tri {
    match rel
    case Eq => Truth(o.res == 0)
    case Neq => Truth(o.res != 0)
    case Lt => Truth(o.ordered && o.res < 0)
    case Le => Truth(o.ordered && o.res <= 0)
    case Gt => Truth(o.ordered && o.res > 0)
    case Ge => Truth(o.ordered && o.res >= 0)
  }

  /** expr_calc_value. */
  function Eval(v: Valuation, e: Expr): Tri {
    match e
    case Symbol(s) => v.tri(s)
    case Not(a) => 2 - Eval(v, a)
    case Bin(op, l, r) => Apply(op, Eval(v, l), Eval(v, r))
    case Cmp(rel, l, r) => Relate(rel, v.cmp(l, r))
  }

  /** The three constants have their own values. */
  ghost predicate Constants(v: Valuation) {
    v.tri(Y) == 2 && v.tri(M) == 1 && v.tri(N) == 0
  }

  /** Boolean symbols are n or y, and a boolean or tristate symbol equals y, m or n exactly
      when it has that value. */
  ghost predicate WellFormed(v: Valuation) {
    && Constants(v)
    && (forall s: Sym :: TypeOf(s) == Boolean ==> v.tri(s) != 1)
    && (forall s: Sym, k: Sym :: (TypeOf(s) == Boolean || TypeOf(s) == Tristate) && !k.Named? ==>
          (v.cmp(s, k).res == 0 <==> v.tri(s) == v.tri(k)))
  }

  function Unit(op: Op): Expr {
    Symbol(if op.AndOp? then Y else N)
  }

  function Zero(op: Op): Expr {
    Symbol(if op.AndOp? then N else Y)
  }

  // ----- size -----

  function Size(e: Expr): nat {
    match e
    case Symbol(_) => 1
    case Not(a) => 1 + Size(a)
    case Bin(_, l, r) => 1 + Size(l) + Size(r)
    case Cmp(_, _, _) => 1
  }

  predicate Is(e: Expr, op: Op) {
    e.Bin? && e.op == op
  }

  // ----- expr_eliminate_yn -----

  function EliminateYn(e: Expr): Expr {
    match e
    case Bin(op, l, r) =>
      var l', r' := EliminateYn(l), EliminateYn(r);
      if l' == Zero(op) then Zero(op)
      else if l' == Unit(op) then r'
      else if r' == Zero(op) then Zero(op)
      else if r' == Unit(op) then l'
      else Bin(op, l', r')
    case _ => e
  }

  lemma {:induction false} YnKeepsValue(v: Valuation, e: Expr)
    requires Constants(v)
    ensures Eval(v, EliminateYn(e)) == Eval(v, e)
  {
    if e.Bin? {
      YnKeepsValue(v, e.left);
      YnKeepsValue(v, e.right);
    }
  }

  lemma {:induction false} YnNeverGrows(e: Expr)
    ensures Size(EliminateYn(e)) <= Size(e)
  {
    if e.Bin? {
      YnNeverGrows(e.left);
      YnNeverGrows(e.right);
    }
  }

  // ----- __expr_eliminate_eq, expr_eliminate_eq, expr_eq -----

  /** __expr_eliminate_eq: operands of `op` that occur on both sides become the unit. */
  function StripCommon(op: Op, a: Expr, b: Expr): (r: (Expr, Expr))
    ensures Size(r.0) <= Size(a) && Size(r.1) <= Size(b)
    ensures (Is(a, op) <==> Is(r.0, op)) && (Is(b, op) <==> Is(r.1, op))
    decreases Size(a) + Size(b), if Is(a, op) || Is(b, op) then 0 else 3
  {
    if Is(a, op) then
      var (l, b1) := StripCommon(op, a.left, b);
      var (r, b2) := StripCommon(op, a.right, b1);
      (Bin(op, l, r), b2)
    else if Is(b, op) then
      var (a1, l) := StripCommon(op, a, b.left);
      var (a2, r) := StripCommon(op, a1, b.right);
      (a2, Bin(op, l, r))
    else if a == b && (a == Symbol(Y) || a == Symbol(N)) then (a, b)
    else if !SameExpr(a, b) then (a, b)
    else (Unit(op), Unit(op))
  }

  /** expr_eliminate_eq on two present expressions. */
  function EliminateEq(a: Expr, b: Expr): (Expr, Expr)
    decreases Size(a) + Size(b), if a.Bin? && Is(b, a.op) then 1 else 3
  {
    var (a1, b1) := if a.Bin? then StripCommon(a.op, a, b) else (a, b);
    var (a2, b2) := if b1.Bin? && !Is(a1, b1.op) then StripCommon(b1.op, a1, b1) else (a1, b1);
    (EliminateYn(a2), EliminateYn(b2))
  }

  /** expr_eq. */
  predicate SameExpr(a: Expr, b: Expr)
    decreases Size(a) + Size(b), 2
  {
    match (a, b)
    case (Symbol(s), Symbol(t)) => s == t
    case (Cmp(r, s, t), Cmp(r', s', t')) => r == r' && s == s' && t == t'
    case (Not(x), Not(y)) => SameExpr(x, y)
    case (Bin(op, _, _), Bin(op', _, _)) =>
      op == op' && var (x, y) := EliminateEq(a, b); x.Symbol? && y.Symbol? && x.sym == y.sym
    case _ => false
  }

  lemma CombineParts(op: Op, m1: Tri, m2: Tri, l: Tri, l': Tri, r: Tri, r': Tri, b: Tri, b1: Tri, b2: Tri)
    requires l == Apply(op, m1, l') && b == Apply(op, m1, b1)
    requires r == Apply(op, m2, r') && b1 == Apply(op, m2, b2)
    ensures Apply(op, l, r) == Apply(op, Apply(op, m1, m2), Apply(op, l', r'))
    ensures b == Apply(op, Apply(op, m1, m2), b2)
  {
  }

  /** The invariant of elimination: one common value m is stripped from both sides. */
  lemma {:induction false} StripsCommonPart(v: Valuation, op: Op, a: Expr, b: Expr) returns (m: Tri)
    requires Constants(v)
    ensures Eval(v, a) == Apply(op, m, Eval(v, StripCommon(op, a, b).0))
    ensures Eval(v, b) == Apply(op, m, Eval(v, StripCommon(op, a, b).1))
    decreases Size(a) + Size(b), if Is(a, op) || Is(b, op) then 0 else 3
  {
    if Is(a, op) {
      var (l, b1) := StripCommon(op, a.left, b);
      var (r, b2) := StripCommon(op, a.right, b1);
      var m1 := StripsCommonPart(v, op, a.left, b);
      var m2 := StripsCommonPart(v, op, a.right, b1);
      m := Apply(op, m1, m2);
      assert StripCommon(op, a, b) == (Bin(op, l, r), b2);
      CombineParts(op, m1, m2, Eval(v, a.left), Eval(v, l), Eval(v, a.right), Eval(v, r), Eval(v, b), Eval(v, b1), Eval(v, b2));
    } else if Is(b, op) {
      var (a1, l) := StripCommon(op, a, b.left);
      var (a2, r) := StripCommon(op, a1, b.right);
      var m1 := StripsCommonPart(v, op, a, b.left);
      var m2 := StripsCommonPart(v, op, a1, b.right);
      m := Apply(op, m1, m2);
      assert StripCommon(op, a, b) == (a2, Bin(op, l, r));
      CombineParts(op, m1, m2, Eval(v, b.left), Eval(v, l), Eval(v, b.right), Eval(v, r), Eval(v, a), Eval(v, a1), Eval(v, a2));
    } else if SameExpr(a, b) && !(a == b && (a == Symbol(Y) || a == Symbol(N))) {
      SameExprSound(v, a, b);
      m := Eval(v, a);
    } else {
      m := v.tri(Unit(op).sym);
    }
  }

  /** expr_eq is sound: what it calls equal has equal value under every valuation. */
  lemma {:induction false} SameExprSound(v: Valuation, a: Expr, b: Expr)
    requires Constants(v) && SameExpr(a, b)
    ensures Eval(v, a) == Eval(v, b)
    decreases Size(a) + Size(b), 2
  {
    if a.Not? {
      SameExprSound(v, a.arg, b.arg);
    } else if a.Bin? {
      var m := StripsCommonPart(v, a.op, a, b);
      YnKeepsValue(v, StripCommon(a.op, a, b).0);
      YnKeepsValue(v, StripCommon(a.op, a, b).1);
    }
  }

  /** An absent expression is y. */
  function EvalOrY(v: Valuation, e: Option<Expr>): Tri {
    if e.None? then 2 else Eval(v, e.value)
  }

  /** expr_eliminate_eq. */
  function EliminateEqOpt(a: Option<Expr>, b: Option<Expr>): (Option<Expr>, Option<Expr>) {
    if a.None? || b.None? then (a, b) else var (x, y) := EliminateEq(a.value, b.value); (Some(x), Some(y))
  }

  /** expr_is_yes. */
  predicate IsYes(e: Option<Expr>) {
    e.None? || e.value == Symbol(Y)
  }

  /** If common-operand elimination reduces the second expression to y, the first one never
      exceeds it: the superset test of menu_finalize, where either may be absent. */
  lemma SupersetTest(v: Valuation, a: Option<Expr>, b: Option<Expr>)
    requires Constants(v) && IsYes(EliminateEqOpt(a, b).1)
    ensures EvalOrY(v, a) <= EvalOrY(v, b)
  {
    if a.Some? && b.Some? { Superset(v, a.value, b.value); }
  }

  lemma Superset(v: Valuation, a: Expr, b: Expr)
    requires Constants(v) && EliminateEq(a, b).1 == Symbol(Y)
    ensures Eval(v, a) <= Eval(v, b)
  {
    var (a1, b1) := if a.Bin? then StripCommon(a.op, a, b) else (a, b);
    var (a2, b2) := if b1.Bin? && !Is(a1, b1.op) then StripCommon(b1.op, a1, b1) else (a1, b1);
    assert Eval(v, a2) <= Eval(v, b2) by { YnKeepsValue(v, b2); }
    if b1.Bin? && !Is(a1, b1.op) { StripMonotone(v, b1.op, a1, b1); }
    if a.Bin? { StripMonotone(v, a.op, a, b); }
  }

  lemma StripMonotone(v: Valuation, op: Op, a: Expr, b: Expr)
    requires Constants(v) && Eval(v, StripCommon(op, a, b).0) <= Eval(v, StripCommon(op, a, b).1)
    ensures Eval(v, a) <= Eval(v, b)
  {
    var m := StripsCommonPart(v, op, a, b);
  }
}
