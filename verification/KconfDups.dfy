/** Removal of duplicate and redundant operands (kconf/expr.c: expr_join_or, expr_join_and,
    expr_eliminate_dups1, expr_eliminate_dups). */
module KconfDups {
  import opened Wrappers
  import opened KconfExpr

  /** For each symbol, constants that it may be compared with. */
  type Constraints = Sym -> set<Sym>

  /** Every constant that e tests a tristate symbol for is one of those given by c. */
  ghost predicate Within(c: Constraints, e: Expr) {
    match e
    case Symbol(_) => true
    case Not(a) => Within(c, a)
    case Bin(_, l, r) => Within(c, l) && Within(c, r)
    case Cmp(rel, l, r) => (rel.Eq? || rel.Neq?) && TypeOf(l) == Tristate && Const(r) ==> r in c(l)
  }

  /** y, m and n are always among them. */
  ghost predicate Admits(c: Constraints) {
    forall s: Sym :: {Y, M, N} <= c(s)
  }

  /** No tristate symbol equals two different constants that it may be compared with. */
  ghost predicate Separates(v: Valuation, c: Constraints) {
    forall s: Sym, x: Sym, z: Sym {:trigger v.cmp(s, x), v.cmp(s, z)} ::
      TypeOf(s) == Tristate && x in c(s) && z in c(s) && x != z ==> !(v.cmp(s, x).res == 0 && v.cmp(s, z).res == 0)
  }

  /** The constants that e compares s with, and y, m and n. */
  function Compared(e: Expr, s: Sym): set<Sym> {
    match e
    case Symbol(_) => {Y, M, N}
    case Not(a) => Compared(a, s)
    case Bin(_, l, r) => Compared(l, s) + Compared(r, s)
    case Cmp(_, l, r) => if l == s && Const(r) then {Y, M, N, r} else {Y, M, N}
  }

  ghost function ComparedIn(e: Expr): Constraints {
    (s: Sym) => Compared(e, s)
  }

  ghost function Plain(): Constraints {
    (s: Sym) => {Y, M, N}
  }

  /** Comparisons of a tristate symbol against constants use y, m or n only. */
  ghost predicate PlainConstants(e: Expr) {
    Within(Plain(), e)
  }

  lemma {:induction false} WithinOwn(c: Constraints, e: Expr)
    requires forall s: Sym :: Compared(e, s) <= c(s)
    ensures Within(c, e) && Admits(c)
  {
    match e
    case Symbol(_) =>
      forall s: Sym ensures {Y, M, N} <= c(s) { assert Compared(e, s) <= c(s); }
    case Not(a) =>
      assert forall s: Sym :: Compared(a, s) <= c(s) by {
        forall s: Sym ensures Compared(a, s) <= c(s) { assert Compared(e, s) <= c(s); }
      }
      WithinOwn(c, a);
    case Bin(_, l, r) =>
      forall s: Sym ensures Compared(l, s) <= c(s) && Compared(r, s) <= c(s) { assert Compared(e, s) <= c(s); }
      WithinOwn(c, l);
      WithinOwn(c, r);
    case Cmp(_, l, r) =>
      assert Compared(e, l) <= c(l);
      forall s: Sym ensures {Y, M, N} <= c(s) { assert Compared(e, s) <= c(s); }
  }

  lemma PlainSeparates(v: Valuation)
    requires WellFormed(v)
    ensures Separates(v, Plain()) && Admits(Plain())
  {
  }

  // ----- pairwise joins -----

  predicate IsCmp(e: Expr, rel: Rel) {
    e.Cmp? && e.rel == rel
  }

  predicate IsCmpTo(e: Expr, rel: Rel, s: Sym) {
    IsCmp(e, rel) && e.rhs == s
  }

  predicate Simple(e: Expr) {
    e.Symbol? || IsCmp(e, Eq) || IsCmp(e, Neq)
  }

  /** The symbol an operand is about, as the joins read it: under a negation the first
      operand may be a comparison, the second one only a symbol. */
  function Subject(e: Expr, first: bool): Option<Sym> {
    if e.Symbol? then Some(e.sym)
    else if Simple(e) then Some(e.lhs)
    else if e.Not? && e.arg.Symbol? then Some(e.arg.sym)
    else if e.Not? && first && Simple(e.arg) then Some(e.arg.lhs)
    else None
  }

  predicate EitherOrder(a: Expr, b: Expr, rel: Rel, s: Sym, t: Sym) {
    (IsCmpTo(a, rel, s) && IsCmpTo(b, rel, t)) || (IsCmpTo(a, rel, t) && IsCmpTo(b, rel, s))
  }

  predicate SymbolAnd(a: Expr, b: Expr, rel: Rel, s: Sym) {
    (a.Symbol? && IsCmpTo(b, rel, s)) || (b.Symbol? && IsCmpTo(a, rel, s))
  }

  /** expr_join_or. */
  function JoinOr(a: Expr, b: Expr): Option<Expr> {
    if SameExpr(a, b) then Some(a)
    else
      var s, t := Subject(a, true), Subject(b, false);
      if s.None? || t.None? || s != t then None
      else
        var ty := TypeOf(s.value);
        if ty != Boolean && ty != Tristate then None
        else if ty == Tristate && EitherOrder(a, b, Eq, Y, M) then Some(Cmp(Neq, s.value, N))
        else if ty == Tristate && EitherOrder(a, b, Eq, Y, N) then Some(Cmp(Neq, s.value, M))
        else if ty == Tristate && EitherOrder(a, b, Eq, M, N) then Some(Cmp(Neq, s.value, Y))
        else if ty == Boolean && ((a.Not? && a.arg.Symbol? && b.Symbol?) || (b.Not? && b.arg.Symbol? && a.Symbol?))
          then Some(Symbol(Y))
        else None
  }

  /** (a = x) && (a != z) for constants x and z. */
  function JoinEqNeq(s: Sym, x: Sym, z: Sym): Expr {
    if x != z then Cmp(Eq, s, x) else Symbol(N)
  }

  /** expr_join_and. */
  function JoinAnd(a: Expr, b: Expr): Option<Expr> {
    if SameExpr(a, b) then Some(a)
    else
      var s, t := Subject(a, true), Subject(b, false);
      if s.None? || t.None? || s != t then None
      else
        var ty := TypeOf(s.value);
        if ty != Boolean && ty != Tristate then None
        else if SymbolAnd(a, b, Eq, Y) then Some(Cmp(Eq, s.value, Y))
        else if SymbolAnd(a, b, Neq, N) then Some(Symbol(s.value))
        else if SymbolAnd(a, b, Neq, M) then Some(Cmp(Eq, s.value, Y))
        else if ty == Boolean then None
        else if IsCmp(a, Eq) && IsCmp(b, Neq) && Const(a.rhs) && Const(b.rhs) then Some(JoinEqNeq(s.value, a.rhs, b.rhs))
        else if IsCmp(a, Neq) && IsCmp(b, Eq) && Const(a.rhs) && Const(b.rhs) then Some(JoinEqNeq(s.value, b.rhs, a.rhs))
        else if EitherOrder(a, b, Neq, Y, N) then Some(Cmp(Eq, s.value, M))
        else if EitherOrder(a, b, Neq, Y, M) then Some(Cmp(Eq, s.value, N))
        else if EitherOrder(a, b, Neq, M, N) then Some(Cmp(Eq, s.value, Y))
        else None
  }

  function Join(op: Op, a: Expr, b: Expr): Option<Expr> {
    if op.OrOp? then JoinOr(a, b) else JoinAnd(a, b)
  }

  lemma JoinOrSound(v: Valuation, a: Expr, b: Expr)
    requires WellFormed(v) && JoinOr(a, b).Some?
    ensures Eval(v, JoinOr(a, b).value) == Max(Eval(v, a), Eval(v, b))
  {
    if SameExpr(a, b) { SameExprSound(v, a, b); }
  }

  lemma JoinAndSound(v: Valuation, c: Constraints, a: Expr, b: Expr)
    requires WellFormed(v) && Separates(v, c) && Within(c, a) && Within(c, b) && JoinAnd(a, b).Some?
    ensures Eval(v, JoinAnd(a, b).value) == Min(Eval(v, a), Eval(v, b))
  {
    if SameExpr(a, b) { SameExprSound(v, a, b); }
  }

  /** A join is no bigger than its first operand (or a
      leaf), and never has the operator of the level it is at. */
  lemma JoinShape(op: Op, a: Expr, b: Expr)
    requires Join(op, a, b).Some?
    ensures var j := Join(op, a, b).value;
            && Size(j) <= Size(a) && (!Is(a, op) ==> !Is(j, op))
  {
  }

  lemma JoinWithin(c: Constraints, op: Op, a: Expr, b: Expr)
    requires Admits(c) && Within(c, a) && Within(c, b) && Join(op, a, b).Some?
    ensures Within(c, Join(op, a, b).value)
  {
    assert forall s: Sym :: Y in c(s) && M in c(s) && N in c(s) by {
      forall s: Sym ensures Y in c(s) && M in c(s) && N in c(s) { assert {Y, M, N} <= c(s); }
    }
  }

  // ----- one pass: expr_eliminate_dups1 with both cursors in the same tree -----

  /** A cursor: the slot reached from the root of a level, true for the right child. */
  type Path = seq<bool>

  predicate OnLevel(op: Op, e: Expr, p: Path) {
    p == [] || (Is(e, op) && OnLevel(op, if p[0] then e.right else e.left, p[1..]))
  }

  function Get(op: Op, e: Expr, p: Path): Expr
    requires OnLevel(op, e, p)
  {
    if p == [] then e else Get(op, if p[0] then e.right else e.left, p[1..])
  }

  function Put(op: Op, e: Expr, p: Path, x: Expr): Expr
    requires OnLevel(op, e, p)
  {
    if p == [] then x
    else if p[0] then Bin(op, e.left, Put(op, e.right, p[1..], x))
    else Bin(op, Put(op, e.left, p[1..], x), e.right)
  }

  /** The same nodes of the level: only operands of the level differ. */
  predicate SameLevel(op: Op, a: Expr, b: Expr) {
    if Is(a, op) then Is(b, op) && SameLevel(op, a.left, b.left) && SameLevel(op, a.right, b.right)
    else !Is(b, op)
  }

  function LevelSize(op: Op, e: Expr): nat {
    if Is(e, op) then 1 + LevelSize(op, e.left) + LevelSize(op, e.right) else 1
  }

  lemma {:induction false} SameLevelRefl(op: Op, e: Expr)
    ensures SameLevel(op, e, e)
  {
    if Is(e, op) {
      SameLevelRefl(op, e.left);
      SameLevelRefl(op, e.right);
    }
  }

  lemma {:induction false} SameLevelTrans(op: Op, a: Expr, b: Expr, c: Expr)
    requires SameLevel(op, a, b) && SameLevel(op, b, c)
    ensures SameLevel(op, a, c)
  {
    if Is(a, op) {
      SameLevelTrans(op, a.left, b.left, c.left);
      SameLevelTrans(op, a.right, b.right, c.right);
    }
  }

  lemma {:induction false} SameLevelSize(op: Op, a: Expr, b: Expr)
    requires SameLevel(op, a, b)
    ensures LevelSize(op, a) == LevelSize(op, b)
  {
    if Is(a, op) {
      SameLevelSize(op, a.left, b.left);
      SameLevelSize(op, a.right, b.right);
    }
  }

  /** Cursors stay valid when only operands of the level change. */
  lemma {:induction false} SameLevelPath(op: Op, a: Expr, b: Expr, p: Path)
    requires SameLevel(op, a, b) && OnLevel(op, a, p)
    ensures OnLevel(op, b, p) && SameLevel(op, Get(op, a, p), Get(op, b, p))
    ensures LevelSize(op, Get(op, b, p)) == LevelSize(op, Get(op, a, p))
  {
    if p == [] {
      SameLevelSize(op, a, b);
    } else if p[0] {
      SameLevelPath(op, a.right, b.right, p[1..]);
    } else {
      SameLevelPath(op, a.left, b.left, p[1..]);
    }
  }

  /** Moving a cursor to a child. */
  lemma {:induction false} Descend(op: Op, e: Expr, p: Path, d: bool)
    requires OnLevel(op, e, p) && Is(Get(op, e, p), op)
    ensures OnLevel(op, e, p + [d])
    ensures Get(op, e, p + [d]) == if d then Get(op, e, p).right else Get(op, e, p).left
  {
    if p != [] {
      Descend(op, if p[0] then e.right else e.left, p[1..], d);
      assert (p + [d])[1..] == p[1..] + [d];
    }
  }

  lemma {:induction false} PutFacts(op: Op, e: Expr, p: Path, x: Expr)
    requires OnLevel(op, e, p)
    ensures Size(Put(op, e, p, x)) == Size(e) - Size(Get(op, e, p)) + Size(x)
    ensures Put(op, e, p, Get(op, e, p)) == e
    ensures p != [] ==> Size(Get(op, e, p)) < Size(e)
    ensures !Is(Get(op, e, p), op) && !Is(x, op) ==> SameLevel(op, e, Put(op, e, p, x))
  {
    if p != [] {
      PutFacts(op, if p[0] then e.right else e.left, p[1..], x);
      SameLevelRefl(op, if p[0] then e.left else e.right);
    }
  }

  /** Writing one operand leaves the others alone. */
  lemma {:induction false} GetOther(op: Op, e: Expr, p: Path, q: Path, x: Expr)
    requires OnLevel(op, e, p) && OnLevel(op, e, q) && p != q
    requires !Is(Get(op, e, p), op) && !Is(Get(op, e, q), op)
    ensures OnLevel(op, Put(op, e, p, x), q) && Get(op, Put(op, e, p, x), q) == Get(op, e, q)
  {
    if p != [] && q != [] && p[0] == q[0] {
      GetOther(op, if p[0] then e.right else e.left, p[1..], q[1..], x);
    }
  }

  /** expr_eliminate_dups1: compares every operand with every other one; returns the
      rewritten expression and the number of simplifications. */
  function Pass(op: Op, e: Expr, p: Path, q: Path): (r: (Expr, nat))
    requires OnLevel(op, e, p) && OnLevel(op, e, q)
    ensures SameLevel(op, e, r.0) && Size(r.0) <= Size(e)
    decreases Size(e), LevelSize(op, Get(op, e, p)) + LevelSize(op, Get(op, e, q))
  {
    var a, b := Get(op, e, p), Get(op, e, q);
    if Is(a, op) then
      Descend(op, e, p, false); Descend(op, e, p, true);
      var (e1, n1) := Pass(op, e, p + [false], q);
      SameLevelPath(op, e, e1, p + [true]); SameLevelPath(op, e, e1, q);
      var (e2, n2) := Pass(op, e1, p + [true], q);
      SameLevelTrans(op, e, e1, e2);
      (e2, n1 + n2)
    else if Is(b, op) then
      Descend(op, e, q, false); Descend(op, e, q, true);
      var (e1, n1) := Pass(op, e, p, q + [false]);
      SameLevelPath(op, e, e1, p); SameLevelPath(op, e, e1, q + [true]);
      var (e2, n2) := Pass(op, e1, p, q + [true]);
      SameLevelTrans(op, e, e1, e2);
      (e2, n1 + n2)
    else if p == q then
      SameLevelRefl(op, e);
      (e, 0)
    else
      PutFacts(op, e, p, a);
      var (a', n) := if a.Bin? then Pass(a.op, a, [], []) else (a, 0);
      PutFacts(op, e, p, a'); PutFacts(op, e, p, Unit(op));
      match Join(op, a', b)
      case None => (Put(op, e, p, a'), n)
      case Some(j) =>
        JoinShape(op, a', b);
        GetOther(op, e, p, q, Unit(op));
        PutFacts(op, Put(op, e, p, Unit(op)), q, j);
        SameLevelTrans(op, e, Put(op, e, p, Unit(op)), Put(op, Put(op, e, p, Unit(op)), q, j));
        (Put(op, Put(op, e, p, Unit(op)), q, j), n + 1)
  }

  // ----- a pass keeps the value -----

  lemma {:induction false} PutValue(v: Valuation, op: Op, e: Expr, p: Path, x: Expr)
    requires Constants(v) && OnLevel(op, e, p)
    ensures Eval(v, Put(op, e, p, x)) == Apply(op, Eval(v, Put(op, e, p, Unit(op))), Eval(v, x))
  {
    if p != [] {
      var child, other := if p[0] then e.right else e.left, if p[0] then e.left else e.right;
      PutValue(v, op, child, p[1..], x);
      Regroup(op, Eval(v, other), Eval(v, Put(op, child, p[1..], Unit(op))), Eval(v, x));
    }
  }

  lemma Regroup(op: Op, a: Tri, b: Tri, c: Tri)
    ensures Apply(op, a, Apply(op, b, c)) == Apply(op, Apply(op, a, b), c)
    ensures Apply(op, Apply(op, b, c), a) == Apply(op, Apply(op, b, a), c)
  {
  }

  /** Replacing one operand by another of the same value. */
  lemma PutSame(v: Valuation, op: Op, e: Expr, p: Path, x: Expr)
    requires Constants(v) && OnLevel(op, e, p) && Eval(v, x) == Eval(v, Get(op, e, p))
    ensures Eval(v, Put(op, e, p, x)) == Eval(v, e)
  {
    PutValue(v, op, e, p, x);
    PutValue(v, op, e, p, Get(op, e, p));
    PutFacts(op, e, p, x);
  }

  /** Replacing two operands by the unit and their join. */
  lemma PutJoin(v: Valuation, op: Op, e: Expr, p: Path, q: Path, j: Expr)
    requires Constants(v) && OnLevel(op, e, p) && OnLevel(op, e, q) && p != q
    requires !Is(Get(op, e, p), op) && !Is(Get(op, e, q), op)
    requires Eval(v, j) == Apply(op, Eval(v, Get(op, e, p)), Eval(v, Get(op, e, q)))
    ensures OnLevel(op, Put(op, e, p, Unit(op)), q)
    ensures Eval(v, Put(op, Put(op, e, p, Unit(op)), q, j)) == Eval(v, e)
  {
    var e1 := Put(op, e, p, Unit(op));
    GetOther(op, e, p, q, Unit(op));
    PutValue(v, op, e1, q, j);
    PutValue(v, op, e1, q, Get(op, e, q));
    PutFacts(op, e1, q, j);
    PutValue(v, op, e, p, Get(op, e, p));
    PutFacts(op, e, p, Unit(op));
  }

  lemma {:induction false} PutWithin(c: Constraints, op: Op, e: Expr, p: Path, x: Expr)
    requires OnLevel(op, e, p) && Within(c, e)
    ensures Within(c, Get(op, e, p))
    ensures Within(c, x) ==> Within(c, Put(op, e, p, x))
  {
    if p != [] { PutWithin(c, op, if p[0] then e.right else e.left, p[1..], x); }
  }

  /** One comparison of two different operands. */
  lemma StepSound(v: Valuation, c: Constraints, op: Op, e: Expr, p: Path, q: Path, a': Expr)
    requires WellFormed(v) && Admits(c) && Separates(v, c) && Within(c, e) && Within(c, a')
    requires OnLevel(op, e, p) && OnLevel(op, e, q) && p != q
    requires !Is(Get(op, e, p), op) && !Is(Get(op, e, q), op) && !Is(a', op)
    requires Eval(v, a') == Eval(v, Get(op, e, p)) && Join(op, a', Get(op, e, q)).Some?
    ensures var j := Join(op, a', Get(op, e, q)).value;
            && OnLevel(op, Put(op, e, p, Unit(op)), q)
            && Eval(v, Put(op, Put(op, e, p, Unit(op)), q, j)) == Eval(v, e)
            && Within(c, Put(op, Put(op, e, p, Unit(op)), q, j))
  {
    var b := Get(op, e, q);
    var j := Join(op, a', b).value;
    PutWithin(c, op, e, q, b);
    PutWithin(c, op, e, p, Unit(op));
    JoinShape(op, a', b);
    JoinWithin(c, op, a', b);
    if op.OrOp? { JoinOrSound(v, a', b); } else { JoinAndSound(v, c, a', b); }
    PutJoin(v, op, e, p, q, j);
    PutWithin(c, op, Put(op, e, p, Unit(op)), q, j);
  }

  lemma {:induction false} PassKeepsValue(v: Valuation, c: Constraints, op: Op, e: Expr, p: Path, q: Path)
    requires WellFormed(v) && Admits(c) && Separates(v, c) && Within(c, e) && OnLevel(op, e, p) && OnLevel(op, e, q)
    ensures Eval(v, Pass(op, e, p, q).0) == Eval(v, e) && Within(c, Pass(op, e, p, q).0)
    decreases Size(e), LevelSize(op, Get(op, e, p)) + LevelSize(op, Get(op, e, q))
  {
    var a, b := Get(op, e, p), Get(op, e, q);
    if Is(a, op) {
      Descend(op, e, p, false); Descend(op, e, p, true);
      var e1 := Pass(op, e, p + [false], q).0;
      PassKeepsValue(v, c, op, e, p + [false], q);
      SameLevelPath(op, e, e1, p + [true]); SameLevelPath(op, e, e1, q);
      PassKeepsValue(v, c, op, e1, p + [true], q);
    } else if Is(b, op) {
      Descend(op, e, q, false); Descend(op, e, q, true);
      var e1 := Pass(op, e, p, q + [false]).0;
      PassKeepsValue(v, c, op, e, p, q + [false]);
      SameLevelPath(op, e, e1, p); SameLevelPath(op, e, e1, q + [true]);
      PassKeepsValue(v, c, op, e1, p, q + [true]);
    } else if p != q {
      PutFacts(op, e, p, a);
      PutWithin(c, op, e, p, a);
      if a.Bin? { PassKeepsValue(v, c, a.op, a, [], []); }
      var a' := if a.Bin? then Pass(a.op, a, [], []).0 else a;
      PutFacts(op, e, p, a');
      if Join(op, a', b).Some? {
        StepSound(v, c, op, e, p, q, a');
      } else {
        PutSame(v, op, e, p, a');
        PutWithin(c, op, e, p, a');
      }
    }
  }

  // ----- a pass that simplifies leaves work for expr_eliminate_yn -----

  predicate Reducible(e: Expr) {
    Size(EliminateYn(e)) < Size(e)
  }

  lemma {:induction false} PutReducible(op: Op, e: Expr, p: Path, x: Expr)
    requires OnLevel(op, e, p) && (Reducible(x) || (p != [] && x == Unit(op)))
    ensures Reducible(Put(op, e, p, x))
  {
    if p != [] {
      var child, other := if p[0] then e.right else e.left, if p[0] then e.left else e.right;
      YnNeverGrows(other);
      if Reducible(x) || p[1..] != [] { PutReducible(op, child, p[1..], x); }
    }
  }

  /** The unit stays an operand when another operand is written. */
  lemma JoinReducible(op: Op, e: Expr, p: Path, q: Path, j: Expr)
    requires OnLevel(op, e, p) && OnLevel(op, e, q) && p != q
    requires !Is(Get(op, e, p), op) && !Is(Get(op, e, q), op) && !Is(j, op)
    ensures OnLevel(op, Put(op, e, p, Unit(op)), q) && Reducible(Put(op, Put(op, e, p, Unit(op)), q, j))
  {
    var e1 := Put(op, e, p, Unit(op));
    GetOther(op, e, p, q, Unit(op));
    PutFacts(op, e, p, Unit(op));
    SameLevelPath(op, e, e1, p);
    GetPut(op, e, p, Unit(op));
    GetOther(op, e1, q, p, j);
    var e2 := Put(op, e1, q, j);
    PutFacts(op, e2, p, Unit(op));
    PutReducible(op, e2, p, Unit(op));
  }

  lemma {:induction false} GetPut(op: Op, e: Expr, p: Path, x: Expr)
    requires OnLevel(op, e, p)
    ensures OnLevel(op, Put(op, e, p, x), p) && Get(op, Put(op, e, p, x), p) == x
  {
    if p != [] { GetPut(op, if p[0] then e.right else e.left, p[1..], x); }
  }

  /** A pass without simplification changes nothing; one with a simplification leaves a
      constant that expr_eliminate_yn removes. */
  lemma {:induction false} PassProgress(op: Op, e: Expr, p: Path, q: Path)
    requires OnLevel(op, e, p) && OnLevel(op, e, q)
    ensures Pass(op, e, p, q).1 == 0 ==> Pass(op, e, p, q).0 == e
    ensures Pass(op, e, p, q).1 > 0 ==> Reducible(Pass(op, e, p, q).0)
    decreases Size(e), LevelSize(op, Get(op, e, p)) + LevelSize(op, Get(op, e, q))
  {
    var a, b := Get(op, e, p), Get(op, e, q);
    if Is(a, op) {
      Descend(op, e, p, false); Descend(op, e, p, true);
      var e1 := Pass(op, e, p + [false], q).0;
      PassProgress(op, e, p + [false], q);
      SameLevelPath(op, e, e1, p + [true]); SameLevelPath(op, e, e1, q);
      PassProgress(op, e1, p + [true], q);
    } else if Is(b, op) {
      Descend(op, e, q, false); Descend(op, e, q, true);
      var e1 := Pass(op, e, p, q + [false]).0;
      PassProgress(op, e, p, q + [false]);
      SameLevelPath(op, e, e1, p); SameLevelPath(op, e, e1, q + [true]);
      PassProgress(op, e1, p, q + [true]);
    } else if p != q {
      PutFacts(op, e, p, a);
      if a.Bin? { PassProgress(a.op, a, [], []); }
      var a' := if a.Bin? then Pass(a.op, a, [], []).0 else a;
      PutFacts(op, e, p, a');
      if Join(op, a', b).Some? {
        JoinShape(op, a', b);
        JoinReducible(op, e, p, q, Join(op, a', b).value);
      } else if a.Bin? && Pass(a.op, a, [], []).1 > 0 {
        PutReducible(op, e, p, a');
      }
    }
  }

  /** Same value under every well-formed valuation that keeps the constants of c apart. */
  ghost predicate SameMeaning(c: Constraints, a: Expr, b: Expr) {
    forall v: Valuation :: WellFormed(v) && Separates(v, c) ==> Eval(v, a) == Eval(v, b)
  }

  function FullPass(e: Expr): (r: (Expr, nat))
    ensures Size(r.0) <= Size(e)
  {
    if e.Bin? then Pass(e.op, e, [], []) else (e, 0)
  }

  lemma FullPassProgress(e: Expr)
    ensures FullPass(e).1 == 0 ==> FullPass(e).0 == e
    ensures FullPass(e).1 > 0 ==> Reducible(FullPass(e).0)
  {
    if e.Bin? { PassProgress(e.op, e, [], []); }
  }

  lemma FullPassKeepsValue(c: Constraints, e: Expr)
    requires Admits(c) && Within(c, e)
    ensures SameMeaning(c, e, FullPass(e).0)
  {
    forall v: Valuation | WellFormed(v) && Separates(v, c) ensures Eval(v, e) == Eval(v, FullPass(e).0) {
      if e.Bin? { PassKeepsValue(v, c, e.op, e, [], []); }
    }
  }

  /** A well-formed valuation that keeps all constants apart: every symbol is n. */
  function Standard(): Valuation {
    var tri := (s: Sym) => if s == Y then 2 as Tri else if s == M then 1 else 0;
    Valuation(tri, (s: Sym, t: Sym) => Order(if t.Named? then 1 else tri(s) - tri(t), true))
  }

  lemma FullPassWithin(c: Constraints, e: Expr)
    requires Admits(c) && Within(c, e)
    ensures Within(c, FullPass(e).0)
  {
    if e.Bin? { PassKeepsValue(Standard(), c, e.op, e, [], []); }
  }

  lemma {:induction false} YnWithin(c: Constraints, e: Expr)
    requires Within(c, e)
    ensures Within(c, EliminateYn(e))
  {
    if e.Bin? { YnWithin(c, e.left); YnWithin(c, e.right); }
  }

  lemma YnSameMeaning(c: Constraints, a: Expr, b: Expr)
    requires SameMeaning(c, a, b)
    ensures SameMeaning(c, a, EliminateYn(b))
  {
    forall v: Valuation | WellFormed(v) && Separates(v, c) ensures Eval(v, a) == Eval(v, EliminateYn(b)) { YnKeepsValue(v, b); }
  }

  /** expr_eliminate_dups: the loop terminates, the result is no bigger and admits no further
      simplification.  It has the same value under every well-formed valuation in which no
      tristate symbol equals two different constants that e compares it with. */
  method EliminateDups(e: Expr) returns (r: Expr)
    ensures Size(r) <= Size(e) && FullPass(r) == (r, 0)
    ensures SameMeaning(ComparedIn(e), e, r)
    ensures PlainConstants(e) ==> SameMeaning(Plain(), e, r) && PlainConstants(r)
  {
    r := e;
    ghost var c := ComparedIn(e);
    WithinOwn(c, e);
    while true
      invariant Size(r) <= Size(e) && Admits(c) && c == ComparedIn(e)
      invariant SameMeaning(c, e, r) && Within(c, r)
      invariant PlainConstants(e) ==> SameMeaning(Plain(), e, r) && PlainConstants(r)
      decreases Size(r)
    {
      var (r1, transCount) := FullPass(r);
      FullPassProgress(r);
      if transCount == 0 { return; }
      RoundKeepsMeaning(c, e, r);
      if PlainConstants(e) { RoundKeepsMeaning(Plain(), e, r); }
      r := EliminateYn(r1);
    }
  }

  lemma RoundKeepsMeaning(c: Constraints, e: Expr, r: Expr)
    requires Admits(c) && SameMeaning(c, e, r) && Within(c, r)
    ensures SameMeaning(c, e, EliminateYn(FullPass(r).0)) && Within(c, EliminateYn(FullPass(r).0))
  {
    FullPassKeepsValue(c, r);
    FullPassWithin(c, r);
    YnSameMeaning(c, e, FullPass(r).0);
    YnWithin(c, FullPass(r).0);
  }

  /** Why plain constants: (a = x) && (a != z) is joined exactly when no value of a equals
      both constants, and a tristate that is y equals both "y" and "2". */
  lemma JoinEqNeqExact(v: Valuation, s: Sym, x: Sym, z: Sym)
    requires Constants(v) && x != z
    ensures Eval(v, JoinEqNeq(s, x, z)) == Min(Eval(v, Cmp(Eq, s, x)), Eval(v, Cmp(Neq, s, z)))
            <==> !(v.cmp(s, x).res == 0 && v.cmp(s, z).res == 0)
  {
  }

  lemma PlainConstantsNeeded() returns (v: Valuation, e: Expr)
    ensures WellFormed(v) && !PlainConstants(e) && Eval(v, FullPass(e).0) != Eval(v, e)
  {
    var a, two := Named(0, Tristate, false), Named(1, Unknown, true);
    var tri := (s: Sym) => if s == Y || s == a then 2 as Tri else if s == M then 1 else 0;
    v := Valuation(tri, (s, t) => if s == a && t == two then Order(0, true) else Order(tri(s) - tri(t), true));
    e := Bin(AndOp, Cmp(Eq, a, Y), Cmp(Neq, a, two));
    JoinsToY(a, two);
    TwoOperands(Cmp(Eq, a, Y), Cmp(Neq, a, two), Cmp(Eq, a, Y));
    assert Eval(v, e) == 0;
  }

  lemma JoinsToY(a: Sym, two: Sym)
    requires TypeOf(a) == Tristate && two.Named? && Const(two)
    ensures JoinAnd(Cmp(Eq, a, Y), Cmp(Neq, a, two)) == Some(Cmp(Eq, a, Y))
    ensures JoinAnd(Cmp(Eq, a, Y), Symbol(Y)) == None
  {
  }

  /** A pass over two operands that join to j. */
  lemma TwoOperands(l: Expr, r: Expr, j: Expr)
    requires !l.Bin? && !r.Bin? && !j.Bin? && JoinAnd(l, r) == Some(j) && JoinAnd(j, Symbol(Y)) == None
    ensures FullPass(Bin(AndOp, l, r)).0 == Bin(AndOp, Symbol(Y), j)
  {
    var e, e1 := Bin(AndOp, l, r), Bin(AndOp, Symbol(Y), j);
    assert [false][1..] == [] && [true][1..] == [] && [] + [false] == [false] && [] + [true] == [true];
    assert Get(AndOp, e, [true]) == Get(AndOp, r, [true][1..]) && Get(AndOp, e, [false]) == Get(AndOp, l, [false][1..]);
    assert Get(AndOp, e, [true]) == r && Get(AndOp, e, [false]) == l;
    assert Put(AndOp, e, [false], Symbol(Y)) == Bin(AndOp, Symbol(Y), r);
    assert Put(AndOp, Bin(AndOp, Symbol(Y), r), [true], j) == e1;
    assert Pass(AndOp, e, [false], []) == (e1, 1) by {
      assert Pass(AndOp, e, [false], [false]) == (e, 0);
      assert Pass(AndOp, e, [false], [true]) == (e1, 1);
    }
    assert Get(AndOp, e1, [true]) == j && Get(AndOp, e1, [false]) == Symbol(Y);
    assert Pass(AndOp, e1, [true], []) == (e1, 0) by {
      assert Put(AndOp, e1, [true], j) == e1;
      assert Pass(AndOp, e1, [true], [false]) == (e1, 0);
      assert Pass(AndOp, e1, [true], [true]) == (e1, 0);
    }
    assert Pass(AndOp, e, [], []) == (e1, 1);
  }
}
