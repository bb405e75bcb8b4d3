/** Evaluation of bool and tristate symbols (kconf/symbol.c: sym_calc_visibility,
    sym_calc_value, sym_clear_all_valid, sym_set_tristate_value): memoised and recursive in
    the program, compared here with plain evaluation. */
module KconfEval {
  import opened Wrappers
  import opened KconfExpr

  datatype Default = Default(value: Option<Expr>, cond: Option<Expr>)

  /** What the menu files say about a symbol: type, conditions of its prompts, defaults, the
      direct, reverse ("select") and weak reverse ("imply") dependencies, and the conditions under
      which it implies other symbols. */
  datatype Info = Info(kind: SymType, prompts: seq<Option<Expr>>, defaults: seq<Default>,
                       dirDep: Option<Expr>, revDep: Option<Expr>, implied: Option<Expr>,
                       implies: seq<Option<Expr>>)

  /** All symbols, whether modules are enabled, and the comparison of the string values of two
      symbols with given tristate values. */
  datatype Config = Config(tab: seq<Info>, modules: bool, order: (Sym, Tri, Sym, Tri) -> Order)

  type User = seq<Option<Tri>>

  datatype SymState = SymState(valid: bool, visible: Tri, dirDep: Tri, revDep: Tri, implied: Tri, curr: Tri)

  /** The symbols an expression reads. */
  function Reads(e: Expr): set<nat> {
    match e
    case Symbol(s) => Id(s)
    case Not(a) => Reads(a)
    case Bin(_, l, r) => Reads(l) + Reads(r)
    case Cmp(_, l, r) => Id(l) + Id(r)
  }

  function Id(s: Sym): set<nat> {
    if s.Named? then {s.id} else {}
  }

  function ReadsOpt(e: Option<Expr>): set<nat> {
    if e.Some? then Reads(e.value) else {}
  }

  function SymReads(d: Info): set<nat> {
    (set k, x | 0 <= k < |d.prompts| && x in ReadsOpt(d.prompts[k]) :: x) +
    (set k, x | 0 <= k < |d.defaults| && x in ReadsOpt(d.defaults[k].cond) + ReadsOpt(d.defaults[k].value) :: x) +
    ReadsOpt(d.dirDep) + ReadsOpt(d.revDep) + ReadsOpt(d.implied)
  }

  /** Every symbol that is read exists. */
  ghost predicate Closed(c: Config) {
    forall i, x :: 0 <= i < |c.tab| && x in SymReads(c.tab[i]) ==> x < |c.tab|
  }

  /** No symbol is read, directly or not, by its own expressions. */
  ghost predicate Acyclic(c: Config, rank: nat -> nat) {
    forall i, x :: 0 <= i < |c.tab| && x in SymReads(c.tab[i]) ==> rank(x) < rank(i)
  }

  // ----- one symbol from the values of the others -----

  /** The valuation given by symbol values f. */
  function Val(c: Config, f: nat -> Tri): Valuation {
    var tri := (s: Sym) => match s case Y => 2 as Tri case M => 1 case N => 0 case Named(id, _, _) => f(id);
    Valuation(tri, (s, t) => c.order(s, tri(s), t, tri(t)))
  }

  /** A missing expression is y. */
  function EvalOpt(v: Valuation, e: Option<Expr>): Tri {
    if e.Some? then Eval(v, e.value) else 2
  }

  /** sym_get_type for a symbol that is no choice value: tristate is bool without modules. */
  predicate IsBool(c: Config, i: nat)
    requires i < |c.tab|
  {
    c.tab[i].kind == Boolean || (c.tab[i].kind == Tristate && !c.modules)
  }

  function Promote(t: Tri, b: bool): Tri { if t == 1 && b then 2 else t }

  function AnyPrompt(v: Valuation, prompts: seq<Option<Expr>>): Tri {
    if prompts == [] then 0 else Max(AnyPrompt(v, prompts[..|prompts| - 1]), EvalOpt(v, prompts[|prompts| - 1]))
  }

  /** The first default whose condition is not n. */
  function DefaultValue(v: Valuation, ds: seq<Default>): Tri {
    if ds == [] then 0
    else if EvalOpt(v, ds[0].cond) != 0 then Min(EvalOpt(v, ds[0].value), EvalOpt(v, ds[0].cond))
    else DefaultValue(v, ds[1..])
  }

  function Visibility(c: Config, i: nat, v: Valuation): SymState
    requires i < |c.tab|
  {
    var d := c.tab[i];
    var b := IsBool(c, i);
    var dir := Promote(if d.dirDep.Some? then Eval(v, d.dirDep.value) else 2, b);
    SymState(true, Promote(AnyPrompt(v, d.prompts), d.kind != Tristate || !c.modules), dir,
             Promote(if d.revDep.Some? then Eval(v, d.revDep.value) else 0, b),
             Promote(if d.implied.Some? && dir != 0 then Eval(v, d.implied.value) else 0, b), 0)
  }

  /** The value from visibility, user value and default. */
  function NewValue(b: bool, s: SymState, user: Option<Tri>, dflt: Tri): Tri {
    var base := if s.visible != 0 && user.Some? then Min(user.value, s.visible) else Max(dflt, s.implied);
    Promote(Max(base, s.revDep), b || s.implied == 2)
  }

  function Compute(c: Config, user: User, i: nat, v: Valuation): SymState
    requires i < |c.tab| == |user|
  {
    if c.tab[i].kind != Boolean && c.tab[i].kind != Tristate then SymState(true, 0, 0, 0, 0, 0)
    else
      var s := Visibility(c, i, v);
      s.(curr := NewValue(IsBool(c, i), s, user[i], DefaultValue(v, c.tab[i].defaults)))
  }

  /** Plain evaluation, without memory, by descent along the rank. */
  function Plain(c: Config, user: User, rank: nat -> nat, i: nat): SymState
    requires |c.tab| == |user| && i < |c.tab|
    decreases rank(i), 1
  {
    Compute(c, user, i, Val(c, Below(c, user, rank, i)))
  }

  /** The values of the symbols of lower rank. */
  function Below(c: Config, user: User, rank: nat -> nat, i: nat): nat -> Tri
    requires |c.tab| == |user| && i < |c.tab|
    decreases rank(i), 0
  {
    (j: nat) => if j < |c.tab| && rank(j) < rank(i) then Plain(c, user, rank, j).curr else 0
  }

  /** Reading only symbols of lower rank, plain evaluation of an expression does not depend on
      how the rest is filled in. */
  lemma {:induction false} EvalAgree(c: Config, f: nat -> Tri, g: nat -> Tri, e: Expr)
    requires forall x :: x in Reads(e) ==> f(x) == g(x)
    ensures Eval(Val(c, f), e) == Eval(Val(c, g), e)
  {
    match e
    case Symbol(_) =>
    case Not(a) => EvalAgree(c, f, g, a);
    case Bin(_, l, r) =>
      EvalAgree(c, f, g, l);
      EvalAgree(c, f, g, r);
    case Cmp(_, l, r) =>
      assert Val(c, f).tri(l) == Val(c, g).tri(l) && Val(c, f).tri(r) == Val(c, g).tri(r);
  }

  ghost predicate Agree(f: nat -> Tri, g: nat -> Tri, xs: set<nat>) {
    forall x :: x in xs ==> f(x) == g(x)
  }

  lemma {:induction false} PromptsAgree(c: Config, f: nat -> Tri, g: nat -> Tri, ps: seq<Option<Expr>>)
    requires forall k :: 0 <= k < |ps| ==> Agree(f, g, ReadsOpt(ps[k]))
    ensures AnyPrompt(Val(c, f), ps) == AnyPrompt(Val(c, g), ps)
  {
    if ps != [] {
      PromptsAgree(c, f, g, ps[..|ps| - 1]);
      OptAgree(c, f, g, ps[|ps| - 1]);
    }
  }

  lemma OptAgree(c: Config, f: nat -> Tri, g: nat -> Tri, e: Option<Expr>)
    requires Agree(f, g, ReadsOpt(e))
    ensures EvalOpt(Val(c, f), e) == EvalOpt(Val(c, g), e)
  {
    if e.Some? { EvalAgree(c, f, g, e.value); }
  }

  lemma {:induction false} DefaultsAgree(c: Config, f: nat -> Tri, g: nat -> Tri, ds: seq<Default>)
    requires forall k :: 0 <= k < |ds| ==> Agree(f, g, ReadsOpt(ds[k].cond) + ReadsOpt(ds[k].value))
    ensures DefaultValue(Val(c, f), ds) == DefaultValue(Val(c, g), ds)
  {
    if ds != [] {
      OptAgree(c, f, g, ds[0].cond);
      OptAgree(c, f, g, ds[0].value);
      DefaultsAgree(c, f, g, ds[1..]);
    }
  }

  /** The parts of SymReads. */
  lemma ReadsParts(d: Info)
    ensures forall k :: 0 <= k < |d.prompts| ==> ReadsOpt(d.prompts[k]) <= SymReads(d)
    ensures forall k :: 0 <= k < |d.defaults| ==>
              ReadsOpt(d.defaults[k].cond) <= SymReads(d) && ReadsOpt(d.defaults[k].value) <= SymReads(d)
    ensures ReadsOpt(d.dirDep) <= SymReads(d) && ReadsOpt(d.revDep) <= SymReads(d) && ReadsOpt(d.implied) <= SymReads(d)
  {
    forall k | 0 <= k < |d.defaults|
      ensures ReadsOpt(d.defaults[k].cond) <= SymReads(d) && ReadsOpt(d.defaults[k].value) <= SymReads(d)
    {
      assert forall x :: x in ReadsOpt(d.defaults[k].cond) || x in ReadsOpt(d.defaults[k].value) ==>
          x in ReadsOpt(d.defaults[k].cond) + ReadsOpt(d.defaults[k].value);
    }
  }

  lemma ComputeAgree(c: Config, user: User, i: nat, f: nat -> Tri, g: nat -> Tri)
    requires i < |c.tab| == |user| && Agree(f, g, SymReads(c.tab[i]))
    ensures Compute(c, user, i, Val(c, f)) == Compute(c, user, i, Val(c, g))
  {
    var d := c.tab[i];
    ReadsParts(d);
    PromptsAgree(c, f, g, d.prompts);
    DefaultsAgree(c, f, g, d.defaults);
    OptAgree(c, f, g, d.dirDep);
    OptAgree(c, f, g, d.revDep);
    OptAgree(c, f, g, d.implied);
  }

  /** Values of plain evaluation. */
  function PlainValue(c: Config, user: User, rank: nat -> nat): nat -> Tri
    requires |c.tab| == |user|
  {
    (j: nat) => if j < |c.tab| then Plain(c, user, rank, j).curr else 0
  }

  /** Plain evaluation solves the equations of all symbols at once. */
  lemma PlainSolves(c: Config, user: User, rank: nat -> nat, i: nat)
    requires |c.tab| == |user| && i < |c.tab| && Closed(c) && Acyclic(c, rank)
    ensures Plain(c, user, rank, i) == Compute(c, user, i, Val(c, PlainValue(c, user, rank)))
  {
    ComputeAgree(c, user, i, Below(c, user, rank, i), PlainValue(c, user, rank));
  }

  // ----- the memoised evaluator -----

  predicate Valued(k: SymType) { k == Boolean || k == Tristate }

  /** The cached state of symbol i is that of plain evaluation. */
  ghost predicate Right(c: Config, user: User, rank: nat -> nat, i: nat, s: SymState)
    requires |c.tab| == |user| && i < |c.tab|
  {
    if Valued(c.tab[i].kind) then s == Plain(c, user, rank, i) else s.curr == 0
  }

  /** Every symbol with the valid bit, other than those still being computed, is right. */
  ghost predicate Settled(c: Config, user: User, rank: nat -> nat, st: seq<SymState>, busy: set<nat>) {
    && |c.tab| == |user| == |st|
    && forall i :: 0 <= i < |st| && st[i].valid && i !in busy ==> Right(c, user, rank, i, st[i])
  }

  ghost function Invalid(st: seq<SymState>): set<nat> {
    set i | 0 <= i < |st| && !st[i].valid
  }

  /** Valid entries are never touched again. */
  ghost predicate Grows(a: seq<SymState>, b: seq<SymState>) {
    |a| == |b| && forall i :: 0 <= i < |a| && (a[i].valid || !b[i].valid) ==> b[i] == a[i]
  }

  lemma GrowsInvalid(a: seq<SymState>, b: seq<SymState>)
    requires Grows(a, b)
    ensures Invalid(b) <= Invalid(a)
  {
  }

  /** Valid entries other than i are never touched. */
  ghost predicate GrowsBut(a: seq<SymState>, b: seq<SymState>, i: nat) {
    |a| == |b| && i < |a| && a[i].valid && b[i].valid && forall k :: 0 <= k < |a| && k != i && (a[k].valid || !b[k].valid) ==> b[k] == a[k]
  }

  lemma GrowsButInvalid(a: seq<SymState>, b: seq<SymState>, i: nat)
    requires GrowsBut(a, b, i)
    ensures Invalid(b) <= Invalid(a)
  {
  }

  lemma MarkValid(a: seq<SymState>, i: nat)
    requires i < |a| && !a[i].valid
    ensures Invalid(a[i := a[i].(valid := true)]) < Invalid(a)
  {
    var b := a[i := a[i].(valid := true)];
    assert i in Invalid(a) && i !in Invalid(b);
    assert Invalid(b) <= Invalid(a);
  }

  /** A symbol in progress is done. */
  lemma Settle(c: Config, user: User, rank: nat -> nat, st: seq<SymState>, busy: set<nat>, i: nat)
    requires Closed(c) && Acyclic(c, rank) && Settled(c, user, rank, st, busy + {i}) && i < |st|
    requires Valued(c.tab[i].kind) && st[i] == Compute(c, user, i, Val(c, PlainValue(c, user, rank)))
    ensures Settled(c, user, rank, st, busy) && Right(c, user, rank, i, st[i])
  {
    PlainSolves(c, user, rank, i);
  }

  /** Writing the entry of a symbol in progress. */
  lemma WriteBusy(c: Config, user: User, rank: nat -> nat, a: seq<SymState>, busy: set<nat>, r: nat, i: nat, s: SymState)
    requires i < |a| && i in busy
    ensures Calm(c, user, rank, a, busy, r) ==> Calm(c, user, rank, a[i := s], busy, r)
  {
  }

  /** The symbols in progress are above the rank r, and no symbol depends on itself. */
  ghost predicate Ordered(c: Config, rank: nat -> nat, busy: set<nat>, r: nat) {
    Acyclic(c, rank) && forall b :: b in busy ==> rank(b) >= r
  }

  ghost predicate BelowRank(rank: nat -> nat, xs: set<nat>, r: nat) {
    forall x :: x in xs ==> rank(x) < r
  }

  /** The context in which a symbol of rank r reads others: Settled so far, nothing cyclic. */
  ghost predicate Calm(c: Config, user: User, rank: nat -> nat, st: seq<SymState>, busy: set<nat>, r: nat) {
    Ordered(c, rank, busy, r) && Settled(c, user, rank, st, busy)
  }

  class Evaluator {
    const c: Config
    const modulesSym: Option<nat>
    var user: User
    var st: seq<SymState>
    var changes: nat          // sym_change_count

    ghost predicate Shape()
      reads this
    {
      |user| == |c.tab| == |st| && Closed(c) && (modulesSym.Some? ==> modulesSym.value < |c.tab|)
    }

    constructor (c: Config, modulesSym: Option<nat>)
      requires Closed(c) && (modulesSym.Some? ==> modulesSym.value < |c.tab|)
      ensures Shape() && this.c == c && this.modulesSym == modulesSym && changes == 0
      ensures forall i :: 0 <= i < |st| ==> !st[i].valid && user[i].None?
    {
      this.c, this.modulesSym, changes := c, modulesSym, 0;
      user := seq(|c.tab|, _ => None);
      st := seq(|c.tab|, _ => SymState(false, 0, 0, 0, 0, 0));
    }

    function Cached(s: Sym): Tri
      reads this
      requires s.Named? ==> s.id < |st|
    {
      match s
      case Y => 2
      case M => 1
      case N => 0
      case Named(id, _, _) => st[id].curr
    }

    /** sym_calc_value on a symbol of an expression. */
    method CalcSym(s: Sym, ghost rank: nat -> nat, ghost busy: set<nat>, ghost r: nat)
      requires Shape() && (s.Named? ==> s.id < |st|)
      modifies this`st
      ensures Shape() && Grows(old(st), st)
      ensures s.Named? ==> st[s.id].valid
      ensures old(Calm(c, user, rank, st, busy, r)) && BelowRank(rank, Id(s), r) ==>
                Calm(c, user, rank, st, busy, r) && Cached(s) == Val(c, PlainValue(c, user, rank)).tri(s)
      decreases Invalid(st), 0, 1
    {
      if s.Named? { CalcValue(s.id, rank, busy); }
    }

    /** expr_calc_value. */
    method CalcExpr(e: Expr, ghost rank: nat -> nat, ghost busy: set<nat>, ghost r: nat) returns (t: Tri)
      requires Shape() && forall x :: x in Reads(e) ==> x < |st|
      modifies this`st
      ensures Shape() && Grows(old(st), st)
      ensures old(Calm(c, user, rank, st, busy, r)) && BelowRank(rank, Reads(e), r) ==>
                Calm(c, user, rank, st, busy, r) && t == Eval(Val(c, PlainValue(c, user, rank)), e)
      decreases Invalid(st), 1, Size(e)
    {
      match e
      case Symbol(s) =>
        assert Reads(e) == Id(s);
        CalcSym(s, rank, busy, r);
        t := Cached(s);
      case Not(a) =>
        assert Reads(e) == Reads(a);
        t := CalcExpr(a, rank, busy, r);
        t := 2 - t;
      case Bin(op, a, b) =>
        assert Reads(a) <= Reads(e) && Reads(b) <= Reads(e);
        var t1 := CalcExpr(a, rank, busy, r);
        GrowsInvalid(old(st), st);
        var t2 := CalcExpr(b, rank, busy, r);
        t := Apply(op, t1, t2);
      case Cmp(rel, a, b) =>
        assert Id(a) <= Reads(e) && Id(b) <= Reads(e);
        CalcSym(a, rank, busy, r);
        GrowsInvalid(old(st), st);
        CalcSym(b, rank, busy, r);
        t := Relate(rel, c.order(a, Cached(a), b, Cached(b)));
    }

    /** A condition that may be missing, then read as `missing`. */
    method CalcOpt(e: Option<Expr>, missing: Tri, ghost rank: nat -> nat, ghost busy: set<nat>, ghost r: nat) returns (t: Tri)
      requires Shape() && forall x :: x in ReadsOpt(e) ==> x < |st|
      modifies this`st
      ensures Shape() && Grows(old(st), st)
      ensures old(Calm(c, user, rank, st, busy, r)) && BelowRank(rank, ReadsOpt(e), r) ==>
                && Calm(c, user, rank, st, busy, r)
                && t == if e.Some? then Eval(Val(c, PlainValue(c, user, rank)), e.value) else missing
      decreases Invalid(st), 2, 0
    {
      t := missing;
      if e.Some? {
        assert ReadsOpt(e) == Reads(e.value);
        t := CalcExpr(e.value, rank, busy, r);
      }
    }

    /** The loop over the prompts of symbol i in sym_calc_visibility. */
    method CalcPrompts(i: nat, ghost rank: nat -> nat, ghost busy: set<nat>) returns (tri: Tri)
      requires Shape() && i < |st| && st[i].valid
      modifies this`st
      ensures Shape() && Grows(old(st), st)
      ensures old(Calm(c, user, rank, st, busy, rank(i))) ==>
                && Calm(c, user, rank, st, busy, rank(i))
                && tri == AnyPrompt(Val(c, PlainValue(c, user, rank)), c.tab[i].prompts)
      decreases Invalid(st), 3, 0
    {
      var ps := c.tab[i].prompts;
      ReadsParts(c.tab[i]);
      tri := 0;
      for k := 0 to |ps|
        invariant Shape() && Grows(old(st), st)
        invariant old(Calm(c, user, rank, st, busy, rank(i))) ==>
                    && Calm(c, user, rank, st, busy, rank(i))
                    && tri == AnyPrompt(Val(c, PlainValue(c, user, rank)), ps[..k])
      {
        GrowsInvalid(old(st), st);
        var t := CalcOpt(ps[k], 2, rank, busy, rank(i));
        assert ps[..k + 1][..k] == ps[..k];
        tri := Max(tri, t);
      }
      assert ps[..|ps|] == ps;
    }

    /** Is any prompt visible? */
    method CalcVisible(i: nat, ghost rank: nat -> nat, ghost busy: set<nat>)
      requires Shape() && i < |st| && st[i].valid && i in busy
      modifies this`st
      ensures Shape() && GrowsBut(old(st), st, i) && st[i] == old(st[i]).(visible := st[i].visible)
      ensures old(Calm(c, user, rank, st, busy, rank(i))) ==>
                && Calm(c, user, rank, st, busy, rank(i))
                && st[i].visible == Visibility(c, i, Val(c, PlainValue(c, user, rank))).visible
      decreases Invalid(st), 4, 0
    {
      ReadsParts(c.tab[i]);
      var tri := CalcPrompts(i, rank, busy);
      var s := st[i].(visible := Promote(tri, c.tab[i].kind != Tristate || !c.modules));
      WriteBusy(c, user, rank, st, busy, rank(i), i, s);
      st := st[i := s];
    }

    /** Direct dependencies, y if there are none. */
    method CalcDirDep(i: nat, ghost rank: nat -> nat, ghost busy: set<nat>)
      requires Shape() && i < |st| && st[i].valid && i in busy
      modifies this`st
      ensures Shape() && GrowsBut(old(st), st, i) && st[i] == old(st[i]).(dirDep := st[i].dirDep)
      ensures old(Calm(c, user, rank, st, busy, rank(i))) ==>
                && Calm(c, user, rank, st, busy, rank(i))
                && st[i].dirDep == Visibility(c, i, Val(c, PlainValue(c, user, rank))).dirDep
      decreases Invalid(st), 4, 0
    {
      ReadsParts(c.tab[i]);
      var tri := CalcOpt(c.tab[i].dirDep, 2, rank, busy, rank(i));
      var s := st[i].(dirDep := Promote(tri, IsBool(c, i)));
      WriteBusy(c, user, rank, st, busy, rank(i), i, s);
      st := st[i := s];
    }

    /** Reverse dependencies, n if there are none. */
    method CalcRevDep(i: nat, ghost rank: nat -> nat, ghost busy: set<nat>)
      requires Shape() && i < |st| && st[i].valid && i in busy
      modifies this`st
      ensures Shape() && GrowsBut(old(st), st, i) && st[i] == old(st[i]).(revDep := st[i].revDep)
      ensures old(Calm(c, user, rank, st, busy, rank(i))) ==>
                && Calm(c, user, rank, st, busy, rank(i))
                && st[i].revDep == Visibility(c, i, Val(c, PlainValue(c, user, rank))).revDep
      decreases Invalid(st), 4, 0
    {
      ReadsParts(c.tab[i]);
      var tri := CalcOpt(c.tab[i].revDep, 0, rank, busy, rank(i));
      var s := st[i].(revDep := Promote(tri, IsBool(c, i)));
      WriteBusy(c, user, rank, st, busy, rank(i), i, s);
      st := st[i := s];
    }

    /** Weak reverse dependencies, n if the direct ones are. */
    method CalcImplied(i: nat, ghost rank: nat -> nat, ghost busy: set<nat>)
      requires Shape() && i < |st| && st[i].valid && i in busy
      modifies this`st
      ensures Shape() && GrowsBut(old(st), st, i) && st[i] == old(st[i]).(implied := st[i].implied)
      ensures old(Calm(c, user, rank, st, busy, rank(i)))
                && st[i].dirDep == Visibility(c, i, Val(c, PlainValue(c, user, rank))).dirDep ==>
                && Calm(c, user, rank, st, busy, rank(i))
                && st[i].implied == Visibility(c, i, Val(c, PlainValue(c, user, rank))).implied
      decreases Invalid(st), 4, 0
    {
      ReadsParts(c.tab[i]);
      var tri := 0;
      if st[i].dirDep != 0 { tri := CalcOpt(c.tab[i].implied, 0, rank, busy, rank(i)); }
      var s := st[i].(implied := Promote(tri, IsBool(c, i)));
      WriteBusy(c, user, rank, st, busy, rank(i), i, s);
      st := st[i := s];
    }

    /** sym_calc_visibility. */
    method CalcVisibility(i: nat, ghost rank: nat -> nat, ghost busy: set<nat>)
      requires Shape() && i < |st| && st[i].valid && i in busy
      modifies this`st
      ensures Shape() && GrowsBut(old(st), st, i)
      ensures old(Calm(c, user, rank, st, busy, rank(i))) ==>
                && Calm(c, user, rank, st, busy, rank(i))
                && st[i].(curr := 0) == Visibility(c, i, Val(c, PlainValue(c, user, rank)))
      decreases Invalid(st), 5, 0
    {
      CalcVisible(i, rank, busy);
      GrowsButInvalid(old(st), st, i);
      CalcDirDep(i, rank, busy);
      GrowsButInvalid(old(st), st, i);
      CalcRevDep(i, rank, busy);
      GrowsButInvalid(old(st), st, i);
      CalcImplied(i, rank, busy);
    }

    /** sym_get_default_prop, and the value of the default it finds. */
    method CalcDefault(i: nat, ghost rank: nat -> nat, ghost busy: set<nat>) returns (t: Tri)
      requires Shape() && i < |st| && st[i].valid
      modifies this`st
      ensures Shape() && Grows(old(st), st)
      ensures old(Calm(c, user, rank, st, busy, rank(i))) ==>
                && Calm(c, user, rank, st, busy, rank(i))
                && t == DefaultValue(Val(c, PlainValue(c, user, rank)), c.tab[i].defaults)
      decreases Invalid(st), 3, 0
    {
      var ds := c.tab[i].defaults;
      ReadsParts(c.tab[i]);
      t := 0;
      var k := 0;
      while k < |ds|
        invariant 0 <= k <= |ds| && Shape() && Grows(old(st), st) && t == 0
        invariant old(Calm(c, user, rank, st, busy, rank(i))) ==>
                    && Calm(c, user, rank, st, busy, rank(i))
                    && DefaultValue(Val(c, PlainValue(c, user, rank)), ds) ==
                       DefaultValue(Val(c, PlainValue(c, user, rank)), ds[k..])
      {
        GrowsInvalid(old(st), st);
        var cond := CalcOpt(ds[k].cond, 2, rank, busy, rank(i));
        if cond != 0 {
          GrowsInvalid(old(st), st);
          var v := CalcOpt(ds[k].value, 2, rank, busy, rank(i));
          return Min(v, cond);
        }
        assert ds[k..][1..] == ds[k + 1..];
        k := k + 1;
      }
    }

    /** sym_calc_value for a symbol that is no choice. */
    method CalcValue(i: nat, ghost rank: nat -> nat, ghost busy: set<nat>)
      requires Shape() && i < |st|
      modifies this`st
      ensures Shape() && Grows(old(st), st) && st[i].valid
      ensures old(Calm(c, user, rank, st, busy, rank(i) + 1)) ==>
                Settled(c, user, rank, st, busy) && Right(c, user, rank, i, st[i])
      decreases Invalid(st), 0, 0
    {
      if st[i].valid { return; }
      MarkValid(st, i);
      st := st[i := st[i].(valid := true)];
      if !Valued(c.tab[i].kind) {
        st := st[i := st[i].(curr := 0)];
        return;
      }
      ghost var calm := old(Calm(c, user, rank, st, busy, rank(i) + 1));
      assert calm ==> Calm(c, user, rank, st, busy + {i}, rank(i));
      CalcTristate(i, rank, busy + {i});
      if calm { Settle(c, user, rank, st, busy, i); }
    }

    /** The bool and tristate part of sym_calc_value. */
    method CalcTristate(i: nat, ghost rank: nat -> nat, ghost busy: set<nat>)
      requires Shape() && i < |st| && st[i].valid && i in busy && Valued(c.tab[i].kind)
      modifies this`st
      ensures Shape() && GrowsBut(old(st), st, i)
      ensures old(Calm(c, user, rank, st, busy, rank(i))) ==>
                Settled(c, user, rank, st, busy) && st[i] == Compute(c, user, i, Val(c, PlainValue(c, user, rank)))
      decreases Invalid(st), 6, 0
    {
      CalcVisibility(i, rank, busy);
      st := st[i := st[i].(curr := 0)];
      var base: Tri := 0;
      if st[i].visible != 0 && user[i].Some? {
        base := Min(user[i].value, st[i].visible);
      } else {
        GrowsButInvalid(old(st), st, i);
        base := CalcDefault(i, rank, busy);
        base := Max(base, st[i].implied);
      }
      var tri := Max(base, st[i].revDep);
      st := st[i := st[i].(curr := Promote(tri, IsBool(c, i) || st[i].implied == 2))];
    }

    /** Calculating symbols in any order (sym_calc_value over all symbols). */
    method CalcAll(order: seq<nat>, ghost rank: nat -> nat)
      requires Shape() && forall k :: 0 <= k < |order| ==> order[k] < |st|
      modifies this`st
      ensures Shape() && Grows(old(st), st) && forall k :: 0 <= k < |order| ==> st[order[k]].valid
      ensures Acyclic(c, rank) && old(Settled(c, user, rank, st, {})) ==>
                Settled(c, user, rank, st, {}) && forall k :: 0 <= k < |order| ==> Right(c, user, rank, order[k], st[order[k]])
    {
      for k := 0 to |order|
        invariant Shape() && Grows(old(st), st)
        invariant forall j :: 0 <= j < k ==> st[order[j]].valid
        invariant Acyclic(c, rank) && old(Settled(c, user, rank, st, {})) ==> Settled(c, user, rank, st, {})
      {
        CalcValue(order[k], rank, {});
      }
    }

    /** The loop of sym_clear_all_valid. */
    method ClearValid()
      requires Shape()
      modifies this`st
      ensures Shape() && forall i :: 0 <= i < |st| ==> st[i] == old(st)[i].(valid := false)
    {
      for i := 0 to |st|
        invariant Shape() && |st| == |old(st)|
        invariant forall k :: 0 <= k < |st| ==> st[k] == if k < i then old(st)[k].(valid := false) else old(st)[k]
      {
        st := st[i := st[i].(valid := false)];
      }
    }

    /** sym_clear_all_valid: every valid bit is cleared and the change counted; then MODULES is
        calculated again, with what it depends on. */
    method ClearAllValid(ghost rank: nat -> nat)
      requires Shape()
      modifies this`st, this`changes
      ensures Shape() && changes == old(changes) + 1 && |st| == |old(st)|
      ensures forall i :: 0 <= i < |st| && !st[i].valid ==> st[i] == old(st)[i].(valid := false)
      ensures if modulesSym.Some? then st[modulesSym.value].valid else forall i :: 0 <= i < |st| ==> !st[i].valid
      ensures Acyclic(c, rank) ==> Settled(c, user, rank, st, {})
    {
      ClearValid();
      changes := changes + 1;
      if modulesSym.Some? { CalcValue(modulesSym.value, rank, {}); }
    }

    /** sym_tristate_within_range. */
    predicate WithinRange(i: nat, val: Tri)
      reads this
      requires i < |st| == |c.tab|
    {
      InRange(IsBool(c, i), c.tab[i].kind, st[i], val)
    }

    /** sym_set_tristate_value. */
    method SetTristate(i: nat, val: Tri, ghost rank: nat -> nat) returns (ok: bool)
      requires Shape() && i < |st|
      modifies this
      ensures Shape() && |st| == |old(st)|
      ensures ok <==> old(st[i].curr) == val || old(WithinRange(i, val))
      ensures user == if ok then old(user)[i := Some(val)] else old(user)
      ensures if ok && old(st[i].curr) != val then
                && changes == old(changes) + 1 && (Acyclic(c, rank) ==> Settled(c, user, rank, st, {}))
                && (forall k :: 0 <= k < |st| && !st[k].valid ==> st[k] == old(st)[k].(valid := false))
                && (modulesSym.None? ==> forall k :: 0 <= k < |st| ==> !st[k].valid)
              else st == old(st) && changes == old(changes)
    {
      var oldval := st[i].curr;
      if oldval != val && !WithinRange(i, val) { return false; }
      user := user[i := Some(val)];
      if oldval != val { ClearAllValid(rank); }
      return true;
    }

    /** A value accepted by the range check is the value after recalculation. */
    method SetThenCalc(i: nat, val: Tri, ghost rank: nat -> nat) returns (ok: bool)
      requires Shape() && i < |st| && Acyclic(c, rank) && Settled(c, user, rank, st, {}) && st[i].valid
      modifies this
      ensures Shape() && st[i].valid && (ok <==> old(st[i].curr) == val || old(WithinRange(i, val)))
      ensures ok ==> st[i].curr == val
    {
      ok := SetTristate(i, val, rank);
      if ok && old(st[i].curr) != val { SetIsExact(c, old(user), rank, i, val); }
      CalcValue(i, rank, {});
    }
  }

  predicate InRange(b: bool, kind: SymType, s: SymState, val: Tri) {
    && s.visible != 0
    && Valued(kind)
    && !(b && val == 1)
    && s.visible > s.revDep
    && !(s.implied == 2 && val == 1)
    && s.revDep <= val <= s.visible
  }

  /** A user value of i changes nothing below i, and of i only the value. */
  lemma {:induction false} UserLocal(c: Config, user: User, rank: nat -> nat, i: nat, val: Tri, j: nat)
    requires |c.tab| == |user| && i < |c.tab| && j < |c.tab| && Closed(c) && Acyclic(c, rank)
    requires rank(j) <= rank(i)
    ensures var p, q := Plain(c, user, rank, j), Plain(c, user[i := Some(val)], rank, j);
            p.(curr := 0) == q.(curr := 0) && (j != i ==> p == q)
    decreases rank(j)
  {
    var user' := user[i := Some(val)];
    PlainSolves(c, user, rank, j);
    PlainSolves(c, user', rank, j);
    forall x | x in SymReads(c.tab[j]) ensures PlainValue(c, user, rank)(x) == PlainValue(c, user', rank)(x) {
      UserLocal(c, user, rank, i, val, x);
    }
    ComputeAgree(c, user', j, PlainValue(c, user, rank), PlainValue(c, user', rank));
  }

  lemma SetIsExact(c: Config, user: User, rank: nat -> nat, i: nat, val: Tri)
    requires |c.tab| == |user| && i < |c.tab| && Closed(c) && Acyclic(c, rank)
    requires Valued(c.tab[i].kind) && InRange(IsBool(c, i), c.tab[i].kind, Plain(c, user, rank, i), val)
    ensures Plain(c, user[i := Some(val)], rank, i).curr == val
  {
    UserLocal(c, user, rank, i, val, i);
    PlainSolves(c, user[i := Some(val)], rank, i);
  }

  /** Setting a symbol to the value it already has skips the range check; a later
      recalculation keeps the value exactly under this condition. */
  predicate Kept(b: bool, s: SymState, val: Tri) {
    s.visible == 0 || val <= Promote(Max(s.visible, s.revDep), b || s.implied == 2)
  }

  lemma SameValueRule(b: bool, s: SymState, user: Option<Tri>, dflt: Tri)
    ensures var val := NewValue(b, s, user, dflt);
            NewValue(b, s, Some(val), dflt) == val <==> Kept(b, s, val)
  {
  }

  lemma SetSameValue(c: Config, user: User, rank: nat -> nat, i: nat, val: Tri)
    requires |c.tab| == |user| && i < |c.tab| && Closed(c) && Acyclic(c, rank) && Valued(c.tab[i].kind)
    requires Plain(c, user, rank, i).curr == val
    ensures Plain(c, user[i := Some(val)], rank, i).curr == val <==> Kept(IsBool(c, i), Plain(c, user, rank, i), val)
  {
    var user', f := user[i := Some(val)], PlainValue(c, user, rank);
    PlainSolves(c, user, rank, i);
    PlainSolves(c, user', rank, i);
    forall x | x in SymReads(c.tab[i]) ensures f(x) == PlainValue(c, user', rank)(x) {
      UserLocal(c, user, rank, i, val, x);
    }
    ComputeAgree(c, user', i, f, PlainValue(c, user', rank));
    var s, dflt := Visibility(c, i, Val(c, f)), DefaultValue(Val(c, f), c.tab[i].defaults);
    SameValueRule(IsBool(c, i), s, user[i], dflt);
  }

  /** A tristate with prompt condition m and default y is y; set to y, it is m after the next
      recalculation. */
  lemma SameValueCanChange() returns (c: Config, user: User, rank: nat -> nat)
    ensures |user| == |c.tab| == 1 && Closed(c) && Acyclic(c, rank)
    ensures Plain(c, user, rank, 0).curr == 2 && Plain(c, user[0 := Some(2)], rank, 0).curr == 1
  {
    c := Config([Info(Tristate, [Some(Symbol(M))], [Default(Some(Symbol(Y)), None)], None, None, None, [])],
                true, (s, x, t, y) => Order(x - y, true));
    user, rank := [None], (i: nat) => i;
    var d := c.tab[0];
    forall f: nat -> Tri
      ensures AnyPrompt(Val(c, f), d.prompts) == 1 && DefaultValue(Val(c, f), d.defaults) == 2
    {
      assert d.prompts[..0] == [];
      assert AnyPrompt(Val(c, f), []) == 0;
    }
  }

  /** The equations of the symbols have one solution: plain evaluation does not depend on the
      order in which symbols are visited. */
  lemma {:induction false} SolutionUnique(c: Config, user: User, rank: nat -> nat, f: nat -> Tri, i: nat)
    requires |c.tab| == |user| && i < |c.tab| && Closed(c) && Acyclic(c, rank)
    requires forall j :: 0 <= j < |c.tab| ==> f(j) == Compute(c, user, j, Val(c, f)).curr
    ensures f(i) == Plain(c, user, rank, i).curr
    decreases rank(i)
  {
    PlainSolves(c, user, rank, i);
    forall x | x in SymReads(c.tab[i]) ensures f(x) == PlainValue(c, user, rank)(x) {
      SolutionUnique(c, user, rank, f, x);
    }
    ComputeAgree(c, user, i, f, PlainValue(c, user, rank));
  }
}
