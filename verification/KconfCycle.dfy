/** The search for recursive dependencies (kconf/symbol.c: sym_check_expr_deps,
    sym_check_sym_deps, sym_check_deps) over symbols that are neither choices nor choice
    values. */
module KconfCycle {
  import opened Wrappers
  import opened KconfExpr
  import opened KconfEval

  /** For each symbol, the expressions the check follows, in order: the reverse dependency,
      then for each property its condition and, for a default, its value. */
  type Graph = seq<seq<Expr>>

  ghost predicate Edge(g: Graph, i: nat, j: nat) {
    i < |g| && exists k :: 0 <= k < |g[i]| && j in Reads(g[i][k])
  }

  ghost predicate ClosedGraph(g: Graph) {
    forall i, k, x :: 0 <= i < |g| && 0 <= k < |g[i]| && x in Reads(g[i][k]) ==> x < |g|
  }

  ghost predicate IsPath(g: Graph, p: seq<nat>) {
    forall k :: 0 <= k < |p| - 1 ==> Edge(g, p[k], p[k + 1])
  }

  ghost predicate HasCycle(g: Graph) {
    exists p: seq<nat> :: |p| >= 2 && p[0] == p[|p| - 1] && IsPath(g, p)
  }

  /** Finished symbols, each after everything it depends on. */
  ghost predicate Topological(g: Graph, order: seq<nat>) {
    forall k, x :: 0 <= k < |order| && Edge(g, order[k], x) ==> x in order[..k]
  }

  lemma {:induction false} PathGoesDown(g: Graph, order: seq<nat>, p: seq<nat>, k: nat)
    requires Topological(g, order) && IsPath(g, p) && |p| >= 1 && k < |order| && order[k] == p[0]
    ensures |p| >= 2 ==> p[|p| - 1] in order[..k]
    decreases |p|
  {
    if |p| >= 2 {
      assert Edge(g, order[k], p[1]);
      var m :| 0 <= m < k && order[m] == p[1];
      PathGoesDown(g, order, p[1..], m);
      assert order[..m] <= order[..k];
    }
  }

  ghost predicate NoRepeats(s: seq<nat>) {
    forall i, j :: 0 <= i < j < |s| ==> s[i] != s[j]
  }

  /** A topological order of all symbols leaves no room for a cycle. */
  lemma TopologicalMeansAcyclic(g: Graph, order: seq<nat>)
    requires Topological(g, order) && NoRepeats(order) && forall i :: 0 <= i < |g| ==> i in order
    ensures !HasCycle(g)
  {
    if HasCycle(g) {
      var p: seq<nat> :| |p| >= 2 && p[0] == p[|p| - 1] && IsPath(g, p);
      assert Edge(g, p[0], p[1]);
      assert p[0] in order;
      var k :| 0 <= k < |order| && order[k] == p[0];
      PathGoesDown(g, order, p, k);
      assert false;
    }
  }

  /** A symbol on the stack that the top depends on closes a cycle. */
  lemma StackClosesCycle(g: Graph, stack: seq<nat>, i: nat)
    requires IsPath(g, stack) && stack != [] && i in stack && Edge(g, stack[|stack| - 1], i)
    ensures HasCycle(g)
  {
    var k :| 0 <= k < |stack| && stack[k] == i;
    var p := stack[k..] + [i];
    assert IsPath(g, p) by {
      forall j | 0 <= j < |p| - 1 ensures Edge(g, p[j], p[j + 1]) {
        assert p[j] == stack[k + j];
        if j + 1 < |p| - 1 { assert p[j + 1] == stack[k + j + 1]; }
      }
    }
    assert p[0] == i && p[|p| - 1] == i;
  }

  /** As long as nothing was reported, the search is a plain depth-first search. */
  ghost predicate Clean(g: Graph, checked: seq<bool>, stack: seq<nat>, order: seq<nat>)
    requires |checked| == |g|
  {
    && (forall i :: 0 <= i < |g| && checked[i] && i !in stack ==> i in order)
    && (forall k :: 0 <= k < |order| ==> order[k] < |g| && checked[order[k]] && order[k] !in stack)
    && NoRepeats(order) && Topological(g, order)
  }

  ghost predicate Good(g: Graph, check: seq<bool>, checked: seq<bool>, reports: nat, stack: seq<nat>, order: seq<nat>) {
    && |check| == |checked| == |g| && ClosedGraph(g)
    && (forall i :: 0 <= i < |g| ==> (check[i] <==> i in stack))
    && (forall i :: 0 <= i < |g| && check[i] ==> checked[i])
    && (forall k :: 0 <= k < |stack| ==> stack[k] < |g|)
    && IsPath(g, stack)
    && (reports > 0 ==> HasCycle(g))
    && (reports == 0 ==> Clean(g, checked, stack, order))
  }

  lemma PushGood(g: Graph, check: seq<bool>, checked: seq<bool>, reports: nat, stack: seq<nat>, order: seq<nat>, i: nat)
    requires Good(g, check, checked, reports, stack, order) && i < |g| && !checked[i]
    requires stack != [] ==> Edge(g, stack[|stack| - 1], i)
    ensures Good(g, check[i := true], checked[i := true], reports, stack + [i], order)
  {
    var stack' := stack + [i];
    assert forall x :: x in stack' <==> x in stack || x == i;
    assert IsPath(g, stack');
  }

  lemma TopologicalGrows(g: Graph, order: seq<nat>, i: nat)
    requires Topological(g, order) && forall x :: Edge(g, i, x) ==> x in order
    ensures Topological(g, order + [i])
  {
    var o := order + [i];
    forall k, x | 0 <= k < |o| && Edge(g, o[k], x) ensures x in o[..k] {
      if k < |order| { assert o[..k] == order[..k] && o[k] == order[k]; } else { assert o[..k] == order; }
    }
  }

  lemma PopGood(g: Graph, check: seq<bool>, checked: seq<bool>, reports: nat, stack: seq<nat>, order: seq<nat>, i: nat)
    requires Good(g, check, checked, reports, stack + [i], order) && i < |g| && i !in stack
    requires reports == 0 ==> forall x :: Edge(g, i, x) ==> x in order
    ensures Good(g, check[i := false], checked, reports, stack, order + [i])
  {
    var stack' := stack + [i];
    assert stack'[|stack|] == i;
    assert forall x :: x in stack' <==> x in stack || x == i;
    assert forall k :: 0 <= k < |stack| ==> stack'[k] == stack[k];
    if reports == 0 {
      TopologicalGrows(g, order, i);
      assert forall x :: x in order + [i] <==> x in order || x == i;
    }
  }

  ghost predicate Within(a: seq<nat>, b: seq<nat>) {
    forall x :: x in a ==> x in b
  }

  class Checker {
    const g: Graph
    var check: seq<bool>      // SYMBOL_CHECK
    var checked: seq<bool>    // SYMBOL_CHECKED
    var reports: nat          // calls of sym_check_print_recursive
    ghost var stack: seq<nat> // dep_stack
    ghost var order: seq<nat> // symbols in the order they were finished

    ghost predicate Valid()
      reads this
    {
      Good(g, check, checked, reports, stack, order)
    }

    ghost function Unchecked(): set<nat>
      reads this
    {
      set i | 0 <= i < |checked| && !checked[i]
    }

    constructor (g: Graph)
      requires ClosedGraph(g)
      ensures Valid() && this.g == g && reports == 0 && stack == []
    {
      this.g := g;
      check := seq(|g|, _ => false);
      checked := seq(|g|, _ => false);
      reports := 0;
      stack, order := [], [];
    }

    /** sym_check_deps. */
    method CheckDeps(i: nat) returns (r: Option<nat>)
      requires Valid() && i < |g| && (stack != [] ==> Edge(g, stack[|stack| - 1], i))
      modifies this
      ensures Valid() && stack == old(stack) && reports >= old(reports) && Unchecked() <= old(Unchecked())
      ensures reports == 0 ==> r.None? && i in order && Within(old(order), order)
      decreases Unchecked(), 0, 0
    {
      if check[i] {
        StackClosesCycle(g, stack, i);
        reports := reports + 1;
        return Some(i);
      }
      if checked[i] { return None; }
      ghost var before := Unchecked();
      PushGood(g, check, checked, reports, stack, order, i);
      check, checked := check[i := true], checked[i := true];
      stack := stack + [i];
      assert i in before && i !in Unchecked() && Unchecked() <= before;
      r := CheckSym(i);
      PopGood(g, check, checked, reports, old(stack), order, i);
      check := check[i := false];
      stack, order := old(stack), order + [i];
      if r == Some(i) { r := None; }
    }

    /** sym_check_sym_deps. */
    method CheckSym(i: nat) returns (r: Option<nat>)
      requires Valid() && i < |g| && stack != [] && stack[|stack| - 1] == i
      modifies this
      ensures Valid() && stack == old(stack) && reports >= old(reports) && Unchecked() <= old(Unchecked())
      ensures reports == 0 ==> r.None? && Within(old(order), order) && forall x :: Edge(g, i, x) ==> x in order
      decreases Unchecked(), 2, 0
    {
      r := None;
      for k := 0 to |g[i]|
        invariant Valid() && stack == old(stack) && reports >= old(reports) && Unchecked() <= old(Unchecked())
        invariant r.None?
        invariant reports == 0 ==> Within(old(order), order) && forall j, x :: 0 <= j < k && x in Reads(g[i][j]) ==> x in order
      {
        assert forall x :: x in Reads(g[i][k]) ==> Edge(g, i, x);
        r := CheckExpr(g[i][k]);
        if r.Some? { return; }
      }
    }

    /** sym_check_expr_deps. */
    method CheckExpr(e: Expr) returns (r: Option<nat>)
      requires Valid() && stack != [] && forall x :: x in Reads(e) ==> x < |g| && Edge(g, stack[|stack| - 1], x)
      modifies this
      ensures Valid() && stack == old(stack) && reports >= old(reports) && Unchecked() <= old(Unchecked())
      ensures reports == 0 ==> r.None? && Within(old(order), order) && forall x :: x in Reads(e) ==> x in order
      decreases Unchecked(), 1, Size(e)
    {
      match e
      case Symbol(s) =>
        assert Reads(e) == Id(s);
        r := CheckRef(s);
      case Not(a) =>
        assert Reads(e) == Reads(a);
        r := CheckExpr(a);
      case Bin(_, a, b) =>
        assert Reads(e) == Reads(a) + Reads(b);
        r := CheckExpr(a);
        if r.None? { r := CheckExpr(b); }
      case Cmp(_, a, b) =>
        assert Reads(e) == Id(a) + Id(b);
        r := CheckRef(a);
        if r.None? { r := CheckRef(b); }
    }

    /** sym_check_deps on a symbol of an expression; the constants depend on nothing. */
    method CheckRef(s: Sym) returns (r: Option<nat>)
      requires Valid() && stack != [] && forall x :: x in Id(s) ==> x < |g| && Edge(g, stack[|stack| - 1], x)
      modifies this
      ensures Valid() && stack == old(stack) && reports >= old(reports) && Unchecked() <= old(Unchecked())
      ensures reports == 0 ==> r.None? && Within(old(order), order) && forall x :: x in Id(s) ==> x in order
      decreases Unchecked(), 0, 1
    {
      r := None;
      if s.Named? {
        assert s.id in Id(s);
        r := CheckDeps(s.id);
      }
    }

    /** The check of all symbols (kconf/zconf.tab.c): it reports something if and only if the
        dependencies contain a cycle. */
    method CheckAll()
      requires Valid() && stack == [] && reports == 0
      modifies this
      ensures Valid() && (reports > 0 <==> HasCycle(g))
      ensures reports == 0 ==> Topological(g, order) && NoRepeats(order) && forall i :: 0 <= i < |g| ==> i in order
    {
      for i := 0 to |g|
        invariant Valid() && stack == []
        invariant reports == 0 ==> forall j :: 0 <= j < i ==> j in order
      {
        var r := CheckDeps(i);
      }
      if reports == 0 { TopologicalMeansAcyclic(g, order); }
    }
  }

  // ----- acyclic graphs can be ordered -----

  lemma Bounded(s: seq<nat>, n: nat)
    requires NoRepeats(s) && forall k :: 0 <= k < |s| ==> s[k] < n
    ensures |s| <= n
    decreases n
  {
    if s != [] {
      assert s[0] < n;
      if n - 1 in s {
        var k :| 0 <= k < |s| && s[k] == n - 1;
        Bounded(s[..k] + s[k + 1..], n - 1);
      } else {
        Bounded(s, n - 1);
      }
    }
  }

  /** Going along edges from one symbol that is not in order yet to the next ends at one whose
      dependencies all are, unless there is a cycle. */
  lemma FindNext(g: Graph, order: seq<nat>, path: seq<nat>) returns (v: nat)
    requires ClosedGraph(g) && !HasCycle(g) && IsPath(g, path) && NoRepeats(path) && path != []
    requires forall k :: 0 <= k < |path| ==> path[k] < |g| && path[k] !in order
    ensures v < |g| && v !in order && forall x :: Edge(g, v, x) ==> x in order
    decreases |g| - |path|
  {
    v := path[|path| - 1];
    if x :| Edge(g, v, x) && x !in order {
      if x in path { StackClosesCycle(g, path, x); }
      Bounded(path + [x], |g|);
      v := FindNext(g, order, path + [x]);
    }
  }

  /** An acyclic graph has a topological order of all symbols. */
  lemma Sort(g: Graph, done: seq<nat>) returns (order: seq<nat>)
    requires ClosedGraph(g) && !HasCycle(g) && Topological(g, done) && NoRepeats(done)
    requires forall k :: 0 <= k < |done| ==> done[k] < |g|
    ensures Topological(g, order) && NoRepeats(order) && forall i :: 0 <= i < |g| ==> i in order
    decreases |g| - |done|
  {
    order := done;
    if i :| 0 <= i < |g| && i !in done {
      var v := FindNext(g, done, [i]);
      TopologicalGrows(g, done, v);
      Bounded(done + [v], |g|);
      order := Sort(g, done + [v]);
    }
  }

  // ----- edges with a way back -----

  ghost predicate Reaches(g: Graph, x: nat, y: nat) {
    exists p: seq<nat> :: p != [] && p[0] == x && p[|p| - 1] == y && IsPath(g, p)
  }

  /** Some edge of e can be closed to a cycle of g. */
  ghost predicate WayBack(e: Graph, g: Graph) {
    exists i, x :: Edge(e, i, x) && Reaches(g, x, i)
  }

  /** g has the edges of h and those of e. */
  ghost predicate Sum(h: Graph, e: Graph, g: Graph) {
    forall i: nat, x: nat :: Edge(g, i, x) <==> Edge(h, i, x) || Edge(e, i, x)
  }

  /** A graph made of two parts has a cycle exactly if the first part has one, or an edge of the
      second part has a way back. */
  lemma CycleInSum(h: Graph, e: Graph, g: Graph)
    requires Sum(h, e, g)
    ensures HasCycle(g) <==> HasCycle(h) || WayBack(e, g)
  {
    if HasCycle(h) {
      var p: seq<nat> :| |p| >= 2 && p[0] == p[|p| - 1] && IsPath(h, p);
      assert IsPath(g, p);
    }
    if WayBack(e, g) {
      var i, x :| Edge(e, i, x) && Reaches(g, x, i);
      CloseCycle(g, i, x);
    }
    if HasCycle(g) && !HasCycle(h) {
      var p: seq<nat> :| |p| >= 2 && p[0] == p[|p| - 1] && IsPath(g, p);
      assert !IsPath(h, p);
      var k :| 0 <= k < |p| - 1 && !Edge(h, p[k], p[k + 1]);
      Rotate(g, p, k);
      assert Edge(g, p[k], p[k + 1]);
    }
  }

  lemma CloseCycle(g: Graph, i: nat, x: nat)
    requires Edge(g, i, x) && Reaches(g, x, i)
    ensures HasCycle(g)
  {
    var p: seq<nat> :| p != [] && p[0] == x && p[|p| - 1] == i && IsPath(g, p);
    var q := p + [x];
    forall k | 0 <= k < |q| - 1 ensures Edge(g, q[k], q[k + 1]) {
      if k < |p| - 1 { assert q[k] == p[k] && q[k + 1] == p[k + 1]; }
    }
    assert IsPath(g, q) && q[0] == q[|q| - 1];
  }

  lemma Rotate(g: Graph, p: seq<nat>, k: nat)
    requires |p| >= 2 && p[0] == p[|p| - 1] && IsPath(g, p) && k < |p| - 1
    ensures Reaches(g, p[k + 1], p[k])
  {
    var q := p[k + 1..] + p[1..k + 1];
    forall j | 0 <= j < |q| - 1 ensures Edge(g, q[j], q[j + 1]) {
      var m := |p| - (k + 1);
      if j < m - 1 {
        assert q[j] == p[k + 1 + j] && q[j + 1] == p[k + 1 + j + 1];
      } else if j == m - 1 {
        assert q[j] == p[0] && q[j + 1] == p[1];
      } else {
        assert q[j] == p[j - m + 1] && q[j + 1] == p[j - m + 1 + 1];
      }
    }
    assert IsPath(g, q) && q[0] == p[k + 1] && q[|q| - 1] == p[k];
  }

  // ----- what the check means for the evaluator -----

  function Present(e: Option<Expr>): seq<Expr> {
    if e.Some? then [e.value] else []
  }

  function PresentIn(es: seq<Option<Expr>>): seq<Expr> {
    if es == [] then [] else PresentIn(es[..|es| - 1]) + Present(es[|es| - 1])
  }

  function DefaultExprs(ds: seq<Default>): seq<Expr> {
    if ds == [] then [] else DefaultExprs(ds[..|ds| - 1]) + Present(ds[|ds| - 1].cond) + Present(ds[|ds| - 1].value)
  }

  /** What both the check and the evaluator look at: the reverse dependency, the conditions of
      prompts and of the symbol's own property (its direct dependency), and the defaults. */
  function Shared(d: Info): seq<Expr> {
    Present(d.revDep) + Present(d.dirDep) + PresentIn(d.prompts) + DefaultExprs(d.defaults)
  }

  /** The check follows the conditions of all properties but choices and selects, so those of the
      imply properties as well. */
  function Followed(d: Info): seq<Expr> {
    Shared(d) + PresentIn(d.implies)
  }

  function SharedGraph(c: Config): Graph {
    seq(|c.tab|, i requires 0 <= i < |c.tab| => Shared(c.tab[i]))
  }

  function ImplyGraph(c: Config): Graph {
    seq(|c.tab|, i requires 0 <= i < |c.tab| => PresentIn(c.tab[i].implies))
  }

  function ImpliedGraph(c: Config): Graph {
    seq(|c.tab|, i requires 0 <= i < |c.tab| => Present(c.tab[i].implied))
  }

  function FollowedGraph(c: Config): Graph {
    seq(|c.tab|, i requires 0 <= i < |c.tab| => Followed(c.tab[i]))
  }

  /** The evaluator reads the weak reverse dependency instead. */
  function ReadGraph(c: Config): Graph {
    seq(|c.tab|, i requires 0 <= i < |c.tab| => Shared(c.tab[i]) + Present(c.tab[i].implied))
  }

  /** x is read by one of the expressions. */
  ghost predicate ReadBy(es: seq<Expr>, x: nat) {
    exists k :: 0 <= k < |es| && x in Reads(es[k])
  }

  lemma ReadByConcat(a: seq<Expr>, b: seq<Expr>, x: nat)
    ensures ReadBy(a + b, x) <==> ReadBy(a, x) || ReadBy(b, x)
  {
    if ReadBy(a, x) {
      var k :| 0 <= k < |a| && x in Reads(a[k]);
      assert (a + b)[k] == a[k];
    }
    if ReadBy(b, x) {
      var k :| 0 <= k < |b| && x in Reads(b[k]);
      assert (a + b)[|a| + k] == b[k];
    }
  }

  lemma ReadByPresent(e: Option<Expr>, x: nat)
    ensures ReadBy(Present(e), x) <==> x in ReadsOpt(e)
  {
    if e.Some? { assert Present(e)[0] == e.value; }
  }

  lemma {:induction false} ReadByPrompts(es: seq<Option<Expr>>, x: nat)
    ensures ReadBy(PresentIn(es), x) <==> exists k :: 0 <= k < |es| && x in ReadsOpt(es[k])
  {
    if es != [] {
      var n := |es| - 1;
      ReadByPrompts(es[..n], x);
      ReadByConcat(PresentIn(es[..n]), Present(es[n]), x);
      ReadByPresent(es[n], x);
      assert (exists k :: 0 <= k < n && x in ReadsOpt(es[..n][k])) ==> exists k :: 0 <= k < |es| && x in ReadsOpt(es[k]);
      assert forall k :: 0 <= k < n ==> es[..n][k] == es[k];
    }
  }

  lemma {:induction false} ReadByDefaults(ds: seq<Default>, x: nat)
    ensures ReadBy(DefaultExprs(ds), x) <==>
            exists k :: 0 <= k < |ds| && x in ReadsOpt(ds[k].cond) + ReadsOpt(ds[k].value)
  {
    if ds != [] {
      var n := |ds| - 1;
      ReadByDefaults(ds[..n], x);
      ReadByConcat(DefaultExprs(ds[..n]), Present(ds[n].cond), x);
      ReadByConcat(DefaultExprs(ds[..n]) + Present(ds[n].cond), Present(ds[n].value), x);
      ReadByPresent(ds[n].cond, x);
      ReadByPresent(ds[n].value, x);
      assert forall k :: 0 <= k < n ==> ds[..n][k] == ds[k];
    }
  }

  /** The evaluator reads what is shared and the weak reverse dependency; the check follows what is
      shared and the conditions of the symbol's own imply properties. */
  lemma FollowedReads(d: Info, x: nat)
    ensures x in SymReads(d) <==> ReadBy(Shared(d), x) || x in ReadsOpt(d.implied)
    ensures x in SymReads(d) <==> ReadBy(Shared(d) + Present(d.implied), x)
    ensures ReadBy(Followed(d), x) <==> ReadBy(Shared(d), x) || ReadBy(PresentIn(d.implies), x)
  {
    SharedReads(d, x);
    ReadByConcat(Shared(d), Present(d.implied), x);
    ReadByPresent(d.implied, x);
    ReadByConcat(Shared(d), PresentIn(d.implies), x);
  }

  lemma SharedReads(d: Info, x: nat)
    ensures x in SymReads(d) <==> ReadBy(Shared(d), x) || x in ReadsOpt(d.implied)
  {
    ReadByConcat(Present(d.revDep) + Present(d.dirDep) + PresentIn(d.prompts), DefaultExprs(d.defaults), x);
    ReadByConcat(Present(d.revDep) + Present(d.dirDep), PresentIn(d.prompts), x);
    ReadByConcat(Present(d.revDep), Present(d.dirDep), x);
    ReadByPresent(d.revDep, x);
    ReadByPresent(d.dirDep, x);
    ReadByPrompts(d.prompts, x);
    ReadByDefaults(d.defaults, x);
  }

  lemma EdgeReads(g: Graph, i: nat, x: nat)
    requires i < |g|
    ensures Edge(g, i, x) <==> ReadBy(g[i], x)
  {
  }

  lemma GraphsAreSums(c: Config)
    ensures Sum(SharedGraph(c), ImplyGraph(c), FollowedGraph(c)) && Sum(SharedGraph(c), ImpliedGraph(c), ReadGraph(c))
  {
    forall i: nat, x: nat ensures Edge(FollowedGraph(c), i, x) <==> Edge(SharedGraph(c), i, x) || Edge(ImplyGraph(c), i, x) {
      if 0 <= i < |c.tab| { ReadByConcat(Shared(c.tab[i]), PresentIn(c.tab[i].implies), x); SumAt(c, i, x); }
    }
    forall i: nat, x: nat ensures Edge(ReadGraph(c), i, x) <==> Edge(SharedGraph(c), i, x) || Edge(ImpliedGraph(c), i, x) {
      if 0 <= i < |c.tab| { ReadByConcat(Shared(c.tab[i]), Present(c.tab[i].implied), x); SumAt(c, i, x); }
    }
  }

  lemma SumAt(c: Config, i: nat, x: nat)
    requires i < |c.tab|
    ensures Edge(FollowedGraph(c), i, x) <==> ReadBy(Followed(c.tab[i]), x)
    ensures Edge(ReadGraph(c), i, x) <==> ReadBy(Shared(c.tab[i]) + Present(c.tab[i].implied), x)
    ensures Edge(SharedGraph(c), i, x) <==> ReadBy(Shared(c.tab[i]), x)
    ensures Edge(ImplyGraph(c), i, x) <==> ReadBy(PresentIn(c.tab[i].implies), x)
    ensures Edge(ImpliedGraph(c), i, x) <==> ReadBy(Present(c.tab[i].implied), x)
  {
    EdgeReads(FollowedGraph(c), i, x);
    EdgeReads(ReadGraph(c), i, x);
    EdgeReads(SharedGraph(c), i, x);
    EdgeReads(ImplyGraph(c), i, x);
    EdgeReads(ImpliedGraph(c), i, x);
  }

  function Position(order: seq<nat>, i: nat): nat {
    if order == [] || order[|order| - 1] == i then |order| else Position(order[..|order| - 1], i)
  }

  lemma {:induction false} PositionOf(order: seq<nat>, k: nat)
    requires NoRepeats(order) && k < |order|
    ensures Position(order, order[k]) == k + 1
  {
    if k < |order| - 1 { PositionOf(order[..|order| - 1], k); }
  }

  /** A topological order of a graph that has all edges of the evaluator is a rank. */
  lemma OrderGivesRank(c: Config, g: Graph, order: seq<nat>, rank: nat -> nat)
    requires Topological(g, order) && NoRepeats(order) && (forall i :: 0 <= i < |c.tab| ==> i in order)
    requires forall i: nat, x: nat :: Edge(ReadGraph(c), i, x) ==> Edge(g, i, x)
    requires forall i :: rank(i) == Position(order, i)
    ensures Acyclic(c, rank)
  {
    forall i, x | 0 <= i < |c.tab| && x in SymReads(c.tab[i]) ensures rank(x) < rank(i) {
      FollowedReads(c.tab[i], x);
      SumAt(c, i, x);
      assert Edge(g, i, x) && i in order;
      var k :| 0 <= k < |order| && order[k] == i;
      var m :| 0 <= m < k && order[m] == x;
      PositionOf(order, k);
      PositionOf(order, m);
    }
  }

  lemma {:induction false} RankFalls(c: Config, rank: nat -> nat, p: seq<nat>)
    requires Acyclic(c, rank) && IsPath(ReadGraph(c), p) && |p| >= 2
    ensures rank(p[|p| - 1]) < rank(p[0])
    decreases |p|
  {
    var g, n := ReadGraph(c), |p| - 1;
    assert Edge(g, p[n - 1], p[n - 1 + 1]);
    SumAt(c, p[n - 1], p[n]);
    FollowedReads(c.tab[p[n - 1]], p[n]);
    if n > 1 {
      assert IsPath(g, p[..n]) by {
        forall k | 0 <= k < n - 1 ensures Edge(g, p[..n][k], p[..n][k + 1]) { assert Edge(g, p[k], p[k + 1]); }
      }
      RankFalls(c, rank, p[..n]);
    }
  }

  lemma CycleMeansNoRank(c: Config, rank: nat -> nat)
    requires HasCycle(ReadGraph(c))
    ensures !Acyclic(c, rank)
  {
    var p: seq<nat> :| |p| >= 2 && p[0] == p[|p| - 1] && IsPath(ReadGraph(c), p);
    if Acyclic(c, rank) { RankFalls(c, rank, p); }
  }

  /** Some rank orders what the evaluator reads. */
  ghost predicate Ranked(c: Config) {
    exists rank: nat -> nat :: Acyclic(c, rank)
  }

  lemma ReadGraphClosed(c: Config)
    requires Closed(c)
    ensures ClosedGraph(ReadGraph(c))
  {
    var g := ReadGraph(c);
    forall i, k, x | 0 <= i < |g| && 0 <= k < |g[i]| && x in Reads(g[i][k]) ensures x < |g| {
      assert ReadBy(g[i], x);
      FollowedReads(c.tab[i], x);
    }
  }

  /** A rank exists exactly if the graph of what the evaluator reads has no cycle. */
  lemma RankedIfAcyclic(c: Config)
    requires Closed(c)
    ensures Ranked(c) <==> !HasCycle(ReadGraph(c))
  {
    var g := ReadGraph(c);
    if HasCycle(g) {
      forall rank: nat -> nat ensures !Acyclic(c, rank) { CycleMeansNoRank(c, rank); }
    } else {
      ReadGraphClosed(c);
      var order := Sort(g, []);
      var rank := (i: nat) => Position(order, i);
      OrderGivesRank(c, g, order, rank);
    }
  }

  /** When the check and the evaluator agree: both see a cycle of shared edges; otherwise the
      condition of some imply property leads back to its symbol exactly if some implied expression
      leads back to the implied symbol. */
  ghost predicate Agree(c: Config) {
    HasCycle(SharedGraph(c)) || (WayBack(ImplyGraph(c), FollowedGraph(c)) <==> WayBack(ImpliedGraph(c), ReadGraph(c)))
  }

  lemma AgreeExact(c: Config)
    requires Closed(c)
    ensures (HasCycle(FollowedGraph(c)) <==> !Ranked(c)) <==> Agree(c)
  {
    GraphsAreSums(c);
    CycleInSum(SharedGraph(c), ImplyGraph(c), FollowedGraph(c));
    CycleInSum(SharedGraph(c), ImpliedGraph(c), ReadGraph(c));
    RankedIfAcyclic(c);
  }

  /** Imply conditions read only what the evaluator reads for the same symbol. */
  ghost predicate ConditionsRead(c: Config) {
    forall i: nat, x: nat :: Edge(ImplyGraph(c), i, x) ==> Edge(ReadGraph(c), i, x)
  }

  /** Implied expressions read only what the check follows for the same symbol. */
  ghost predicate ImpliedFollowed(c: Config) {
    forall i: nat, x: nat :: Edge(ImpliedGraph(c), i, x) ==> Edge(FollowedGraph(c), i, x)
  }

  lemma MoreEdges(g: Graph, h: Graph)
    requires HasCycle(g) && forall i: nat, x: nat :: Edge(g, i, x) ==> Edge(h, i, x)
    ensures HasCycle(h)
  {
    var p: seq<nat> :| |p| >= 2 && p[0] == p[|p| - 1] && IsPath(g, p);
    assert IsPath(h, p);
  }

  /** The check on a configuration.  It agrees with the evaluator exactly under Agree.  If imply
      conditions read nothing new, a report means that there is no rank; if implied expressions
      read nothing new, the finishing order of a run without a report is one. */
  method CheckConfig(c: Config) returns (reports: nat, ghost rank: nat -> nat)
    requires Closed(c) && ClosedGraph(ImplyGraph(c))
    ensures reports > 0 <==> HasCycle(FollowedGraph(c))
    ensures (reports > 0 <==> !Ranked(c)) <==> Agree(c)
    ensures reports > 0 && ConditionsRead(c) ==> !Ranked(c)
    ensures reports == 0 && ImpliedFollowed(c) ==> Acyclic(c, rank)
  {
    var g := FollowedGraph(c);
    FollowedGraphClosed(c);
    GraphsAreSums(c);
    AgreeExact(c);
    RankedIfAcyclic(c);
    var checker := new Checker(g);
    checker.CheckAll();
    reports := checker.reports;
    ghost var order := checker.order;
    rank := (i: nat) => Position(order, i);
    if reports > 0 && ConditionsRead(c) { MoreEdges(g, ReadGraph(c)); }
    if reports == 0 && ImpliedFollowed(c) { OrderGivesRank(c, g, order, rank); }
  }

  lemma FollowedGraphClosed(c: Config)
    requires Closed(c) && ClosedGraph(ImplyGraph(c))
    ensures ClosedGraph(FollowedGraph(c))
  {
    var g, e := FollowedGraph(c), ImplyGraph(c);
    forall i, k, x | 0 <= i < |g| && 0 <= k < |g[i]| && x in Reads(g[i][k]) ensures x < |g| {
      assert ReadBy(g[i], x);
      FollowedReads(c.tab[i], x);
      if ReadBy(e[i], x) {
        var m :| 0 <= m < |e[i]| && x in Reads(e[i][m]);
      }
    }
  }

  // ----- where they disagree -----

  /** A symbol that one other symbol implies and that implies one other symbol, without conditions. */
  function Implied(s: Sym): Info {
    Info(Boolean, [None], [], None, None, Some(Symbol(s)), [None])
  }

  lemma NothingPresent()
    ensures PresentIn([None]) == []
  {
    var es: seq<Option<Expr>> := [None];
    assert es[..0] == [];
  }

  lemma ImpliedReads(s: Sym)
    ensures Followed(Implied(s)) == [] && SymReads(Implied(s)) == Id(s)
  {
    var d := Implied(s);
    NothingPresent();
    assert Shared(d) == [];
    forall x ensures x in SymReads(d) <==> x in Id(s) {
      FollowedReads(d, x);
      assert Reads(Symbol(s)) == Id(s);
    }
  }

  /** Two symbols that imply each other: the evaluator reads each for the other, so no rank orders
      the reads, and the check follows no edge at all. */
  lemma ImplyCycleUnreported() returns (c: Config)
    ensures Closed(c) && !HasCycle(FollowedGraph(c)) && !Ranked(c)
  {
    var a, b := Named(0, Boolean, false), Named(1, Boolean, false);
    ImpliedReads(a);
    ImpliedReads(b);
    var d0, d1 := Implied(b), Implied(a);
    c := Config([d0, d1], true, (s, x, t, y) => Order(x - y, true));
    MutualReads(c);
  }

  lemma MutualReads(c: Config)
    requires |c.tab| == 2 && Followed(c.tab[0]) == [] && Followed(c.tab[1]) == []
    requires SymReads(c.tab[0]) == {1} && SymReads(c.tab[1]) == {0}
    ensures Closed(c) && !HasCycle(FollowedGraph(c)) && !Ranked(c)
  {
    assert forall i :: 0 <= i < |c.tab| ==> Followed(c.tab[i]) == [] by {
      forall i | 0 <= i < |c.tab| ensures Followed(c.tab[i]) == [] { assert i == 0 || i == 1; }
    }
    NoEdgeNoCycle(c);
    MutualClosed(c);
    MutualNoRanks(c);
  }

  lemma MutualClosed(c: Config)
    requires |c.tab| == 2 && SymReads(c.tab[0]) == {1} && SymReads(c.tab[1]) == {0}
    ensures Closed(c)
  {
    forall i, x | 0 <= i < |c.tab| && x in SymReads(c.tab[i]) ensures x < |c.tab| { assert i == 0 || i == 1; }
  }

  lemma MutualNoRanks(c: Config)
    requires |c.tab| == 2 && SymReads(c.tab[0]) == {1} && SymReads(c.tab[1]) == {0}
    ensures !Ranked(c)
  {
    forall r: nat -> nat ensures !Acyclic(c, r) { MutualNoRank(c, r); }
  }

  lemma NoEdgeNoCycle(c: Config)
    requires forall i :: 0 <= i < |c.tab| ==> Followed(c.tab[i]) == []
    ensures !HasCycle(FollowedGraph(c))
  {
    var g := FollowedGraph(c);
    forall p: seq<nat> | |p| >= 2 ensures !IsPath(g, p) {
      assert !Edge(g, p[0], p[0 + 1]);
    }
  }

  lemma MutualNoRank(c: Config, r: nat -> nat)
    requires |c.tab| == 2 && 1 in SymReads(c.tab[0]) && 0 in SymReads(c.tab[1])
    ensures !Acyclic(c, r)
  {
    assert !(r(1) < r(0) && r(0) < r(1));
  }

  /** A implies B if C, and C depends on A: the check goes from A through the condition to C and
      back, and reports; A itself reads nothing, so the rank A, C, B orders the reads. */
  lemma ImplyConditionReported() returns (c: Config)
    ensures Closed(c) && ClosedGraph(ImplyGraph(c)) && HasCycle(FollowedGraph(c)) && Acyclic(c, (i: nat) => i)
  {
    var a, cond := Named(0, Boolean, false), Named(1, Boolean, false);
    var dA := Info(Boolean, [None], [], None, None, None, [Some(Symbol(cond))]);
    var dC := Info(Boolean, [Some(Symbol(a))], [], Some(Symbol(a)), None, None, []);
    var dB := Info(Boolean, [None], [], None, None, Some(Bin(AndOp, Symbol(a), Symbol(cond))), []);
    c := Config([dA, dC, dB], true, (s, x, t, y) => Order(x - y, true));
    ImplierReads(cond);
    DependentReads(a);
    TargetReads(a, cond);
    ConditionCycle(c);
  }

  lemma ImplierReads(s: Sym)
    ensures var d := Info(Boolean, [None], [], None, None, None, [Some(Symbol(s))]);
            SymReads(d) == {} && forall x :: ReadBy(PresentIn(d.implies), x) <==> x in Id(s)
  {
    var d := Info(Boolean, [None], [], None, None, None, [Some(Symbol(s))]);
    NothingPresent();
    forall x ensures x !in SymReads(d) { FollowedReads(d, x); }
    forall x ensures ReadBy(PresentIn(d.implies), x) <==> x in Id(s) {
      ReadByPrompts(d.implies, x);
      assert d.implies[0] == Some(Symbol(s)) && Reads(Symbol(s)) == Id(s);
    }
  }

  lemma DependentReads(s: Sym)
    ensures var d := Info(Boolean, [Some(Symbol(s))], [], Some(Symbol(s)), None, None, []);
            && SymReads(d) == Id(s) && PresentIn(d.implies) == []
            && forall x :: ReadBy(Shared(d), x) <==> x in Id(s)
  {
    var d := Info(Boolean, [Some(Symbol(s))], [], Some(Symbol(s)), None, None, []);
    assert Reads(Symbol(s)) == Id(s);
    forall x ensures (x in SymReads(d) <==> x in Id(s)) && (ReadBy(Shared(d), x) <==> x in Id(s)) {
      FollowedReads(d, x);
      assert d.prompts[0] == Some(Symbol(s));
    }
  }

  lemma TargetReads(s: Sym, t: Sym)
    ensures var d := Info(Boolean, [None], [], None, None, Some(Bin(AndOp, Symbol(s), Symbol(t))), []);
            SymReads(d) == Id(s) + Id(t) && PresentIn(d.implies) == []
  {
    var d := Info(Boolean, [None], [], None, None, Some(Bin(AndOp, Symbol(s), Symbol(t))), []);
    NothingPresent();
    assert Reads(d.implied.value) == Reads(Symbol(s)) + Reads(Symbol(t)) == Id(s) + Id(t);
    forall x ensures x in SymReads(d) <==> x in Id(s) + Id(t) { FollowedReads(d, x); }
  }

  lemma ConditionCycle(c: Config)
    requires |c.tab| == 3 && SymReads(c.tab[0]) == {} && SymReads(c.tab[1]) == {0} && SymReads(c.tab[2]) == {0, 1}
    requires forall x :: ReadBy(PresentIn(c.tab[0].implies), x) <==> x == 1
    requires ReadBy(Shared(c.tab[1]), 0) && PresentIn(c.tab[1].implies) == [] && PresentIn(c.tab[2].implies) == []
    ensures Closed(c) && ClosedGraph(ImplyGraph(c)) && HasCycle(FollowedGraph(c)) && Acyclic(c, (i: nat) => i)
  {
    ReadsInOrder(c);
    ConditionsClosed(c);
    FollowedReads(c.tab[0], 1);
    FollowedReads(c.tab[1], 0);
    SumAt(c, 0, 1);
    SumAt(c, 1, 0);
    var p: seq<nat> := [0, 1, 0];
    assert IsPath(FollowedGraph(c), p) && p[0] == p[|p| - 1];
  }

  lemma ReadsInOrder(c: Config)
    requires |c.tab| == 3 && SymReads(c.tab[0]) == {} && SymReads(c.tab[1]) == {0} && SymReads(c.tab[2]) == {0, 1}
    ensures Closed(c) && Acyclic(c, (i: nat) => i)
  {
    forall i, x | 0 <= i < |c.tab| && x in SymReads(c.tab[i]) ensures x < i { assert i == 0 || i == 1 || i == 2; }
  }

  lemma ConditionsClosed(c: Config)
    requires |c.tab| == 3 && forall x :: ReadBy(PresentIn(c.tab[0].implies), x) <==> x == 1
    requires PresentIn(c.tab[1].implies) == [] && PresentIn(c.tab[2].implies) == []
    ensures ClosedGraph(ImplyGraph(c))
  {
    var e := ImplyGraph(c);
    forall i, k, x | 0 <= i < |e| && 0 <= k < |e[i]| && x in Reads(e[i][k]) ensures x < |e| {
      assert ReadBy(e[i], x);
      assert i == 0 || i == 1 || i == 2;
    }
  }
}
