/**
  The menu tree of kconf/menu.c and the stackless walk over it in kconf/confdata.c.

  A menu node points to its next sibling, its first child and its parent.  menu_finalize moves
  nodes around in place: it puts the following siblings that depend on a symbol below that symbol,
  and it lifts the children of untitled nodes to the level of their parent.

  Nodes are numbered in the order in which the parser adds them (menu_add_entry), the root being
  0.  The nodes below v are then v + 1, v + 2, ... up to an end, and the ghost sequence of these
  ends is the shape of the tree; the pointers must agree with it.
*/
module MenuTree {

  const NULL := -1

  datatype Node = Node(next: int, list: int, parent: int)

  /** The nodes lo..hi are a list of children of par, followed by end. */
  predicate Siblings(t: seq<Node>, e: seq<nat>, lo: nat, hi: nat, par: int, end: int)
    requires hi <= |t| == |e|
    decreases hi - lo
  {
    lo >= hi ||
    ( && lo < e[lo] <= hi && t[lo].parent == par
      && t[lo].list == (if lo + 1 < e[lo] then lo + 1 else NULL)
      && t[lo].next == (if e[lo] < hi then e[lo] else end)
      && Siblings(t, e, lo + 1, e[lo], lo, NULL) && Siblings(t, e, e[lo], hi, par, end))
  }

  /** Among the nodes lo..hi, every node with children has a title. */
  predicate Settled(title: seq<bool>, e: seq<nat>, lo: nat, hi: nat)
    requires hi <= |e| == |title|
  {
    forall v :: lo <= v < hi && v + 1 < e[v] ==> title[v]
  }

  /** The same, except for the nodes at the top level. */
  predicate BelowSettled(title: seq<bool>, t: seq<Node>, e: seq<nat>, lo: nat, hi: nat)
    requires hi <= |t| == |e| == |title|
  {
    forall v :: lo <= v < hi && t[v].parent >= lo && v + 1 < e[v] ==> title[v]
  }

  predicate Unchanged(t: seq<Node>, e: seq<nat>, t': seq<Node>, e': seq<nat>, lo: nat, hi: nat)
    requires |t| == |t'| == |e| == |e'|
  {
    forall v {:trigger t[v]} {:trigger t'[v]} {:trigger e[v]} {:trigger e'[v]} ::
      lo <= v < hi && v < |t| ==> t[v] == t'[v] && e[v] == e'[v]
  }

  // ----- the shape of a list of siblings -----

  lemma {:induction false} Frame(t: seq<Node>, e: seq<nat>, t': seq<Node>, e': seq<nat>, lo: nat, hi: nat, par: int, end: int)
    requires hi <= |t| == |e| == |t'| == |e'| && Unchanged(t, e, t', e', lo, hi) && Siblings(t, e, lo, hi, par, end)
    ensures Siblings(t', e', lo, hi, par, end)
    decreases hi - lo
  {
    if lo < hi {
      Frame(t, e, t', e', lo + 1, e[lo], lo, NULL);
      Frame(t, e, t', e', e[lo], hi, par, end);
    }
  }

  lemma {:induction false} Join(t: seq<Node>, e: seq<nat>, lo: nat, mid: nat, hi: nat, par: int, end: int)
    requires lo <= mid <= hi <= |t| == |e|
    requires Siblings(t, e, lo, mid, par, if mid < hi then mid else end) && Siblings(t, e, mid, hi, par, end)
    ensures Siblings(t, e, lo, hi, par, end)
    decreases mid - lo
  {
    if lo < mid { Join(t, e, e[lo], mid, hi, par, end); }
  }

  /** Where the pointers of a node lead. */
  lemma {:induction false} Local(t: seq<Node>, e: seq<nat>, lo: nat, hi: nat, par: int, end: int, v: nat)
    requires par < lo <= v < hi <= |t| == |e| && Siblings(t, e, lo, hi, par, end)
    ensures v < e[v] <= hi && t[v].list == (if v + 1 < e[v] then v + 1 else NULL)
    ensures t[v].parent == par || lo <= t[v].parent < v
    ensures t[v].parent == par || e[v] <= e[t[v].parent] <= hi
    ensures var lim := if t[v].parent == par then hi else e[t[v].parent];
            t[v].next == if e[v] < lim then e[v] else if t[v].parent == par then end else NULL
    decreases hi - lo
  {
    if lo < v < e[lo] {
      Local(t, e, lo + 1, e[lo], lo, NULL, v);
    } else if lo < v {
      Local(t, e, e[lo], hi, par, end, v);
    }
  }

  /** The last node of a list gets another successor. */
  lemma {:induction false} Relink(t: seq<Node>, e: seq<nat>, t': seq<Node>, lo: nat, hi: nat, par: int, end: int, last: nat, end': int)
    requires par < lo <= last < hi <= |t| == |e| && Siblings(t, e, lo, hi, par, end) && t[last].parent == par && e[last] == hi
    requires t' == t[last := t[last].(next := end')]
    ensures Siblings(t', e, lo, hi, par, end')
    decreases hi - lo
  {
    if lo == last {
      Frame(t, e, t', e, lo + 1, hi, lo, NULL);
    } else {
      if last < e[lo] { Local(t, e, lo + 1, e[lo], lo, NULL, last); }
      Frame(t, e, t', e, lo + 1, e[lo], lo, NULL);
      Relink(t, e, t', e[lo], hi, par, end, last, end');
    }
  }

  /** The first tree of what is left is done as well. */
  lemma OneMore(t: seq<Node>, e: seq<nat>, lo: nat, mid: nat, hi: nat, par: int)
    requires lo <= mid < hi <= |t| == |e|
    requires Siblings(t, e, lo, mid, par, mid) && Siblings(t, e, mid, hi, par, NULL)
    ensures mid < e[mid] <= hi && t[mid].next == (if e[mid] < hi then e[mid] else NULL)
    ensures Siblings(t, e, lo, e[mid], par, t[mid].next) && Siblings(t, e, e[mid], hi, par, NULL)
  {
    Join(t, e, lo, mid, e[mid], par, t[mid].next);
  }

  /** Automatic submenu creation, one round: the finalized node mid gets the parent p. */
  lemma Adopt(t: seq<Node>, e: seq<nat>, t1: seq<Node>, e1: seq<nat>, title: seq<bool>, lo: nat, mid: nat, hi: nat, p: nat, par: int)
    requires par < p < lo <= mid < hi <= |t| == |e| == |t1| == |e1| == |title|
    requires Siblings(t, e, lo, mid, p, mid) && BelowSettled(title, t, e, lo, mid) && Unchanged(t, e, t1, e1, 0, mid)
    requires Siblings(t1, e1, mid, hi, par, NULL) && Settled(title, e1, mid + 1, e1[mid])
    ensures var t2 := t1[mid := t1[mid].(parent := p)];
      && t1[mid].next == (if e1[mid] < hi then e1[mid] else NULL)
      && Siblings(t2, e1, lo, e1[mid], p, t1[mid].next) && Siblings(t2, e1, e1[mid], hi, par, NULL)
      && BelowSettled(title, t2, e1, lo, e1[mid]) && forall v :: mid < v < e1[mid] ==> t2[v].parent != p
  {
    var t2 := t1[mid := t1[mid].(parent := p)];
    Frame(t, e, t2, e1, lo, mid, p, mid);
    Frame(t1, e1, t2, e1, mid + 1, e1[mid], mid, NULL);
    Frame(t1, e1, t2, e1, e1[mid], hi, par, NULL);
    Join(t2, e1, lo, mid, e1[mid], p, t1[mid].next);
    forall v | mid < v < e1[mid] ensures t2[v].parent != p { Local(t2, e1, mid + 1, e1[mid], mid, NULL, v); }
  }

  /** Automatic submenu creation, second part: the children p + 1..mid of p, still linked as
      siblings of p, become its list. */
  lemma Submenu(t: seq<Node>, e: seq<nat>, p: nat, hi: nat, par: int, last: nat, mid: nat)
    requires par < p < last < mid <= hi <= |t| == |e| && t[p].parent == par && t[p].next == p + 1
    requires Siblings(t, e, p + 1, mid, p, if mid < hi then mid else NULL) && Siblings(t, e, mid, hi, par, NULL)
    requires t[last].parent == p && e[last] == mid
    ensures var n := t[p];
            var t' := t[p := n.(list := n.next, next := t[last].next)][last := t[last].(next := NULL)];
            Siblings(t', e[p := mid], p, hi, par, NULL)
  {
    var n := t[p];
    var t1 := t[last := t[last].(next := NULL)];
    var t' := t[p := n.(list := n.next, next := t[last].next)][last := t[last].(next := NULL)];
    Local(t, e, p + 1, mid, p, if mid < hi then mid else NULL, last);
    Relink(t, e, t1, p + 1, mid, p, if mid < hi then mid else NULL, last, NULL);
    Frame(t1, e, t', e[p := mid], p + 1, mid, p, NULL);
    Frame(t, e, t', e[p := mid], mid, hi, par, NULL);
  }

  /** The next node of a list gets the parent p instead of par. */
  lemma Renamed(t: seq<Node>, e: seq<nat>, lo: nat, v: nat, hi: nat, p: int, par: int)
    requires p <= par < lo <= v < hi <= |t| == |e|
    requires Siblings(t, e, lo, v, p, v) && Siblings(t, e, v, hi, par, NULL)
    ensures var t' := t[v := t[v].(parent := p)];
      && v < e[v] <= hi && t[v].next == (if e[v] < hi then e[v] else NULL)
      && Siblings(t', e, lo, e[v], p, t[v].next) && Siblings(t', e, e[v], hi, par, NULL)
  {
    var t' := t[v := t[v].(parent := p)];
    Frame(t, e, t', e, lo, v, p, v);
    Frame(t, e, t', e, v + 1, e[v], v, NULL);
    Frame(t, e, t', e, e[v], hi, par, NULL);
    Join(t', e, lo, v, e[v], p, t[v].next);
  }

  /** The reparented children of m are put between m and what follows it. */
  lemma Lifted(t0: seq<Node>, t: seq<Node>, e: seq<nat>, m: nat, hi: nat, p: int, last: nat)
    requires p < m < last < hi <= |t0| == |t| == |e| && Siblings(t0, e, m, hi, p, NULL) && m + 1 < e[m]
    requires Unchanged(t0, e, t, e, 0, m + 1) && Unchanged(t0, e, t, e, e[m], |t|)
    requires Siblings(t, e, m + 1, e[m], p, NULL) && last < e[m] && t[last].parent == p && e[last] == e[m]
    ensures var n := t[m];
            var t' := t[last := t[last].(next := n.next)][m := n.(next := n.list, list := NULL)];
            Siblings(t', e[m := m + 1], m, hi, p, NULL)
  {
    var n := t[m];
    var t1 := t[last := t[last].(next := n.next)];
    var t', e' := t1[m := n.(next := n.list, list := NULL)], e[m := m + 1];
    Relink(t, e, t1, m + 1, e[m], p, NULL, last, n.next);
    Frame(t1, e, t', e', m + 1, e[m], p, n.next);
    Frame(t0, e, t', e', e[m], hi, p, NULL);
    Join(t', e', m + 1, e[m], hi, p, NULL);
  }

  /** The nodes lo..hi without a title lose their children, the others keep them. */
  predicate Flattened(title: seq<bool>, e0: seq<nat>, e: seq<nat>, lo: nat, hi: nat)
    requires hi <= |e0| == |e| == |title|
  {
    forall v :: lo <= v < hi ==> e[v] == if title[v] then e0[v] else v + 1
  }

  lemma Passed(title: seq<bool>, t: seq<Node>, e0: seq<nat>, e: seq<nat>, m: nat, hi: nat, p: int)
    requires p < m < hi <= |t| == |e0| == |e| == |title| && Siblings(t, e, m, hi, p, NULL)
    requires BelowSettled(title, t, e, m, hi) && e[m] == if title[m] then e0[m] else m + 1
    requires forall v :: m < v < hi ==> e[v] == e0[v]
    ensures Flattened(title, e0, e, m, e[m]) && BelowSettled(title, t, e, e[m], hi)
  {
    forall v | m < v < e[m] ensures e[v] == if title[v] then e0[v] else v + 1 {
      Local(t, e, m + 1, e[m], m, NULL, v);
    }
  }

  /** Rearranging what is below p leaves p and its siblings in place. */
  lemma Below(t: seq<Node>, e: seq<nat>, t': seq<Node>, e': seq<nat>, p: nat, hi: nat, par: int)
    requires p < hi <= |t| == |e| == |t'| == |e'| && Siblings(t, e, p, hi, par, NULL)
    requires Unchanged(t, e, t', e', 0, p + 1) && Unchanged(t, e, t', e', e[p], |t|)
    requires Siblings(t', e', p + 1, e[p], p, NULL)
    ensures Siblings(t', e', p, hi, par, NULL)
  {
    Frame(t, e, t', e', e[p], hi, par, NULL);
  }

  /** The tree below the root, node 0. */
  predicate Whole(t: seq<Node>, e: seq<nat>) {
    0 < |t| == |e| && e[0] == |t| && Siblings(t, e, 0, |t|, NULL, NULL)
  }

  function Range(lo: nat, hi: nat): seq<int>
    requires lo <= hi
  {
    seq(hi - lo, k => lo + k)
  }

  /** The nodes that are reached from v through list and next, in preorder. */
  function Preorder(t: seq<Node>, v: nat): seq<int>
    decreases |t| - v
  {
    if v >= |t| then [] else
      [v] + (if v < t[v].list then Preorder(t, t[v].list) else []) + (if v < t[v].next then Preorder(t, t[v].next) else [])
  }

  lemma RangeTree(lo: nat, mid: nat, hi: nat)
    requires lo < mid <= hi
    ensures [lo] + Range(lo + 1, mid) + Range(mid, hi) == Range(lo, hi)
  {
  }

  lemma {:induction false} PreorderIsOrder(t: seq<Node>, e: seq<nat>, lo: nat, hi: nat, par: int)
    requires lo < hi <= |t| == |e| && Siblings(t, e, lo, hi, par, NULL)
    ensures Preorder(t, lo) == Range(lo, hi)
    decreases hi - lo
  {
    var mid := e[lo];
    if lo + 1 < mid { PreorderIsOrder(t, e, lo + 1, mid, lo); }
    if mid < hi { PreorderIsOrder(t, e, mid, hi, par); }
    var kids := if lo < t[lo].list then Preorder(t, t[lo].list) else [];
    var sibs := if lo < t[lo].next then Preorder(t, t[lo].next) else [];
    assert kids == Range(lo + 1, mid) && sibs == Range(mid, hi);
    RangeTree(lo, mid, hi);
  }

  /** Every child points to its parent, and siblings share it. */
  ghost predicate PointBack(t: seq<Node>, v: nat)
    requires v < |t|
  {
    && (t[v].list != NULL ==> v < t[v].list < |t| && t[t[v].list].parent == v)
    && (t[v].next != NULL ==> v < t[v].next < |t| && t[t[v].next].parent == t[v].parent)
  }

  lemma {:induction false} ParentsRight(t: seq<Node>, e: seq<nat>, lo: nat, hi: nat, par: int, v: nat)
    requires lo <= v < hi <= |t| == |e| && Siblings(t, e, lo, hi, par, NULL)
    ensures PointBack(t, v)
    decreases hi - lo
  {
    if lo < v < e[lo] {
      ParentsRight(t, e, lo + 1, e[lo], lo, v);
    } else if lo < v {
      ParentsRight(t, e, e[lo], hi, par, v);
    }
  }

  // ----- menu_finalize -----

  /** joins(p, m) is the outcome of the dependency tests that put m below the symbol of p. */
  class Menus {
    const hasSymbol: seq<bool>
    const hasTitle: seq<bool>
    const joins: (nat, nat) -> bool
    var nodes: seq<Node>
    ghost var ends: seq<nat>

    ghost predicate Sized()
      reads this
    {
      |nodes| == |ends| == |hasSymbol| == |hasTitle|
    }

    ghost predicate List(lo: nat, hi: nat, par: int, end: int)
      reads this
    {
      Sized() && par < lo && hi <= |nodes| && Siblings(nodes, ends, lo, hi, par, end)
    }

    /** Only the nodes lo..hi have changed. */
    twostate predicate Only(lo: nat, hi: nat)
      reads this
    {
      && |nodes| == |ends| == old(|nodes|) == old(|ends|) && lo <= hi <= |nodes|
      && Unchanged(old(nodes), old(ends), nodes, ends, 0, lo) && Unchanged(old(nodes), old(ends), nodes, ends, hi, |nodes|)
    }

    /** The children of a node that has some: each is finalized in turn. */
    method FinalizeAll(first: int, ghost lo: nat, ghost hi: nat, ghost par: int)
      requires List(lo, hi, par, NULL) && lo < hi && first == lo
      modifies this
      ensures List(lo, hi, par, NULL) && Only(lo, hi) && BelowSettled(hasTitle, nodes, ends, lo, hi)
      decreases hi - lo, 1
    {
      var menu := first;
      ghost var mid := lo;
      while menu != NULL
        invariant lo <= mid <= hi && menu == if mid < hi then mid else NULL
        invariant List(lo, mid, par, menu) && List(mid, hi, par, NULL)
        invariant Only(lo, hi) && BelowSettled(hasTitle, nodes, ends, lo, mid)
        decreases hi - mid
      {
        ghost var t, e := nodes, ends;
        Finalize(menu, hi, par);
        Frame(t, e, nodes, ends, lo, mid, par, mid);
        OneMore(nodes, ends, lo, mid, hi, par);
        mid, menu := ends[mid], nodes[menu].next;
      }
    }

    /** One round of it: the finalized node m joins those before it. */
    method AbsorbOne(m: nat, p: nat, ghost lo: nat, ghost hi: nat, ghost par: int)
      requires par < p < lo <= m < hi && List(lo, m, p, m) && List(m, hi, par, NULL)
      requires BelowSettled(hasTitle, nodes, ends, lo, m)
      modifies this
      ensures Only(m, hi) && m < ends[m] <= hi && nodes[m].next == (if ends[m] < hi then ends[m] else NULL)
      ensures List(lo, ends[m], p, nodes[m].next) && List(ends[m], hi, par, NULL)
      ensures BelowSettled(hasTitle, nodes, ends, lo, ends[m])
      ensures forall v :: m <= v < ends[m] && nodes[v].parent == p <==> v == m
      decreases hi - m, 1
    {
      ghost var t, e := nodes, ends;
      Finalize(m, hi, par);
      Adopt(t, e, nodes, ends, hasTitle, lo, m, hi, p, par);
      nodes := nodes[m := nodes[m].(parent := p)];
    }

    /** Automatic submenu creation, first part: the siblings after p that depend on it are finalized
        and get p as their parent; they stay linked as siblings of p. */
    method Absorb(p: nat, ghost lo: nat, ghost hi: nat, ghost par: int) returns (last: int, ghost mid: nat)
      requires List(lo, hi, par, NULL) && par < p < lo <= hi && nodes[p].next == if lo < hi then lo else NULL
      modifies this
      ensures lo <= mid <= hi && List(lo, mid, p, if mid < hi then mid else NULL) && List(mid, hi, par, NULL)
      ensures Only(lo, hi) && BelowSettled(hasTitle, nodes, ends, lo, mid)
      ensures if mid == lo then last == NULL else lo <= last < mid && nodes[last].parent == p && ends[last] == mid
      ensures (forall v :: lo <= v < mid && nodes[v].parent == p ==> joins(p, v)) && (mid < hi ==> !joins(p, mid))
      decreases hi - lo, 2
    {
      var menu := nodes[p].next;
      last, mid := NULL, lo;
      while menu != NULL
        invariant lo <= mid <= hi && menu == if mid < hi then mid else NULL
        invariant List(lo, mid, p, menu) && List(mid, hi, par, NULL)
        invariant Only(lo, hi) && BelowSettled(hasTitle, nodes, ends, lo, mid)
        invariant if mid == lo then last == NULL else lo <= last < mid && nodes[last].parent == p && ends[last] == mid
        invariant forall v :: lo <= v < mid && nodes[v].parent == p ==> joins(p, v)
        decreases hi - mid
      {
        if !joins(p, menu) { break; }
        AbsorbOne(menu, p, lo, hi, par);
        last, mid, menu := menu, ends[mid], nodes[menu].next;
      }
    }

    /** Automatic submenu creation below p. */
    method MakeSubmenu(p: nat, ghost hi: nat, ghost par: int)
      requires List(p, hi, par, NULL) && p < hi && nodes[p].list == NULL
      modifies this
      ensures List(p, hi, par, NULL) && Only(p, hi) && BelowSettled(hasTitle, nodes, ends, p + 1, ends[p])
      ensures forall v :: p < v < ends[p] && nodes[v].parent == p ==> joins(p, v)
      ensures ends[p] < hi ==> !joins(p, ends[p])
      decreases hi - p - 1, 3
    {
      ghost var t := nodes;
      var last, mid := Absorb(p, p + 1, hi, par);
      if last != NULL {
        Submenu(nodes, ends, p, hi, par, last, mid);
        var n := nodes[p];
        nodes := nodes[p := n.(list := n.next, next := nodes[last].next)][last := nodes[last].(next := NULL)];
        ends := ends[p := mid];
      }
    }

    /** Every node of a list gets the parent p; the last one is returned. */
    method Reparent(first: nat, p: nat, ghost hi: nat, ghost par: int) returns (last: nat)
      requires List(first, hi, par, NULL) && p <= par < first < hi
      modifies this`nodes
      ensures List(first, hi, p, NULL) && Only(first, hi)
      ensures first <= last < hi && nodes[last].parent == p && ends[last] == hi
      ensures forall v :: first <= v < hi ==> nodes[v].parent == p || nodes[v].parent == old(nodes[v].parent)
    {
      last := first;
      Renamed(nodes, ends, first, first, hi, p, par);
      nodes := nodes[last := nodes[last].(parent := p)];
      while nodes[last].next != NULL
        invariant first <= last < hi && Only(first, hi) && nodes[last].parent == p
        invariant forall v :: first <= v < hi ==> nodes[v].parent == p || nodes[v].parent == old(nodes[v].parent)
        invariant last < ends[last] <= hi && nodes[last].next == (if ends[last] < hi then ends[last] else NULL)
        invariant List(first, ends[last], p, nodes[last].next) && List(ends[last], hi, par, NULL)
        decreases hi - last
      {
        last := nodes[last].next;
        Renamed(nodes, ends, first, last, hi, p, par);
        nodes := nodes[last := nodes[last].(parent := p)];
      }
    }

    /** A child m of p that has children but no title: the children follow m as children of p. */
    method Lift(m: nat, p: nat, ghost hi: nat)
      requires List(m, hi, p, NULL) && m < hi && BelowSettled(hasTitle, nodes, ends, m, hi)
      modifies this
      ensures List(m, hi, p, NULL) && Only(m, hi) && BelowSettled(hasTitle, nodes, ends, m, hi)
      ensures ends == if hasTitle[m] then old(ends) else old(ends)[m := m + 1]
    {
      if nodes[m].list != NULL && !hasTitle[m] {
        ghost var t, mid := nodes, ends[m];
        var last := Reparent(nodes[m].list, p, mid, m);
        Lifted(t, nodes, ends, m, hi, p, last);
        var n := nodes[m];
        nodes := nodes[last := nodes[last].(next := n.next)][m := n.(next := n.list, list := NULL)];
        ends := ends[m := m + 1];
      }
    }

    /** One round of the flattening loop. */
    method FlattenOne(m: nat, p: nat, ghost hi: nat)
      requires p < m < hi && List(p + 1, m, p, m) && List(m, hi, p, NULL) && BelowSettled(hasTitle, nodes, ends, m, hi)
      modifies this
      ensures Only(m, hi) && m < ends[m] <= hi && nodes[m].next == (if ends[m] < hi then ends[m] else NULL)
      ensures List(p + 1, ends[m], p, nodes[m].next) && List(ends[m], hi, p, NULL)
      ensures Flattened(hasTitle, old(ends), ends, m, ends[m]) && BelowSettled(hasTitle, nodes, ends, ends[m], hi)
      ensures forall v :: m < v < hi ==> ends[v] == old(ends)[v]
    {
      ghost var t, e := nodes, ends;
      Lift(m, p, hi);
      Frame(t, e, nodes, ends, p + 1, m, p, m);
      OneMore(nodes, ends, p + 1, m, hi, p);
      Passed(hasTitle, nodes, e, ends, m, hi, p);
    }

    /** The flattening loop over the children of p. */
    method Flatten(p: nat, ghost hi: nat)
      requires List(p + 1, hi, p, NULL) && p < hi && nodes[p].list == if p + 1 < hi then p + 1 else NULL
      requires BelowSettled(hasTitle, nodes, ends, p + 1, hi)
      modifies this
      ensures List(p + 1, hi, p, NULL) && Only(p + 1, hi) && Settled(hasTitle, ends, p + 1, hi)
      ensures Flattened(hasTitle, old(ends), ends, p + 1, hi)
    {
      var menu := nodes[p].list;
      ghost var mid, e0 := p + 1, ends;
      while menu != NULL
        invariant p < mid <= hi && menu == if mid < hi then mid else NULL
        invariant List(p + 1, mid, p, menu) && List(mid, hi, p, NULL) && Only(p + 1, hi)
        invariant Flattened(hasTitle, e0, ends, p + 1, mid) && BelowSettled(hasTitle, nodes, ends, mid, hi)
        invariant forall v :: mid <= v < hi ==> ends[v] == e0[v]
        decreases hi - mid
      {
        FlattenOne(menu, p, hi);
        mid, menu := ends[mid], nodes[menu].next;
      }
    }

    /** menu_finalize on node p, as far as the tree is concerned: hi is the end of p's own list. */
    method Finalize(p: nat, ghost hi: nat, ghost par: int)
      requires List(p, hi, par, NULL) && p < hi
      modifies this
      ensures List(p, hi, par, NULL) && Only(p, hi) && Settled(hasTitle, ends, p + 1, ends[p])
      ensures if old(nodes[p].list == NULL) && hasSymbol[p] then ends[p] < hi ==> !joins(p, ends[p]) else ends[p] == old(ends[p])
      decreases hi - p, 0
    {
      ghost var t, e := nodes, ends;
      if nodes[p].list != NULL {
        FinalizeAll(nodes[p].list, p + 1, ends[p], p);
        Below(t, e, nodes, ends, p, hi, par);
      } else if hasSymbol[p] {
        MakeSubmenu(p, hi, par);
      }
      t, e := nodes, ends;
      Flatten(p, ends[p]);
      Below(t, e, nodes, ends, p, hi, par);
    }

    /** The whole tree. */
    ghost predicate Tree()
      reads this
    {
      Sized() && Whole(nodes, ends)
    }

    /** menu_finalize on the root, which has no symbol: the preorder stays, every parent pointer is
        right, and no untitled node keeps children. */
    method FinalizeRoot()
      requires Tree() && !hasSymbol[0]
      modifies this
      ensures Tree() && Settled(hasTitle, ends, 1, |nodes|) && |nodes| == old(|nodes|)
      ensures Preorder(nodes, 0) == old(Preorder(nodes, 0))
      ensures forall v :: 0 <= v < |nodes| ==> PointBack(nodes, v)
    {
      PreorderIsOrder(nodes, ends, 0, |nodes|, NULL);
      Finalize(0, |nodes|, NULL);
      PreorderIsOrder(nodes, ends, 0, |nodes|, NULL);
      forall v | 0 <= v < |nodes| ensures PointBack(nodes, v) {
        ParentsRight(nodes, ends, 0, |nodes|, NULL, v);
      }
    }

    /** Finalizing and then writing visits every node but the root once, in the order in which
        the tree was read. */
    method FinalizeAndWalk() returns (visited: seq<int>)
      requires Tree() && !hasSymbol[0]
      modifies this
      ensures [0] + visited == old(Preorder(nodes, 0)) == Preorder(nodes, 0)
      ensures |visited| + 1 == |nodes| == old(|nodes|) && forall k :: 0 <= k < |visited| ==> visited[k] == k + 1
    {
      FinalizeRoot();
      visited := Walk();
      PreorderIsOrder(nodes, ends, 0, |nodes|, NULL);
      assert [0] + Range(1, |nodes|) == Range(0, |nodes|);
    }

    /** The loop of conf_write: a preorder walk that climbs through the parent pointers. */
    method Walk() returns (visited: seq<int>)
      requires Tree()
      ensures visited == Range(1, |nodes|)
    {
      visited := [];
      var menu := nodes[0].list;
      while menu != NULL
        invariant menu == NULL || 1 <= menu < |nodes|
        invariant visited == Range(1, if menu == NULL then |nodes| else menu)
        decreases |nodes| - |visited|
      {
        visited := visited + [menu];
        Local(nodes, ends, 0, |nodes|, NULL, NULL, menu);
        if nodes[menu].list != NULL {
          menu := nodes[menu].list;
        } else if nodes[menu].next != NULL {
          menu := nodes[menu].next;
        } else {
          menu := nodes[menu].parent;
          while menu != NULL
            invariant menu == NULL || 0 <= menu < |nodes|
            invariant ends[if menu == NULL then 0 else menu] == |visited| + 1
            decreases menu
          {
            Local(nodes, ends, 0, |nodes|, NULL, NULL, menu);
            if nodes[menu].next != NULL {
              menu := nodes[menu].next;
              break;
            }
            menu := nodes[menu].parent;
          }
        }
      }
    }
  }

  // ----- building the tree -----

  /** The field that the next entry will be linked from: a list field or a next field. */
  datatype Slot = ListOf(node: nat) | NextOf(node: nat)

  function Linked(t: seq<Node>, slot: Slot, v: int): seq<Node>
    requires slot.node < |t|
  {
    t[slot.node := if slot.ListOf? then t[slot.node].(list := v) else t[slot.node].(next := v)]
  }

  /** The slot is where the children of cur, an unfinished node, go on. */
  predicate SlotOk(t: seq<Node>, e: seq<nat>, cur: nat, slot: Slot) {
    && |t| == |e| && cur <= slot.node < |t| && e[cur] == |t| == e[slot.node]
    && if slot.ListOf? then slot.node == cur && cur + 1 == |t| else cur < slot.node && t[slot.node].parent == cur
  }

  /** With one more entry, cur and the nodes around it end one later. */
  function Longer(e: seq<nat>, cur: nat): seq<nat> {
    seq(|e|, v requires 0 <= v < |e| => if v <= cur && e[v] == |e| then |e| + 1 else e[v]) + [|e| + 1]
  }

  lemma {:induction false} Grow(t: seq<Node>, e: seq<nat>, lo: nat, par: int, cur: nat, slot: Slot)
    requires par < lo <= cur && SlotOk(t, e, cur, slot) && Siblings(t, e, lo, |t|, par, NULL)
    ensures Siblings(Linked(t, slot, |t|) + [Node(NULL, NULL, cur)], Longer(e, cur), lo, |t| + 1, par, NULL)
    decreases |t| - lo
  {
    var t', e' := Linked(t, slot, |t|) + [Node(NULL, NULL, cur)], Longer(e, cur);
    if lo == cur {
      GrowHere(t, e, par, cur, slot);
    } else if e[lo] <= cur {
      forall v | lo < v < e[lo] ensures t'[v] == t[v] && e'[v] == e[v] {
        Local(t, e, lo + 1, e[lo], lo, NULL, v);
      }
      Shorter(t, e, t', e', lo + 1, e[lo], lo, NULL);
      Grow(t, e, e[lo], par, cur, slot);
    } else {
      Local(t, e, lo + 1, e[lo], lo, NULL, cur);
      Grow(t, e, lo + 1, lo, cur, slot);
    }
  }

  lemma GrowHere(t: seq<Node>, e: seq<nat>, par: int, cur: nat, slot: Slot)
    requires par < cur && SlotOk(t, e, cur, slot) && Siblings(t, e, cur, |t|, par, NULL)
    ensures Siblings(Linked(t, slot, |t|) + [Node(NULL, NULL, cur)], Longer(e, cur), cur, |t| + 1, par, NULL)
  {
    var n, t1 := |t|, Linked(t, slot, |t|);
    var t', e' := t1 + [Node(NULL, NULL, cur)], Longer(e, cur);
    assert t'[n] == Node(NULL, NULL, cur) && e'[n] == n + 1;
    assert Siblings(t', e', n + 1, n + 1, n, NULL) && Siblings(t', e', n + 1, n + 1, cur, NULL);
    assert Siblings(t', e', n, n + 1, cur, NULL);
    if slot.NextOf? {
      Relink(t, e, t1, cur + 1, n, cur, NULL, slot.node, n);
      Shorter(t1, e, t', e', cur + 1, n, cur, n);
      Join(t', e', cur + 1, n, n + 1, cur, NULL);
    }
  }

  /** The shape of a list does not depend on later nodes. */
  lemma {:induction false} Shorter(t: seq<Node>, e: seq<nat>, t': seq<Node>, e': seq<nat>, lo: nat, hi: nat, par: int, end: int)
    requires hi <= |t| == |e| <= |t'| == |e'| && Siblings(t, e, lo, hi, par, end)
    requires forall v :: lo <= v < hi ==> t[v] == t'[v] && e[v] == e'[v]
    ensures Siblings(t', e', lo, hi, par, end)
    decreases hi - lo
  {
    if lo < hi {
      Shorter(t, e, t', e', lo + 1, e[lo], lo, NULL);
      Shorter(t, e, t', e', e[lo], hi, par, end);
    }
  }

  /** The parser's side: the tree read so far and the place where the next entry goes. */
  class Builder {
    var nodes: seq<Node>
    ghost var ends: seq<nat>
    var currentMenu: nat
    var currentEntry: nat
    var lastEntry: Slot

    ghost predicate Valid()
      reads this
    {
      && Whole(nodes, ends) && SlotOk(nodes, ends, currentMenu, lastEntry)
      && currentEntry + 1 == |nodes|
    }

    /** _menu_init: the root alone. */
    constructor ()
      ensures Valid() && |nodes| == 1
    {
      nodes, ends := [Node(NULL, NULL, NULL)], [1];
      currentMenu, currentEntry, lastEntry := 0, 0, ListOf(0);
    }

    /** menu_add_entry. */
    method AddEntry()
      requires Valid()
      modifies this
      ensures Valid() && |nodes| == old(|nodes|) + 1 && nodes[|nodes| - 1].parent == currentMenu == old(currentMenu)
      ensures currentEntry == old(|nodes|) && forall v :: 0 <= v < old(|nodes|) ==> nodes[v].parent == old(nodes)[v].parent
    {
      var n := |nodes|;
      Grow(nodes, ends, 0, NULL, currentMenu, lastEntry);
      nodes := Linked(nodes, lastEntry, n) + [Node(NULL, NULL, currentMenu)];
      ends := Longer(ends, currentMenu);
      lastEntry, currentEntry := NextOf(n), n;
    }

    /** menu_add_menu, right after its entry has been added. */
    method AddMenu()
      requires Valid() && currentEntry > 0 && nodes[currentEntry].parent == currentMenu
      modifies this
      ensures Valid() && nodes == old(nodes) && currentMenu == currentEntry == old(currentEntry)
    {
      Local(nodes, ends, 0, |nodes|, NULL, NULL, currentEntry);
      lastEntry := ListOf(currentEntry);
      currentMenu := currentEntry;
    }

    /** menu_end_menu. */
    method EndMenu()
      requires Valid() && currentMenu > 0
      modifies this
      ensures Valid() && nodes == old(nodes) && currentMenu == nodes[old(currentMenu)].parent
    {
      Local(nodes, ends, 1, |nodes|, 0, NULL, currentMenu);
      lastEntry := NextOf(currentMenu);
      currentMenu := nodes[currentMenu].parent;
    }
  }
}
