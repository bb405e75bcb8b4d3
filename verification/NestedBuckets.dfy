/** The nested bucket directory of compat/lib-rhashtable.c: a multi-level index, allocated on
    demand, that addresses the same buckets as a flat array. */
module NestedBuckets {
  import opened Wrappers

  /** A bucket address: directory page and index in the page. */
  datatype Slot = Slot(page: nat, index: nat)

  function Pow2(n: nat): nat {
    if n == 0 then 1 else 2 * Pow2(n - 1)
  }

  /** h >> n. */
  function Shr(h: nat, n: nat): nat
    decreases n
  {
    if n == 0 then h else Shr(h / 2, n - 1)
  }

  /** h & ((1 << n) - 1). */
  function Low(h: nat, n: nat): nat
    decreases n
  {
    if n == 0 then 0 else h % 2 + 2 * Low(h / 2, n - 1)
  }

  lemma {:induction false} LowBound(h: nat, n: nat)
    ensures Low(h, n) < Pow2(n)
    decreases n
  {
    if n > 0 { LowBound(h / 2, n - 1); }
  }

  lemma {:induction false} ShrBound(h: nat, n: nat, m: nat)
    requires h < Pow2(n + m)
    ensures Shr(h, n) < Pow2(m)
    decreases n
  {
    if n > 0 { ShrBound(h / 2, n - 1, m); }
  }

  /** Low and high bits determine the number. */
  lemma {:induction false} SplitInjective(h: nat, g: nat, n: nat)
    requires Low(h, n) == Low(g, n) && Shr(h, n) == Shr(g, n)
    ensures h == g
    decreases n
  {
    if n > 0 { SplitInjective(h / 2, g / 2, n - 1); }
  }

  lemma {:induction false} ShrPow2(m: nat, n: nat)
    requires n <= m
    ensures Shr(Pow2(m), n) == Pow2(m - n)
    decreases n
  {
    if n > 0 { ShrPow2(m - 1, n - 1); }
  }

  lemma {:induction false} Pow2Monotone(a: nat, b: nat)
    requires a <= b
    ensures Pow2(a) <= Pow2(b) && (a < b ==> Pow2(a) < Pow2(b))
    decreases b
  {
    if a < b {
      Pow2Monotone(a, b - 1);
      Pow2Positive(b - 1);
    }
  }

  lemma {:induction false} Pow2Positive(n: nat)
    ensures Pow2(n) >= 1
  {
    if n > 0 { Pow2Positive(n - 1); }
  }

  // ----- the index path of a hash in a table with 2^bits buckets -----

  /** tbl->nest: bits of the first level. */
  function Nest(bits: nat, shift: nat): nat
    requires bits >= 1 && shift >= 1
  {
    (bits - 1) % shift + 1
  }

  /** What the choice of nest buys: the first level fits a page, and the bits below it are a
      positive number of whole levels. */
  lemma NestDivides(bits: nat, shift: nat) returns (levels: nat)
    requires shift >= 1 && bits >= shift + 1
    ensures 1 <= Nest(bits, shift) <= shift && bits - Nest(bits, shift) >= shift
    ensures levels >= 1 && bits == Nest(bits, shift) + levels * shift
  {
    levels := (bits - 1) / shift;
    var r := (bits - 1) % shift;
    assert bits - 1 == levels * shift + r;
    assert levels >= 1;
  }

  /** Indices below the first level for the remaining hash h of r bits. */
  function Digits(shift: nat, h: nat, r: nat): seq<nat>
    requires shift >= 1
    decreases r
  {
    if r <= shift then [h] else [Low(h, shift)] + Digits(shift, Shr(h, shift), r - shift)
  }

  lemma {:induction false} DigitsFacts(shift: nat, h: nat, g: nat, r: nat)
    requires shift >= 1
    ensures |Digits(shift, h, r)| == |Digits(shift, g, r)| >= 1
    ensures h < Pow2(r) ==> forall i :: 0 <= i < |Digits(shift, h, r)| ==> Digits(shift, h, r)[i] < Pow2(shift)
    ensures Digits(shift, h, r) == Digits(shift, g, r) ==> h == g
    decreases r
  {
    var dh, dg := Digits(shift, h, r), Digits(shift, g, r);
    if r <= shift {
      Pow2Monotone(r, shift);
      assert dh[0] == h && dg[0] == g;
    } else {
      var h', g' := Shr(h, shift), Shr(g, shift);
      DigitsFacts(shift, h', g', r - shift);
      LowBound(h, shift);
      if h < Pow2(r) { ShrBound(h, shift, r - shift); }
      assert dh[1..] == Digits(shift, h', r - shift) && dg[1..] == Digits(shift, g', r - shift);
      if dh == dg {
        assert dh[0] == dg[0];
        SplitInjective(h, g, shift);
      }
    }
  }

  /** All indices on the way to the bucket of hash h. */
  function Path(bits: nat, shift: nat, h: nat): seq<nat>
    requires bits >= shift + 1 && shift >= 1
  {
    var nest := Nest(bits, shift);
    [Low(h, nest)] + Digits(shift, Shr(h, nest), bits - nest)
  }

  /** Hashes below the table size have in-range and pairwise different index paths. */
  lemma PathsSeparate(bits: nat, shift: nat, h: nat, g: nat)
    requires shift >= 1 && bits >= shift + 1
    ensures |Path(bits, shift, h)| == |Path(bits, shift, g)| >= 2
    ensures h < Pow2(bits) ==> forall i :: 0 <= i < |Path(bits, shift, h)| ==> Path(bits, shift, h)[i] < Pow2(shift)
    ensures Path(bits, shift, h) == Path(bits, shift, g) ==> h == g
  {
    var levels := NestDivides(bits, shift);
    var nest := Nest(bits, shift);
    var ph, pg := Path(bits, shift, h), Path(bits, shift, g);
    DigitsFacts(shift, Shr(h, nest), Shr(g, nest), bits - nest);
    if h < Pow2(bits) { PathInRange(bits, shift, h); }
    if ph == pg {
      assert ph[1..] == Digits(shift, Shr(h, nest), bits - nest) && pg[1..] == Digits(shift, Shr(g, nest), bits - nest);
      assert ph[0] == pg[0];
      SplitInjective(h, g, nest);
    }
  }

  lemma PathInRange(bits: nat, shift: nat, h: nat)
    requires shift >= 1 && bits >= shift + 1 && h < Pow2(bits)
    ensures forall i :: 0 <= i < |Path(bits, shift, h)| ==> Path(bits, shift, h)[i] < Pow2(shift)
  {
    var levels := NestDivides(bits, shift);
    var nest := Nest(bits, shift);
    var rest := Digits(shift, Shr(h, nest), bits - nest);
    ShrBound(h, nest, bits - nest);
    DigitsFacts(shift, Shr(h, nest), Shr(h, nest), bits - nest);
    LowBound(h, nest);
    Pow2Monotone(nest, shift);
    forall i | 0 <= i < |Path(bits, shift, h)| ensures Path(bits, shift, h)[i] < Pow2(shift) {
      if i > 0 { assert Path(bits, shift, h)[i] == rest[i - 1]; }
    }
  }

  // ----- the directory -----

  /** The page reached from the root page 0 by a sequence of indices. */
  function Walk(child: map<Slot, nat>, path: seq<nat>): Option<nat> {
    if path == [] then Some(0)
    else
      var n := |path| - 1;
      var p := Walk(child, path[..n]);
      if p.Some? && Slot(p.value, path[n]) in child then Some(child[Slot(p.value, path[n])]) else None
  }

  /** Pages form a tree with levels; the pages at level `top` hold buckets. */
  ghost predicate Tree(child: map<Slot, nat>, level: seq<nat>, top: nat) {
    && level != [] && level[0] == 0
    && (forall s :: s in child ==> s.page < |level| && 0 < child[s] < |level| && level[child[s]] == level[s.page] + 1 <= top)
    && (forall s, t :: s in child && t in child && child[s] == child[t] ==> s == t)
  }

  lemma {:induction false} WalkInTree(child: map<Slot, nat>, level: seq<nat>, top: nat, p: seq<nat>)
    requires Tree(child, level, top) && Walk(child, p).Some?
    ensures Walk(child, p).value < |level| && level[Walk(child, p).value] == |p|
    ensures p != [] ==> Walk(child, p).value != 0
  {
    if p != [] { WalkInTree(child, level, top, p[..|p| - 1]); }
  }

  lemma {:induction false} WalkInjective(child: map<Slot, nat>, level: seq<nat>, top: nat, p: seq<nat>, q: seq<nat>)
    requires Tree(child, level, top) && Walk(child, p).Some? && Walk(child, p) == Walk(child, q)
    ensures p == q
  {
    WalkInTree(child, level, top, p);
    WalkInTree(child, level, top, q);
    if p != [] && q != [] {
      WalkInjective(child, level, top, p[..|p| - 1], q[..|q| - 1]);
      assert p == p[..|p| - 1] + [p[|p| - 1]] && q == q[..|q| - 1] + [q[|q| - 1]];
    }
  }

  /** `b` extends `a`. */
  ghost predicate Extends(a: map<Slot, nat>, b: map<Slot, nat>) {
    forall s :: s in a ==> s in b && b[s] == a[s]
  }

  lemma {:induction false} WalkStays(a: map<Slot, nat>, b: map<Slot, nat>, p: seq<nat>)
    requires Extends(a, b) && Walk(a, p).Some?
    ensures Walk(b, p) == Walk(a, p)
  {
    if p != [] { WalkStays(a, b, p[..|p| - 1]); }
  }

  /** The address of the bucket of hash h, if its pages are there. */
  function Address(child: map<Slot, nat>, bits: nat, shift: nat, h: nat): Option<Slot>
    requires shift >= 1 && bits >= shift + 1
  {
    var path := Path(bits, shift, h);
    var p := Walk(child, path[..|path| - 1]);
    if p.Some? then Some(Slot(p.value, path[|path| - 1])) else None
  }

  /** The level of the pages with buckets. */
  function Top(bits: nat, shift: nat): nat
    requires shift >= 1 && bits >= shift + 1
  {
    |Path(bits, shift, 0)| - 1
  }

  /** A bucket holds no page pointer. */
  lemma BucketIsNoPointer(child: map<Slot, nat>, level: seq<nat>, bits: nat, shift: nat, h: nat)
    requires shift >= 1 && bits >= shift + 1 && Tree(child, level, Top(bits, shift)) && Address(child, bits, shift, h).Some?
    ensures Address(child, bits, shift, h).value !in child
  {
    PathsSeparate(bits, shift, h, 0);
    var path := Path(bits, shift, h);
    WalkInTree(child, level, Top(bits, shift), path[..|path| - 1]);
  }

  lemma AddressesDiffer(child: map<Slot, nat>, level: seq<nat>, bits: nat, shift: nat, h: nat, g: nat)
    requires shift >= 1 && bits >= shift + 1 && h != g
    requires Tree(child, level, Top(bits, shift)) && Address(child, bits, shift, h).Some?
    ensures Address(child, bits, shift, g) != Address(child, bits, shift, h)
  {
    PathsSeparate(bits, shift, h, g);
    var ph, pg := Path(bits, shift, h), Path(bits, shift, g);
    var n := |ph| - 1;
    assert ph == ph[..n] + [ph[n]] && pg == pg[..n] + [pg[n]];
    if Walk(child, ph[..n]) == Walk(child, pg[..n]) {
      WalkInjective(child, level, Top(bits, shift), ph[..n], pg[..n]);
    }
  }

  /** Like the elements of a flat array, the buckets of different hashes are different, inside
      their pages, hold no page pointer, and stay where they are while the directory grows. */
  lemma AddressesLikeArray(a: map<Slot, nat>, b: map<Slot, nat>, level: seq<nat>, bits: nat, shift: nat, h: nat, g: nat)
    requires shift >= 1 && bits >= shift + 1 && h < Pow2(bits)
    requires Tree(b, level, Top(bits, shift)) && Extends(a, b) && Address(a, bits, shift, h).Some?
    ensures Address(b, bits, shift, h) == Address(a, bits, shift, h) && Address(a, bits, shift, h).value.index < Pow2(shift)
    ensures Address(b, bits, shift, h).value !in b
    ensures h != g ==> Address(b, bits, shift, g) != Address(b, bits, shift, h)
  {
    PathsSeparate(bits, shift, h, g);
    var path := Path(bits, shift, h);
    WalkStays(a, b, path[..|path| - 1]);
    BucketIsNoPointer(b, level, bits, shift, h);
    if h != g { AddressesDiffer(b, level, bits, shift, h, g); }
  }

  lemma WalkNext(child: map<Slot, nat>, path: seq<nat>, i: nat)
    requires i < |path|
    ensures path[..i + 1] == path[..i] + [path[i]]
    ensures Walk(child, path[..i + 1]) ==
            var p := Walk(child, path[..i]);
            if p.Some? && Slot(p.value, path[i]) in child then Some(child[Slot(p.value, path[i])]) else None
  {
    assert path[..i + 1][..i] == path[..i];
  }

  lemma {:induction false} WalkNone(child: map<Slot, nat>, path: seq<nat>, i: nat, j: nat)
    requires i <= j <= |path| && Walk(child, path[..i]).None?
    ensures Walk(child, path[..j]).None?
    decreases j
  {
    if i < j {
      WalkNone(child, path, i, j - 1);
      WalkNext(child, path, j - 1);
    }
  }

  /** One level of either walk: the loop test on sizes, the masked index, the shifted hash. */
  lemma LevelStep(shift: nat, path: seq<nat>, i: nat, h: nat, rem: nat)
    requires shift >= 1 && i < |path| && path[i..] == Digits(shift, h, rem)
    ensures Pow2(rem) > Pow2(shift) <==> rem > shift
    ensures rem > shift ==>
              && path[i] == Low(h, shift) && i + 1 < |path| && Shr(Pow2(rem), shift) == Pow2(rem - shift)
              && path[i + 1..] == Digits(shift, Shr(h, shift), rem - shift)
    ensures rem <= shift ==> i == |path| - 1 && path[i] == h
  {
    assert path[i] == path[i..][0];
    if rem > shift {
      Pow2Monotone(shift, rem);
      ShrPow2(rem, shift);
      DigitsFacts(shift, Shr(h, shift), Shr(h, shift), rem - shift);
      assert path[i + 1..] == path[i..][1..];
    } else {
      Pow2Monotone(rem, shift);
    }
  }

  /** The initialised pages are those with buckets. */
  ghost predicate LeavesOk(leaves: set<nat>, level: seq<nat>, top: nat) {
    forall p :: p in leaves <==> 0 <= p < |level| && level[p] == top
  }

  lemma {:induction false} LastLevel(shift: nat, path: seq<nat>, i: nat, h: nat, rem: nat)
    requires shift >= 1 && i < |path| && path[i..] == Digits(shift, h, rem)
    ensures Pow2(rem) <= Pow2(shift) <==> i == |path| - 1
  {
    LevelStep(shift, path, i, h, rem);
  }

  /** One level further down. */
  lemma NextLevel(shift: nat, path: seq<nat>, i: nat, h: nat, rem: nat)
    requires shift >= 1 && i < |path| && path[i..] == Digits(shift, h, rem) && Pow2(rem) > Pow2(shift)
    ensures rem > shift && path[i] == Low(h, shift) && i + 1 < |path|
    ensures Shr(Pow2(rem), shift) == Pow2(rem - shift) && path[i + 1..] == Digits(shift, Shr(h, shift), rem - shift)
    ensures Shr(Pow2(rem), shift) <= Pow2(shift) <==> i + 1 == |path| - 1
  {
    LevelStep(shift, path, i, h, rem);
    LastLevel(shift, path, i + 1, Shr(h, shift), rem - shift);
  }

  /** The first level. */
  lemma FirstLevel(bits: nat, shift: nat, hash: nat)
    requires shift >= 1 && bits >= shift + 1
    ensures var path, nest := Path(bits, shift, hash), Nest(bits, shift);
            && nest <= bits && |path| == Top(bits, shift) + 1 >= 2 && path[0] == Low(hash, nest)
            && Shr(Pow2(bits), nest) == Pow2(bits - nest) && path[1..] == Digits(shift, Shr(hash, nest), bits - nest)
            && (Pow2(bits - nest) <= Pow2(shift) <==> |path| == 2)
  {
    var levels := NestDivides(bits, shift);
    var path, nest := Path(bits, shift, hash), Nest(bits, shift);
    PathsSeparate(bits, shift, hash, 0);
    ShrPow2(bits, nest);
    assert path[1..] == Digits(shift, Shr(hash, nest), bits - nest);
    LastLevel(shift, path, 1, Shr(hash, nest), bits - nest);
  }

  class Directory {
    const bits: nat
    const shift: nat
    var child: map<Slot, nat>
    var pages: nat
    var leaves: set<nat>    // pages whose bucket heads have been initialised
    ghost const top: nat
    ghost var level: seq<nat>

    /** The pages form a tree of height top. */
    ghost predicate Shaped()
      reads this
    {
      |level| == pages && Tree(child, level, top) && LeavesOk(leaves, level, top)
    }

    ghost predicate Valid()
      reads this
    {
      shift >= 1 && bits >= shift + 1 && top == Top(bits, shift) && Shaped()
    }

    /** nested_bucket_table_alloc: the root page. */
    constructor (bits: nat, shift: nat)
      requires shift >= 1 && bits >= shift + 1
      ensures Valid() && this.bits == bits && this.shift == shift && child == map[] && pages == 1
    {
      this.bits, this.shift := bits, shift;
      top := Top(bits, shift);
      child, pages, level, leaves := map[], 1, [0], {};
    }

    /** The table entry (page, index), or nothing. */
    function Entry(page: nat, index: nat): Option<nat>
      reads this
    {
      if Slot(page, index) in child then Some(child[Slot(page, index)]) else None
    }

    /** __rht_bucket_nested. */
    method Lookup(hash: nat) returns (r: Option<Slot>)
      requires Valid() && hash < Pow2(bits)
      ensures r == Address(child, bits, shift, hash)
    {
      ghost var levels := NestDivides(bits, shift);
      var nest := Nest(bits, shift);
      ghost var path := Path(bits, shift, hash);
      ghost var i: nat, rem: nat := 1, bits - nest;
      var index := Low(hash, nest);
      var size := Shr(Pow2(bits), nest);
      ShrPow2(bits, nest);
      WalkNext(child, path, 0);
      var ntbl := Entry(0, index);
      var subhash := Shr(hash, nest);
      DigitsFacts(shift, subhash, subhash, rem);
      assert path[1..] == Digits(shift, subhash, rem);
      LevelStep(shift, path, i, subhash, rem);
      while ntbl.Some? && size > Pow2(shift)
        invariant 1 <= i < |path| && size == Pow2(rem)
        invariant path[i..] == Digits(shift, subhash, rem)
        invariant ntbl == Walk(child, path[..i])
        decreases rem
      {
        LevelStep(shift, path, i, subhash, rem);
        index := Low(subhash, shift);
        WalkNext(child, path, i);
        ntbl := Entry(ntbl.value, index);
        size := Shr(size, shift);
        subhash := Shr(subhash, shift);
        i, rem := i + 1, rem - shift;
      }
      LevelStep(shift, path, i, subhash, rem);
      if ntbl.None? {
        WalkNone(child, path, i, |path| - 1);
        return None;
      }
      r := Some(Slot(ntbl.value, subhash));
    }

    /** The bucket of a hash lies in an initialised page. */
    lemma BucketIsReady(hash: nat)
      requires Valid()
      ensures Address(child, bits, shift, hash).Some? ==> Address(child, bits, shift, hash).value.page in leaves
    {
      PathsSeparate(bits, shift, hash, 0);
      var path := Path(bits, shift, hash);
      if Address(child, bits, shift, hash).Some? { WalkInTree(child, level, top, path[..|path| - 1]); }
    }

    /** A new page behind an empty entry. */
    method Install(page: nat, index: nat, leaf: bool)
      requires Shaped() && page < pages && level[page] < top && Slot(page, index) !in child && (leaf <==> level[page] + 1 == top)
      modifies this
      ensures Shaped() && Extends(old(child), child) && old(level) <= level && Slot(page, index) in child
    {
      if leaf { leaves := leaves + {pages}; }
      child, pages, level := child[Slot(page, index) := pages], pages + 1, level + [level[page] + 1];
    }

    /** nested_table_alloc: the page behind an entry, created if missing and initialised if it is to
        hold buckets.  The allocation may fail, and another thread may have set the entry before the
        compare-and-exchange. */
    method Alloc(page: nat, index: nat, leaf: bool) returns (r: Option<nat>)
      requires Shaped() && page < pages && level[page] < top && (leaf <==> level[page] + 1 == top)
      modifies this
      ensures Shaped() && Extends(old(child), child) && old(level) <= level
      ensures r == if Slot(page, index) in child then Some(child[Slot(page, index)]) else None
      ensures old(Slot(page, index) in child) ==> child == old(child) && pages == old(pages)
    {
      var s := Slot(page, index);
      if s in child { return Some(child[s]); }
      var got, raced: bool := *, *;
      if raced { Install(page, index, leaf); }
      if s !in child && got { Install(page, index, leaf); }
      r := Entry(page, index);
    }

    /** One level of an insert walk. */
    method Descend(page: nat, index: nat, leaf: bool, ghost path: seq<nat>, ghost i: nat) returns (r: Option<nat>)
      requires Shaped() && i < |path| && i < top && path[i] == index && Walk(child, path[..i]) == Some(page)
      requires leaf <==> i + 1 == top
      modifies this
      ensures Shaped() && Extends(old(child), child) && r == Walk(child, path[..i + 1])
    {
      WalkInTree(child, level, top, path[..i]);
      r := Alloc(page, index, leaf);
      WalkStays(old(child), child, path[..i]);
      WalkNext(child, path, i);
    }

    /** The loop of rht_bucket_nested_insert, from the second index of the path on. */
    method InsertBelow(first: Option<nat>, size0: nat, hash: nat, ghost path: seq<nat>, ghost bits0: nat) returns (r: Option<Slot>)
      requires shift >= 1 && Shaped() && |path| == top + 1 >= 2 && size0 == Pow2(bits0)
      requires path[1..] == Digits(shift, hash, bits0) && first == Walk(child, path[..1])
      modifies this
      ensures Shaped() && Extends(old(child), child)
      ensures var p := Walk(child, path[..top]); r == if p.Some? then Some(Slot(p.value, path[top])) else None
    {
      ghost var i: nat, rem: nat := 1, bits0;
      var ntbl, size, h := first, size0, hash;
      LevelStep(shift, path, i, h, rem);
      while ntbl.Some? && size > Pow2(shift)
        invariant Shaped() && Extends(old(child), child)
        invariant 1 <= i < |path| && size == Pow2(rem)
        invariant path[i..] == Digits(shift, h, rem)
        invariant ntbl == Walk(child, path[..i])
        decreases rem
      {
        NextLevel(shift, path, i, h, rem);
        var index := Low(h, shift);
        size := Shr(size, shift);
        h := Shr(h, shift);
        ntbl := Descend(ntbl.value, index, size <= Pow2(shift), path, i);
        i, rem := i + 1, rem - shift;
      }
      LevelStep(shift, path, i, h, rem);
      if ntbl.None? {
        WalkNone(child, path, i, top);
        return None;
      }
      r := Some(Slot(ntbl.value, h));
    }

    /** rht_bucket_nested_insert: afterwards the lookup of the same hash gives the same result,
        nothing if an allocation failed. */
    method Insert(hash: nat) returns (r: Option<Slot>)
      requires Valid() && hash < Pow2(bits)
      modifies this
      ensures Valid() && Extends(old(child), child)
      ensures r == Address(child, bits, shift, hash)
    {
      FirstLevel(bits, shift, hash);
      var nest := Nest(bits, shift);
      ghost var path := Path(bits, shift, hash);
      var size, h := Shr(Pow2(bits), nest), Shr(hash, nest);
      assert path[..0] == [];
      var ntbl := Descend(0, Low(hash, nest), size <= Pow2(shift), path, 0);
      r := InsertBelow(ntbl, size, h, path, bits - nest);
    }
  }
}
