/** Copying between a linear buffer and a scatter-gather list (compat/compat-3.9.c: the page
    and mapping iterators; compat/backport-3.11.c: sg_miter_skip, sg_copy_buffer), against the
    flat sequence of byte addresses of the list. */
module ScatterGather {

  const PAGE_SIZE: nat := 4096

  /** A list entry: page frame, offset of the first byte in that page, number of bytes. */
  datatype Entry = Entry(frame: nat, offset: nat, length: nat)

  /** Addresses lo, lo + 1, ..., hi - 1. */
  function Range(lo: nat, hi: nat): (r: seq<nat>)
    ensures |r| == if lo <= hi then hi - lo else 0
    ensures forall k :: 0 <= k < |r| ==> r[k] == lo + k
  {
    if lo <= hi then seq(hi - lo, k requires 0 <= k < hi - lo => lo + k) else []
  }

  /** Byte positions of an entry are counted from the start of its first page. */
  function Stop(e: Entry): nat { e.offset + e.length }

  /** The addresses of an entry from byte position p on. */
  function From(e: Entry, p: nat): seq<nat> {
    Range(e.frame * PAGE_SIZE + p, e.frame * PAGE_SIZE + Stop(e))
  }

  /** The bytes of a list, as one sequence of addresses. */
  function Flat(s: seq<Entry>): seq<nat> {
    if s == [] then [] else From(s[0], s[0].offset) + Flat(s[1..])
  }

  /** Pages that n bytes from the start of a page reach into. */
  function PagesFor(n: nat): nat {
    if n == 0 then 0 else 1 + PagesFor(if n <= PAGE_SIZE then 0 else n - PAGE_SIZE)
  }

  /** sg_page_count: PAGE_ALIGN(offset + length) >> PAGE_SHIFT. */
  function Pages(e: Entry): nat { PagesFor(Stop(e)) }

  lemma {:induction false} PagesAreAligned(n: nat)
    ensures PagesFor(n) == (n + PAGE_SIZE - 1) / PAGE_SIZE
  {
    if n > PAGE_SIZE { PagesAreAligned(n - PAGE_SIZE); }
  }

  function TotalPages(s: seq<Entry>): nat {
    if s == [] then 0 else Pages(s[0]) + TotalPages(s[1..])
  }

  predicate OffsetsOk(s: seq<Entry>) {
    forall i :: 0 <= i < |s| ==> s[i].offset < PAGE_SIZE
  }

  /** Page p is reached by n bytes exactly if it starts before the n-th. */
  lemma {:induction false} PagesCover(n: nat, p: nat)
    ensures p < PagesFor(n) <==> p * PAGE_SIZE < n
    decreases n
  {
    if n > PAGE_SIZE && p > 0 { PagesCover(n - PAGE_SIZE, p - 1); }
  }

  /** First byte position of an entry in its page pg. */
  function PageStart(e: Entry, pg: nat): nat {
    if pg == 0 then e.offset else pg * PAGE_SIZE
  }

  /** The addresses left at the start of page pg of the first entry. */
  function AtPage(l: seq<Entry>, pg: nat): seq<nat> {
    if l == [] then [] else From(l[0], PageStart(l[0], pg)) + Flat(l[1..])
  }

  /** Past its last page an entry has no bytes left. */
  lemma SkipEntry(l: seq<Entry>, pg: nat)
    requires l != [] && pg == Pages(l[0])
    ensures AtPage(l, pg) == AtPage(l[1..], 0) && TotalPages(l) == Pages(l[0]) + TotalPages(l[1..])
  {
    var e := l[0];
    PagesCover(Stop(e), pg);
    assert From(e, PageStart(e, pg)) == [];
    assert [] + Flat(l[1..]) == Flat(l[1..]);
  }

  /** Bytes of page pg of an entry from position off in the page on. */
  function InPage(e: Entry, pg: nat, off: nat): int {
    if Stop(e) - pg * PAGE_SIZE <= PAGE_SIZE then Stop(e) - pg * PAGE_SIZE - off else PAGE_SIZE - off
  }

  /** A used-up page continues at the start of the next one. */
  lemma NextStart(l: seq<Entry>, pg: nat, off: nat)
    requires l != [] && pg < Pages(l[0]) && InPage(l[0], pg, off) == 0
    ensures From(l[0], pg * PAGE_SIZE + off) + Flat(l[1..]) == AtPage(l, pg + 1)
  {
  }

  /** At most nents entries of the list from position pos on. */
  function LeftOf(sgl: seq<Entry>, pos: nat, nents: nat): seq<Entry>
    decreases nents
  {
    if pos >= |sgl| || nents == 0 then [] else [sgl[pos]] + LeftOf(sgl, pos + 1, nents - 1)
  }

  lemma LeftNext(sgl: seq<Entry>, pos: nat, nents: nat)
    requires pos < |sgl| && nents > 0
    ensures LeftOf(sgl, pos, nents) == [sgl[pos]] + LeftOf(sgl, pos + 1, nents - 1)
    ensures LeftOf(sgl, pos, nents)[1..] == LeftOf(sgl, pos + 1, nents - 1) && LeftOf(sgl, pos, nents)[0] == sgl[pos]
  {
  }

  /** The iterator leaves an entry behind its last page. */
  lemma LeaveEntry(sgl: seq<Entry>, pos: nat, nents: nat, l: seq<Entry>, pg: nat)
    requires pos < |sgl| && nents > 0 && l == LeftOf(sgl, pos, nents) && pg == Pages(sgl[pos])
    ensures l[1..] == LeftOf(sgl, pos + 1, nents - 1)
    ensures AtPage(l, pg) == AtPage(l[1..], 0) && TotalPages(l) - pg == TotalPages(l[1..])
  {
    LeftNext(sgl, pos, nents);
    SkipEntry(l, pg);
  }

  /** Position of the page iterator: not started, or in page pg of the first entry left. */
  datatype Cursor = Before | In(pg: nat, off: nat)

  /** The addresses not yet passed. */
  function RestOf(l: seq<Entry>, c: Cursor): seq<nat> {
    if l == [] then []
    else if c.Before? then AtPage(l, 0)
    else From(l[0], c.pg * PAGE_SIZE + c.off) + Flat(l[1..])
  }

  /** In a page: the position is inside the entry and `remaining` counts to the end of the page
      or of the entry. */
  predicate InPageOk(l: seq<Entry>, c: Cursor, remaining: nat)
    requires c.In?
  {
    l != [] ==>
      && c.pg < Pages(l[0]) && PageStart(l[0], c.pg) <= c.pg * PAGE_SIZE + c.off
      && remaining == InPage(l[0], c.pg, c.off)
  }

  /** Pages not yet loaded. */
  function TodoOf(l: seq<Entry>, c: Cursor): nat {
    var done := if c.Before? then 0 else c.pg + 1;
    if TotalPages(l) > done then TotalPages(l) - done else 0
  }

  lemma AdvanceStart(l: seq<Entry>, c: Cursor)
    requires l != [] && (c.In? ==> InPageOk(l, c, 0))
    ensures AtPage(l, if c.Before? then 0 else c.pg + 1) == RestOf(l, c)
    ensures (if c.Before? then 0 else c.pg + 1) <= Pages(l[0])
  {
    if c.In? { NextStart(l, c.pg, c.off); }
  }

  /** A page has been loaded. */
  lemma TodoFalls(l: seq<Entry>, c: Cursor, l': seq<Entry>, pg: nat)
    requires l' != [] && pg < Pages(l'[0])
    requires TotalPages(l') - pg == TotalPages(l) - if c.Before? then 0 else c.pg + 1
    ensures TodoOf(l', In(pg, 0)) < TodoOf(l, c)
  {
  }

  lemma PassRange(lo: nat, n: nat, hi: nat, rest: seq<nat>)
    requires lo + n <= hi
    ensures (Range(lo, hi) + rest)[n..] == Range(lo + n, hi) + rest && (Range(lo, hi) + rest)[..n] == Range(lo, lo + n)
  {
  }

  /** Passing n bytes of the current page. */
  lemma PassBytes(l: seq<Entry>, c: Cursor, remaining: nat, n: nat)
    requires l != [] && c.In? && InPageOk(l, c, remaining) && n <= remaining
    ensures InPageOk(l, In(c.pg, c.off + n), remaining - n)
    ensures |RestOf(l, c)| >= n && RestOf(l, In(c.pg, c.off + n)) == RestOf(l, c)[n..]
    ensures RestOf(l, c)[..n] == Range((l[0].frame + c.pg) * PAGE_SIZE + c.off, (l[0].frame + c.pg) * PAGE_SIZE + c.off + n)
  {
    var p := c.pg * PAGE_SIZE + c.off;
    InPageEnds(l[0], c.pg, c.off);
    PassFrom(l[0], p, n, Flat(l[1..]));
    assert c.pg * PAGE_SIZE + (c.off + n) == p + n;
    assert (l[0].frame + c.pg) * PAGE_SIZE + c.off == l[0].frame * PAGE_SIZE + p;
  }

  lemma InPageEnds(e: Entry, pg: nat, off: nat)
    ensures pg * PAGE_SIZE + off + InPage(e, pg, off) <= Stop(e)
  {
  }

  lemma PassFrom(e: Entry, p: nat, n: nat, rest: seq<nat>)
    requires p + n <= Stop(e)
    ensures var lo := e.frame * PAGE_SIZE + p;
            && |From(e, p)| >= n && (From(e, p) + rest)[n..] == From(e, p + n) + rest
            && (From(e, p) + rest)[..n] == Range(lo, lo + n)
  {
    PassRange(e.frame * PAGE_SIZE + p, n, e.frame * PAGE_SIZE + Stop(e), rest);
  }

  /** The loop of __sg_page_iter_next: find the entry that page pg falls into. */
  method FindPage(sgl: seq<Entry>, pos0: nat, nents0: nat, pg0: nat) returns (ok: bool, pos: nat, nents: nat, pg: nat)
    requires OffsetsOk(sgl) && pos0 < |sgl| && nents0 > 0 && pg0 <= Pages(sgl[pos0])
    ensures AtPage(LeftOf(sgl, pos, nents), pg) == AtPage(LeftOf(sgl, pos0, nents0), pg0)
    ensures TotalPages(LeftOf(sgl, pos, nents)) - pg == TotalPages(LeftOf(sgl, pos0, nents0)) - pg0
    ensures if ok then pos < |sgl| && nents > 0 && pg < Pages(sgl[pos]) else LeftOf(sgl, pos, nents) == []
  {
    pos, nents, pg := pos0, nents0, pg0;
    while pg >= Pages(sgl[pos])
      invariant pos < |sgl| && nents > 0 && pg <= Pages(sgl[pos])
      invariant AtPage(LeftOf(sgl, pos, nents), pg) == AtPage(LeftOf(sgl, pos0, nents0), pg0)
      invariant TotalPages(LeftOf(sgl, pos, nents)) - pg == TotalPages(LeftOf(sgl, pos0, nents0)) - pg0
      decreases nents
    {
      LeaveEntry(sgl, pos, nents, LeftOf(sgl, pos, nents), pg);
      pg := pg - Pages(sgl[pos]);
      pos, nents := pos + 1, nents - 1;
      if nents == 0 || pos >= |sgl| { return false, pos, nents, pg; }
    }
    ok := true;
  }

  /** The next page after the cursor c. */
  method AdvancePage(sgl: seq<Entry>, pos0: nat, nents0: nat, pg0: nat, ghost c: Cursor)
    returns (ok: bool, pos: nat, nents: nat, pg: nat)
    requires OffsetsOk(sgl) && pos0 < |sgl| && nents0 > 0 && pg0 == (if c.Before? then 0 else c.pg + 1)
    requires c.In? ==> InPageOk(LeftOf(sgl, pos0, nents0), c, 0)
    ensures AtPage(LeftOf(sgl, pos, nents), pg) == RestOf(LeftOf(sgl, pos0, nents0), c)
    ensures if ok then pos < |sgl| && nents > 0 && pg < Pages(sgl[pos]) else LeftOf(sgl, pos, nents) == []
    ensures ok ==> TodoOf(LeftOf(sgl, pos, nents), In(pg, 0)) < TodoOf(LeftOf(sgl, pos0, nents0), c)
  {
    ghost var l := LeftOf(sgl, pos0, nents0);
    LeftNext(sgl, pos0, nents0);
    AdvanceStart(l, c);
    ok, pos, nents, pg := FindPage(sgl, pos0, nents0, pg0);
    if ok {
      LeftNext(sgl, pos, nents);
      TodoFalls(l, c, LeftOf(sgl, pos, nents), pg);
    }
  }

  /** Offset and number of bytes of page pg of an entry. */
  method Window(sg: Entry, pg: nat) returns (off: nat, rem: nat)
    requires sg.offset < PAGE_SIZE && pg < Pages(sg)
    ensures forall rest: seq<Entry> ::
              InPageOk([sg] + rest, In(pg, off), rem) && RestOf([sg] + rest, In(pg, off)) == AtPage([sg] + rest, pg)
  {
    PagesCover(Stop(sg), pg);
    off := if pg != 0 then 0 else sg.offset;
    rem := sg.offset + sg.length - pg * PAGE_SIZE - off;
    if rem > PAGE_SIZE - off { rem := PAGE_SIZE - off; }
  }

  /** The state of a mapping iterator between calls. */
  ghost predicate IterOk(l: seq<Entry>, c: Cursor, remaining: nat) {
    && (c.In? ==> InPageOk(l, c, remaining))
    && (c.Before? || l == [] ==> remaining == 0)
  }

  /** struct sg_mapping_iter. */
  class MappingIter {
    const sgl: seq<Entry>
    var pos: nat            // piter.sg
    var nents: nat          // piter.__nents
    var pgoffset: nat       // piter.sg_pgoffset
    var advance: nat        // piter.__pg_advance
    var offset: nat         // __offset
    var remaining: nat      // __remaining
    var mapped: bool        // addr != NULL
    var length: nat
    var consumed: nat
    var addr: nat           // address of the mapping

    /** The entries still to be visited, the current one first. */
    ghost function Left(): seq<Entry>
      reads this
    {
      LeftOf(sgl, pos, nents)
    }

    ghost function Where(): Cursor
      reads this
    {
      if advance == 0 then Before else In(pgoffset, offset)
    }

    ghost function Rest(): seq<nat>
      reads this
    {
      RestOf(Left(), Where())
    }

    ghost function Todo(): nat
      reads this
    {
      TodoOf(Left(), Where())
    }

    /** Bytes of the mapping that its user has taken. */
    ghost function Used(): nat
      reads this
    {
      if mapped then consumed else 0
    }

    ghost predicate Valid()
      reads this
    {
      && OffsetsOk(sgl) && advance <= 1 && (advance == 0 ==> pgoffset == 0)
      && IterOk(Left(), Where(), remaining)
      && (mapped ==> consumed <= length == remaining && Left() != [] && advance == 1)
    }

    /** sg_miter_start. */
    constructor (sgl: seq<Entry>, nents: nat)
      requires OffsetsOk(sgl)
      ensures Valid() && this.sgl == sgl && !mapped && Rest() == Flat(LeftOf(sgl, 0, nents))
    {
      this.sgl, this.nents := sgl, nents;
      pos, pgoffset, advance, offset, remaining, mapped, length, consumed, addr := 0, 0, 0, 0, 0, false, 0, 0, 0;
    }

    /** __sg_page_iter_next. */
    method NextPage() returns (ok: bool)
      requires Valid() && remaining == 0 && !mapped
      modifies this`pos, this`nents, this`pgoffset, this`advance
      ensures AtPage(Left(), pgoffset) == old(Rest())
      ensures advance <= 1 && (advance == 0 ==> pgoffset == 0)
      ensures !ok ==> Left() == []
      ensures ok ==> pos < |sgl| && nents > 0 && advance == 1 && pgoffset < Pages(sgl[pos])
      ensures ok ==> TodoOf(Left(), In(pgoffset, 0)) < old(Todo())
    {
      if nents == 0 || pos >= |sgl| { return false; }
      ok, pos, nents, pgoffset := AdvancePage(sgl, pos, nents, pgoffset + advance, Where());
      advance := 1;
    }

    /** sg_miter_get_next_page. */
    method GetNextPage() returns (ok: bool)
      requires Valid() && !mapped
      modifies this
      ensures Valid() && !mapped && Rest() == old(Rest()) && Todo() <= old(Todo())
      ensures !ok ==> Rest() == []
      ensures ok ==> pos < |sgl| && nents > 0 && advance == 1
      ensures ok && old(remaining) == 0 ==> Todo() < old(Todo())
      ensures old(remaining) > 0 ==> ok && remaining == old(remaining) && Todo() == old(Todo())
    {
      if remaining == 0 {
        ok := NextPage();
        if !ok { return; }
        LeftNext(sgl, pos, nents);
        offset, remaining := Window(sgl[pos], pgoffset);
      }
      return true;
    }

    /** Moving c bytes forward in the current page. */
    method Consume(c: nat)
      requires Valid() && Left() != [] && advance == 1 && c <= remaining
      modifies this`offset, this`remaining, this`mapped, this`length, this`consumed
      ensures Valid() && !mapped && Todo() == old(Todo()) && remaining == old(remaining) - c
      ensures c <= |old(Rest())| && Rest() == old(Rest())[c..]
      ensures length == 0 && consumed == 0
    {
      ghost var l, w := Left(), Where();
      PassBytes(l, w, remaining, c);
      offset := offset + c;
      remaining := remaining - c;
      mapped, length, consumed := false, 0, 0;
      assert Left() == l && Where() == In(w.pg, w.off + c);
    }

    /** sg_miter_stop. */
    method StopMap()
      requires Valid()
      modifies this
      ensures Valid() && !mapped && Todo() == old(Todo())
      ensures |old(Rest())| >= old(Used()) && Rest() == old(Rest())[old(Used())..] && remaining == old(remaining - Used())
    {
      if mapped { Consume(consumed); }
    }

    /** The mapping of the rest of the current page. */
    method MapHere()
      requires Valid() && !mapped && pos < |sgl| && nents > 0 && advance == 1
      modifies this`mapped, this`length, this`consumed, this`addr
      ensures Valid() && mapped && Rest() == old(Rest()) && Todo() == old(Todo())
      ensures consumed == length <= |Rest()| && Rest()[..length] == Range(addr, addr + length)
    {
      LeftNext(sgl, pos, nents);
      PassBytes(Left(), Where(), remaining, remaining);
      consumed, length := remaining, remaining;
      addr := (sgl[pos].frame + pgoffset) * PAGE_SIZE + offset;
      mapped := true;
    }

    /** sg_miter_next: the mapping is the next run of addresses. */
    method NextMap() returns (ok: bool)
      requires Valid()
      modifies this
      ensures Valid() && (ok <==> mapped)
      ensures var n := old(Used()); n <= |old(Rest())| && Rest() == old(Rest())[n..]
      ensures !ok ==> Rest() == []
      ensures ok ==> consumed == length <= |Rest()| && Rest()[..length] == Range(addr, addr + length)
      ensures Todo() <= old(Todo()) && (ok && old(remaining == Used()) ==> Todo() < old(Todo()))
    {
      StopMap();
      ok := GetNextPage();
      if ok { MapHere(); }
    }

    /** sg_miter_skip: n bytes from where the iterator has been stopped. */
    method Skip(n: nat) returns (ok: bool)
      requires Valid()
      modifies this
      ensures Valid() && !mapped && old(Used()) <= |old(Rest())|
      ensures ok <==> old(Used()) + n <= |old(Rest())|
      ensures ok ==> Rest() == old(Rest())[old(Used()) + n..]
    {
      StopMap();
      ok := SkipBytes(n);
    }

    /** Its loop. */
    method SkipBytes(n: nat) returns (ok: bool)
      requires Valid() && !mapped
      modifies this
      ensures Valid() && !mapped
      ensures ok <==> n <= |old(Rest())|
      ensures ok ==> Rest() == old(Rest())[n..]
    {
      ghost var all := Rest();
      var left: nat := n;
      while left != 0
        invariant Valid() && !mapped && left <= n
        invariant n - left <= |all| && Rest() == all[n - left..]
        decreases left, Todo(), if remaining == 0 then 0 else 1
      {
        var got := GetNextPage();
        if !got {
          assert |all[n - left..]| == 0;
          return false;
        }
        LeftNext(sgl, pos, nents);
        var c: nat := if left < remaining then left else remaining;
        Consume(c);
        assert all[n - left..][c..] == all[n - (left - c)..];
        left := left - c;
      }
      return true;
    }
  }

  // ----- the copy -----

  /** Memory after writing data[k] to addrs[k], in order. */
  function Written(m: seq<bv8>, addrs: seq<nat>, data: seq<bv8>): (r: seq<bv8>)
    requires |addrs| == |data| && forall k :: 0 <= k < |addrs| ==> addrs[k] < |m|
    ensures |r| == |m|
    decreases |addrs|
  {
    if addrs == [] then m
    else
      var n := |addrs| - 1;
      Written(m, addrs[..n], data[..n])[addrs[n] := data[n]]
  }

  lemma {:induction false} WrittenAppend(m: seq<bv8>, a: seq<nat>, x: seq<bv8>, b: seq<nat>, y: seq<bv8>)
    requires |a| == |x| && |b| == |y| && forall k :: 0 <= k < |a + b| ==> (a + b)[k] < |m|
    requires (forall k :: 0 <= k < |a| ==> a[k] < |m|) && (forall k :: 0 <= k < |b| ==> b[k] < |m|)
    ensures Written(m, a + b, x + y) == Written(Written(m, a, x), b, y)
    decreases |b|
  {
    if b == [] {
      assert a + b == a && x + y == x;
    } else {
      var n := |b| - 1;
      assert (a + b)[..|a| + n] == a + b[..n] && (x + y)[..|a| + n] == x + y[..n];
      WrittenAppend(m, a, x, b[..n], y[..n]);
    }
  }

  lemma {:induction false} WrittenRange(m: seq<bv8>, lo: nat, data: seq<bv8>)
    requires lo + |data| <= |m|
    ensures Written(m, Range(lo, lo + |data|), data) == m[..lo] + data + m[lo + |data|..]
    decreases |data|
  {
    if data == [] {
      assert Range(lo, lo) == [];
    } else {
      var n := |data| - 1;
      WrittenRange(m, lo, data[..n]);
      assert Range(lo, lo + |data|)[..n] == Range(lo, lo + n);
    }
  }

  /** Written to distinct addresses, every byte arrives and no other byte changes. */
  lemma {:induction false} WrittenDistinct(m: seq<bv8>, addrs: seq<nat>, data: seq<bv8>)
    requires |addrs| == |data| && forall k :: 0 <= k < |addrs| ==> addrs[k] < |m|
    requires forall j, k :: 0 <= j < k < |addrs| ==> addrs[j] != addrs[k]
    ensures forall k :: 0 <= k < |addrs| ==> Written(m, addrs, data)[addrs[k]] == data[k]
    ensures forall p :: 0 <= p < |m| && p !in addrs ==> Written(m, addrs, data)[p] == m[p]
    decreases |addrs|
  {
    if addrs != [] {
      var n := |addrs| - 1;
      var a, w := addrs[..n], Written(m, addrs[..n], data[..n]);
      WrittenDistinct(m, a, data[..n]);
      forall k | 0 <= k < |addrs| ensures Written(m, addrs, data)[addrs[k]] == data[k] {
        if k < n { assert w[a[k]] == data[..n][k] && addrs[k] != addrs[n]; }
      }
      forall p | 0 <= p < |m| && p !in addrs ensures Written(m, addrs, data)[p] == m[p] {
        assert p != addrs[n] && p !in a;
      }
    }
  }

  /** The bytes of memory at given addresses. */
  function Fetch(m: seq<bv8>, addrs: seq<nat>): (r: seq<bv8>)
    requires forall k :: 0 <= k < |addrs| ==> addrs[k] < |m|
    ensures |r| == |addrs| && forall k :: 0 <= k < |addrs| ==> r[k] == m[addrs[k]]
  {
    seq(|addrs|, k requires 0 <= k < |addrs| => m[addrs[k]])
  }

  /** Number of bytes sg_copy_buffer can transfer. */
  function Count(total: nat, buflen: nat, skip: nat): nat {
    if skip >= total then 0 else if buflen <= total - skip then buflen else total - skip
  }

  /** What has been transferred when the addresses `addrs` are done. */
  ghost predicate Transferred(m0: seq<bv8>, m: seq<bv8>, b0: seq<bv8>, b: seq<bv8>, addrs: seq<nat>, toBuffer: bool) {
    && |m| == |m0| && |b| == |b0| && |addrs| <= |b0|
    && (forall k :: 0 <= k < |addrs| ==> addrs[k] < |m0|)
    && if toBuffer then m == m0 && b == Fetch(m0, addrs) + b0[|addrs|..]
       else b == b0 && m == Written(m0, addrs, b0[..|addrs|])
  }

  lemma ReadStep(m0: seq<bv8>, b0: seq<bv8>, b: seq<bv8>, b': seq<bv8>, addrs: seq<nat>, addr: nat, n: nat)
    requires Transferred(m0, m0, b0, b, addrs, true) && |addrs| + n <= |b0| && addr + n <= |m0|
    requires b' == b[..|addrs|] + m0[addr..addr + n] + b[|addrs| + n..]
    ensures Transferred(m0, m0, b0, b', addrs + Range(addr, addr + n), true)
  {
    assert Fetch(m0, addrs + Range(addr, addr + n)) == Fetch(m0, addrs) + m0[addr..addr + n];
  }

  lemma WriteStep(m0: seq<bv8>, m: seq<bv8>, m': seq<bv8>, b0: seq<bv8>, addrs: seq<nat>, addr: nat, n: nat)
    requires Transferred(m0, m, b0, b0, addrs, false) && |addrs| + n <= |b0| && addr + n <= |m0|
    requires m' == m[..addr] + b0[|addrs|..|addrs| + n] + m[addr + n..]
    ensures Transferred(m0, m', b0, b0, addrs + Range(addr, addr + n), false)
  {
    var off := |addrs|;
    WriteMore(m0, m, addrs, b0[..off], addr, b0[off..off + n]);
    assert b0[..off] + b0[off..off + n] == b0[..off + n];
  }

  /** One more stretch of memory is written. */
  lemma WriteMore(m0: seq<bv8>, m: seq<bv8>, addrs: seq<nat>, done: seq<bv8>, addr: nat, data: seq<bv8>)
    requires |addrs| == |done| && (forall k :: 0 <= k < |addrs| ==> addrs[k] < |m0|) && m == Written(m0, addrs, done)
    requires addr + |data| <= |m0|
    ensures var all := addrs + Range(addr, addr + |data|);
            (forall k :: 0 <= k < |all| ==> all[k] < |m0|) && m[..addr] + data + m[addr + |data|..] == Written(m0, all, done + data)
  {
    WrittenRange(m, addr, data);
    WrittenAppend(m0, addrs, done, Range(addr, addr + |data|), data);
  }

  /** memcpy. */
  method CopyBytes(dst: array<bv8>, d: nat, src: array<bv8>, s: nat, n: nat)
    requires dst != src && d + n <= dst.Length && s + n <= src.Length
    modifies dst
    ensures dst[..] == old(dst[..d]) + src[s..s + n] + old(dst[d + n..])
  {
    forall k | 0 <= k < n { dst[d + k] := src[s + k]; }
  }

  /** One mapping of n bytes at addr is copied from or to the buffer at off. */
  method MoveBytes(mem: array<bv8>, addr: nat, buf: array<bv8>, off: nat, n: nat, toBuffer: bool,
                   ghost m0: seq<bv8>, ghost b0: seq<bv8>, ghost addrs: seq<nat>, ghost m: seq<bv8>, ghost b: seq<bv8>)
    requires mem != buf && (n > 0 ==> addr + n <= mem.Length) && off + n <= buf.Length && off == |addrs|
    requires mem[..] == m && buf[..] == b && Transferred(m0, m, b0, b, addrs, toBuffer)
    modifies mem, buf
    ensures Transferred(m0, mem[..], b0, buf[..], addrs + Range(addr, addr + n), toBuffer)
  {
    if n == 0 {
      assert addrs + Range(addr, addr) == addrs;
    } else if toBuffer {
      CopyBytes(buf, off, mem, addr, n);
      ReadStep(m0, b0, b, buf[..], addrs, addr, n);
    } else {
      CopyBytes(mem, addr, buf, off, n);
      WriteStep(m0, m, mem[..], b0, addrs, addr, n);
    }
  }

  /** A mapping of the next `length` addresses of all, of which len are wanted. */
  lemma ChunkFacts(all: seq<nat>, n: nat, rest: seq<nat>, length: nat, addr: nat, len: nat)
    requires n <= |all| && rest == all[n..] && length <= |rest| && rest[..length] == Range(addr, addr + length) && len <= length
    ensures n + len <= |all| && all[..n] + Range(addr, addr + len) == all[..n + len]
    ensures rest[len..] == all[n + len..] && (len > 0 ==> addr + len - 1 in all)
  {
    assert forall k :: 0 <= k < len ==> all[n + k] == rest[..length][k];
    if len > 0 { assert all[n + len - 1] == addr + len - 1; }
  }

  /** The end of one round of sg_copy_buffer: the mapping, if there is one, holds the next addresses of all. */
  method CopyChunk(it: MappingIter, mem: array<bv8>, buf: array<bv8>, n: nat, buflen: nat, toBuffer: bool,
                   ghost all: seq<nat>, ghost m0: seq<bv8>, ghost b0: seq<bv8>, ghost m: seq<bv8>, ghost b: seq<bv8>)
    returns (more: bool, n': nat)
    requires it.mapped ==> it.length <= |it.Rest()| && it.Rest()[..it.length] == Range(it.addr, it.addr + it.length)
    requires n <= buflen <= buf.Length && n <= |all| && (n < buflen ==> it.Rest() == all[n..])
    requires mem != buf && (forall a :: a in all ==> a < mem.Length)
    requires mem[..] == m && buf[..] == b && Transferred(m0, m, b0, b, all[..n], toBuffer)
    modifies mem, buf
    ensures (more <==> it.mapped && n < buflen) && n <= n' <= |all| && n' <= buflen
    ensures more ==> n' - n <= it.length && it.Rest()[n' - n..] == all[n'..] && (n' == n + it.length || n' == buflen)
    ensures !more ==> n' == n
    ensures Transferred(m0, mem[..], b0, buf[..], all[..n'], toBuffer)
  {
    more := it.mapped && n < buflen;
    var len := if !more then 0 else if it.length < buflen - n then it.length else buflen - n;
    if more { ChunkFacts(all, n, it.Rest(), it.length, it.addr, len); }
    n' := n + len;
    assert all[..n] + Range(it.addr, it.addr + len) == all[..n'];
    MoveBytes(mem, it.addr, buf, n, len, toBuffer, m0, b0, all[..n], m, b);
  }

  /** Between two rounds, n bytes of all are done. */
  ghost predicate Between(it: MappingIter, all: seq<nat>, n: nat, buflen: nat)
    reads it
  {
    && it.Valid() && (it.mapped ==> it.consumed == it.length) && n <= buflen && n <= |all|
    && (n < buflen ==> it.Used() <= |it.Rest()| && it.Rest()[it.Used()..] == all[n..])
  }

  /** One round of sg_copy_buffer. */
  method CopyRound(it: MappingIter, mem: array<bv8>, buf: array<bv8>, n: nat, buflen: nat, toBuffer: bool,
                   ghost all: seq<nat>, ghost m0: seq<bv8>, ghost b0: seq<bv8>) returns (more: bool, n': nat)
    requires Between(it, all, n, buflen) && buflen <= buf.Length
    requires mem != buf && (forall a :: a in all ==> a < mem.Length) && Transferred(m0, mem[..], b0, buf[..], all[..n], toBuffer)
    modifies it, mem, buf
    ensures Between(it, all, n', buflen) && Transferred(m0, mem[..], b0, buf[..], all[..n'], toBuffer)
    ensures more ==> it.mapped && it.Todo() <= old(it.Todo()) && (old(it.mapped) ==> it.Todo() < old(it.Todo()))
    ensures !more ==> n' == if buflen <= |all| then buflen else |all|
  {
    ghost var m, b := mem[..], buf[..];
    var ok := it.NextMap();
    more, n' := CopyChunk(it, mem, buf, n, buflen, toBuffer, all, m0, b0, m, b);
  }

  /** The loop of sg_copy_buffer over the addresses `all` that are left after skipping. */
  method CopyLoop(it: MappingIter, mem: array<bv8>, buf: array<bv8>, buflen: nat, toBuffer: bool, ghost all: seq<nat>)
    returns (n: nat)
    requires it.Valid() && !it.mapped && it.Rest() == all
    requires mem != buf && buflen <= buf.Length && forall a :: a in all ==> a < mem.Length
    modifies it, mem, buf
    ensures n == if buflen <= |all| then buflen else |all|
    ensures it.Valid() && Transferred(old(mem[..]), mem[..], old(buf[..]), buf[..], all[..n], toBuffer)
  {
    ghost var m0, b0 := mem[..], buf[..];
    n := 0;
    NothingYet(m0, b0, toBuffer);
    assert all[..0] == [];
    var more := true;
    while more
      invariant Between(it, all, n, buflen)
      invariant Transferred(m0, mem[..], b0, buf[..], all[..n], toBuffer)
      invariant !more ==> n == if buflen <= |all| then buflen else |all|
      decreases more, it.Todo(), if it.mapped then 0 else 1
    {
      more, n := CopyRound(it, mem, buf, n, buflen, toBuffer, all, m0, b0);
    }
  }

  lemma NothingYet(m: seq<bv8>, b: seq<bv8>, toBuffer: bool)
    ensures Transferred(m, m, b, b, [], toBuffer)
  {
    assert Fetch(m, []) + b[0..] == b;
  }

  /** Bytes skip to skip + n of the list. */
  function Selected(total: seq<nat>, skip: nat, n: nat): seq<nat> {
    if skip + n <= |total| then total[skip..skip + n] else []
  }

  lemma SelectedAfter(total: seq<nat>, skip: nat, n: nat)
    requires skip + n <= |total|
    ensures total[skip..][..n] == Selected(total, skip, n) && forall a :: a in total[skip..] ==> a in total
  {
  }

  /** sg_copy_buffer: bytes skip, skip + 1, ... of the concatenated entries are transferred in
      either direction, and nothing else changes. */
  method CopyBuffer(sgl: seq<Entry>, nents: nat, mem: array<bv8>, buf: array<bv8>, buflen: nat, skip: nat, toBuffer: bool)
    returns (n: nat)
    requires OffsetsOk(sgl) && mem != buf && buflen <= buf.Length
    requires forall a :: a in Flat(LeftOf(sgl, 0, nents)) ==> a < mem.Length
    modifies mem, buf
    ensures n == Count(|Flat(LeftOf(sgl, 0, nents))|, buflen, skip)
    ensures Transferred(old(mem[..]), mem[..], old(buf[..]), buf[..],
                        Selected(Flat(LeftOf(sgl, 0, nents)), skip, n), toBuffer)
  {
    ghost var total := Flat(LeftOf(sgl, 0, nents));
    NothingYet(mem[..], buf[..], toBuffer);
    var it := new MappingIter(sgl, nents);
    var ok := it.Skip(skip);
    if !ok { return 0; }
    SelectedAfter(total, skip, 0);
    n := CopyLoop(it, mem, buf, buflen, toBuffer, total[skip..]);
    SelectedAfter(total, skip, n);
    it.StopMap();
  }
}
