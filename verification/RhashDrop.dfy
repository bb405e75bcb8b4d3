/** Preservation of the invariant by removers (__rhashtable_remove_fast). */
module RhashDrop {
  import opened Wrappers
  import opened RhashModel
  import opened RhashProof
  import opened RhashMove

  // ----- steps that leave memory alone -----

  /** Everyone but remover d keeps his locks. */
  ghost predicate KeptBut(s: State, s': State, d: Tid) {
    forall b :: b in s.lock && s.lock[b] != ByRemover(d) ==> b in s'.lock && s'.lock[b] == s.lock[b]
  }

  lemma DropWorker(c: Config, s: State, s': State, d: Tid)
    requires WorkerOk(c, s) && SameMemory(s, s') && KeptBut(s, s', d)
    ensures WorkerOk(c, s')
  {
  }

  lemma DropInserters(c: Config, s: State, s': State, d: Tid)
    requires InsertersOk(c, s) && SameMemory(s, s') && s'.ins == s.ins && KeptBut(s, s', d)
    ensures InsertersOk(c, s')
  {
    forall v | v in s'.ins ensures InserterOk(c, s', v) { assert InserterOk(c, s, v); }
    forall u, v | u in s'.ins && v in s'.ins && u != v ensures PairOk(c, s', u, v) { assert PairOk(c, s, u, v); }
  }

  lemma DropRemovers(c: Config, s: State, s': State, d: Tid)
    requires RemoversOk(c, s) && SameMemory(s, s') && s'.ins == s.ins && KeptBut(s, s', d)
    requires d in s'.rem && s'.rem == s.rem[d := s'.rem[d]] && RemoverOk(c, s', d)
    requires forall u :: u in s.ins ==> Apart(s', u, d)
    requires Took(s'.rem[d].phase) ==> d in s.rem && Took(s.rem[d].phase) && s'.rem[d].obj == s.rem[d].obj
    ensures RemoversOk(c, s')
  {
    forall x | x in s'.rem ensures RemoverOk(c, s', x) {
      if x != d { assert RemoverOk(c, s, x); }
    }
    forall u, x | u in s'.ins && x in s'.rem ensures Apart(s', u, x) {
      if x != d { assert Apart(s, u, x); }
    }
  }

  /** What the remover must not do while its entry is on the way to another table. */
  ghost predicate OutOfFlight(s: State, d: Tid)
    requires d in s.rem
  {
    s.worker.Joined? && s.rem[d].obj == s.worker.m.entry && Walking(s.rem[d].phase) ==>
      s.rem[d].phase.t <= s.first && (s.rem[d].phase.t == s.first ==> s.rem[d].phase.Nearing?)
  }

  lemma StepOfRemover(c: Config, s: State, s': State, d: Tid)
    requires Inv(c, s) && SameMemory(s, s') && s'.rdr == s.rdr && s'.ins == s.ins && KeptBut(s, s', d)
    requires d in s'.rem && s'.rem == s.rem[d := s'.rem[d]] && RemoverOk(c, s', d) && OutOfFlight(s', d)
    requires forall u :: u in s.ins ==> Apart(s', u, d)
    requires Took(s'.rem[d].phase) ==> d in s.rem && Took(s.rem[d].phase) && s'.rem[d].obj == s.rem[d].obj
    ensures Inv(c, s')
  {
    FrameHomes(c, s, s');
    FrameSegs(c, s, s');
    FrameReaders(c, s, s');
    FrameGone(s, s');
    DropWorker(c, s, s', d);
    DropInserters(c, s, s', d);
    DropRemovers(c, s, s', d);
    DropInFlight(c, s, s', d);
  }

  lemma DropInFlight(c: Config, s: State, s': State, d: Tid)
    requires InFlightOk(c, s) && SameMemory(s, s') && d in s'.rem && s'.rem == s.rem[d := s'.rem[d]] && OutOfFlight(s', d)
    ensures InFlightOk(c, s')
  {
  }

  lemma KeepDStart(c: Config, s: State, d: Tid, e: Elem)
    requires Inv(c, s) && (d in s.rem ==> s.rem[d].phase.Dropped?) && (forall u <- s.ins :: !s.ins[u].phase.Done? ==> s.ins[u].obj != e)
    ensures Inv(c, OnDStart(s, d, e))
  {
    StepOfRemover(c, s, OnDStart(s, d, e), d);
  }

  /** A step of a remover at work stays apart from the inserters. */
  lemma StayApart(c: Config, s: State, s': State, d: Tid)
    requires RemoversOk(c, s) && d in s.rem && d in s'.rem && s'.rem[d].obj == s.rem[d].obj && !s.rem[d].phase.Dropped? && s'.ins == s.ins
    ensures forall u :: u in s.ins ==> Apart(s', u, d)
  {
    forall u | u in s.ins ensures Apart(s', u, d) { assert Apart(s, u, d); }
  }

  lemma KeepDRead(c: Config, s: State, d: Tid)
    requires Inv(c, s) && d in s.rem && s.rem[d].phase.Starting?
    ensures Inv(c, OnDRead(s, d))
  {
    var s', e := OnDRead(s, d), s.rem[d].obj;
    if e in s.home { assert ElemOk(c, s, e); }
    StayApart(c, s, s', d);
    StepOfRemover(c, s, s', d);
  }

  lemma KeepDLock(c: Config, s: State, d: Tid)
    requires Inv(c, s) && d in s.rem && s.rem[d].phase.Nearing? && DropBucket(c, s, d, s.rem[d].phase.t) !in s.lock
    ensures Inv(c, OnDLock(c, s, d))
  {
    var s', t := OnDLock(c, s, d), s.rem[d].phase.t;
    var b := DropBucket(c, s, d, t);
    assert RemoverOk(c, s, d) && Seg(c, s, b);
    FreeBucket(c, s, b);
    StayApart(c, s, s', d);
    StepOfRemover(c, s, s', d);
  }

  /** A search that has met the end marker, or the entry. */
  lemma SeekOwn(c: Config, s: State, d: Tid)
    requires HomesOk(c, s) && SegsOk(c, s) && WorkerOk(c, s) && d in s.rem && s.rem[d].phase.Seeking? && RemoverOk(c, s, d)
    ensures RemoverOk(c, OnDSeek(s, d), d)
  {
    var b := DropBucket(c, s, d, s.rem[d].phase.t);
    assert Seg(c, s, b) && Tail(c, s, b) == Nulls(b);
    if s.rem[d].phase.cur.Nulls? { SeekMissed(c, s, d); } else { SeekHere(c, s, d, b); }
  }

  /** The end marker: the entry is not in this table, nor in an earlier one. */
  lemma SeekMissed(c: Config, s: State, d: Tid)
    requires HomesOk(c, s) && d in s.rem && s.rem[d].phase.Seeking? && RemoverOk(c, s, d) && s.rem[d].phase.cur.Nulls?
    ensures RemoverOk(c, OnDSeek(s, d), d)
  {
    var e := s.rem[d].obj;
    if e in s.home { assert ElemOk(c, s, e); }
  }

  /** An entry of the chain. */
  lemma SeekHere(c: Config, s: State, d: Tid, b: Slot)
    requires d in s.rem && s.rem[d].phase.Seeking? && RemoverOk(c, s, d) && s.rem[d].phase.cur.At?
    requires b == DropBucket(c, s, d, s.rem[d].phase.t) && Seg(c, s, b) && Tail(c, s, b) == Nulls(b)
    ensures RemoverOk(c, OnDSeek(s, d), d)
  {
    var p := s.rem[d].phase;
    assert p.cur.elem == Chain(s, b)[p.n];
    assert Next(s, p.cur.elem) == PtrAt(Chain(s, b), Nulls(b), p.n + 1);
    if p.cur.elem == s.rem[d].obj { SeekFound(c, s, d, b); } else { SeekOn(c, s, d, b); }
  }

  lemma SeekFound(c: Config, s: State, d: Tid, b: Slot)
    requires d in s.rem && s.rem[d].phase.Seeking? && RemoverOk(c, s, d) && b == DropBucket(c, s, d, s.rem[d].phase.t)
    requires var p := s.rem[d].phase;
             && p.cur == At(s.rem[d].obj) && p.n < |Chain(s, b)| && Chain(s, b)[p.n] == s.rem[d].obj
             && Next(s, p.cur.elem) == PtrAt(Chain(s, b), Nulls(b), p.n + 1)
    ensures RemoverOk(c, OnDSeek(s, d), d)
  {
  }

  lemma SeekOn(c: Config, s: State, d: Tid, b: Slot)
    requires d in s.rem && s.rem[d].phase.Seeking? && RemoverOk(c, s, d) && b == DropBucket(c, s, d, s.rem[d].phase.t)
    requires var p := s.rem[d].phase;
             && p.cur.At? && p.cur.elem != s.rem[d].obj && p.n < |Chain(s, b)| && Chain(s, b)[p.n] == p.cur.elem
             && Next(s, p.cur.elem) == PtrAt(Chain(s, b), Nulls(b), p.n + 1)
    ensures RemoverOk(c, OnDSeek(s, d), d)
  {
  }

  lemma KeepDSeek(c: Config, s: State, d: Tid)
    requires Inv(c, s) && d in s.rem && s.rem[d].phase.Seeking?
    ensures Inv(c, OnDSeek(s, d))
  {
    var s' := OnDSeek(s, d);
    assert RemoverOk(c, s, d);
    SeekOwn(c, s, d);
    StayApart(c, s, s', d);
    StepOfRemover(c, s, s', d);
  }

  lemma KeepDUnlock(c: Config, s: State, d: Tid)
    requires Inv(c, s) && d in s.rem && s.rem[d].phase.Leaving?
    ensures Inv(c, OnDUnlock(c, s, d))
  {
    var s' := OnDUnlock(c, s, d);
    assert RemoverOk(c, s, d);
    StayApart(c, s, s', d);
    StepOfRemover(c, s, s', d);
  }

  lemma KeepDNext(c: Config, s: State, d: Tid)
    requires Inv(c, s) && d in s.rem && s.rem[d].phase.Onward?
    ensures Inv(c, OnDNext(c, s, d))
  {
    var s' := OnDNext(c, s, d);
    assert RemoverOk(c, s, d);
    StayApart(c, s, s', d);
    StepOfRemover(c, s, s', d);
  }

  // ----- the entry is cut out of its chain -----

  /** Entry e, at position n of bucket b, is skipped by the pointer before it. */
  ghost predicate Cut(s: State, s': State, b: Slot, n: nat, e: Elem) {
    && s'.tables == s.tables && s'.first == s.first && s'.worker == s.worker && s'.ins == s.ins
    && n < |Chain(s, b)| && Chain(s, b)[n] == e
    && s'.chain == s.chain[b := Without(Chain(s, b), n)] && s'.home == s.home - {e}
    && s'.gone == s.gone + [e] && s'.rdr == Forget(s.rdr, e)
    && s'.next == (if n > 0 then s.next[Chain(s, b)[n - 1] := PtrAt(Chain(s, b), Nulls(b), n + 1)] else s.next)
    && s'.head == (if n > 0 then s.head else s.head[b := PtrAt(Chain(s, b), Nulls(b), n + 1)])
    && (forall b' :: b' in s.lock && b' != b ==> b' in s'.lock && s'.lock[b'] == s.lock[b'])
  }

  lemma CutIs(c: Config, s: State, d: Tid)
    requires d in s.rem && s.rem[d].phase.Cutting? && RemoverOk(c, s, d)
    ensures var p, e := s.rem[d].phase, s.rem[d].obj;
            Cut(s, OnDCut(c, s, d), DropBucket(c, s, d, p.t), p.n, e)
  {
  }

  lemma WithoutAt(l: seq<Elem>, n: nat, i: nat)
    requires n < |l| && i < |l| - 1
    ensures |Without(l, n)| == |l| - 1 && Without(l, n)[i] == if i < n then l[i] else l[i + 1]
  {
  }

  lemma CutElem(c: Config, s: State, s': State, b: Slot, n: nat, e: Elem, x: Elem)
    requires Cut(s, s', b, n, e) && x in s.home && x != e && ElemOk(c, s, x)
    ensures ElemOk(c, s', x)
  {
    var i :| 0 <= i < |Chain(s, s.home[x])| && Chain(s, s.home[x])[i] == x;
    if s.home[x] == b {
      WithoutAt(Chain(s, b), n, if i < n then i else i - 1);
    }
  }

  lemma CutChain(s: State, s': State, b: Slot, n: nat, e: Elem, b': Slot)
    requires Cut(s, s', b, n, e) && ChainOk(s, b') && ChainOk(s, b)
    ensures ChainOk(s', b')
  {
    if b' == b {
      var l := Chain(s, b);
      forall i | 0 <= i < |Without(l, n)| ensures Without(l, n)[i] == (if i < n then l[i] else l[i + 1]) { WithoutAt(l, n, i); }
    } else {
      assert e !in Chain(s, b');
    }
  }

  lemma CutHomes(c: Config, s: State, s': State, b: Slot, n: nat, e: Elem)
    requires HomesOk(c, s) && Cut(s, s', b, n, e)
    ensures HomesOk(c, s')
  {
    forall x | x in s'.home ensures ElemOk(c, s', x) { assert ElemOk(c, s, x); CutElem(c, s, s', b, n, e, x); }
    forall b' ensures ChainOk(s', b') { assert ChainOk(s, b') && ChainOk(s, b); CutChain(s, s', b, n, e, b'); }
  }

  lemma CutSegHere(c: Config, s: State, s': State, b: Slot, n: nat, e: Elem)
    requires Cut(s, s', b, n, e) && ChainOk(s, b) && Seg(c, s, b) && Tail(c, s, b) == Tail(c, s', b) == Nulls(b)
    ensures Seg(c, s', b)
  {
    var l := Chain(s, b);
    assert |Chain(s', b)| == |l| - 1;
    if |l| > 1 { WithoutAt(l, n, 0); }
    forall i | 0 <= i < |Chain(s', b)|
      ensures Next(s', Chain(s', b)[i]) == PtrAt(Chain(s', b), Nulls(b), i + 1)
    {
      WithoutAt(l, n, i);
      if i + 1 < |l| - 1 { WithoutAt(l, n, i + 1); }
    }
  }

  lemma CutSegs(c: Config, s: State, s': State, b: Slot, n: nat, e: Elem)
    requires SegsOk(c, s) && HomesOk(c, s) && WorkerOk(c, s) && Cut(s, s', b, n, e) && b in s.lock && s.lock[b] != ByWorker
    ensures SegsOk(c, s')
  {
    forall b' ensures Seg(c, s', b') {
      assert Seg(c, s, b') && ChainOk(s, b') && ChainOk(s, b);
      if b' == b { CutSegHere(c, s, s', b, n, e); } else { CutSegElse(c, s, s', b, n, e, b'); }
    }
  }

  lemma CutSegElse(c: Config, s: State, s': State, b: Slot, n: nat, e: Elem, b': Slot)
    requires Cut(s, s', b, n, e) && b' != b && WorkerOk(c, s) && b in s.lock && s.lock[b] != ByWorker
    requires Seg(c, s, b') && ChainOk(s, b') && ChainOk(s, b)
    ensures Seg(c, s', b')
  {
    assert Tail(c, s', b') == Tail(c, s, b');
    if n > 0 { assert Chain(s, b)[n - 1] !in Chain(s, b'); }
  }

  lemma CutWorker(c: Config, s: State, s': State, b: Slot, n: nat, e: Elem)
    requires WorkerOk(c, s) && ChainOk(s, b) && Cut(s, s', b, n, e) && b in s.lock && s.lock[b] != ByWorker
    requires s.worker.Joined? ==> s.worker.m.entry != e
    ensures WorkerOk(c, s')
  {
  }

  lemma CutInserters(c: Config, s: State, s': State, b: Slot, n: nat, e: Elem)
    requires InsertersOk(c, s) && ChainOk(s, b) && Cut(s, s', b, n, e) && b in s.lock && !s.lock[b].ByInserter?
    requires forall u :: u in s.ins && !s.ins[u].phase.Done? ==> s.ins[u].obj != e
    ensures InsertersOk(c, s')
  {
    forall v | v in s'.ins ensures InserterOk(c, s', v) { assert InserterOk(c, s, v); CutInserter(c, s, s', b, n, e, v); }
    forall u, v | u in s'.ins && v in s'.ins && u != v ensures PairOk(c, s', u, v) { assert PairOk(c, s, u, v); }
  }

  lemma CutInserter(c: Config, s: State, s': State, b: Slot, n: nat, e: Elem, v: Tid)
    requires v in s.ins && InserterOk(c, s, v) && ChainOk(s, b) && Cut(s, s', b, n, e) && b in s.lock && !s.lock[b].ByInserter?
    requires !s.ins[v].phase.Done? ==> s.ins[v].obj != e
    ensures InserterOk(c, s', v)
  {
  }

  lemma CutGone(c: Config, s: State, s': State, b: Slot, n: nat, e: Elem)
    requires GoneOk(s) && HomesOk(c, s) && SegsOk(c, s) && Cut(s, s', b, n, e) && Tail(c, s, b) == Nulls(b)
    ensures GoneOk(s')
  {
    assert ChainOk(s, b) && Seg(c, s, b);
    forall i | 0 <= i < |s'.gone| ensures LeadsOn(s', i) {
      if i < |s.gone| { assert LeadsOn(s, i); CutLeadsOn(s, s', b, n, e, i); }
    }
  }

  lemma CutLeadsOn(s: State, s': State, b: Slot, n: nat, e: Elem, i: nat)
    requires GoneOk(s) && Cut(s, s', b, n, e) && ChainOk(s, b) && i < |s.gone| && LeadsOn(s, i)
    ensures LeadsOn(s', i)
  {
    assert s'.gone[i] == s.gone[i] && s'.gone[i + 1..] == s.gone[i + 1..] + [e];
  }

  lemma CutRemover(c: Config, s: State, s': State, b: Slot, n: nat, e: Elem, d: Tid)
    requires Cut(s, s', b, n, e) && d in s.rem && d in s'.rem && s'.rem[d] == s.rem[d] && RemoverOk(c, s, d)
    requires b in s.lock && s.lock[b] != ByRemover(d)
    ensures RemoverOk(c, s', d)
  {
  }

  lemma BeforeWithout(l: seq<Elem>, n: nat, y: Elem, x: Elem)
    requires n < |l| && Before(l, y, x) && l[n] != x && l[n] != y
    ensures Before(Without(l, n), y, x)
  {
    var i, j :| 0 <= i <= j < |l| && l[i] == y && l[j] == x;
    var i', j' := if i < n then i else i - 1, if j < n then j else j - 1;
    WithoutAt(l, n, i');
    WithoutAt(l, n, j');
    var l' := Without(l, n);
    assert 0 <= i' <= j' < |l'| && l'[i'] == y && l'[j'] == x;
  }

  lemma CutAhead(s: State, s': State, b: Slot, n: nat, e: Elem, t: nat, cur: Ptr, x: Elem)
    requires Cut(s, s', b, n, e) && x in s.home && x != e && cur != At(e) && AheadAt(s, t, cur, x)
    ensures AheadAt(s', t, cur, x)
  {
    if cur.At? && s.home[x] == b && Before(Chain(s, b), cur.elem, x) { BeforeWithout(Chain(s, b), n, cur.elem, x); }
  }

  /** A walk that would stand on the removed entry has passed it. */
  lemma CutLand(s: State, s': State, b: Slot, n: nat, e: Elem, p: Ptr)
    requires Cut(s, s', b, n, e) && GoneOk(s) && ChainOk(s, b)
    ensures var q := Land(s.gone, s, p); Land(s'.gone, s', p) == if q == At(e) then Next(s, e) else q
  {
    LandFrame(s.gone, s, s', p);
    assert s'.gone[..|s.gone|] == s.gone;
  }

  lemma CutReader(c: Config, s: State, s': State, b: Slot, n: nat, e: Elem, rid: Tid, x: Elem)
    requires Inv(c, s) && Cut(s, s', b, n, e) && rid in s.rdr && s.rdr[rid].look.Follow?
    requires x in s.rdr[rid].must && x != e && s.home[x].tbl == s.rdr[rid].look.t
    ensures Ahead(s', s.rdr[rid].look.t, s.rdr[rid].look.cur, x)
  {
    var Follow(t, cur) := s.rdr[rid].look;
    assert ReaderOk(c, s, rid) && ChainOk(s, b) && Ahead(s, t, cur, x);
    CutLand(s, s', b, n, e, cur);
    var q := Land(s.gone, s, cur);
    if q == At(e) {
      FollowAhead(c, s, t, e, x);
      CutPast(c, s, b, n, e);
      CutAhead(s, s', b, n, e, t, Next(s, e), x);
    } else {
      CutAhead(s, s', b, n, e, t, q, x);
    }
  }

  lemma CutPast(c: Config, s: State, b: Slot, n: nat, e: Elem)
    requires HomesOk(c, s) && SegsOk(c, s) && WorkerOk(c, s) && n < |Chain(s, b)| && Chain(s, b)[n] == e
    ensures Next(s, e) != At(e)
  {
    assert ChainOk(s, b) && Seg(c, s, b);
    LeadsAlong(c, s, b, n + 1);
  }

  lemma CutReaders(c: Config, s: State, s': State, b: Slot, n: nat, e: Elem)
    requires Inv(c, s) && Cut(s, s', b, n, e)
    ensures ReadersOk(c, s')
  {
    forall rid | rid in s'.rdr ensures ReaderOk(c, s', rid) {
      assert ReaderOk(c, s, rid);
      CutMet(s, s', b, n, e, s.rdr[rid].since);
      if s.rdr[rid].look.Follow? {
        forall x | x in s'.rdr[rid].must && s'.home[x].tbl == s.rdr[rid].look.t
          ensures Ahead(s', s.rdr[rid].look.t, s.rdr[rid].look.cur, x)
        {
          CutReader(c, s, s', b, n, e, rid, x);
        }
      }
    }
  }

  lemma CutMet(s: State, s': State, b: Slot, n: nat, e: Elem, since: nat)
    requires Cut(s, s', b, n, e)
    ensures since <= |s.gone| ==> forall y :: Met(s, y, since) ==> Met(s', y, since)
  {
    if since <= |s.gone| {
      assert s'.gone[since..] == s.gone[since..] + [e];
    }
  }

  lemma CutRemovers(c: Config, s: State, s': State, b: Slot, n: nat, e: Elem, d: Tid)
    requires RemoversOk(c, s) && GoneOk(s) && e in s.home && Cut(s, s', b, n, e) && b in s.lock && s.lock[b] == ByRemover(d)
    requires d in s.rem && d in s'.rem && s.rem[d].obj == e && !s.rem[d].phase.Dropped?
    requires s'.rem == s.rem[d := s'.rem[d]] && s'.rem[d].obj == e && RemoverOk(c, s', d)
    ensures RemoversOk(c, s')
  {
    forall x | x in s'.rem ensures RemoverOk(c, s', x) {
      if x != d { assert RemoverOk(c, s, x); CutRemover(c, s, s', b, n, e, x); }
    }
    forall u, x | u in s'.ins && x in s'.rem ensures Apart(s', u, x) { assert Apart(s, u, x); }
    forall x | x in s'.rem && x != d && Took(s'.rem[x].phase) ensures s'.rem[x].obj != e {
      assert RemoverOk(c, s, x);
    }
  }

  lemma CutOwn(c: Config, s: State, d: Tid)
    requires d in s.rem && s.rem[d].phase.Cutting? && RemoverOk(c, s, d)
    ensures RemoverOk(c, OnDCut(c, s, d), d)
  {
    var s' := OnDCut(c, s, d);
    assert s'.gone[|s.gone|] == s.rem[d].obj;
  }

  /** The entry on its way to another table cannot be cut out. */
  lemma NotInFlight(c: Config, s: State, d: Tid)
    requires HomesOk(c, s) && WorkerOk(c, s) && InFlightOk(c, s) && d in s.rem && s.rem[d].phase.Cutting? && RemoverOk(c, s, d)
    ensures s.worker.Joined? ==> s.worker.m.entry != s.rem[d].obj
  {
    var p := s.rem[d].phase;
    assert ChainOk(s, DropBucket(c, s, d, p.t));
  }

  lemma CutInFlight(c: Config, s: State, d: Tid)
    requires InFlightOk(c, s) && d in s.rem && s.rem[d].phase.Cutting?
    requires s.worker.Joined? ==> s.worker.m.entry != s.rem[d].obj
    ensures InFlightOk(c, OnDCut(c, s, d))
  {
  }

  lemma KeepDCut(c: Config, s: State, d: Tid)
    requires Inv(c, s) && d in s.rem && s.rem[d].phase.Cutting?
    ensures Inv(c, OnDCut(c, s, d))
  {
    var s' := OnDCut(c, s, d);
    var p, e := s.rem[d].phase, s.rem[d].obj;
    var b := DropBucket(c, s, d, p.t);
    assert RemoverOk(c, s, d) && ChainOk(s, b);
    CutIs(c, s, d);
    NotInFlight(c, s, d);
    CutHomes(c, s, s', b, p.n, e);
    CutSegs(c, s, s', b, p.n, e);
    CutWorker(c, s, s', b, p.n, e);
    forall u | u in s.ins && !s.ins[u].phase.Done? ensures s.ins[u].obj != e { assert Apart(s, u, d); }
    CutInserters(c, s, s', b, p.n, e);
    CutReaders(c, s, s', b, p.n, e);
    CutGone(c, s, s', b, p.n, e);
    CutOwn(c, s, d);
    CutRemovers(c, s, s', b, p.n, e, d);
    CutInFlight(c, s, d);
  }
}
