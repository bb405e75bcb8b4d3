/** Preservation of the invariant by the worker's move of one entry (rhashtable_rehash_one),
    by publication of the next table, and by the lock-free readers. */
module RhashMove {
  import opened RhashModel
  import opened RhashProof

  /** Pointer writes to linked entries and to buckets that no inserter has locked do not
      concern the inserters. */
  lemma WriteOthers(c: Config, s: State, s': State)
    requires InsertersOk(c, s)
    requires s'.tables == s.tables && s'.first == s.first && s'.home == s.home && s'.chain == s.chain && s'.gone == s.gone
    requires s'.ins == s.ins && s'.lock == s.lock && Progress(s'.worker) == Progress(s.worker)
    requires forall e :: e !in s.home ==> Next(s', e) == Next(s, e)
    requires forall b :: b in s.lock && s.lock[b].ByInserter? ==> Head(s', b) == Head(s, b)
    ensures InsertersOk(c, s')
  {
    forall v | v in s'.ins ensures InserterOk(c, s', v) { assert InserterOk(c, s, v); }
    forall u, v | u in s'.ins && v in s'.ins && u != v ensures PairOk(c, s', u, v) { assert PairOk(c, s, u, v); }
  }

  // ----- entry->next = head of the new chain -----

  lemma KeepWRepoint(c: Config, s: State)
    requires Inv(c, s) && s.worker.Both?
    ensures Inv(c, OnWRepoint(c, s))
  {
    var s' := OnWRepoint(c, s);
    assert ChainOk(s, Slot(s.first, s.worker.h));
    FrameHomes(c, s, s');
    FrameReaders(c, s, s');
    FrameGone(s, s');
    FrameRemovers(c, s, s');
    RepointWorker(c, s);
    RepointSegs(c, s, s');
    WriteOthers(c, s, s');
  }

  lemma RepointWorker(c: Config, s: State)
    requires HomesOk(c, s) && WorkerOk(c, s) && s.worker.Both?
    ensures WorkerOk(c, OnWRepoint(c, s))
  {
    assert ChainOk(s, Slot(s.first, s.worker.h));
  }

  lemma RepointSegs(c: Config, s: State, s': State)
    requires HomesOk(c, s) && SegsOk(c, s) && WorkerOk(c, s) && s.worker.Both?
    requires s' == s.(next := s.next[s.worker.m.entry := Head(s, Target(c, s, s.worker.m))],
                      worker := Repointed(s.worker.h, s.worker.succ, s.worker.m))
    ensures SegsOk(c, s')
  {
    var o := Slot(s.first, s.worker.h);
    assert ChainOk(s, o);
    forall b ensures Seg(c, s', b) {
      assert Seg(c, s, b) && ChainOk(s, b);
      if b != o { RepointElsewhere(c, s, s', b); } else { RepointHere(c, s, s', o); }
    }
  }

  lemma RepointHere(c: Config, s: State, s': State, o: Slot)
    requires WorkerOk(c, s) && s.worker.Both? && o == Slot(s.first, s.worker.h) && Seg(c, s, o) && ChainOk(s, o)
    requires s' == s.(next := s.next[s.worker.m.entry := Head(s, Target(c, s, s.worker.m))],
                      worker := Repointed(s.worker.h, s.worker.succ, s.worker.m))
    ensures Seg(c, s', o)
  {
    assert Tail(c, s', o) == Head(s, Target(c, s, s.worker.m));
  }

  lemma RepointElsewhere(c: Config, s: State, s': State, b: Slot)
    requires WorkerOk(c, s) && s.worker.Both? && b != Slot(s.first, s.worker.h)
    requires Seg(c, s, b) && ChainOk(s, b) && ChainOk(s, Slot(s.first, s.worker.h))
    requires s' == s.(next := s.next[s.worker.m.entry := Head(s, Target(c, s, s.worker.m))],
                      worker := Repointed(s.worker.h, s.worker.succ, s.worker.m))
    ensures Seg(c, s', b)
  {
    assert s.worker.m.entry !in Chain(s, b);
  }

  // ----- entry becomes head of the new chain -----

  /** Entry e leaves the end of bucket o for the front of bucket b. */
  ghost predicate Moved(s: State, s': State, o: Slot, b: Slot, e: Elem) {
    && s'.tables == s.tables && s'.first == s.first && s'.next == s.next && s'.ins == s.ins && s'.rdr == s.rdr
    && s'.rem == s.rem && s'.gone == s.gone
    && s'.head == s.head[b := At(e)] && s'.lock == Unlock(s.lock, b)
    && s'.chain == s.chain[o := DropLast(Chain(s, o))][b := [e] + Chain(s, b)] && s'.home == s.home[e := b]
    && o.tbl == s.first < b.tbl
    && Chain(s, o) != [] && Chain(s, o)[|Chain(s, o)| - 1] == e && e in s.home && s.home[e] == o
  }

  lemma MoveElem(c: Config, s: State, s': State, o: Slot, b: Slot, e: Elem, x: Elem)
    requires Moved(s, s', o, b, e) && x in s.home && ElemOk(c, s, x)
    requires b.tbl < |s.tables| && b == SlotOf(c, s.tables, b.tbl, c.key(e))
    ensures ElemOk(c, s', x)
  {
    if x == e {
      assert Chain(s', b)[0] == e;
    } else {
      var i :| 0 <= i < |Chain(s, s.home[x])| && Chain(s, s.home[x])[i] == x;
      if s.home[x] == b { assert Chain(s', b)[i + 1] == x; }
      if s.home[x] == o { assert Chain(s', o)[i] == x; }
    }
  }

  lemma MoveChain(s: State, s': State, o: Slot, b: Slot, e: Elem, b': Slot)
    requires Moved(s, s', o, b, e) && ChainOk(s, b') && ChainOk(s, o)
    ensures ChainOk(s', b')
  {
    if b' == b {
      assert e !in Chain(s, b);
    } else if b' == o {
      assert forall i :: 0 <= i < |Chain(s', o)| ==> Chain(s', o)[i] == Chain(s, o)[i];
    } else {
      assert e !in Chain(s, b');
    }
  }

  lemma MoveHomes(c: Config, s: State, s': State, o: Slot, b: Slot, e: Elem)
    requires HomesOk(c, s) && Moved(s, s', o, b, e)
    requires b.tbl < |s.tables| && b == SlotOf(c, s.tables, b.tbl, c.key(e))
    ensures HomesOk(c, s')
  {
    forall x | x in s'.home ensures ElemOk(c, s', x) { assert ElemOk(c, s, x); MoveElem(c, s, s', o, b, e, x); }
    forall b' ensures ChainOk(s', b') { assert ChainOk(s, b') && ChainOk(s, o); MoveChain(s, s', o, b, e, b'); }
  }

  /** The new bucket starts with the moved entry. */
  lemma MoveSegNew(c: Config, s: State, s': State, o: Slot, b: Slot, e: Elem)
    requires Moved(s, s', o, b, e) && Seg(c, s, b) && Tail(c, s, b) == Tail(c, s', b) == Nulls(b) && Next(s, e) == Head(s, b)
    ensures Seg(c, s', b)
  {
    forall i | 0 <= i < |Chain(s', b)|
      ensures Next(s', Chain(s', b)[i]) == PtrAt(Chain(s', b), Nulls(b), i + 1)
    {
      if i > 0 { assert Chain(s', b)[i] == Chain(s, b)[i - 1]; }
    }
  }

  /** The old bucket runs on into it. */
  lemma MoveSegOld(c: Config, s: State, s': State, o: Slot, b: Slot, e: Elem)
    requires Moved(s, s', o, b, e) && Seg(c, s, o) && Tail(c, s', o) == At(e)
    ensures Seg(c, s', o)
  {
    assert forall i :: 0 <= i < |Chain(s', o)| ==> Chain(s', o)[i] == Chain(s, o)[i];
  }

  lemma MoveSegs(c: Config, s: State, s': State)
    requires SegsOk(c, s) && s.worker.Repointed? && s'.worker == Joined(s.worker.h, s.worker.succ, s.worker.m)
    requires Moved(s, s', Slot(s.first, s.worker.h), Target(c, s, s.worker.m), s.worker.m.entry)
    ensures SegsOk(c, s')
  {
    var o, b, e := Slot(s.first, s.worker.h), Target(c, s, s.worker.m), s.worker.m.entry;
    forall b' ensures Seg(c, s', b') {
      assert Seg(c, s, b') && Seg(c, s, o);
      if b' == b {
        MoveSegNew(c, s, s', o, b, e);
      } else if b' == o {
        MoveSegOld(c, s, s', o, b, e);
      }
    }
  }

  lemma MoveOther(c: Config, s: State, s': State, o: Slot, b: Slot, e: Elem, v: Tid)
    requires Moved(s, s', o, b, e) && v in s.ins && InserterOk(c, s, v)
    requires o == SlotOf(c, s.tables, s.first, c.key(e))
    requires o in s.lock && s.lock[o] == ByWorker && b in s.lock && s.lock[b] == ByWorker
    requires Progress(s'.worker) == Progress(s.worker)
    ensures InserterOk(c, s', v)
  {
    var q := s.ins[v];
    if Position(q.phase).Some? {
      var b' := Bucket(c, s, v, q.phase.t);
      assert HoldsLock(q.phase) ==> b' != o && b' != b;
    }
  }

  lemma MoveOthers(c: Config, s: State, s': State, o: Slot, b: Slot, e: Elem)
    requires InsertersOk(c, s) && Moved(s, s', o, b, e) && o == SlotOf(c, s.tables, s.first, c.key(e))
    requires o in s.lock && s.lock[o] == ByWorker && b in s.lock && s.lock[b] == ByWorker
    requires Progress(s'.worker) == Progress(s.worker)
    ensures InsertersOk(c, s')
  {
    forall v | v in s'.ins ensures InserterOk(c, s', v) { assert InserterOk(c, s, v); MoveOther(c, s, s', o, b, e, v); }
    forall u, v | u in s'.ins && v in s'.ins && u != v ensures PairOk(c, s', u, v) { assert PairOk(c, s, u, v); }
  }

  lemma BeforeDrop(l: seq<Elem>, y: Elem, x: Elem)
    requires Before(l, y, x) && l[|l| - 1] != x
    ensures Before(DropLast(l), y, x)
  {
    var i, j :| 0 <= i <= j < |l| && l[i] == y && l[j] == x;
    assert DropLast(l)[i] == y && DropLast(l)[j] == x;
  }

  lemma MoveAhead(s: State, s': State, o: Slot, b: Slot, e: Elem, t: nat, cur: Ptr, x: Elem)
    requires Moved(s, s', o, b, e) && ChainOk(s, o) && x in s.home && x != e && s.home[x].tbl == t
    requires AheadAt(s, t, cur, x)
    requires forall i :: 0 <= i < |Chain(s, s.home[x])| ==> Chain(s, s.home[x])[i] in s.home && s.home[Chain(s, s.home[x])[i]] == s.home[x]
    ensures AheadAt(s', t, cur, x)
  {
    if cur.At? && s.home[cur.elem].tbl <= t {
      var y, l := cur.elem, Chain(s, s.home[x]);
      if s.home[x] == o && y != e { BeforeDrop(l, y, x); }
      if s.home[x] == b { BeforePush(l, e, y, x); }
    }
  }

  lemma MoveReaders(c: Config, s: State, s': State, o: Slot, b: Slot, e: Elem)
    requires ReadersOk(c, s) && HomesOk(c, s) && Moved(s, s', o, b, e)
    ensures ReadersOk(c, s')
  {
    forall rid | rid in s'.rdr ensures ReaderOk(c, s', rid) {
      assert ReaderOk(c, s, rid);
      if s.rdr[rid].look.Follow? {
        var Follow(t, cur) := s.rdr[rid].look;
        forall x | x in s.rdr[rid].must && s'.home[x].tbl == t ensures Ahead(s', t, cur, x) {
          MovePast(c, s, s', o, b, e, rid, x);
        }
      }
    }
  }

  lemma MovePast(c: Config, s: State, s': State, o: Slot, b: Slot, e: Elem, rid: Tid, x: Elem)
    requires HomesOk(c, s) && Moved(s, s', o, b, e) && rid in s.rdr && ReaderOk(c, s, rid) && s.rdr[rid].look.Follow?
    requires x in s.rdr[rid].must && x in s'.home && s'.home[x].tbl == s.rdr[rid].look.t
    ensures Ahead(s', s.rdr[rid].look.t, s.rdr[rid].look.cur, x)
  {
    var Follow(t, cur) := s.rdr[rid].look;
    LandFrame(s.gone, s, s', cur);
    assert ChainOk(s, o) && ChainOk(s, s.home[x]);
    assert x != e && Ahead(s, t, cur, x);
    MoveAhead(s, s', o, b, e, t, Land(s.gone, s, cur), x);
  }

  lemma JoinIsMove(c: Config, s: State)
    requires HomesOk(c, s) && TablesOk(s) && WorkerOk(c, s) && s.worker.Repointed?
    ensures var o, b, e := Slot(s.first, s.worker.h), Target(c, s, s.worker.m), s.worker.m.entry;
            && Moved(s, OnWJoin(c, s), o, b, e)
            && b.tbl < |s.tables| && b == SlotOf(c, s.tables, b.tbl, c.key(e))
            && o == SlotOf(c, s.tables, s.first, c.key(e))
  {
    var o := Slot(s.first, s.worker.h);
    assert ChainOk(s, o);
    assert ElemOk(c, s, s.worker.m.entry);
  }

  lemma KeepWJoin(c: Config, s: State)
    requires Inv(c, s) && s.worker.Repointed?
    ensures Inv(c, OnWJoin(c, s))
  {
    var s' := OnWJoin(c, s);
    var o, b, e := Slot(s.first, s.worker.h), Target(c, s, s.worker.m), s.worker.m.entry;
    JoinIsMove(c, s);
    MoveHomes(c, s, s', o, b, e);
    MoveSegs(c, s, s');
    MoveReaders(c, s, s', o, b, e);
    MoveOthers(c, s, s', o, b, e);
    JoinWorker(c, s);
    FrameGone(s, s');
    MoveRemovers(c, s, s', o, b, e);
    JoinInFlight(c, s, s', o, e);
    assert UniqueOk(c, s');
  }

  lemma MoveRemover(c: Config, s: State, s': State, o: Slot, b: Slot, e: Elem, d: Tid)
    requires Moved(s, s', o, b, e) && d in s.rem && RemoverOk(c, s, d)
    requires o in s.lock && s.lock[o] == ByWorker && b in s.lock && s.lock[b] == ByWorker
    ensures RemoverOk(c, s', d)
  {
  }

  lemma MoveRemovers(c: Config, s: State, s': State, o: Slot, b: Slot, e: Elem)
    requires RemoversOk(c, s) && Moved(s, s', o, b, e)
    requires o in s.lock && s.lock[o] == ByWorker && b in s.lock && s.lock[b] == ByWorker
    ensures RemoversOk(c, s')
  {
    forall d | d in s'.rem ensures RemoverOk(c, s', d) { assert RemoverOk(c, s, d); MoveRemover(c, s, s', o, b, e, d); }
    forall u, d | u in s'.ins && d in s'.rem ensures Apart(s', u, d) { assert Apart(s, u, d); }
  }

  /** A remover of the moved entry is still before the old bucket, which the worker has locked. */
  lemma JoinInFlight(c: Config, s: State, s': State, o: Slot, e: Elem)
    requires RemoversOk(c, s) && e in s.home && s.home[e] == o && o.tbl == s.first && o == SlotOf(c, s.tables, s.first, c.key(e))
    requires o in s.lock && s.lock[o] == ByWorker
    requires s'.rem == s.rem && s'.first == s.first && s'.tables == s.tables
    requires s'.worker.Joined? && s'.worker.m.entry == e && o == Slot(s.first, s'.worker.h)
    ensures InFlightOk(c, s')
  {
    forall d | d in s'.rem && s'.rem[d].obj == e && Walking(s'.rem[d].phase)
      ensures s'.rem[d].phase.t <= s'.first && (s'.rem[d].phase.t == s'.first ==> s'.rem[d].phase.Nearing?)
    {
      assert RemoverOk(c, s, d);
    }
  }

  lemma JoinWorker(c: Config, s: State)
    requires WorkerOk(c, s) && s.worker.Repointed?
    ensures WorkerOk(c, OnWJoin(c, s))
  {
    var s' := OnWJoin(c, s);
    var o := Slot(s.first, s.worker.h);
    assert Chain(s', o) == DropLast(Chain(s, o));
  }

  // ----- the predecessor skips the moved entry -----

  lemma UnlinkSegs(c: Config, s: State)
    requires SegsOk(c, s) && HomesOk(c, s) && WorkerOk(c, s) && s.worker.Joined?
    ensures SegsOk(c, OnWUnlink(s))
  {
    var s' := OnWUnlink(s);
    var o := Slot(s.first, s.worker.h);
    assert ChainOk(s, o);
    forall b ensures Seg(c, s', b) {
      assert Seg(c, s, b) && ChainOk(s, b);
      if b != o { UnlinkElsewhere(c, s, b); }
    }
  }

  lemma UnlinkElsewhere(c: Config, s: State, b: Slot)
    requires WorkerOk(c, s) && s.worker.Joined? && b != Slot(s.first, s.worker.h)
    requires Seg(c, s, b) && ChainOk(s, b) && ChainOk(s, Slot(s.first, s.worker.h))
    ensures Seg(c, OnWUnlink(s), b)
  {
    if s.worker.m.prev.Some? { assert s.worker.m.prev.value !in Chain(s, b); }
  }

  lemma KeepWUnlink(c: Config, s: State)
    requires Inv(c, s) && s.worker.Joined?
    ensures Inv(c, OnWUnlink(s))
  {
    var s' := OnWUnlink(s);
    assert ChainOk(s, Slot(s.first, s.worker.h));
    UnlinkSegs(c, s);
    FrameHomes(c, s, s');
    FrameReaders(c, s, s');
    FrameGone(s, s');
    FrameRemovers(c, s, s');
    UnlinkWorker(c, s);
    WriteOthers(c, s, s');
  }

  lemma UnlinkWorker(c: Config, s: State)
    requires HomesOk(c, s) && WorkerOk(c, s) && s.worker.Joined?
    ensures WorkerOk(c, OnWUnlink(s))
  {
    assert ChainOk(s, Slot(s.first, s.worker.h));
  }

  // ----- publication -----

  /** When the worker has passed the last bucket, no entry is left in the old table. */
  lemma Drained(c: Config, s: State)
    requires ValidConfig(c) && TablesOk(s) && HomesOk(c, s) && WorkerOk(c, s)
    requires s.worker.Drain? && s.worker.h >= s.tables[s.first].size
    ensures forall e :: e in s.home ==> s.home[e].tbl > s.first
  {
    forall e | e in s.home ensures s.home[e].tbl > s.first {
      assert ElemOk(c, s, e);
    }
  }

  lemma PublishOther(c: Config, s: State, s': State, v: Tid)
    requires ValidConfig(c) && TablesOk(s) && v in s.ins && InserterOk(c, s, v)
    requires s.worker.Drain? && s.worker.h >= s.tables[s.first].size
    requires s' == s.(first := s.first + 1, worker := Idle)
    ensures InserterOk(c, s', v)
  {
  }

  lemma KeepWPublish(c: Config, s: State)
    requires ValidConfig(c) && Inv(c, s) && s.worker.Drain? && s.first < |s.tables| && s.worker.h >= s.tables[s.first].size
    ensures Inv(c, OnWPublish(s))
  {
    var s' := OnWPublish(s);
    PublishMemory(c, s);
    FrameReaders(c, s, s');
    FrameGone(s, s');
    FrameRemovers(c, s, s');
    PublishOthers(c, s, s');
  }

  lemma PublishMemory(c: Config, s: State)
    requires ValidConfig(c) && TablesOk(s) && HomesOk(c, s) && SegsOk(c, s) && WorkerOk(c, s)
    requires s.worker.Drain? && s.worker.h >= s.tables[s.first].size
    ensures var s' := OnWPublish(s); TablesOk(s') && HomesOk(c, s') && SegsOk(c, s')
  {
    var s' := OnWPublish(s);
    Drained(c, s);
    forall e | e in s'.home ensures ElemOk(c, s', e) { assert ElemOk(c, s, e); }
    forall b ensures ChainOk(s', b) { assert ChainOk(s, b); }
    forall b ensures Seg(c, s', b) { assert Seg(c, s, b); }
  }

  lemma PublishOthers(c: Config, s: State, s': State)
    requires ValidConfig(c) && TablesOk(s) && InsertersOk(c, s)
    requires s.worker.Drain? && s.worker.h >= s.tables[s.first].size && s' == s.(first := s.first + 1, worker := Idle)
    ensures InsertersOk(c, s')
  {
    forall v | v in s'.ins ensures InserterOk(c, s', v) { assert InserterOk(c, s, v); PublishOther(c, s, s', v); }
    forall u, v | u in s'.ins && v in s'.ins && u != v ensures PairOk(c, s', u, v) { assert PairOk(c, s, u, v); }
  }

  // ----- readers -----

  lemma StepOfReader(c: Config, s: State, s': State, rid: Tid)
    requires Inv(c, s) && s' == s.(rdr := s'.rdr) && rid in s'.rdr && s'.rdr == s.rdr[rid := s'.rdr[rid]]
    requires ReaderOk(c, s', rid)
    ensures Inv(c, s')
  {
    FrameHomes(c, s, s');
    FrameSegs(c, s, s');
    WriteOthers(c, s, s');
    FrameGone(s, s');
    FrameRemovers(c, s, s');
    OtherReaders(c, s, s', rid);
    ReadingLeavesWorker(c, s, s');
  }

  lemma ReadingLeavesWorker(c: Config, s: State, s': State)
    requires WorkerOk(c, s) && InFlightOk(c, s) && s' == s.(rdr := s'.rdr)
    ensures WorkerOk(c, s') && InFlightOk(c, s')
  {
  }

  lemma OtherReaders(c: Config, s: State, s': State, rid: Tid)
    requires ReadersOk(c, s) && s' == s.(rdr := s'.rdr) && rid in s'.rdr && s'.rdr == s.rdr[rid := s'.rdr[rid]] && ReaderOk(c, s', rid)
    ensures ReadersOk(c, s')
  {
    forall r | r in s'.rdr ensures ReaderOk(c, s', r) {
      if r != rid { ReaderFrame(c, s, s', r); }
    }
  }

  lemma ReaderFrame(c: Config, s: State, s': State, r: Tid)
    requires ReadersOk(c, s) && s' == s.(rdr := s'.rdr) && r in s.rdr && r in s'.rdr && s'.rdr[r] == s.rdr[r]
    ensures ReaderOk(c, s', r)
  {
    assert ReaderOk(c, s, r);
    if s.rdr[r].look.Follow? {
      var Follow(t, cur) := s.rdr[r].look;
      LandFrame(s.gone, s, s', cur);
      forall x | x in s.rdr[r].must && s.home[x].tbl == t ensures Ahead(s', t, cur, x) { assert Ahead(s, t, cur, x); }
    }
  }

  /** Opening a bucket puts every entry of the bucket in front of the reader. */
  lemma OpenAhead(c: Config, s: State, b: Slot, x: Elem)
    requires HomesOk(c, s) && SegsOk(c, s) && x in s.home && s.home[x] == b
    ensures AheadAt(s, b.tbl, Head(s, b), x)
  {
    assert ElemOk(c, s, x) && Seg(c, s, b) && ChainOk(s, b);
    var j :| 0 <= j < |Chain(s, b)| && Chain(s, b)[j] == x;
    assert Head(s, b) == At(Chain(s, b)[0]);
    assert Before(Chain(s, b), Chain(s, b)[0], x);
  }

  /** A chain pointer leads to a linked entry or to a marker. */
  lemma LeadsAlong(c: Config, s: State, b: Slot, i: nat)
    requires HomesOk(c, s) && SegsOk(c, s) && WorkerOk(c, s) && i <= |Chain(s, b)|
    ensures var p := PtrAt(Chain(s, b), Tail(c, s, b), i);
            && (p.At? ==> p.elem in s.home && s.home[p.elem].tbl >= b.tbl)
            && (p.Nulls? ==> p.slot.tbl >= b.tbl)
            && (i == |Chain(s, b)| && p != Nulls(b) ==> if p.At? then s.home[p.elem].tbl > b.tbl else p.slot.tbl > b.tbl)
  {
    assert ChainOk(s, b);
    if i == |Chain(s, b)| && s.worker.Repointed? && b == Slot(s.first, s.worker.h) {
      var d := Target(c, s, s.worker.m);
      assert Seg(c, s, d) && ChainOk(s, d);
    }
  }

  /** One pointer read keeps x ahead of the reader. */
  lemma FollowAhead(c: Config, s: State, t: nat, y: Elem, x: Elem)
    requires HomesOk(c, s) && SegsOk(c, s) && WorkerOk(c, s)
    requires x in s.home && s.home[x].tbl == t && y != x && AheadAt(s, t, At(y), x)
    ensures AheadAt(s, t, Next(s, y), x)
  {
    var b := s.home[y];
    assert ElemOk(c, s, y) && Seg(c, s, b) && ChainOk(s, b);
    var l := Chain(s, b);
    var i :| 0 <= i < |l| && l[i] == y;
    assert Next(s, y) == PtrAt(l, Tail(c, s, b), i + 1);
    LeadsAlong(c, s, b, i + 1);
    if b.tbl <= t {
      assert ChainOk(s, s.home[x]);
      var i', j :| 0 <= i' <= j < |Chain(s, s.home[x])| && Chain(s, s.home[x])[i'] == y && Chain(s, s.home[x])[j] == x;
      assert s.home[x] == b && i' == i;
      assert Before(l, l[i + 1], x);
    }
  }

  lemma KeepROpen(c: Config, s: State, rid: Tid)
    requires Inv(c, s) && rid in s.rdr && s.rdr[rid].look.OpenBucket?
    ensures Inv(c, OnROpen(c, s, rid))
  {
    OpenOwn(c, s, rid);
    StepOfReader(c, s, OnROpen(c, s, rid), rid);
  }

  lemma OpenOwn(c: Config, s: State, rid: Tid)
    requires TablesOk(s) && HomesOk(c, s) && SegsOk(c, s) && WorkerOk(c, s) && GoneOk(s)
    requires rid in s.rdr && s.rdr[rid].look.OpenBucket? && ReaderOk(c, s, rid)
    ensures ReaderOk(c, OnROpen(c, s, rid), rid)
  {
    var s' := OnROpen(c, s, rid);
    var r := s.rdr[rid];
    var t := r.look.t;
    var b := SlotOf(c, s.tables, t, r.key);
    assert Seg(c, s, b);
    LeadsAlong(c, s, b, 0);
    LandPlain(s.gone, s', Head(s, b));
    forall x | x in r.must && s.home[x].tbl == t ensures Ahead(s', t, Head(s, b), x) {
      assert ElemOk(c, s, x);
      OpenAhead(c, s, b, x);
      assert AheadAt(s, t, Head(s, b), x);
    }
  }

  lemma FollowOwn(c: Config, s: State, rid: Tid)
    requires TablesOk(s) && HomesOk(c, s) && SegsOk(c, s) && WorkerOk(c, s) && GoneOk(s)
    requires rid in s.rdr && s.rdr[rid].look.Follow? && ReaderOk(c, s, rid)
    ensures ReaderOk(c, OnRFollow(c, s, rid), rid)
  {
    var r := s.rdr[rid];
    if r.look.cur.At? {
      if c.key(r.look.cur.elem) != r.key {
        if r.look.cur.elem in s.home { FollowEntry(c, s, rid); } else { FollowRemoved(c, s, rid); }
      }
    } else {
      FollowMarker(c, s, rid);
    }
  }

  /** The reader meets a marker: its own one is never before an entry that it must find. */
  lemma FollowMarker(c: Config, s: State, rid: Tid)
    requires rid in s.rdr && s.rdr[rid].look.Follow? && s.rdr[rid].look.cur.Nulls? && ReaderOk(c, s, rid)
    ensures ReaderOk(c, OnRFollow(c, s, rid), rid)
  {
    var r := s.rdr[rid];
    LandPlain(s.gone, s, r.look.cur);
    assert forall x :: x in r.must && s.home[x].tbl == r.look.t ==> Ahead(s, r.look.t, r.look.cur, x);
  }

  /** Where a linked entry leads to. */
  lemma LinkedLeads(c: Config, s: State, y: Elem)
    requires HomesOk(c, s) && SegsOk(c, s) && WorkerOk(c, s) && GoneOk(s) && y in s.home
    ensures Next(s, y).At? ==> Next(s, y).elem in s.home && Next(s, y).elem !in s.gone
    ensures y !in s.gone
  {
    var b := s.home[y];
    assert ElemOk(c, s, y) && Seg(c, s, b);
    var i :| 0 <= i < |Chain(s, b)| && Chain(s, b)[i] == y;
    LeadsAlong(c, s, b, i + 1);
  }

  /** One pointer read at a linked entry keeps x ahead. */
  lemma PassEntry(c: Config, s: State, s': State, t: nat, y: Elem, x: Elem)
    requires HomesOk(c, s) && SegsOk(c, s) && WorkerOk(c, s) && GoneOk(s) && s' == s.(rdr := s'.rdr)
    requires y in s.home && x in s.home && s.home[x].tbl == t && y != x && Ahead(s, t, At(y), x)
    ensures Ahead(s', t, Next(s, y), x)
  {
    LinkedLeads(c, s, y);
    LandPlain(s.gone, s, At(y));
    LandPlain(s.gone, s', Next(s, y));
    FollowAhead(c, s, t, y, x);
  }

  /** The reader passes a linked entry with another key. */
  lemma FollowEntry(c: Config, s: State, rid: Tid)
    requires TablesOk(s) && HomesOk(c, s) && SegsOk(c, s) && WorkerOk(c, s) && GoneOk(s)
    requires rid in s.rdr && s.rdr[rid].look.Follow? && ReaderOk(c, s, rid)
    requires var r := s.rdr[rid]; r.look.cur.At? && c.key(r.look.cur.elem) != r.key && r.look.cur.elem in s.home
    ensures ReaderOk(c, OnRFollow(c, s, rid), rid)
  {
    var s' := OnRFollow(c, s, rid);
    var r := s.rdr[rid];
    var y := r.look.cur.elem;
    LinkedLeads(c, s, y);
    forall x | x in r.must && s.home[x].tbl == r.look.t ensures Ahead(s', r.look.t, Next(s, y), x) {
      assert Ahead(s, r.look.t, r.look.cur, x);
      PassEntry(c, s, s', r.look.t, y, x);
    }
  }

  /** The reader passes an entry that has been removed under it. */
  lemma FollowRemoved(c: Config, s: State, rid: Tid)
    requires GoneOk(s) && rid in s.rdr && s.rdr[rid].look.Follow? && ReaderOk(c, s, rid)
    requires var r := s.rdr[rid]; r.look.cur.At? && c.key(r.look.cur.elem) != r.key && r.look.cur.elem !in s.home
    ensures ReaderOk(c, OnRFollow(c, s, rid), rid)
  {
    var s' := OnRFollow(c, s, rid);
    var r := s.rdr[rid];
    var Follow(t, cur) := r.look;
    var i :| r.since <= i < |s.gone| && s.gone[i] == cur.elem;
    assert LeadsOn(s, i);
    LandNext(s.gone, s, i);
    LandFrame(s.gone, s, s', Next(s, cur.elem));
    forall x | x in r.must && s.home[x].tbl == t ensures Ahead(s', t, Next(s, cur.elem), x) {
      assert Ahead(s, t, cur, x);
    }
  }

  lemma KeepRFollow(c: Config, s: State, rid: Tid)
    requires Inv(c, s) && rid in s.rdr && s.rdr[rid].look.Follow?
    ensures Inv(c, OnRFollow(c, s, rid))
  {
    assert ReaderOk(c, s, rid);
    FollowOwn(c, s, rid);
    StepOfReader(c, s, OnRFollow(c, s, rid), rid);
  }

  lemma KeepRStart(c: Config, s: State, rid: Tid, k: Key)
    requires Inv(c, s) && (rid in s.rdr ==> s.rdr[rid].look.Hit? || s.rdr[rid].look.Miss?)
    ensures Inv(c, OnRStart(s, rid, k))
  {
    StepOfReader(c, s, OnRStart(s, rid, k), rid);
  }

  lemma KeepREnter(c: Config, s: State, rid: Tid)
    requires Inv(c, s) && rid in s.rdr && s.rdr[rid].look.Enter?
    ensures Inv(c, OnREnter(c, s, rid))
  {
    forall x | x in s.home ensures s.home[x].tbl >= s.first { assert ElemOk(c, s, x); }
    StepOfReader(c, s, OnREnter(c, s, rid), rid);
  }

  lemma KeepRFuture(c: Config, s: State, rid: Tid)
    requires Inv(c, s) && rid in s.rdr && s.rdr[rid].look.AtEnd?
    ensures Inv(c, OnRFuture(c, s, rid))
  {
    assert ReaderOk(c, s, rid);
    forall x | x in s.rdr[rid].must ensures s.home[x].tbl < |s.tables| { assert ElemOk(c, s, x); }
    StepOfReader(c, s, OnRFuture(c, s, rid), rid);
  }
}
