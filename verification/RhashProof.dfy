/** The inductive invariant of the hash table protocol and its preservation, action by
    action. */
module RhashProof {
  import opened Wrappers
  import opened RhashModel

  ghost predicate ValidConfig(c: Config) {
    forall size: nat, seed: nat, k: Key :: size > 0 ==> c.index(size, seed, k) < size
  }

  // ----- tables -----

  ghost predicate TablesOk(s: State) {
    && s.first < |s.tables|
    && forall t :: 0 <= t < |s.tables| ==>
         && s.tables[t].size > 0
         && s.tables[t].future == (if t + 1 < |s.tables| then Some(t + 1) else None)
  }

  // ----- logical contents -----

  ghost predicate Distinct(l: seq<Elem>) {
    forall i, j :: 0 <= i < j < |l| ==> l[i] != l[j]
  }

  ghost predicate ElemOk(c: Config, s: State, e: Elem)
    requires e in s.home
  {
    && s.first <= s.home[e].tbl < |s.tables|
    && s.home[e] == SlotOf(c, s.tables, s.home[e].tbl, c.key(e))
    && e in Chain(s, s.home[e])
  }

  ghost predicate ChainOk(s: State, b: Slot) {
    && Distinct(Chain(s, b))
    && forall i :: 0 <= i < |Chain(s, b)| ==> Chain(s, b)[i] in s.home && s.home[Chain(s, b)[i]] == b
  }

  ghost predicate HomesOk(c: Config, s: State) {
    && (forall e :: e in s.home ==> ElemOk(c, s, e))
    && (forall b: Slot :: ChainOk(s, b))
  }

  // ----- physical chains -----

  /** What follows the last logical entry of bucket b in memory: its own marker, except in
      the middle of the worker's move out of b. */
  ghost function Tail(c: Config, s: State, b: Slot): Ptr {
    if s.worker.Repointed? && b == Slot(s.first, s.worker.h) then Head(s, Target(c, s, s.worker.m))
    else if s.worker.Joined? && b == Slot(s.first, s.worker.h) then At(s.worker.m.entry)
    else Nulls(b)
  }

  ghost function PtrAt(l: seq<Elem>, tail: Ptr, i: nat): Ptr {
    if i < |l| then At(l[i]) else tail
  }

  ghost predicate Seg(c: Config, s: State, b: Slot) {
    && Head(s, b) == PtrAt(Chain(s, b), Tail(c, s, b), 0)
    && forall i :: 0 <= i < |Chain(s, b)| ==>
         Next(s, Chain(s, b)[i]) == PtrAt(Chain(s, b), Tail(c, s, b), i + 1)
  }

  ghost predicate SegsOk(c: Config, s: State) {
    forall b: Slot :: Seg(c, s, b)
  }

  // ----- the worker -----

  predicate WorkerHolds(w: Worker) {
    !w.Idle? && !w.Drain?
  }

  predicate HasMove(w: Worker) {
    w.Picked? || w.Both? || w.Repointed? || w.Joined?
  }

  function Progress(w: Worker): nat {
    if w.Idle? then 0 else w.h
  }

  ghost predicate MoveOk(s: State, l: seq<Elem>, m: Move)
    requires HasMove(s.worker)
  {
    && s.first < m.dst < |s.tables|
    && m.after == Nulls(Slot(s.first, s.worker.h))
    && (if s.worker.Joined? then
          && m.entry in s.home && s.home[m.entry].tbl > s.first
          && m.prev == (if |l| > 0 then Some(l[|l| - 1]) else None)
        else
          && |l| > 0 && l[|l| - 1] == m.entry
          && m.prev == (if |l| > 1 then Some(l[|l| - 2]) else None))
  }

  ghost predicate WorkerOk(c: Config, s: State) {
    s.worker.Idle? ||
    (&& s.first < |s.tables|
     && Future(s, s.first) == Some(s.worker.succ)
     && s.worker.h <= s.tables[s.first].size
     && (forall h :: 0 <= h < s.worker.h ==> Chain(s, Slot(s.first, h)) == [])
     && (WorkerHolds(s.worker) ==>
           && s.worker.h < s.tables[s.first].size
           && Slot(s.first, s.worker.h) in s.lock && s.lock[Slot(s.first, s.worker.h)] == ByWorker)
     && var l := Chain(s, Slot(s.first, s.worker.h));
        && (s.worker.Walk? ==> s.first <= s.worker.c < |s.tables|)
        && (s.worker.Sweep? ==>
              && s.first < s.worker.dst < |s.tables| && s.worker.n <= |l|
              && s.worker.cur == PtrAt(l, Nulls(Slot(s.first, s.worker.h)), s.worker.n)
              && (s.worker.n == |l| ==> l == [])
              && s.worker.prev == (if s.worker.n > 0 then Some(l[s.worker.n - 1]) else None))
        && (s.worker.Emptied? ==> l == [])
        && (HasMove(s.worker) ==> MoveOk(s, l, s.worker.m))
        && (s.worker.Both? || s.worker.Repointed? ==>
              Target(c, s, s.worker.m) in s.lock && s.lock[Target(c, s, s.worker.m)] == ByWorker))
  }

  // ----- inserters -----

  /** The table an inserter has reached, if it is inside one attempt. */
  function Position(p: Phase): Option<nat> {
    match p
    case Begin(_) => None
    case Rehash(_) => None
    case Done(_) => None
    case _ => Some(p.t)
  }

  predicate HoldsLock(p: Phase) {
    Position(p).Some? && !p.Arrive?
  }

  /** The inserter has read future_tbl as NULL under the lock it still holds. */
  predicate Quiet(p: Phase) {
    p.Clear? || p.Primed? || ((p.Scan? || p.Missed?) && p.fast)
  }

  ghost predicate NotBelow(c: Config, s: State, k: Key, t: int) {
    forall x :: x in s.home && c.key(x) == k ==> s.home[x].tbl >= t
  }

  ghost predicate QuietOk(c: Config, s: State, k: Key, p: Phase)
    requires Position(p).Some?
  {
    var b := SlotOf(c, s.tables, p.t, k);
    && s.first <= p.t
    && (p.t == s.first ==> Progress(s.worker) <= b.idx)
    && (forall x :: x in s.home && c.key(x) == k ==> s.home[x].tbl == p.t)
  }

  ghost predicate PositionOk(c: Config, s: State, tid: Tid)
    requires tid in s.ins && Position(s.ins[tid].phase).Some?
  {
    var p, k := s.ins[tid].phase, c.key(s.ins[tid].obj);
    var b := SlotOf(c, s.tables, p.t, k);
    && p.t < |s.tables|
    && NotBelow(c, s, k, p.t)
    && (HoldsLock(p) ==> b in s.lock && s.lock[b] == ByInserter(tid))
    && (Quiet(p) ==> QuietOk(c, s, k, p))
    && (p.Scan? ==>
          && p.n <= |Chain(s, b)| && p.cur == PtrAt(Chain(s, b), Nulls(b), p.n)
          && forall i :: 0 <= i < p.n ==> c.key(Chain(s, b)[i]) != k)
    && (p.Missed? || p.Clear? || p.Primed? || (p.Leave? && p.exit.Advance?) ==> NotBelow(c, s, k, p.t + 1))
    && (p.Leave? && p.exit.Advance? ==> p.exit.to == p.t + 1 < |s.tables|)
    && (p.Leave? && p.exit.Exists? ==> p.exit.found in Chain(s, b) && c.key(p.exit.found) == k)
    && (p.Primed? ==> Next(s, s.ins[tid].obj) == Head(s, b))
  }

  ghost predicate InserterOk(c: Config, s: State, tid: Tid)
    requires tid in s.ins
  {
    var p := s.ins[tid].phase;
    && (!p.Done? && !p.Linked? ==> s.ins[tid].obj !in s.home && s.ins[tid].obj !in s.gone)
    && (p.Linked? ==> s.ins[tid].obj in s.home)
    && (p == Done(true) ==> s.ins[tid].obj in s.home || s.ins[tid].obj in s.gone)
    && (Position(p).Some? ==> PositionOk(c, s, tid))
  }

  /** Two inserters at work have different objects; one that has seen the end of the chain
      is not behind another one with the same key. */
  ghost predicate PairOk(c: Config, s: State, u: Tid, v: Tid)
    requires u in s.ins && v in s.ins
  {
    var p, q := s.ins[u], s.ins[v];
    && (!p.phase.Done? && !q.phase.Done? ==> p.obj != q.obj)
    && (Quiet(p.phase) && Position(q.phase).Some? && c.key(p.obj) == c.key(q.obj) ==> q.phase.t <= p.phase.t)
  }

  ghost predicate InsertersOk(c: Config, s: State) {
    && (forall tid :: tid in s.ins ==> InserterOk(c, s, tid))
    && (forall u, v :: u in s.ins && v in s.ins && u != v ==> PairOk(c, s, u, v))
  }

  ghost predicate UniqueOk(c: Config, s: State) {
    forall x, y :: x in s.home && y in s.home && c.key(x) == c.key(y) ==> x == y
  }

  // ----- removed entries -----

  /** Where a walk that is at p gets to when it passes the removed entries. */
  ghost function Land(gone: seq<Elem>, s: State, p: Ptr): Ptr
    decreases |gone|
  {
    if gone == [] then p
    else
      var n := |gone| - 1;
      var q := Land(gone[..n], s, p);
      if q == At(gone[n]) then Next(s, gone[n]) else q
  }

  /** A removed entry leads to a linked one, to one that was removed later, or to a marker. */
  ghost predicate GoneOk(s: State) {
    && Distinct(s.gone)
    && (forall i :: 0 <= i < |s.gone| ==> s.gone[i] !in s.home)
    && (forall i :: 0 <= i < |s.gone| ==> LeadsOn(s, i))
  }

  ghost predicate LeadsOn(s: State, i: nat)
    requires i < |s.gone|
  {
    Next(s, s.gone[i]).At? ==> Next(s, s.gone[i]).elem in s.home || Next(s, s.gone[i]).elem in s.gone[i + 1..]
  }

  // ----- removers -----

  predicate Searches(p: Drop) {
    p.Seeking? || p.Cutting? || p.Leaving?
  }

  /** The table a remover has reached. */
  predicate Walking(p: Drop) {
    p.Nearing? || Searches(p) || p.Onward?
  }

  ghost predicate RemoverOk(c: Config, s: State, d: Tid)
    requires d in s.rem
  {
    var p, e := s.rem[d].phase, s.rem[d].obj;
    && (p == Dropped(true) || (p.Leaving? && p.took) ==> e in s.gone)
    && (Walking(p) ==> SeekOk(c, s, d))
  }

  /** The entry is not in a table before the one reached, and not in that one after a search. */
  ghost predicate SeekOk(c: Config, s: State, d: Tid)
    requires d in s.rem && Walking(s.rem[d].phase)
  {
    var p, e := s.rem[d].phase, s.rem[d].obj;
    var b := SlotOf(c, s.tables, p.t, c.key(e));
    && p.t < |s.tables|
    && (e in s.home ==> s.home[e].tbl >= p.t)
    && ((p.Leaving? && !p.took) || p.Onward? ==> e in s.home ==> s.home[e].tbl > p.t)
    && (Searches(p) ==> b in s.lock && s.lock[b] == ByRemover(d))
    && (p.Seeking? ==>
          && p.n <= |Chain(s, b)| && p.cur == PtrAt(Chain(s, b), Nulls(b), p.n)
          && (forall i :: 0 <= i < p.n ==> Chain(s, b)[i] != e)
          && p.prev == (if p.n > 0 then Some(Chain(s, b)[p.n - 1]) else None))
    && (p.Cutting? ==>
          && p.n < |Chain(s, b)| && Chain(s, b)[p.n] == e && p.after == PtrAt(Chain(s, b), Nulls(b), p.n + 1)
          && p.prev == (if p.n > 0 then Some(Chain(s, b)[p.n - 1]) else None))
  }

  /** No object is inserted and removed at the same time. */
  ghost predicate Apart(s: State, u: Tid, d: Tid)
    requires u in s.ins && d in s.rem
  {
    !s.ins[u].phase.Done? && !s.rem[d].phase.Dropped? ==> s.ins[u].obj != s.rem[d].obj
  }

  /** Only one remover has taken an entry. */
  predicate Took(p: Drop) {
    p == Dropped(true) || (p.Leaving? && p.took)
  }

  ghost predicate RemoversOk(c: Config, s: State) {
    && (forall d :: d in s.rem ==> RemoverOk(c, s, d))
    && (forall u, d :: u in s.ins && d in s.rem ==> Apart(s, u, d))
    && (forall d, d' :: d in s.rem && d' in s.rem && d != d' && Took(s.rem[d].phase) && Took(s.rem[d'].phase) ==>
          s.rem[d].obj != s.rem[d'].obj)
  }

  /** While the old bucket still leads to the moved entry, no remover of that entry has got past it. */
  ghost predicate InFlightOk(c: Config, s: State) {
    s.worker.Joined? ==>
      && SlotOf(c, s.tables, s.first, c.key(s.worker.m.entry)) == Slot(s.first, s.worker.h)
      && forall d :: d in s.rem && s.rem[d].obj == s.worker.m.entry && Walking(s.rem[d].phase) ==>
        s.rem[d].phase.t <= s.first && (s.rem[d].phase.t == s.first ==> s.rem[d].phase.Nearing?)
  }

  // ----- readers -----

  ghost predicate Before(l: seq<Elem>, y: Elem, x: Elem) {
    exists i, j :: 0 <= i <= j < |l| && l[i] == y && l[j] == x
  }

  /** A reader of table t at `cur`, which is not a removed entry, still has x in front of it in its
      bucket, or has been carried into a later table, whose marker will make it retry. */
  ghost predicate AheadAt(s: State, t: nat, cur: Ptr, x: Elem)
    requires x in s.home
  {
    match cur
    case Nulls(b) => b.tbl > t
    case At(y) => y in s.home && (s.home[y].tbl > t || Before(Chain(s, s.home[x]), y, x))
  }

  ghost predicate Ahead(s: State, t: nat, cur: Ptr, x: Elem)
    requires x in s.home
  {
    AheadAt(s, t, Land(s.gone, s, cur), x)
  }

  /** The entry is linked, or has been removed since the reader read ht->tbl. */
  ghost predicate Met(s: State, e: Elem, since: nat) {
    e in s.home || (since <= |s.gone| && e in s.gone[since..])
  }

  ghost predicate ReaderOk(c: Config, s: State, rid: Tid)
    requires rid in s.rdr
  {
    var r := s.rdr[rid];
    match r.look
    case Enter => true
    case Hit(y) => r.since <= |s.gone| && Met(s, y, r.since) && c.key(y) == r.key
    case Miss => r.must == {}
    case OpenBucket(t) =>
      && t < |s.tables| && r.since <= |s.gone|
      && forall x :: x in r.must ==> x in s.home && c.key(x) == r.key && s.home[x].tbl >= t
    case AtEnd(t) =>
      && t < |s.tables| && r.since <= |s.gone|
      && forall x :: x in r.must ==> x in s.home && c.key(x) == r.key && s.home[x].tbl > t
    case Follow(t, cur) =>
      && t < |s.tables| && r.since <= |s.gone|
      && (forall x :: x in r.must ==> x in s.home && c.key(x) == r.key && s.home[x].tbl >= t)
      && (forall x :: x in r.must && s.home[x].tbl == t ==> Ahead(s, t, cur, x))
      && (cur.At? ==> Met(s, cur.elem, r.since))
  }

  ghost predicate ReadersOk(c: Config, s: State) {
    forall rid :: rid in s.rdr ==> ReaderOk(c, s, rid)
  }

  ghost predicate Inv(c: Config, s: State) {
    && TablesOk(s)
    && HomesOk(c, s)
    && SegsOk(c, s)
    && WorkerOk(c, s)
    && InsertersOk(c, s)
    && UniqueOk(c, s)
    && ReadersOk(c, s)
    && GoneOk(s)
    && RemoversOk(c, s)
    && InFlightOk(c, s)
  }

  lemma InitInv(c: Config, s: State)
    requires Init(s)
    ensures Inv(c, s)
  {
  }

  // ----- inserter actions -----

  /** Nothing but inserter phases and locks of inserters changes. */
  ghost predicate SameMemory(s: State, s': State) {
    && s'.tables == s.tables && s'.first == s.first && s'.head == s.head && s'.next == s.next
    && s'.chain == s.chain && s'.home == s.home && s'.gone == s.gone && s'.worker == s.worker
  }

  /** Locks of everyone but inserter tid are kept. */
  ghost predicate OthersKeepLocks(s: State, s': State, tid: Tid) {
    forall b :: b in s.lock && s.lock[b] != ByInserter(tid) ==> b in s'.lock && s'.lock[b] == s.lock[b]
  }

  lemma FrameHomes(c: Config, s: State, s': State)
    requires HomesOk(c, s)
    requires s'.tables == s.tables && s'.first == s.first && s'.chain == s.chain && s'.home == s.home
    ensures HomesOk(c, s')
  {
    forall e | e in s'.home ensures ElemOk(c, s', e) { assert ElemOk(c, s, e); }
    forall b ensures ChainOk(s', b) { assert ChainOk(s, b); }
  }

  lemma FrameSegs(c: Config, s: State, s': State)
    requires SegsOk(c, s)
    requires s'.tables == s.tables && s'.first == s.first && s'.head == s.head && s'.next == s.next
    requires s'.chain == s.chain && s'.worker == s.worker
    ensures SegsOk(c, s')
  {
    forall b ensures Seg(c, s', b) { assert Seg(c, s, b); }
  }

  /** Only pointers of removed entries matter. */
  lemma {:induction false} LandFrame(gone: seq<Elem>, s: State, s': State, p: Ptr)
    requires forall i :: 0 <= i < |gone| ==> Next(s', gone[i]) == Next(s, gone[i])
    ensures Land(gone, s', p) == Land(gone, s, p)
    decreases |gone|
  {
    if gone != [] { LandFrame(gone[..|gone| - 1], s, s', p); }
  }

  /** A marker or an entry that has not been removed is where it is. */
  lemma {:induction false} LandPlain(gone: seq<Elem>, s: State, p: Ptr)
    requires p.At? ==> p.elem !in gone
    ensures Land(gone, s, p) == p
    decreases |gone|
  {
    if gone != [] { LandPlain(gone[..|gone| - 1], s, p); }
  }

  /** One pointer read at a removed entry changes nothing. */
  lemma {:induction false} LandNext(gone: seq<Elem>, s: State, i: nat)
    requires i < |gone| && Distinct(gone)
    requires Next(s, gone[i]).At? ==> Next(s, gone[i]).elem !in gone[..i + 1]
    ensures Land(gone, s, At(gone[i])) == Land(gone, s, Next(s, gone[i]))
    decreases |gone|
  {
    var n := |gone| - 1;
    if i < n {
      assert gone[..n][..i + 1] == gone[..i + 1];
      LandNext(gone[..n], s, i);
    } else {
      LandPlain(gone[..n], s, At(gone[i]));
      LandPlain(gone[..n], s, Next(s, gone[i]));
      assert Next(s, gone[i]).At? ==> Next(s, gone[i]).elem != gone[n];
    }
  }

  ghost predicate SameGone(s: State, s': State) {
    s'.gone == s.gone && forall i :: 0 <= i < |s.gone| ==> Next(s', s.gone[i]) == Next(s, s.gone[i])
  }

  lemma FrameReaders(c: Config, s: State, s': State)
    requires ReadersOk(c, s) && SameGone(s, s')
    requires |s'.tables| >= |s.tables| && s'.chain == s.chain && s'.home == s.home && s'.rdr == s.rdr
    ensures ReadersOk(c, s')
  {
    forall rid | rid in s'.rdr ensures ReaderOk(c, s', rid) {
      assert ReaderOk(c, s, rid);
      if s.rdr[rid].look.Follow? {
        var Follow(t, cur) := s.rdr[rid].look;
        LandFrame(s.gone, s, s', cur);
        forall x | x in s.rdr[rid].must && s.home[x].tbl == t ensures Ahead(s', t, cur, x) {
          assert Ahead(s, t, cur, x);
        }
      }
    }
  }

  lemma FrameGone(s: State, s': State)
    requires GoneOk(s) && SameGone(s, s') && s'.home.Keys == s.home.Keys
    ensures GoneOk(s')
  {
    forall i | 0 <= i < |s'.gone| ensures LeadsOn(s', i) { assert LeadsOn(s, i); }
  }

  /** Removers keep their locks. */
  ghost predicate RemoversKeepLocks(s: State, s': State) {
    forall b :: b in s.lock && s.lock[b].ByRemover? ==> b in s'.lock && s'.lock[b] == s.lock[b]
  }

  /** The inserters that are at work stay at work on the same objects, or finish. */
  ghost predicate SameObjects(s: State, s': State) {
    forall u :: u in s'.ins && !s'.ins[u].phase.Done? ==> u in s.ins && !s.ins[u].phase.Done? && s'.ins[u].obj == s.ins[u].obj
  }

  lemma FrameRemovers(c: Config, s: State, s': State)
    requires RemoversOk(c, s) && s'.rem == s.rem && SameObjects(s, s') && RemoversKeepLocks(s, s')
    requires s'.tables == s.tables && s'.chain == s.chain && s'.home == s.home && s'.gone == s.gone
    ensures RemoversOk(c, s')
  {
    forall d | d in s'.rem ensures RemoverOk(c, s', d) { assert RemoverOk(c, s, d); }
    forall u, d | u in s'.ins && d in s'.rem ensures Apart(s', u, d) {
      if !s'.ins[u].phase.Done? { assert Apart(s, u, d); }
    }
  }

  lemma FrameWorker(c: Config, s: State, s': State, tid: Tid)
    requires WorkerOk(c, s) && SameMemory(s, s') && OthersKeepLocks(s, s', tid)
    ensures WorkerOk(c, s')
  {
  }

  /** An action of inserter tid that leaves memory alone needs its own obligations only. */
  lemma StepOfInserter(c: Config, s: State, s': State, tid: Tid)
    requires Inv(c, s) && SameMemory(s, s') && s'.rdr == s.rdr && s'.rem == s.rem && OthersKeepLocks(s, s', tid)
    requires tid in s'.ins && s'.ins == s.ins[tid := s'.ins[tid]]
    requires InserterOk(c, s', tid)
    requires forall v :: v in s.ins && v != tid ==> PairOk(c, s', tid, v) && PairOk(c, s', v, tid)
    requires !s'.ins[tid].phase.Done? ==> forall d :: d in s.rem ==> Apart(s', tid, d)
    ensures Inv(c, s')
  {
    FrameGone(s, s');
    InserterApart(c, s, s', tid);
    FrameHomes(c, s, s');
    FrameSegs(c, s, s');
    FrameReaders(c, s, s');
    FrameWorker(c, s, s', tid);
    InserterOthers(c, s, s', tid);
  }

  lemma InserterApart(c: Config, s: State, s': State, tid: Tid)
    requires RemoversOk(c, s) && SameMemory(s, s') && s'.rem == s.rem && OthersKeepLocks(s, s', tid)
    requires tid in s'.ins && s'.ins == s.ins[tid := s'.ins[tid]]
    requires !s'.ins[tid].phase.Done? ==> forall d :: d in s.rem ==> Apart(s', tid, d)
    ensures RemoversOk(c, s')
  {
    forall d | d in s'.rem ensures RemoverOk(c, s', d) { assert RemoverOk(c, s, d); }
    forall u, d | u in s'.ins && d in s'.rem ensures Apart(s', u, d) {
      if u != tid { assert Apart(s, u, d); }
    }
  }

  lemma InserterOthers(c: Config, s: State, s': State, tid: Tid)
    requires InsertersOk(c, s) && SameMemory(s, s') && OthersKeepLocks(s, s', tid)
    requires tid in s'.ins && s'.ins == s.ins[tid := s'.ins[tid]] && InserterOk(c, s', tid)
    requires forall v :: v in s.ins && v != tid ==> PairOk(c, s', tid, v) && PairOk(c, s', v, tid)
    ensures InsertersOk(c, s')
  {
    forall v | v in s'.ins ensures InserterOk(c, s', v) {
      if v != tid { assert InserterOk(c, s, v); }
    }
    forall u, v | u in s'.ins && v in s'.ins && u != v ensures PairOk(c, s', u, v) {
      if u != tid && v != tid { assert PairOk(c, s, u, v); }
    }
  }

  lemma KeepIStart(c: Config, s: State, tid: Tid, obj: Elem)
    requires Inv(c, s) && Fresh(s, tid, obj)
    ensures Inv(c, OnIStart(s, tid, obj))
  {
    StepOfInserter(c, s, OnIStart(s, tid, obj), tid);
  }

  lemma KeepIRead(c: Config, s: State, tid: Tid)
    requires Inv(c, s) && tid in s.ins && s.ins[tid].phase.Begin?
    ensures Inv(c, OnIRead(s, tid))
  {
    var s' := OnIRead(s, tid);
    assert InserterOk(c, s, tid);
    forall v | v in s.ins && v != tid ensures PairOk(c, s', tid, v) && PairOk(c, s', v, tid) {
      assert PairOk(c, s, tid, v) && PairOk(c, s, v, tid) && InserterOk(c, s, v);
    }
    assert NotBelow(c, s', c.key(s.ins[tid].obj), s.first) by {
      forall x | x in s.home ensures s.home[x].tbl >= s.first { assert ElemOk(c, s, x); }
    }
    StepOfInserter(c, s, s', tid);
  }

  lemma KeepILock(c: Config, s: State, tid: Tid)
    requires Inv(c, s) && tid in s.ins && s.ins[tid].phase.Arrive? && Bucket(c, s, tid, s.ins[tid].phase.t) !in s.lock
    ensures Inv(c, OnILock(c, s, tid))
  {
    var b := Bucket(c, s, tid, s.ins[tid].phase.t);
    assert InserterOk(c, s, tid) && Seg(c, s, b);
    FreeBucket(c, s, b);
    LockOwn(c, s, tid);
    LockPairs(c, s, tid);
    StepOfInserter(c, s, OnILock(c, s, tid), tid);
  }

  /** A bucket that nobody has locked is a plain chain. */
  lemma FreeBucket(c: Config, s: State, b: Slot)
    requires WorkerOk(c, s) && b !in s.lock
    ensures Tail(c, s, b) == Nulls(b)
  {
  }

  lemma LockOwn(c: Config, s: State, tid: Tid)
    requires tid in s.ins && s.ins[tid].phase.Arrive? && Bucket(c, s, tid, s.ins[tid].phase.t) !in s.lock && InserterOk(c, s, tid)
    requires var b := Bucket(c, s, tid, s.ins[tid].phase.t); Seg(c, s, b) && Tail(c, s, b) == Nulls(b)
    ensures InserterOk(c, OnILock(c, s, tid), tid)
  {
  }

  lemma LockPairs(c: Config, s: State, tid: Tid)
    requires InsertersOk(c, s) && tid in s.ins && s.ins[tid].phase.Arrive? && Bucket(c, s, tid, s.ins[tid].phase.t) !in s.lock
    ensures var s' := OnILock(c, s, tid);
            forall v :: v in s.ins && v != tid ==> PairOk(c, s', tid, v) && PairOk(c, s', v, tid)
  {
    forall v | v in s.ins && v != tid ensures var s' := OnILock(c, s, tid); PairOk(c, s', tid, v) && PairOk(c, s', v, tid) {
      assert PairOk(c, s, tid, v) && PairOk(c, s, v, tid);
    }
  }

  /** Reading future_tbl of table t as NULL: t is the last table, and not one the worker drains. */
  lemma LastTable(c: Config, s: State, t: nat, k: Key)
    requires TablesOk(s) && HomesOk(c, s) && WorkerOk(c, s)
    requires t < |s.tables| && Future(s, t).None? && NotBelow(c, s, k, t)
    ensures t == |s.tables| - 1 && s.first <= t
    ensures forall x :: x in s.home && c.key(x) == k ==> s.home[x].tbl == t
    ensures t == s.first ==> Progress(s.worker) == 0
  {
    forall x | x in s.home && c.key(x) == k ensures s.home[x].tbl == t { assert ElemOk(c, s, x); }
  }

  /** The bucket an inserter has locked is a plain chain. */
  lemma LockedChain(c: Config, s: State, tid: Tid)
    requires SegsOk(c, s) && WorkerOk(c, s)
    requires tid in s.ins && HoldsLock(s.ins[tid].phase) && PositionOk(c, s, tid)
    ensures var b := Bucket(c, s, tid, s.ins[tid].phase.t);
            && Tail(c, s, b) == Nulls(b) && Seg(c, s, b)
            && b in s.lock && s.lock[b] == ByInserter(tid)
  {
    var b := Bucket(c, s, tid, s.ins[tid].phase.t);
    assert Seg(c, s, b);
  }

  /** Pairs survive when tid neither moves to another table nor starts to be quiet. */
  lemma PairsKept(c: Config, s: State, s': State, tid: Tid)
    requires InsertersOk(c, s) && tid in s.ins && !s.ins[tid].phase.Done?
    requires tid in s'.ins && s'.ins == s.ins[tid := s'.ins[tid]] && s'.ins[tid].obj == s.ins[tid].obj
    requires Position(s'.ins[tid].phase).Some? ==> Position(s'.ins[tid].phase) == Position(s.ins[tid].phase)
    requires Quiet(s'.ins[tid].phase) ==> Quiet(s.ins[tid].phase)
    ensures forall v :: v in s.ins && v != tid ==> PairOk(c, s', tid, v) && PairOk(c, s', v, tid)
  {
    forall v | v in s.ins && v != tid ensures PairOk(c, s', tid, v) && PairOk(c, s', v, tid) {
      assert PairOk(c, s, tid, v) && PairOk(c, s, v, tid);
    }
  }

  lemma PairsQuiet(c: Config, s: State, s': State, tid: Tid, t: nat)
    requires InsertersOk(c, s) && tid in s.ins && !s.ins[tid].phase.Done?
    requires tid in s'.ins && Position(s.ins[tid].phase) == Some(t) == Position(s'.ins[tid].phase)
    requires t == |s.tables| - 1 && s'.ins == s.ins[tid := s'.ins[tid]] && s'.ins[tid].obj == s.ins[tid].obj
    ensures forall v :: v in s.ins && v != tid ==> PairOk(c, s', tid, v) && PairOk(c, s', v, tid)
  {
    forall v | v in s.ins && v != tid ensures PairOk(c, s', tid, v) && PairOk(c, s', v, tid) {
      assert PairOk(c, s, tid, v) && PairOk(c, s, v, tid) && InserterOk(c, s, v);
    }
  }

  lemma PairsMove(c: Config, s: State, s': State, tid: Tid)
    requires InsertersOk(c, s) && tid in s.ins && HoldsLock(s.ins[tid].phase)
    requires tid in s'.ins && s'.ins == s.ins[tid := s'.ins[tid]] && s'.ins[tid].obj == s.ins[tid].obj
    requires Position(s'.ins[tid].phase).Some? ==> s'.ins[tid].phase.t == s.ins[tid].phase.t + 1
    requires !Quiet(s'.ins[tid].phase)
    ensures forall v :: v in s.ins && v != tid ==> PairOk(c, s', tid, v) && PairOk(c, s', v, tid)
  {
    forall v | v in s.ins && v != tid ensures PairOk(c, s', tid, v) && PairOk(c, s', v, tid) {
      assert PairOk(c, s, tid, v) && PairOk(c, s, v, tid) && InserterOk(c, s, v) && InserterOk(c, s, tid);
    }
  }

  lemma KeepIPeek(c: Config, s: State, tid: Tid)
    requires Inv(c, s) && tid in s.ins && s.ins[tid].phase.Peek?
    ensures Inv(c, OnIPeek(c, s, tid))
  {
    PeekOwn(c, s, tid);
    PeekPairs(c, s, tid);
    PeekApart(c, s, tid);
    StepOfInserter(c, s, OnIPeek(c, s, tid), tid);
  }

  lemma PeekOwn(c: Config, s: State, tid: Tid)
    requires TablesOk(s) && HomesOk(c, s) && SegsOk(c, s) && WorkerOk(c, s) && InsertersOk(c, s) && tid in s.ins && s.ins[tid].phase.Peek?
    ensures InserterOk(c, OnIPeek(c, s, tid), tid)
  {
    assert InserterOk(c, s, tid);
    var t := s.ins[tid].phase.t;
    if Future(s, t).None? {
      LockedChain(c, s, tid);
      LastTable(c, s, t, c.key(s.ins[tid].obj));
      PeekQuiet(c, s, tid);
    } else {
      PeekBusy(c, s, tid);
    }
  }

  lemma PeekBusy(c: Config, s: State, tid: Tid)
    requires tid in s.ins && s.ins[tid].phase.Peek? && InserterOk(c, s, tid)
    ensures InserterOk(c, Go(s, tid, Leave(s.ins[tid].phase.t, Restart)), tid)
  {
  }

  lemma PeekQuiet(c: Config, s: State, tid: Tid)
    requires tid in s.ins && s.ins[tid].phase.Peek? && InserterOk(c, s, tid)
    requires var t := s.ins[tid].phase.t;
             var b := Bucket(c, s, tid, t);
             && Seg(c, s, b) && Tail(c, s, b) == Nulls(b) && s.first <= t && (t == s.first ==> Progress(s.worker) == 0)
             && forall x :: x in s.home && c.key(x) == c.key(s.ins[tid].obj) ==> s.home[x].tbl == t
    ensures var t := s.ins[tid].phase.t;
            InserterOk(c, Go(s, tid, Scan(t, Head(s, Bucket(c, s, tid, t)), 0, true)), tid)
  {
  }

  lemma PeekPairs(c: Config, s: State, tid: Tid)
    requires TablesOk(s) && InsertersOk(c, s) && tid in s.ins && s.ins[tid].phase.Peek?
    ensures var s' := OnIPeek(c, s, tid);
            forall v :: v in s.ins && v != tid ==> PairOk(c, s', tid, v) && PairOk(c, s', v, tid)
  {
    assert InserterOk(c, s, tid);
    var s', t := OnIPeek(c, s, tid), s.ins[tid].phase.t;
    if Future(s, t).None? { PairsQuiet(c, s, s', tid, t); } else { PairsKept(c, s, s', tid); }
  }

  lemma PeekApart(c: Config, s: State, tid: Tid)
    requires RemoversOk(c, s) && tid in s.ins && s.ins[tid].phase.Peek?
    ensures forall d :: d in s.rem ==> Apart(OnIPeek(c, s, tid), tid, d)
  {
    forall d | d in s.rem ensures Apart(OnIPeek(c, s, tid), tid, d) { assert Apart(s, tid, d); }
  }

  /** A scan that reaches the marker has seen the whole bucket. */
  lemma ScanComplete(c: Config, s: State, tid: Tid)
    requires HomesOk(c, s)
    requires tid in s.ins && s.ins[tid].phase.Scan? && s.ins[tid].phase.cur.Nulls? && PositionOk(c, s, tid)
    ensures NotBelow(c, s, c.key(s.ins[tid].obj), s.ins[tid].phase.t + 1)
  {
    var p, k := s.ins[tid].phase, c.key(s.ins[tid].obj);
    assert p.n == |Chain(s, Bucket(c, s, tid, p.t))|;
    forall x | x in s.home && c.key(x) == k ensures s.home[x].tbl >= p.t + 1 { assert ElemOk(c, s, x); }
  }

  lemma ScanOwn(c: Config, s: State, tid: Tid)
    requires tid in s.ins && s.ins[tid].phase.Scan? && InserterOk(c, s, tid)
    requires var p := s.ins[tid].phase;
             var b := Bucket(c, s, tid, p.t);
             && Tail(c, s, b) == Nulls(b) && Seg(c, s, b)
             && (p.cur.Nulls? ==> NotBelow(c, s, c.key(s.ins[tid].obj), p.t + 1))
    ensures InserterOk(c, OnIScan(c, s, tid), tid)
  {
    if s.ins[tid].phase.cur.At? { ScanEntry(c, s, tid); }
  }

  lemma ScanEntry(c: Config, s: State, tid: Tid)
    requires tid in s.ins && s.ins[tid].phase.Scan? && s.ins[tid].phase.cur.At? && InserterOk(c, s, tid)
    requires var b := Bucket(c, s, tid, s.ins[tid].phase.t); Tail(c, s, b) == Nulls(b) && Seg(c, s, b)
    ensures InserterOk(c, OnIScan(c, s, tid), tid)
  {
    var p := s.ins[tid].phase;
    var b := Bucket(c, s, tid, p.t);
    assert p.cur.elem == Chain(s, b)[p.n] && Next(s, p.cur.elem) == PtrAt(Chain(s, b), Nulls(b), p.n + 1);
  }

  lemma KeepIScan(c: Config, s: State, tid: Tid)
    requires Inv(c, s) && tid in s.ins && s.ins[tid].phase.Scan?
    ensures Inv(c, OnIScan(c, s, tid))
  {
    ScanReady(c, s, tid);
    PairsKept(c, s, OnIScan(c, s, tid), tid);
    StepOfInserter(c, s, OnIScan(c, s, tid), tid);
  }

  lemma ScanReady(c: Config, s: State, tid: Tid)
    requires Inv(c, s) && tid in s.ins && s.ins[tid].phase.Scan?
    ensures InserterOk(c, OnIScan(c, s, tid), tid)
  {
    assert InserterOk(c, s, tid);
    LockedChain(c, s, tid);
    if s.ins[tid].phase.cur.Nulls? { ScanComplete(c, s, tid); }
    ScanOwn(c, s, tid);
  }

  lemma KeepIDecide(c: Config, s: State, tid: Tid, full: bool, crowded: bool)
    requires Inv(c, s) && tid in s.ins && s.ins[tid].phase.Missed?
    ensures Inv(c, OnIDecide(s, tid, full, crowded))
  {
    DecideOwn(c, s, tid, full, crowded);
    DecidePairs(c, s, tid, full, crowded);
    DecideApart(c, s, tid, full, crowded);
    StepOfInserter(c, s, OnIDecide(s, tid, full, crowded), tid);
  }

  lemma DecideOwn(c: Config, s: State, tid: Tid, full: bool, crowded: bool)
    requires TablesOk(s) && HomesOk(c, s) && WorkerOk(c, s) && InsertersOk(c, s) && tid in s.ins && s.ins[tid].phase.Missed?
    ensures InserterOk(c, OnIDecide(s, tid, full, crowded), tid)
  {
    assert InserterOk(c, s, tid);
    var p := DecideNext(s, s.ins[tid].phase, full, crowded);
    if p.Clear? { DecideClear(c, s, tid); } else { DecideLeave(c, s, tid, p.exit); }
  }

  lemma DecideLeave(c: Config, s: State, tid: Tid, exit: After)
    requires tid in s.ins && s.ins[tid].phase.Missed? && InserterOk(c, s, tid)
    requires !exit.Exists? && (exit.Advance? ==> exit.to == s.ins[tid].phase.t + 1 < |s.tables|)
    ensures InserterOk(c, Go(s, tid, Leave(s.ins[tid].phase.t, exit)), tid)
  {
  }

  lemma DecideClear(c: Config, s: State, tid: Tid)
    requires TablesOk(s) && HomesOk(c, s) && WorkerOk(c, s) && tid in s.ins && s.ins[tid].phase.Missed? && InserterOk(c, s, tid)
    requires s.ins[tid].phase.fast || Future(s, s.ins[tid].phase.t).None?
    ensures InserterOk(c, Go(s, tid, Clear(s.ins[tid].phase.t)), tid)
  {
    var p := s.ins[tid].phase;
    if !p.fast { LastTable(c, s, p.t, c.key(s.ins[tid].obj)); }
  }

  lemma DecidePairs(c: Config, s: State, tid: Tid, full: bool, crowded: bool)
    requires TablesOk(s) && InsertersOk(c, s) && tid in s.ins && s.ins[tid].phase.Missed?
    ensures var s' := OnIDecide(s, tid, full, crowded);
            forall v :: v in s.ins && v != tid ==> PairOk(c, s', tid, v) && PairOk(c, s', v, tid)
  {
    assert InserterOk(c, s, tid);
    var s', p := OnIDecide(s, tid, full, crowded), s.ins[tid].phase;
    if !p.fast && Future(s, p.t).None? { PairsQuiet(c, s, s', tid, p.t); } else { PairsKept(c, s, s', tid); }
  }

  lemma DecideApart(c: Config, s: State, tid: Tid, full: bool, crowded: bool)
    requires RemoversOk(c, s) && tid in s.ins && s.ins[tid].phase.Missed?
    ensures forall d :: d in s.rem ==> Apart(OnIDecide(s, tid, full, crowded), tid, d)
  {
    forall d | d in s.rem ensures Apart(OnIDecide(s, tid, full, crowded), tid, d) { assert Apart(s, tid, d); }
  }

  lemma KeepIUnlock(c: Config, s: State, tid: Tid)
    requires Inv(c, s) && (tid in s.ins && (s.ins[tid].phase.Linked? || s.ins[tid].phase.Leave?))
    ensures Inv(c, OnIUnlock(c, s, tid))
  {
    UnlockOwn(c, s, tid);
    UnlockPairs(c, s, tid);
    UnlockApart(c, s, tid);
    StepOfInserter(c, s, OnIUnlock(c, s, tid), tid);
  }

  lemma UnlockOwn(c: Config, s: State, tid: Tid)
    requires InsertersOk(c, s) && tid in s.ins && (s.ins[tid].phase.Linked? || s.ins[tid].phase.Leave?)
    ensures InserterOk(c, s, tid) && InserterOk(c, OnIUnlock(c, s, tid), tid)
  {
    assert InserterOk(c, s, tid);
  }

  lemma UnlockPairs(c: Config, s: State, tid: Tid)
    requires InsertersOk(c, s) && tid in s.ins && (s.ins[tid].phase.Linked? || s.ins[tid].phase.Leave?)
    ensures var s' := OnIUnlock(c, s, tid);
            forall v :: v in s.ins && v != tid ==> PairOk(c, s', tid, v) && PairOk(c, s', v, tid)
  {
    assert InserterOk(c, s, tid);
    PairsMove(c, s, OnIUnlock(c, s, tid), tid);
  }

  lemma UnlockApart(c: Config, s: State, tid: Tid)
    requires RemoversOk(c, s) && tid in s.ins && (s.ins[tid].phase.Linked? || s.ins[tid].phase.Leave?)
    ensures forall d :: d in s.rem ==> Apart(OnIUnlock(c, s, tid), tid, d)
  {
    forall d | d in s.rem ensures Apart(OnIUnlock(c, s, tid), tid, d) { assert Apart(s, tid, d); }
  }

  /** Writing the next pointer of an entry that is not linked changes no chain. */
  lemma PrimeSegs(c: Config, s: State, o: Elem, next: map<Elem, Ptr>)
    requires SegsOk(c, s) && HomesOk(c, s) && o !in s.home
    requires o in next && next == s.next[o := next[o]]
    ensures SegsOk(c, s.(next := next))
  {
    forall b ensures Seg(c, s.(next := next), b) { assert Seg(c, s, b) && ChainOk(s, b); }
  }

  lemma PrimeWorker(c: Config, s: State, o: Elem, next: map<Elem, Ptr>)
    requires HomesOk(c, s) && WorkerOk(c, s) && o !in s.home
    requires o in next && next == s.next[o := next[o]]
    ensures WorkerOk(c, s.(next := next))
  {
  }

  lemma PrimeKeeps(c: Config, s: State, tid: Tid, next: map<Elem, Ptr>)
    requires Inv(c, s) && tid in s.ins && s.ins[tid].phase.Clear?
    requires s.ins[tid].obj in next && next == s.next[s.ins[tid].obj := next[s.ins[tid].obj]]
    ensures Inv(c, s.(next := next))
  {
    var s1 := s.(next := next);
    assert InserterOk(c, s, tid);
    PrimeSegs(c, s, s.ins[tid].obj, next);
    PrimeWorker(c, s, s.ins[tid].obj, next);
    FrameHomes(c, s, s1);
    FrameReaders(c, s, s1);
    FrameGone(s, s1);
    FrameRemovers(c, s, s1);
    PrimeInserters(c, s, tid, next);
  }

  lemma PrimeInserters(c: Config, s: State, tid: Tid, next: map<Elem, Ptr>)
    requires InsertersOk(c, s) && tid in s.ins && s.ins[tid].phase.Clear?
    requires s.ins[tid].obj in next && next == s.next[s.ins[tid].obj := next[s.ins[tid].obj]]
    ensures InsertersOk(c, s.(next := next))
  {
    var s1 := s.(next := next);
    forall v | v in s1.ins ensures InserterOk(c, s1, v) {
      assert InserterOk(c, s, v);
      if v != tid { assert PairOk(c, s, tid, v); }
    }
    forall u, v | u in s1.ins && v in s1.ins && u != v ensures PairOk(c, s1, u, v) { assert PairOk(c, s, u, v); }
  }

  lemma KeepIPrime(c: Config, s: State, tid: Tid)
    requires Inv(c, s) && tid in s.ins && s.ins[tid].phase.Clear?
    ensures Inv(c, OnIPrime(c, s, tid))
  {
    var s' := OnIPrime(c, s, tid);
    var s1 := s.(next := s'.next);
    PrimeKeeps(c, s, tid, s'.next);
    PrimeOwn(c, s1, s', tid);
    PairsKept(c, s1, s', tid);
    StepOfInserter(c, s1, s', tid);
  }

  lemma PrimeOwn(c: Config, s1: State, s': State, tid: Tid)
    requires InsertersOk(c, s1) && RemoversOk(c, s1) && tid in s1.ins && s1.ins[tid].phase.Clear?
    requires s' == Go(s1, tid, Primed(s1.ins[tid].phase.t)) && Next(s1, s1.ins[tid].obj) == Head(s1, Bucket(c, s1, tid, s1.ins[tid].phase.t))
    ensures InserterOk(c, s', tid) && forall d :: d in s1.rem ==> Apart(s', tid, d)
  {
    assert InserterOk(c, s1, tid);
    forall d | d in s1.rem ensures Apart(s', tid, d) { assert Apart(s1, tid, d); }
  }

  // ----- linking a new entry -----

  /** Entry o becomes the head of bucket b. */
  ghost predicate Pushed(s: State, s': State, b: Slot, o: Elem) {
    && s'.tables == s.tables && s'.first == s.first && s'.next == s.next && s'.worker == s.worker
    && s'.lock == s.lock && s'.rdr == s.rdr && s'.rem == s.rem && s'.gone == s.gone
    && s'.head == s.head[b := At(o)] && s'.chain == s.chain[b := [o] + Chain(s, b)] && s'.home == s.home[o := b]
  }

  lemma LinkHomes(c: Config, s: State, s': State, b: Slot, o: Elem)
    requires HomesOk(c, s) && Pushed(s, s', b, o) && o !in s.home
    requires s.first <= b.tbl < |s.tables| && b == SlotOf(c, s.tables, b.tbl, c.key(o))
    ensures HomesOk(c, s')
  {
    forall e | e in s'.home ensures ElemOk(c, s', e) {
      if e == o {
        assert Chain(s', b)[0] == o;
      } else {
        assert ElemOk(c, s, e);
        if s.home[e] == b {
          var i :| 0 <= i < |Chain(s, b)| && Chain(s, b)[i] == e;
          assert Chain(s', b)[i + 1] == e;
        }
      }
    }
    forall b' ensures ChainOk(s', b') { assert ChainOk(s, b'); }
  }

  lemma LinkSegs(c: Config, s: State, s': State, b: Slot, o: Elem)
    requires SegsOk(c, s) && WorkerOk(c, s) && Pushed(s, s', b, o)
    requires b in s.lock && s.lock[b] != ByWorker && Next(s, o) == Head(s, b)
    ensures SegsOk(c, s')
  {
    forall b' ensures Seg(c, s', b') {
      assert Seg(c, s, b');
      assert Tail(c, s', b') == Tail(c, s, b');
      if b' == b {
        assert Tail(c, s, b) == Nulls(b);
        forall i | 0 <= i < |Chain(s', b)|
          ensures Next(s', Chain(s', b)[i]) == PtrAt(Chain(s', b), Nulls(b), i + 1)
        {
          if i > 0 { assert Chain(s', b)[i] == Chain(s, b)[i - 1]; }
        }
      }
    }
  }

  lemma LinkWorker(c: Config, s: State, s': State, b: Slot, o: Elem)
    requires WorkerOk(c, s) && Pushed(s, s', b, o) && o !in s.home
    requires b in s.lock && s.lock[b] != ByWorker
    requires b.tbl == s.first ==> Progress(s.worker) <= b.idx
    ensures WorkerOk(c, s')
  {
    if !s.worker.Idle? && WorkerHolds(s.worker) {
      assert Chain(s', Slot(s.first, s.worker.h)) == Chain(s, Slot(s.first, s.worker.h));
    }
  }

  lemma BeforePush(l: seq<Elem>, o: Elem, y: Elem, x: Elem)
    requires Before(l, y, x)
    ensures Before([o] + l, y, x)
  {
    var i, j :| 0 <= i <= j < |l| && l[i] == y && l[j] == x;
    assert ([o] + l)[i + 1] == y && ([o] + l)[j + 1] == x;
  }

  lemma LinkAhead(s: State, s': State, b: Slot, o: Elem, t: nat, cur: Ptr, x: Elem)
    requires Pushed(s, s', b, o) && o !in s.home && x in s.home && AheadAt(s, t, cur, x)
    ensures AheadAt(s', t, cur, x)
  {
    if cur.At? && s.home[x] == b && Before(Chain(s, b), cur.elem, x) { BeforePush(Chain(s, b), o, cur.elem, x); }
  }

  lemma LinkReaders(c: Config, s: State, s': State, b: Slot, o: Elem)
    requires ReadersOk(c, s) && Pushed(s, s', b, o) && o !in s.home
    ensures ReadersOk(c, s')
  {
    forall rid | rid in s'.rdr ensures ReaderOk(c, s', rid) {
      assert ReaderOk(c, s, rid);
      if s.rdr[rid].look.Follow? {
        var Follow(t, cur) := s.rdr[rid].look;
        LandFrame(s.gone, s, s', cur);
        forall x | x in s.rdr[rid].must && s'.home[x].tbl == t ensures Ahead(s', t, cur, x) {
          assert Ahead(s, t, cur, x);
          LinkAhead(s, s', b, o, t, Land(s.gone, s, cur), x);
        }
      }
    }
  }

  lemma LinkGone(s: State, s': State, b: Slot, o: Elem)
    requires GoneOk(s) && Pushed(s, s', b, o) && o !in s.gone
    ensures GoneOk(s')
  {
    forall i | 0 <= i < |s'.gone| ensures LeadsOn(s', i) { assert LeadsOn(s, i); }
  }

  lemma LinkRemover(c: Config, s: State, s': State, b: Slot, o: Elem, d: Tid)
    requires Pushed(s, s', b, o) && o !in s.home && b in s.lock && !s.lock[b].ByRemover?
    requires d in s.rem && RemoverOk(c, s, d) && (!s.rem[d].phase.Dropped? ==> s.rem[d].obj != o)
    ensures RemoverOk(c, s', d)
  {
  }

  lemma LinkRemovers(c: Config, s: State, s': State, b: Slot, tid: Tid)
    requires RemoversOk(c, s) && tid in s.ins && !s.ins[tid].phase.Done? && Pushed(s, s', b, s.ins[tid].obj)
    requires s.ins[tid].obj !in s.home && b in s.lock && !s.lock[b].ByRemover? && SameObjects(s, s')
    ensures RemoversOk(c, s')
  {
    forall d | d in s'.rem ensures RemoverOk(c, s', d) {
      assert RemoverOk(c, s, d) && Apart(s, tid, d);
      LinkRemover(c, s, s', b, s.ins[tid].obj, d);
    }
    forall u, d | u in s'.ins && d in s'.rem ensures Apart(s', u, d) {
      if !s'.ins[u].phase.Done? { assert Apart(s, u, d); }
    }
  }

  lemma LinkOther(c: Config, s: State, s': State, tid: Tid, v: Tid)
    requires tid in s.ins && v in s.ins && tid != v && v in s'.ins && s'.ins[v] == s.ins[v]
    requires s.ins[tid].phase.Primed? && InserterOk(c, s, tid) && InserterOk(c, s, v)
    requires PairOk(c, s, tid, v) && PairOk(c, s, v, tid)
    requires Pushed(s, s', Bucket(c, s, tid, s.ins[tid].phase.t), s.ins[tid].obj)
    ensures InserterOk(c, s', v)
  {
    if Position(s.ins[v].phase).Some? { LinkOtherPosition(c, s, s', tid, v); }
  }

  lemma LinkOtherPosition(c: Config, s: State, s': State, tid: Tid, v: Tid)
    requires tid in s.ins && v in s.ins && tid != v && v in s'.ins && s'.ins[v] == s.ins[v] && Position(s.ins[v].phase).Some?
    requires s.ins[tid].phase.Primed? && PositionOk(c, s, tid) && PositionOk(c, s, v)
    requires PairOk(c, s, tid, v) && PairOk(c, s, v, tid)
    requires Pushed(s, s', Bucket(c, s, tid, s.ins[tid].phase.t), s.ins[tid].obj)
    ensures PositionOk(c, s', v)
  {
    var b, b' := Bucket(c, s, tid, s.ins[tid].phase.t), Bucket(c, s, v, s.ins[v].phase.t);
    assert HoldsLock(s.ins[v].phase) ==> b != b';
  }

  lemma LinkInserters(c: Config, s: State, s': State, tid: Tid)
    requires InsertersOk(c, s) && tid in s.ins && s.ins[tid].phase.Primed?
    requires Pushed(s, s', Bucket(c, s, tid, s.ins[tid].phase.t), s.ins[tid].obj)
    requires s'.ins == s.ins[tid := s.ins[tid].(phase := Linked(s.ins[tid].phase.t))]
    ensures InsertersOk(c, s')
  {
    assert InserterOk(c, s, tid);
    forall v | v in s'.ins ensures InserterOk(c, s', v) {
      if v != tid {
        assert InserterOk(c, s, v) && PairOk(c, s, tid, v) && PairOk(c, s, v, tid);
        LinkOther(c, s, s', tid, v);
      }
    }
    forall u, v | u in s'.ins && v in s'.ins && u != v ensures PairOk(c, s', u, v) { assert PairOk(c, s, u, v); }
  }

  lemma KeepILink(c: Config, s: State, tid: Tid)
    requires Inv(c, s) && tid in s.ins && s.ins[tid].phase.Primed?
    ensures Inv(c, OnILink(c, s, tid))
  {
    var s' := OnILink(c, s, tid);
    var b, o := Bucket(c, s, tid, s.ins[tid].phase.t), s.ins[tid].obj;
    assert InserterOk(c, s, tid);
    LinkHomes(c, s, s', b, o);
    LinkSegs(c, s, s', b, o);
    LinkWorker(c, s, s', b, o);
    LinkReaders(c, s, s', b, o);
    LinkInserters(c, s, s', tid);
    LinkUnique(c, s, tid);
    LinkGone(s, s', b, o);
    LinkRemovers(c, s, s', b, tid);
  }

  lemma LinkUnique(c: Config, s: State, tid: Tid)
    requires UniqueOk(c, s) && HomesOk(c, s) && tid in s.ins && s.ins[tid].phase.Primed? && InserterOk(c, s, tid) && TablesOk(s) && WorkerOk(c, s)
    ensures UniqueOk(c, OnILink(c, s, tid))
  {
  }

  // ----- attaching a table -----

  ghost predicate Extends(a: seq<Table>, b: seq<Table>) {
    && |b| == |a| + 1 && |a| > 0
    && (forall t :: 0 <= t < |a| ==> b[t].size == a[t].size && b[t].seed == a[t].seed)
    && (forall t :: 0 <= t < |a| - 1 ==> b[t].future == a[t].future)
  }

  lemma SlotStays(c: Config, a: seq<Table>, b: seq<Table>, t: nat, k: Key)
    requires Extends(a, b) && t < |a|
    ensures SlotOf(c, b, t, k) == SlotOf(c, a, t, k)
  {
  }

  lemma ExtendMemory(c: Config, s: State, s': State)
    requires TablesOk(s) && HomesOk(c, s) && SegsOk(c, s) && WorkerOk(c, s) && TablesOk(s')
    requires Extends(s.tables, s'.tables) && s' == s.(tables := s'.tables)
    ensures HomesOk(c, s') && SegsOk(c, s') && WorkerOk(c, s')
  {
    ExtendHomes(c, s, s');
    if HasMove(s.worker) { SlotStays(c, s.tables, s'.tables, s.worker.m.dst, c.key(s.worker.m.entry)); }
    forall b ensures Seg(c, s', b) { assert Seg(c, s, b); }
  }

  lemma ExtendHomes(c: Config, s: State, s': State)
    requires HomesOk(c, s) && Extends(s.tables, s'.tables) && s' == s.(tables := s'.tables)
    ensures HomesOk(c, s')
  {
    forall e | e in s'.home ensures ElemOk(c, s', e) {
      assert ElemOk(c, s, e);
      SlotStays(c, s.tables, s'.tables, s.home[e].tbl, c.key(e));
    }
    forall b ensures ChainOk(s', b) { assert ChainOk(s, b); }
  }

  lemma ExtendInserter(c: Config, s: State, s': State, v: Tid)
    requires Extends(s.tables, s'.tables) && s' == s.(tables := s'.tables) && v in s.ins && InserterOk(c, s, v)
    ensures InserterOk(c, s', v)
  {
    if Position(s.ins[v].phase).Some? {
      SlotStays(c, s.tables, s'.tables, s.ins[v].phase.t, c.key(s.ins[v].obj));
    }
  }

  lemma ExtendRemovers(c: Config, s: State, s': State)
    requires RemoversOk(c, s) && Extends(s.tables, s'.tables) && s' == s.(tables := s'.tables)
    ensures RemoversOk(c, s')
  {
    forall d | d in s'.rem ensures RemoverOk(c, s', d) {
      assert RemoverOk(c, s, d);
      if Walking(s.rem[d].phase) { SlotStays(c, s.tables, s'.tables, s.rem[d].phase.t, c.key(s.rem[d].obj)); }
    }
    forall u, d | u in s'.ins && d in s'.rem ensures Apart(s', u, d) { assert Apart(s, u, d); }
  }

  lemma ExtendKeeps(c: Config, s: State, s': State)
    requires Inv(c, s) && TablesOk(s') && Extends(s.tables, s'.tables) && s' == s.(tables := s'.tables)
    ensures Inv(c, s')
  {
    ExtendMemory(c, s, s');
    FrameReaders(c, s, s');
    FrameGone(s, s');
    ExtendRemovers(c, s, s');
    if s.worker.Joined? { SlotStays(c, s.tables, s'.tables, s.first, c.key(s.worker.m.entry)); }
    forall v | v in s'.ins ensures InserterOk(c, s', v) { assert InserterOk(c, s, v); ExtendInserter(c, s, s', v); }
    forall u, v | u in s'.ins && v in s'.ins && u != v ensures PairOk(c, s', u, v) { assert PairOk(c, s, u, v); }
  }

  /** A successful compare-and-swap appends a table: only the last table has no future. */
  lemma AttachExtends(s: State, t: nat, size: nat, seed: nat)
    requires TablesOk(s) && size > 0
    ensures var s' := s.(tables := Attach(s.tables, t, size, seed));
            TablesOk(s') && (s' == s || Extends(s.tables, s'.tables))
  {
  }

  lemma KeepAttach(c: Config, s: State, t: nat, size: nat, seed: nat)
    requires Inv(c, s) && size > 0
    ensures Inv(c, s.(tables := Attach(s.tables, t, size, seed)))
  {
    var s' := s.(tables := Attach(s.tables, t, size, seed));
    AttachExtends(s, t, size, seed);
    if s' != s { ExtendKeeps(c, s, s'); }
  }

  lemma KeepIGrow(c: Config, s: State, tid: Tid, size: nat, seed: nat, fail: bool)
    requires Inv(c, s) && tid in s.ins && s.ins[tid].phase.Rehash? && size > 0
    ensures Inv(c, OnIGrow(s, tid, size, seed, fail))
  {
    var s' := OnIGrow(s, tid, size, seed, fail);
    var s1 := s.(tables := s'.tables);
    if !fail { KeepAttach(c, s, s.ins[tid].phase.t, size, seed); }
    KeepRetry(c, s1, tid, if fail then Done(false) else Begin(false));
  }

  /** An inserter that has released its bucket gives up or starts again. */
  lemma KeepRetry(c: Config, s: State, tid: Tid, p: Phase)
    requires Inv(c, s) && tid in s.ins && s.ins[tid].phase.Rehash? && (p == Done(false) || p == Begin(false))
    ensures Inv(c, Go(s, tid, p))
  {
    assert InserterOk(c, s, tid);
    PairsKept(c, s, Go(s, tid, p), tid);
    forall d | d in s.rem ensures Apart(Go(s, tid, p), tid, d) { assert Apart(s, tid, d); }
    StepOfInserter(c, s, Go(s, tid, p), tid);
  }

  // ----- worker actions -----

  /** Quiet inserters in the table being drained are ahead of the worker. */
  ghost predicate QuietAhead(c: Config, s: State, h: nat) {
    forall v :: v in s.ins && Position(s.ins[v].phase) == Some(s.first) && Quiet(s.ins[v].phase) ==>
      h <= Bucket(c, s, v, s.first).idx
  }

  /** Inserters and removers keep their locks. */
  ghost predicate OthersKeep(s: State, s': State) {
    forall b :: b in s.lock && s.lock[b] != ByWorker ==> b in s'.lock && s'.lock[b] == s.lock[b]
  }

  predicate Plain(w: Worker) {
    !w.Repointed? && !w.Joined?
  }

  lemma StepOfWorker(c: Config, s: State, s': State)
    requires Inv(c, s) && s' == s.(worker := s'.worker, lock := s'.lock)
    requires OthersKeep(s, s') && Plain(s.worker) && Plain(s'.worker)
    requires WorkerOk(c, s') && QuietAhead(c, s, Progress(s'.worker))
    ensures Inv(c, s')
  {
    FrameHomes(c, s, s');
    FrameReaders(c, s, s');
    forall b ensures Seg(c, s', b) { assert Seg(c, s, b); }
    WorkerOthers(c, s, s');
    FrameGone(s, s');
    FrameRemovers(c, s, s');
  }

  lemma WorkerOthers(c: Config, s: State, s': State)
    requires InsertersOk(c, s) && s' == s.(worker := s'.worker, lock := s'.lock)
    requires OthersKeep(s, s') && QuietAhead(c, s, Progress(s'.worker))
    ensures InsertersOk(c, s')
  {
    forall v | v in s'.ins ensures InserterOk(c, s', v) { assert InserterOk(c, s, v); }
    forall u, v | u in s'.ins && v in s'.ins && u != v ensures PairOk(c, s', u, v) { assert PairOk(c, s, u, v); }
  }

  lemma QuietStays(c: Config, s: State)
    requires InsertersOk(c, s)
    ensures QuietAhead(c, s, Progress(s.worker)) && QuietAhead(c, s, 0)
  {
    forall v | v in s.ins && Position(s.ins[v].phase) == Some(s.first) && Quiet(s.ins[v].phase)
      ensures Progress(s.worker) <= Bucket(c, s, v, s.first).idx
    {
      assert InserterOk(c, s, v);
    }
  }

  lemma KeepWBegin(c: Config, s: State)
    requires Inv(c, s) && s.worker.Idle? && Future(s, s.first).Some?
    ensures Inv(c, OnWBegin(s))
  {
    QuietStays(c, s);
    StepOfWorker(c, s, OnWBegin(s));
  }

  lemma KeepWLock(c: Config, s: State)
    requires Inv(c, s) && s.worker.Drain? && s.first < |s.tables| && s.worker.h < s.tables[s.first].size && Slot(s.first, s.worker.h) !in s.lock
    ensures Inv(c, OnWLock(s))
  {
    QuietStays(c, s);
    StepOfWorker(c, s, OnWLock(s));
  }

  lemma KeepWLockNew(c: Config, s: State)
    requires Inv(c, s) && s.worker.Picked? && Target(c, s, s.worker.m) !in s.lock
    ensures Inv(c, OnWLockNew(c, s))
  {
    QuietStays(c, s);
    StepOfWorker(c, s, OnWLockNew(c, s));
  }

  lemma WalkWorker(c: Config, s: State)
    requires TablesOk(s) && WorkerOk(c, s) && SegsOk(c, s) && (s.worker.Held? || s.worker.Walk?)
    ensures WorkerOk(c, OnWWalk(s))
  {
    assert Seg(c, s, Slot(s.first, s.worker.h));
  }

  lemma SweepWorker(c: Config, s: State)
    requires TablesOk(s) && WorkerOk(c, s) && SegsOk(c, s) && s.worker.Sweep?
    ensures WorkerOk(c, OnWSweep(s))
  {
    assert Seg(c, s, Slot(s.first, s.worker.h));
  }

  lemma KeepWWalk(c: Config, s: State)
    requires Inv(c, s) && (s.worker.Held? || s.worker.Walk?)
    ensures Inv(c, OnWWalk(s))
  {
    QuietStays(c, s);
    WalkWorker(c, s);
    StepOfWorker(c, s, OnWWalk(s));
  }

  lemma KeepWSweep(c: Config, s: State)
    requires Inv(c, s) && s.worker.Sweep?
    ensures Inv(c, OnWSweep(s))
  {
    QuietStays(c, s);
    SweepWorker(c, s);
    StepOfWorker(c, s, OnWSweep(s));
  }

  lemma KeepWRelease(c: Config, s: State)
    requires Inv(c, s) && s.worker.Emptied?
    ensures Inv(c, OnWRelease(s))
  {
    forall v | v in s.ins && Position(s.ins[v].phase) == Some(s.first) && Quiet(s.ins[v].phase)
      ensures s.worker.h + 1 <= Bucket(c, s, v, s.first).idx
    {
      assert InserterOk(c, s, v);
    }
    StepOfWorker(c, s, OnWRelease(s));
  }
}
