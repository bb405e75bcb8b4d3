/** What the hash table promises over every run of inserters, removers, table attachments, the
    rehash worker and readers. */
module RhashTheorems {
  import opened Wrappers
  import opened RhashModel
  import opened RhashProof
  import opened RhashMove
  import opened RhashDrop
  import opened RhashSteps

  /** Every state of every run satisfies the invariant. */
  lemma {:induction false} RunKeepsInv(c: Config, ss: seq<State>, acts: seq<Action>, i: nat)
    requires ValidConfig(c) && Run(c, ss, acts) && i < |ss|
    ensures Inv(c, ss[i])
  {
    if i == 0 {
      InitInv(c, ss[0]);
    } else {
      RunKeepsInv(c, ss, acts, i - 1);
      StepKeepsInv(c, ss[i - 1], acts[i - 1]);
    }
  }

  // ----- what memory says -----

  /** The pointer reached from p by n reads of `next`. */
  ghost function Nth(s: State, p: Ptr, n: nat): Ptr
    decreases n
  {
    if n == 0 || p.Nulls? then p else Nth(s, Next(s, p.elem), n - 1)
  }

  /** The table reached from t by n reads of `future`. */
  ghost function TableAfter(s: State, t: nat, n: nat): Option<nat>
    decreases n
  {
    if n == 0 then Some(t)
    else if Future(s, t).None? then None
    else TableAfter(s, Future(s, t).value, n - 1)
  }

  lemma {:induction false} NthAlong(s: State, l: seq<Elem>, tail: Ptr, i: nat, n: nat)
    requires tail.Nulls? && i + n <= |l|
    requires forall j {:trigger Next(s, l[j])} :: 0 <= j < |l| ==> Next(s, l[j]) == PtrAt(l, tail, j + 1)
    ensures Nth(s, PtrAt(l, tail, i), n) == PtrAt(l, tail, i + n)
    decreases n
  {
    if n > 0 { NthAlong(s, l, tail, i + 1, n - 1); }
  }

  lemma {:induction false} FutureReaches(s: State, t: nat, n: nat)
    requires TablesOk(s) && t + n < |s.tables|
    ensures TableAfter(s, t, n) == Some(t + n)
    decreases n
  {
    if n > 0 { FutureReaches(s, t + 1, n - 1); }
  }

  /** The object of a successful insert is linked until it is removed.  A linked entry lies in the bucket of its key
      in exactly one table reachable from ht->tbl, and outside the worker's own move every bucket
      in memory is exactly its logical contents, without repetition, ended by its own marker. */
  ghost predicate Placed(c: Config, s: State) {
    && (forall tid :: tid in s.ins && s.ins[tid].phase == Done(true) ==> s.ins[tid].obj in s.home || s.ins[tid].obj in s.gone)
    && (forall e :: e in s.home ==>
          && s.first <= s.home[e].tbl
          && TableAfter(s, s.first, s.home[e].tbl - s.first) == Some(s.home[e].tbl)
          && s.home[e] == SlotOf(c, s.tables, s.home[e].tbl, c.key(e)))
    && (forall e: Elem, b: Slot :: e in Chain(s, b) <==> e in s.home && s.home[e] == b)
    && (forall b: Slot, j, k :: 0 <= j < k < |Chain(s, b)| ==> Chain(s, b)[j] != Chain(s, b)[k])
    && (Plain(s.worker) ==> forall b: Slot, j: nat :: j <= |Chain(s, b)| ==>
          Nth(s, Head(s, b), j) == if j < |Chain(s, b)| then At(Chain(s, b)[j]) else Nulls(b))
  }

  lemma Placement(c: Config, ss: seq<State>, acts: seq<Action>, i: nat)
    requires ValidConfig(c) && Run(c, ss, acts) && i < |ss|
    ensures Placed(c, ss[i])
  {
    RunKeepsInv(c, ss, acts, i);
    InvPlaced(c, ss[i]);
  }

  lemma InvPlaced(c: Config, s: State)
    requires Inv(c, s)
    ensures Placed(c, s)
  {
    InsertedAreLinked(c, s);
    EntriesPlaced(c, s);
    ChainsAreHomes(c, s);
    if Plain(s.worker) { ChainsInMemory(c, s); }
  }

  lemma InsertedAreLinked(c: Config, s: State)
    requires InsertersOk(c, s)
    ensures forall tid :: tid in s.ins && s.ins[tid].phase == Done(true) ==> s.ins[tid].obj in s.home || s.ins[tid].obj in s.gone
  {
    forall tid | tid in s.ins && s.ins[tid].phase == Done(true) ensures s.ins[tid].obj in s.home || s.ins[tid].obj in s.gone {
      assert InserterOk(c, s, tid);
    }
  }

  lemma EntriesPlaced(c: Config, s: State)
    requires TablesOk(s) && HomesOk(c, s)
    ensures forall e :: e in s.home ==>
              && s.first <= s.home[e].tbl
              && TableAfter(s, s.first, s.home[e].tbl - s.first) == Some(s.home[e].tbl)
              && s.home[e] == SlotOf(c, s.tables, s.home[e].tbl, c.key(e))
  {
    forall e | e in s.home
      ensures ElemOk(c, s, e) && TableAfter(s, s.first, s.home[e].tbl - s.first) == Some(s.home[e].tbl)
    {
      assert ElemOk(c, s, e);
      FutureReaches(s, s.first, s.home[e].tbl - s.first);
    }
  }

  lemma ChainsAreHomes(c: Config, s: State)
    requires HomesOk(c, s)
    ensures forall e: Elem, b: Slot :: e in Chain(s, b) <==> e in s.home && s.home[e] == b
    ensures forall b: Slot, j, k :: 0 <= j < k < |Chain(s, b)| ==> Chain(s, b)[j] != Chain(s, b)[k]
  {
    forall e: Elem, b: Slot ensures e in Chain(s, b) <==> e in s.home && s.home[e] == b {
      assert ChainOk(s, b);
    }
    forall b: Slot, j, k | 0 <= j < k < |Chain(s, b)| ensures Chain(s, b)[j] != Chain(s, b)[k] {
      assert ChainOk(s, b);
    }
  }

  lemma ChainsInMemory(c: Config, s: State)
    requires SegsOk(c, s) && Plain(s.worker)
    ensures forall b: Slot, j: nat :: j <= |Chain(s, b)| ==>
              Nth(s, Head(s, b), j) == if j < |Chain(s, b)| then At(Chain(s, b)[j]) else Nulls(b)
  {
    forall b: Slot, j: nat | j <= |Chain(s, b)|
      ensures Nth(s, Head(s, b), j) == if j < |Chain(s, b)| then At(Chain(s, b)[j]) else Nulls(b)
    {
      assert Seg(c, s, b);
      NthAlong(s, Chain(s, b), Nulls(b), 0, j);
    }
  }

  /** At the moment the next table is published the old one is empty in memory, so nothing
      linked is lost with it. */
  lemma PublishedTableEmpty(c: Config, ss: seq<State>, acts: seq<Action>, i: nat)
    requires ValidConfig(c) && Run(c, ss, acts) && i < |acts| && acts[i] == WPublish
    ensures ss[i + 1].first == ss[i].first + 1
    ensures forall b: Slot :: b.tbl == ss[i].first ==> Chain(ss[i], b) == [] && Head(ss[i], b) == Nulls(b)
    ensures forall e :: e in ss[i].home ==> ss[i].home[e].tbl > ss[i].first
  {
    var s := ss[i];
    RunKeepsInv(c, ss, acts, i);
    assert Enabled(c, s, acts[i]);
    Drained(c, s);
    forall b: Slot | b.tbl == s.first ensures Chain(s, b) == [] && Head(s, b) == Nulls(b) {
      assert ChainOk(s, b) && Seg(c, s, b);
    }
  }

  // ----- over time -----

  /** A step only appends to the removed entries. */
  ghost predicate Appends(ss: seq<State>, n: nat)
    requires n < |ss|
  {
    n + 1 < |ss| ==> ss[n].gone <= ss[n + 1].gone
  }

  lemma {:induction false} AppendsAlong(ss: seq<State>, i: nat, j: nat)
    requires i <= j < |ss| && forall n :: 0 <= n < |ss| ==> Appends(ss, n)
    ensures ss[i].gone <= ss[j].gone
    decreases j - i
  {
    if i < j {
      AppendsAlong(ss, i, j - 1);
      assert Appends(ss, j - 1);
    }
  }

  lemma GoneAt(c: Config, ss: seq<State>, acts: seq<Action>, n: nat)
    requires Run(c, ss, acts) && n < |ss|
    ensures Appends(ss, n)
  {
    if n + 1 < |ss| {
      assert Enabled(c, ss[n], acts[n]);
      GoneStep(c, ss[n], acts[n]);
    }
  }

  /** What has been removed stays removed, and the order of removal is kept. */
  lemma GoneStays(c: Config, ss: seq<State>, acts: seq<Action>, i: nat, j: nat)
    requires Run(c, ss, acts) && i <= j < |ss|
    ensures ss[i].gone <= ss[j].gone && forall e :: e in ss[i].gone ==> e in ss[j].gone
  {
    forall n | 0 <= n < |ss| ensures Appends(ss, n) { GoneAt(c, ss, acts, n); }
    AppendsAlong(ss, i, j);
  }

  /** From one state to the next, a linked entry stays linked, not further back, or is removed. */
  ghost predicate Onwards(s: State, s': State, e: Elem) {
    && (e in s.gone ==> e in s'.gone)
    && (e in s.home ==> (e in s'.home && s'.home[e].tbl >= s.home[e].tbl) || e in s'.gone)
  }

  lemma OnwardsAt(c: Config, ss: seq<State>, acts: seq<Action>, n: nat, e: Elem)
    requires ValidConfig(c) && Run(c, ss, acts) && n < |acts|
    ensures Onwards(ss[n], ss[n + 1], e)
  {
    assert Enabled(c, ss[n], acts[n]);
    GoneStep(c, ss[n], acts[n]);
    if e in ss[n].home {
      RunKeepsInv(c, ss, acts, n);
      HomeStep(c, ss[n], acts[n], e);
    }
  }

  lemma {:induction false} OnwardsAlong(ss: seq<State>, i: nat, j: nat, e: Elem)
    requires i <= j < |ss| && forall n :: 0 <= n < |ss| - 1 ==> Onwards(ss[n], ss[n + 1], e)
    ensures Onwards(ss[i], ss[j], e)
    decreases j - i
  {
    if i < j {
      OnwardsAlong(ss, i, j - 1, e);
      assert Onwards(ss[j - 1], ss[j - 1 + 1], e);
    }
  }

  /** A linked entry stays linked, in the same or a later table, until it is removed. */
  lemma OnlyForward(c: Config, ss: seq<State>, acts: seq<Action>, i: nat, j: nat, e: Elem)
    requires ValidConfig(c) && Run(c, ss, acts) && i <= j < |ss| && e in ss[i].home
    ensures (e in ss[j].home && ss[j].home[e].tbl >= ss[i].home[e].tbl) || e in ss[j].gone
  {
    forall n | 0 <= n < |ss| - 1 ensures Onwards(ss[n], ss[n + 1], e) { OnwardsAt(c, ss, acts, n, e); }
    OnwardsAlong(ss, i, j, e);
  }

  /** No interleaving lets two inserts of equal keys both succeed, unless one of the two objects is
      removed again. */
  lemma NoDuplicateInsert(c: Config, ss: seq<State>, acts: seq<Action>, i: nat, j: nat, u: Tid, v: Tid)
    requires ValidConfig(c) && Run(c, ss, acts) && i <= j < |ss|
    requires u in ss[i].ins && ss[i].ins[u].phase == Done(true)
    requires v in ss[j].ins && ss[j].ins[v].phase == Done(true)
    requires ss[i].ins[u].obj != ss[j].ins[v].obj
    ensures c.key(ss[i].ins[u].obj) != c.key(ss[j].ins[v].obj) || ss[i].ins[u].obj in ss[j].gone || ss[j].ins[v].obj in ss[j].gone
  {
    RunKeepsInv(c, ss, acts, i);
    RunKeepsInv(c, ss, acts, j);
    assert InserterOk(c, ss[i], u) && InserterOk(c, ss[j], v);
    GoneStays(c, ss, acts, i, j);
    if ss[i].ins[u].obj in ss[i].home { OnlyForward(c, ss, acts, i, j, ss[i].ins[u].obj); }
  }

  /** An insert that is refused because its key exists: when it releases the bucket lock to return
      -EEXIST, the entry that it has met is linked and has its key. */
  lemma RefusedForLinked(c: Config, ss: seq<State>, acts: seq<Action>, i: nat, tid: Tid)
    requires ValidConfig(c) && Run(c, ss, acts) && i < |ss|
    requires tid in ss[i].ins && ss[i].ins[tid].phase.Leave? && ss[i].ins[tid].phase.exit.Exists?
    ensures var y, e := ss[i].ins[tid].phase.exit.found, ss[i].ins[tid].obj;
            y in ss[i].home && c.key(y) == c.key(e) && y != e
  {
    RunKeepsInv(c, ss, acts, i);
    assert InserterOk(c, ss[i], tid);
    assert ChainOk(ss[i], Bucket(c, ss[i], tid, ss[i].ins[tid].phase.t));
  }

  // ----- removal -----

  /** An entry is cut out at most once. */
  lemma CutOnce(c: Config, ss: seq<State>, acts: seq<Action>, i: nat, j: nat)
    requires ValidConfig(c) && Run(c, ss, acts) && i <= j < |acts| && acts[i].DCut? && acts[j].DCut?
    requires acts[i].did in ss[i].rem && acts[j].did in ss[j].rem
    requires ss[i].rem[acts[i].did].obj == ss[j].rem[acts[j].did].obj
    ensures i == j
  {
    if i < j {
      var e := ss[i].rem[acts[i].did].obj;
      GoneStep(c, ss[i], acts[i]);
      GoneStays(c, ss, acts, i + 1, j);
      assert ss[i + 1].gone[|ss[i].gone|] == e && e in ss[j].gone;
      CutIsLinked(c, ss, acts, j);
    }
  }

  /** What a remover cuts out is linked. */
  lemma CutIsLinked(c: Config, ss: seq<State>, acts: seq<Action>, j: nat)
    requires ValidConfig(c) && Run(c, ss, acts) && j < |acts| && acts[j].DCut?
    ensures Enabled(c, ss[j], acts[j]) && var e := ss[j].rem[acts[j].did].obj; e in ss[j].home && e !in ss[j].gone
  {
    RunKeepsInv(c, ss, acts, j);
    var s, d := ss[j], acts[j].did;
    assert Enabled(c, s, acts[j]) && RemoverOk(c, s, d);
    assert ChainOk(s, DropBucket(c, s, d, s.rem[d].phase.t));
  }

  /** One remove, from its read of ht->tbl on. */
  ghost predicate SameRemove(acts: seq<Action>, d: Tid, i: nat, j: nat) {
    && i < j <= |acts| && acts[i] == DRead(d)
    && forall n :: i < n < j ==> !(acts[n].DStart? && acts[n].did == d)
  }

  /** A remover that finds no further table has not passed its entry. */
  lemma GivesUp(c: Config, s: State, d: Tid)
    requires Inv(c, s) && d in s.rem && s.rem[d].phase.Onward? && Future(s, s.rem[d].phase.t).None?
    ensures s.rem[d].obj !in s.home
  {
    assert RemoverOk(c, s, d);
    assert s.rem[d].obj in s.home ==> ElemOk(c, s, s.rem[d].obj);
  }

  /** The record of a remover between two of its own starts. */
  lemma RemoveStep(c: Config, s: State, a: Action, d: Tid)
    requires Enabled(c, s, a) && d in s.rem && !(a.DStart? && a.did == d)
    ensures var s' := Apply(c, s, a);
            && d in s'.rem && s'.rem[d].obj == s.rem[d].obj
            && (s'.rem[d].phase == Dropped(false) ==>
                  s.rem[d].phase == Dropped(false) || (s.rem[d].phase.Onward? && Future(s, s.rem[d].phase.t).None?))
  {
    if OfInserter(a) {
      InserterStep(c, s, a);
    } else if OfReader(a) {
      ReaderStep(c, s, a);
    } else if OfWorker(a) {
      WorkerStep(c, s, a);
    }
  }

  /** From one state to the next, as far as remover d and its entry e are concerned. */
  ghost predicate Removing(s: State, s': State, d: Tid, e: Elem) {
    d in s.rem && s.rem[d].obj == e ==>
      && d in s'.rem && s'.rem[d].obj == e
      && (s'.rem[d].phase == Dropped(false) ==> s.rem[d].phase == Dropped(false) || e !in s.home)
  }

  lemma {:induction false} RemovingAlong(ss: seq<State>, d: Tid, e: Elem, i: nat, j: nat)
    requires i <= j < |ss| && d in ss[i].rem && ss[i].rem[d].obj == e && ss[i].rem[d].phase != Dropped(false) && e in ss[i].home
    requires forall n :: i <= n < j ==> Removing(ss[n], ss[n + 1], d, e) && Onwards(ss[n], ss[n + 1], e)
    ensures d in ss[j].rem && ss[j].rem[d].obj == e && (e in ss[j].home || e in ss[j].gone)
    ensures ss[j].rem[d].phase == Dropped(false) ==> e in ss[j].gone
    decreases j - i
  {
    if i < j {
      RemovingAlong(ss, d, e, i, j - 1);
      assert Removing(ss[j - 1], ss[j - 1 + 1], d, e);
    }
  }

  /** A remove of an entry that was linked when it read ht->tbl returns -ENOENT only if another
      remove has taken the entry, whatever inserters, the worker and other removers do meanwhile. */
  lemma RemoveFindsLinked(c: Config, ss: seq<State>, acts: seq<Action>, d: Tid, i: nat, j: nat)
    requires ValidConfig(c) && Run(c, ss, acts) && SameRemove(acts, d, i, j)
    ensures d in ss[i].rem
    ensures ss[i].rem[d].obj in ss[i].home ==>
              d in ss[j].rem && (ss[j].rem[d].phase == Dropped(false) ==> ss[i].rem[d].obj in ss[j].gone)
  {
    RemoveBegins(c, ss, acts, d, i);
    var e := ss[i].rem[d].obj;
    if e in ss[i].home {
      forall n | i <= n < j ensures Removing(ss[n], ss[n + 1], d, e) && Onwards(ss[n], ss[n + 1], e) {
        OnwardsAt(c, ss, acts, n, e);
        if d in ss[n].rem { RemoveAt(c, ss, acts, d, n); }
      }
      RemovingAlong(ss, d, e, i, j);
    }
  }

  lemma RemoveBegins(c: Config, ss: seq<State>, acts: seq<Action>, d: Tid, i: nat)
    requires Run(c, ss, acts) && i < |acts| && acts[i] == DRead(d)
    ensures d in ss[i].rem && ss[i].rem[d].phase.Starting?
  {
    assert Enabled(c, ss[i], acts[i]);
  }

  lemma RemoveAt(c: Config, ss: seq<State>, acts: seq<Action>, d: Tid, j: nat)
    requires ValidConfig(c) && Run(c, ss, acts) && j < |acts| && d in ss[j].rem && !(acts[j].DStart? && acts[j].did == d)
    ensures d in ss[j + 1].rem && ss[j + 1].rem[d].obj == ss[j].rem[d].obj
    ensures ss[j + 1].rem[d].phase == Dropped(false) ==> ss[j].rem[d].phase == Dropped(false) || ss[j].rem[d].obj !in ss[j].home
  {
    var s := ss[j];
    assert Enabled(c, s, acts[j]);
    RemoveStep(c, s, acts[j], d);
    RunKeepsInv(c, ss, acts, j);
    if s.rem[d].phase.Onward? && Future(s, s.rem[d].phase.t).None? { GivesUp(c, s, d); }
  }

  // ----- lookup -----

  /** From the moment a reader reads ht->tbl until it starts a new lookup. */
  ghost predicate SameLookup(acts: seq<Action>, rid: Tid, i: nat, j: nat) {
    && i < j <= |acts| && acts[i] == REnter(rid)
    && forall n :: i < n < j ==> !(acts[n].RStart? && acts[n].rid == rid)
  }

  /** The record of a reader in the middle of a lookup. */
  ghost predicate Continues(s: State, s': State, a: Action, rid: Tid) {
    && rid in s.rdr && rid in s'.rdr && !s'.rdr[rid].look.Enter?
    && s'.rdr[rid].key == s.rdr[rid].key && s'.rdr[rid].since == s.rdr[rid].since
    && s'.rdr[rid].must == (if a.DCut? && a.did in s.rem then s.rdr[rid].must - {s.rem[a.did].obj} else s.rdr[rid].must)
  }

  lemma LookupStep(c: Config, s: State, a: Action, rid: Tid)
    requires Enabled(c, s, a) && rid in s.rdr && !s.rdr[rid].look.Enter? && !(a.RStart? && a.rid == rid)
    ensures Continues(s, Apply(c, s, a), a, rid)
  {
    if OfInserter(a) {
      InserterStep(c, s, a);
    } else if OfReader(a) {
      ReadingStep(c, s, a, rid);
    } else if OfWorker(a) {
      WorkerStep(c, s, a);
    } else if !a.DCut? {
      RemoverStep(c, s, a);
    }
  }

  lemma ReadingStep(c: Config, s: State, a: Action, rid: Tid)
    requires Enabled(c, s, a) && OfReader(a) && rid in s.rdr && !s.rdr[rid].look.Enter? && !(a.RStart? && a.rid == rid)
    ensures Continues(s, Apply(c, s, a), a, rid)
  {
    if a.RStart? || a.REnter? {
      OthersBegin(c, s, a, rid);
    } else if a.ROpen? {
      OpenOn(c, s, a, rid);
    } else {
      ReadOn(c, s, a, rid);
    }
  }

  lemma OthersBegin(c: Config, s: State, a: Action, rid: Tid)
    requires Enabled(c, s, a) && (a.RStart? || a.REnter?) && rid in s.rdr && !s.rdr[rid].look.Enter? && !(a.RStart? && a.rid == rid)
    ensures Continues(s, Apply(c, s, a), a, rid)
  {
  }

  lemma OpenOn(c: Config, s: State, a: Action, rid: Tid)
    requires Enabled(c, s, a) && a.ROpen? && rid in s.rdr && !s.rdr[rid].look.Enter?
    ensures Continues(s, Apply(c, s, a), a, rid)
  {
  }

  lemma ReadOn(c: Config, s: State, a: Action, rid: Tid)
    requires Enabled(c, s, a) && (a.RFollow? || a.RFuture?) && rid in s.rdr && !s.rdr[rid].look.Enter?
    ensures Continues(s, Apply(c, s, a), a, rid)
  {
  }

  /** What a lookup that began with the entries `home` linked and n entries removed knows. */
  ghost predicate Answers(c: Config, s: State, rid: Tid, k: Key, home: set<Elem>, n: nat) {
    && rid in s.rdr && !s.rdr[rid].look.Enter? && s.rdr[rid].key == k && s.rdr[rid].since == n
    && s.rdr[rid].must == set x <- home | c.key(x) == k && x !in s.gone
  }

  lemma AnswersBegins(c: Config, ss: seq<State>, acts: seq<Action>, rid: Tid, i: nat)
    requires ValidConfig(c) && Run(c, ss, acts) && i < |acts| && acts[i] == REnter(rid)
    ensures rid in ss[i].rdr && Answers(c, ss[i + 1], rid, ss[i].rdr[rid].key, ss[i].home.Keys, |ss[i].gone|)
  {
    RunKeepsInv(c, ss, acts, i);
    assert Enabled(c, ss[i], acts[i]);
    ReaderStep(c, ss[i], acts[i]);
  }

  lemma AnswersStep(c: Config, ss: seq<State>, acts: seq<Action>, rid: Tid, k: Key, home: set<Elem>, n: nat, j: nat)
    requires Run(c, ss, acts) && j < |acts| && !(acts[j].RStart? && acts[j].rid == rid) && Answers(c, ss[j], rid, k, home, n)
    ensures Answers(c, ss[j + 1], rid, k, home, n)
  {
    assert Enabled(c, ss[j], acts[j]);
    LookupStep(c, ss[j], acts[j], rid);
    GoneStep(c, ss[j], acts[j]);
  }

  lemma {:induction false} AnswersAlong(c: Config, ss: seq<State>, rid: Tid, k: Key, home: set<Elem>, n: nat, i: nat, j: nat)
    requires i <= j < |ss| && Answers(c, ss[i], rid, k, home, n)
    requires forall m :: i <= m < j && Answers(c, ss[m], rid, k, home, n) ==> Answers(c, ss[m + 1], rid, k, home, n)
    ensures Answers(c, ss[j], rid, k, home, n)
    decreases j - i
  {
    if i < j { AnswersAlong(c, ss, rid, k, home, n, i, j - 1); }
  }

  /** The entries a lookup is answerable for: those linked with its key when it read ht->tbl that
      have not been removed since. */
  lemma MustStays(c: Config, ss: seq<State>, acts: seq<Action>, rid: Tid, i: nat, j: nat)
    requires ValidConfig(c) && Run(c, ss, acts) && SameLookup(acts, rid, i, j)
    ensures rid in ss[i].rdr && Answers(c, ss[j], rid, ss[i].rdr[rid].key, ss[i].home.Keys, |ss[i].gone|)
  {
    AnswersBegins(c, ss, acts, rid, i);
    var k, home, n := ss[i].rdr[rid].key, ss[i].home.Keys, |ss[i].gone|;
    forall m | i + 1 <= m < j && Answers(c, ss[m], rid, k, home, n) ensures Answers(c, ss[m + 1], rid, k, home, n) {
      AnswersStep(c, ss, acts, rid, k, home, n, m);
    }
    AnswersAlong(c, ss, rid, k, home, n, i + 1, j);
  }

  /** A lock-free lookup reports a miss only if every entry with its key that was linked when it
      started has been removed since; one that reports a hit returns an entry with its key that was
      linked at some time since then. */
  lemma ReaderNeverMisses(c: Config, ss: seq<State>, acts: seq<Action>, rid: Tid, i: nat, j: nat)
    requires ValidConfig(c) && Run(c, ss, acts) && SameLookup(acts, rid, i, j)
    ensures rid in ss[i].rdr && rid in ss[j].rdr
    ensures ss[j].rdr[rid].look.Miss? ==>
              forall x :: x in ss[i].home && c.key(x) == ss[i].rdr[rid].key ==> x in ss[j].gone
    ensures ss[j].rdr[rid].look.Hit? ==>
              var y := ss[j].rdr[rid].look.found; c.key(y) == ss[i].rdr[rid].key && Met(ss[j], y, |ss[i].gone|)
  {
    MustStays(c, ss, acts, rid, i, j);
    RunKeepsInv(c, ss, acts, j);
    assert ReaderOk(c, ss[j], rid);
    if ss[j].rdr[rid].look.Miss? {
      forall x | x in ss[i].home && c.key(x) == ss[i].rdr[rid].key ensures x in ss[j].gone {
        assert x !in ss[j].rdr[rid].must;
      }
    }
  }
}
