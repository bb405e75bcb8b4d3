/** Every atomic step of the hash table protocol keeps the invariant, and what a step of each kind
    of thread leaves alone. */
module RhashSteps {
  import opened Wrappers
  import opened RhashModel
  import opened RhashProof
  import opened RhashMove
  import opened RhashDrop

  lemma InserterStepKeepsInv(c: Config, s: State, a: Action)
    requires Inv(c, s) && Enabled(c, s, a) && OfInserter(a)
    ensures Inv(c, Apply(c, s, a))
  {
    match a
    case IStart(tid, obj) => KeepIStart(c, s, tid, obj);
    case IRead(tid) => KeepIRead(c, s, tid);
    case ILock(tid) => KeepILock(c, s, tid);
    case IPeek(tid) => KeepIPeek(c, s, tid);
    case IScan(tid) => KeepIScan(c, s, tid);
    case IDecide(tid, full, crowded) => KeepIDecide(c, s, tid, full, crowded);
    case IPrime(tid) => KeepIPrime(c, s, tid);
    case ILink(tid) => KeepILink(c, s, tid);
    case IUnlock(tid) => KeepIUnlock(c, s, tid);
    case IGrow(tid, size, seed, fail) => KeepIGrow(c, s, tid, size, seed, fail);
  }

  lemma WorkerStepKeepsInv(c: Config, s: State, a: Action)
    requires ValidConfig(c) && Inv(c, s) && Enabled(c, s, a) && OfWorker(a)
    ensures Inv(c, Apply(c, s, a))
  {
    match a
    case WAttach(at, size, seed) => KeepAttach(c, s, at, size, seed);
    case WBegin => KeepWBegin(c, s);
    case WLock => KeepWLock(c, s);
    case WWalk => KeepWWalk(c, s);
    case WSweep => KeepWSweep(c, s);
    case WLockNew => KeepWLockNew(c, s);
    case WRepoint => KeepWRepoint(c, s);
    case WJoin => KeepWJoin(c, s);
    case WUnlink => KeepWUnlink(c, s);
    case WRelease => KeepWRelease(c, s);
    case WPublish => KeepWPublish(c, s);
  }

  lemma RemoverStepKeepsInv(c: Config, s: State, a: Action)
    requires Inv(c, s) && Enabled(c, s, a) && OfRemover(a)
    ensures Inv(c, Apply(c, s, a))
  {
    match a
    case DStart(d, e) => KeepDStart(c, s, d, e);
    case DRead(d) => KeepDRead(c, s, d);
    case DLock(d) => KeepDLock(c, s, d);
    case DSeek(d) => KeepDSeek(c, s, d);
    case DCut(d) => KeepDCut(c, s, d);
    case DUnlock(d) => KeepDUnlock(c, s, d);
    case DNext(d) => KeepDNext(c, s, d);
  }

  lemma ReaderStepKeepsInv(c: Config, s: State, a: Action)
    requires Inv(c, s) && Enabled(c, s, a) && OfReader(a)
    ensures Inv(c, Apply(c, s, a))
  {
    match a
    case RStart(rid, k) => KeepRStart(c, s, rid, k);
    case REnter(rid) => KeepREnter(c, s, rid);
    case ROpen(rid) => KeepROpen(c, s, rid);
    case RFollow(rid) => KeepRFollow(c, s, rid);
    case RFuture(rid) => KeepRFuture(c, s, rid);
  }

  /** Every atomic step of any thread keeps the invariant. */
  lemma StepKeepsInv(c: Config, s: State, a: Action)
    requires ValidConfig(c) && Inv(c, s) && Enabled(c, s, a)
    ensures Inv(c, Apply(c, s, a))
  {
    if OfInserter(a) {
      InserterStepKeepsInv(c, s, a);
    } else if OfReader(a) {
      ReaderStepKeepsInv(c, s, a);
    } else if OfRemover(a) {
      RemoverStepKeepsInv(c, s, a);
    } else {
      WorkerStepKeepsInv(c, s, a);
    }
  }

  // ----- what a step leaves alone -----

  lemma InserterStep(c: Config, s: State, a: Action)
    requires Enabled(c, s, a) && OfInserter(a)
    ensures var s' := Apply(c, s, a);
            s'.rdr == s.rdr && s'.rem == s.rem && s'.gone == s.gone && (!a.ILink? ==> s'.home == s.home)
  {
  }

  lemma WorkerStep(c: Config, s: State, a: Action)
    requires Enabled(c, s, a) && OfWorker(a)
    ensures var s' := Apply(c, s, a);
            s'.rdr == s.rdr && s'.rem == s.rem && s'.gone == s.gone && (!a.WJoin? ==> s'.home == s.home)
  {
  }

  lemma ReaderStep(c: Config, s: State, a: Action)
    requires Enabled(c, s, a) && OfReader(a)
    ensures var s' := Apply(c, s, a); s'.rem == s.rem && s'.gone == s.gone && s'.home == s.home
  {
  }

  lemma RemoverStep(c: Config, s: State, a: Action)
    requires Enabled(c, s, a) && OfRemover(a) && !a.DCut?
    ensures var s' := Apply(c, s, a); s'.rdr == s.rdr && s'.gone == s.gone && s'.home == s.home
  {
  }

  /** Only a cut adds to the removed entries. */
  lemma GoneStep(c: Config, s: State, a: Action)
    requires Enabled(c, s, a)
    ensures var s' := Apply(c, s, a);
            s'.gone == if a.DCut? then s.gone + [s.rem[a.did].obj] else s.gone
  {
    if OfInserter(a) {
      InserterStep(c, s, a);
    } else if OfReader(a) {
      ReaderStep(c, s, a);
    } else if OfRemover(a) {
      if !a.DCut? { RemoverStep(c, s, a); }
    } else {
      WorkerStep(c, s, a);
    }
  }

  /** A linked entry stays linked and only moves forward along the chain of tables, until it is cut
      out. */
  lemma HomeStep(c: Config, s: State, a: Action, e: Elem)
    requires Inv(c, s) && Enabled(c, s, a) && e in s.home
    ensures var s' := Apply(c, s, a);
            (e in s'.home && s'.home[e].tbl >= s.home[e].tbl) || (e in s'.gone && a.DCut? && s.rem[a.did].obj == e)
  {
    if OfInserter(a) {
      InserterStep(c, s, a);
      if a.ILink? { assert InserterOk(c, s, a.tid); }
    } else if OfReader(a) {
      ReaderStep(c, s, a);
    } else if OfRemover(a) {
      if a.DCut? { CutHomeStep(c, s, a, e); } else { RemoverStep(c, s, a); }
    } else {
      WorkerStep(c, s, a);
      if a.WJoin? { JoinIsMove(c, s); }
    }
  }

  lemma CutHomeStep(c: Config, s: State, a: Action, e: Elem)
    requires a.DCut? && Enabled(c, s, a) && e in s.home
    ensures var s' := Apply(c, s, a); if s.rem[a.did].obj == e then e in s'.gone else e in s'.home && s'.home[e] == s.home[e]
  {
    assert s.rem[a.did].obj in s.gone + [s.rem[a.did].obj];
  }
}
