/** The resizable hash table of compat/lib-rhashtable.c as a concurrent protocol.

    Tables form a chain through `future`.  Inserters and removers walk the chain under
    per-bucket locks, one rehash worker drains the oldest table into the last one, and readers
    take no lock.  Every transition below is one access to shared memory (a lock operation, a
    pointer read or a pointer write); memory is sequentially consistent and every bucket
    table is flat.  The resize policy (load factors, elasticity limits on the element
    count, allocation failure) is left to nondeterministic choices, so that each run of
    the code is a run of this model. */
module RhashModel {
  import opened Wrappers

  type Elem = nat
  type Key = int
  type Tid = nat

  /** A bucket: table number (in order of attachment) and bucket index. */
  datatype Slot = Slot(tbl: nat, idx: nat)

  /** A chain pointer: an entry, or the nulls marker that names the bucket it ends. */
  datatype Ptr = At(elem: Elem) | Nulls(slot: Slot)

  datatype Table = Table(size: nat, seed: nat, future: Option<nat>)

  /** The key of each object and the bucket index of a key in a table. */
  datatype Config = Config(key: Elem -> Key, index: (nat, nat, Key) -> nat)

  datatype Owner = ByWorker | ByInserter(tid: Tid) | ByRemover(tid: Tid)

  // ----- rhashtable_rehash_table and its helpers -----

  /** The entry being moved: target table, predecessor in the old chain, the entry, and
      the pointer that followed it. */
  datatype Move = Move(dst: nat, prev: Option<Elem>, entry: Elem, after: Ptr)

  datatype Worker =
    | Idle
    | Drain(h: nat, succ: nat)                      // next: lock bucket h, or publish
    | Held(h: nat, succ: nat)                       // bucket h locked
    | Walk(h: nat, succ: nat, c: nat)               // rhashtable_last_table at table c
    | Sweep(h: nat, succ: nat, dst: nat, prev: Option<Elem>, cur: Ptr, n: nat)
    | Picked(h: nat, succ: nat, m: Move)            // last entry of the chain found
    | Both(h: nat, succ: nat, m: Move)              // target bucket locked as well
    | Repointed(h: nat, succ: nat, m: Move)         // entry->next = head of target
    | Joined(h: nat, succ: nat, m: Move)            // entry is head of target, unlocked
    | Emptied(h: nat, succ: nat)                    // chain empty: next unlock bucket h

  // ----- __rhashtable_insert_fast, rhashtable_insert_slow -----

  datatype After = Advance(to: nat) | Restart | Grow | Fail | Exists(found: Elem)

  datatype Phase =
    | Begin(fast: bool)                             // next: read ht->tbl
    | Arrive(t: nat, fast: bool)                    // next: lock the bucket
    | Peek(t: nat)                                  // fast path: next read future
    | Scan(t: nat, cur: Ptr, n: nat, fast: bool)    // chain cursor, entries examined
    | Missed(t: nat, n: nat, fast: bool)            // no entry has the key
    | Clear(t: nat)                                 // future read as NULL: next write obj->next
    | Primed(t: nat)                                // next: publish obj as bucket head
    | Linked(t: nat)                                // next: unlock
    | Leave(t: nat, exit: After)                    // next: unlock, then continue
    | Rehash(t: nat)                                // rhashtable_insert_rehash
    | Done(ok: bool)

  datatype Inserter = Inserter(obj: Elem, phase: Phase)

  // ----- __rhashtable_remove_fast -----

  datatype Drop =
    | Starting                                      // next: read ht->tbl
    | Nearing(t: nat)                               // next: lock the bucket
    | Seeking(t: nat, prev: Option<Elem>, cur: Ptr, n: nat)
    | Cutting(t: nat, prev: Option<Elem>, after: Ptr, n: nat)  // entry found, its next read
    | Leaving(t: nat, took: bool)                   // next: unlock
    | Onward(t: nat)                                // next: read future
    | Dropped(ok: bool)                             // 0 or -ENOENT

  datatype Remover = Remover(obj: Elem, phase: Drop)

  // ----- __rhashtable_lookup -----

  datatype Look =
    | Enter                                         // next: read ht->tbl
    | OpenBucket(t: nat)                            // next: read the bucket head
    | Follow(t: nat, cur: Ptr)                      // walking the chain
    | AtEnd(t: nat)                                 // own marker seen: next read future
    | Hit(found: Elem)
    | Miss

  /** `must` and `since` are auxiliary: the linked entries with the key when the reader read
      ht->tbl, as far as they have not been removed, and how many entries had been removed then. */
  datatype Reader = Reader(key: Key, look: Look, must: set<Elem>, since: nat)

  /** `chain`, `home` and `gone` are auxiliary: the logical contents of each bucket, the bucket
      of each linked entry, and the removed entries in the order of their removal. */
  datatype State = State(
    tables: seq<Table>,
    first: nat,                                     // ht->tbl
    head: map<Slot, Ptr>,
    next: map<Elem, Ptr>,
    lock: map<Slot, Owner>,
    worker: Worker,
    ins: map<Tid, Inserter>,
    rdr: map<Tid, Reader>,
    rem: map<Tid, Remover>,
    chain: map<Slot, seq<Elem>>,
    home: map<Elem, Slot>,
    gone: seq<Elem>)

  function Head(s: State, b: Slot): Ptr {
    if b in s.head then s.head[b] else Nulls(b)
  }

  function Next(s: State, e: Elem): Ptr {
    if e in s.next then s.next[e] else Nulls(Slot(0, 0))
  }

  function Chain(s: State, b: Slot): seq<Elem> {
    if b in s.chain then s.chain[b] else []
  }

  function Future(s: State, t: nat): Option<nat> {
    if t < |s.tables| then s.tables[t].future else None
  }

  /** The bucket of key k in table t. */
  function SlotOf(c: Config, tables: seq<Table>, t: nat, k: Key): Slot {
    if t < |tables| then Slot(t, c.index(tables[t].size, tables[t].seed, k)) else Slot(t, 0)
  }

  function Unlock(lock: map<Slot, Owner>, b: Slot): map<Slot, Owner> {
    lock - {b}
  }

  /** rhashtable_rehash_attach: compare-and-swap on future_tbl of table t. */
  function Attach(tables: seq<Table>, t: nat, size: nat, seed: nat): seq<Table> {
    if t < |tables| && tables[t].future.None? then
      tables[t := tables[t].(future := Some(|tables|))] + [Table(size, seed, None)]
    else tables
  }

  datatype Action =
    | IStart(tid: Tid, obj: Elem)
    | IRead(tid: Tid)
    | ILock(tid: Tid)
    | IPeek(tid: Tid)
    | IScan(tid: Tid)
    | IDecide(tid: Tid, full: bool, crowded: bool)
    | IPrime(tid: Tid)
    | ILink(tid: Tid)
    | IUnlock(tid: Tid)
    | IGrow(tid: Tid, size: nat, seed: nat, fail: bool)
    | WAttach(at: nat, size: nat, seed: nat)
    | WBegin
    | WLock
    | WWalk
    | WSweep
    | WLockNew
    | WRepoint
    | WJoin
    | WUnlink
    | WRelease
    | WPublish
    | DStart(did: Tid, entry: Elem)
    | DRead(did: Tid)
    | DLock(did: Tid)
    | DSeek(did: Tid)
    | DCut(did: Tid)
    | DUnlock(did: Tid)
    | DNext(did: Tid)
    | RStart(rid: Tid, key: Key)
    | REnter(rid: Tid)
    | ROpen(rid: Tid)
    | RFollow(rid: Tid)
    | RFuture(rid: Tid)

  predicate OfInserter(a: Action) {
    a.IStart? || a.IRead? || a.ILock? || a.IPeek? || a.IScan? || a.IDecide? || a.IPrime? || a.ILink? || a.IUnlock? || a.IGrow?
  }

  predicate OfRemover(a: Action) {
    a.DStart? || a.DRead? || a.DLock? || a.DSeek? || a.DCut? || a.DUnlock? || a.DNext?
  }

  predicate OfWorker(a: Action) {
    a.WAttach? || a.WBegin? || a.WLock? || a.WWalk? || a.WSweep? || a.WLockNew? || a.WRepoint? || a.WJoin? || a.WUnlink? ||
    a.WRelease? || a.WPublish?
  }

  predicate OfReader(a: Action) {
    a.RStart? || a.REnter? || a.ROpen? || a.RFollow? || a.RFuture?
  }

  const RHT_ELASTICITY: nat := 16

  /** An object may be inserted if it is not linked, has not been removed from this table, and is
      not being inserted or removed. */
  predicate Fresh(s: State, tid: Tid, obj: Elem) {
    && (tid in s.ins ==> s.ins[tid].phase.Done?)
    && obj !in s.home && obj !in s.gone
    && (forall u <- s.ins :: !s.ins[u].phase.Done? ==> s.ins[u].obj != obj)
    && (forall d <- s.rem :: !s.rem[d].phase.Dropped? ==> s.rem[d].obj != obj)
  }

  /** The bucket a remover at table t works on. */
  function DropBucket(c: Config, s: State, d: Tid, t: nat): Slot
    requires d in s.rem
  {
    SlotOf(c, s.tables, t, c.key(s.rem[d].obj))
  }

  /** The bucket an inserter at table t works on. */
  function Bucket(c: Config, s: State, tid: Tid, t: nat): Slot
    requires tid in s.ins
  {
    SlotOf(c, s.tables, t, c.key(s.ins[tid].obj))
  }

  /** The bucket the worker moves its entry to. */
  function Target(c: Config, s: State, m: Move): Slot {
    SlotOf(c, s.tables, m.dst, c.key(m.entry))
  }

  predicate Enabled(c: Config, s: State, a: Action) {
    match a
    case IStart(tid, obj) => Fresh(s, tid, obj)
    case IRead(tid) => tid in s.ins && s.ins[tid].phase.Begin?
    case ILock(tid) =>
      tid in s.ins && s.ins[tid].phase.Arrive? && Bucket(c, s, tid, s.ins[tid].phase.t) !in s.lock
    case IPeek(tid) => tid in s.ins && s.ins[tid].phase.Peek?
    case IScan(tid) => tid in s.ins && s.ins[tid].phase.Scan?
    case IDecide(tid, _, _) => tid in s.ins && s.ins[tid].phase.Missed?
    case IPrime(tid) => tid in s.ins && s.ins[tid].phase.Clear?
    case ILink(tid) => tid in s.ins && s.ins[tid].phase.Primed?
    case IUnlock(tid) => tid in s.ins && (s.ins[tid].phase.Linked? || s.ins[tid].phase.Leave?)
    case IGrow(tid, size, _, _) => tid in s.ins && s.ins[tid].phase.Rehash? && size > 0
    case WAttach(at, size, _) => s.worker.Idle? && size > 0
    case WBegin => s.worker.Idle? && Future(s, s.first).Some?
    case WLock =>
      && s.worker.Drain? && s.first < |s.tables| && s.worker.h < s.tables[s.first].size
      && Slot(s.first, s.worker.h) !in s.lock
    case WWalk => s.worker.Held? || s.worker.Walk?
    case WSweep => s.worker.Sweep?
    case WLockNew => s.worker.Picked? && Target(c, s, s.worker.m) !in s.lock
    case WRepoint => s.worker.Both?
    case WJoin => s.worker.Repointed?
    case WUnlink => s.worker.Joined?
    case WRelease => s.worker.Emptied?
    case WPublish => s.worker.Drain? && s.first < |s.tables| && s.worker.h >= s.tables[s.first].size
    case DStart(d, e) =>
      && (d in s.rem ==> s.rem[d].phase.Dropped?)
      && (forall u <- s.ins :: !s.ins[u].phase.Done? ==> s.ins[u].obj != e)
    case DRead(d) => d in s.rem && s.rem[d].phase.Starting?
    case DLock(d) => d in s.rem && s.rem[d].phase.Nearing? && DropBucket(c, s, d, s.rem[d].phase.t) !in s.lock
    case DSeek(d) => d in s.rem && s.rem[d].phase.Seeking?
    case DCut(d) => d in s.rem && s.rem[d].phase.Cutting?
    case DUnlock(d) => d in s.rem && s.rem[d].phase.Leaving?
    case DNext(d) => d in s.rem && s.rem[d].phase.Onward?
    case RStart(rid, _) => rid in s.rdr ==> s.rdr[rid].look.Hit? || s.rdr[rid].look.Miss?
    case REnter(rid) => rid in s.rdr && s.rdr[rid].look.Enter?
    case ROpen(rid) => rid in s.rdr && s.rdr[rid].look.OpenBucket?
    case RFollow(rid) => rid in s.rdr && s.rdr[rid].look.Follow?
    case RFuture(rid) => rid in s.rdr && s.rdr[rid].look.AtEnd?
  }

  function Go(s: State, tid: Tid, p: Phase): State
    requires tid in s.ins
  {
    s.(ins := s.ins[tid := s.ins[tid].(phase := p)])
  }

  function DropOn(s: State, d: Tid, p: Drop): State
    requires d in s.rem
  {
    s.(rem := s.rem[d := s.rem[d].(phase := p)])
  }

  /** One step of the search for the object under the bucket lock. */
  function SeekNext(s: State, obj: Elem, p: Drop): Drop
    requires p.Seeking?
  {
    match p.cur
    case Nulls(_) => Leaving(p.t, false)
    case At(e) => if e == obj then Cutting(p.t, p.prev, Next(s, e), p.n)
                  else Seeking(p.t, Some(e), Next(s, e), p.n + 1)
  }

  /** Readers are no longer answerable for a removed entry. */
  function Forget(rdr: map<Tid, Reader>, e: Elem): map<Tid, Reader> {
    map r <- rdr :: rdr[r].(must := rdr[r].must - {e})
  }

  function Without(l: seq<Elem>, n: nat): seq<Elem> {
    if n < |l| then l[..n] + l[n + 1..] else l
  }

  function LookOn(s: State, rid: Tid, l: Look): State
    requires rid in s.rdr
  {
    s.(rdr := s.rdr[rid := s.rdr[rid].(look := l)])
  }

  /** One step of rhashtable_lookup_one for an object with key k. */
  function ScanNext(c: Config, s: State, k: Key, p: Phase): Phase
    requires p.Scan?
  {
    match p.cur
    case Nulls(_) => Missed(p.t, p.n, p.fast)
    case At(y) => if c.key(y) == k then Leave(p.t, Exists(y)) else Scan(p.t, Next(s, y), p.n + 1, p.fast)
  }

  /** rhashtable_insert_one up to the link: `full` is rht_grow_above_max, `crowded`
      rht_grow_above_100.  The fast path has already read future_tbl. */
  function DecideNext(s: State, p: Phase, full: bool, crowded: bool): Phase
    requires p.Missed?
  {
    var again := if p.fast then Restart else Grow;
    if !p.fast && Future(s, p.t).Some? then Leave(p.t, Advance(Future(s, p.t).value))
    else if p.n >= RHT_ELASTICITY then Leave(p.t, again)
    else if full then Leave(p.t, Fail)
    else if crowded then Leave(p.t, again)
    else Clear(p.t)
  }

  function UnlockNext(p: Phase): Phase
    requires p.Linked? || p.Leave?
  {
    if p.Linked? then Done(true)
    else match p.exit
      case Advance(to) => Arrive(to, false)
      case Restart => Begin(false)
      case Grow => Rehash(p.t)
      case Fail => Done(false)
      case Exists(_) => Done(false)
  }

  /** One step of the loop that finds the last entry of the old chain. */
  function SweepNext(s: State, w: Worker): Worker
    requires w.Sweep?
  {
    match w.cur
    case Nulls(_) => Emptied(w.h, w.succ)
    case At(e) =>
      if Next(s, e).Nulls? then Picked(w.h, w.succ, Move(w.dst, w.prev, e, Next(s, e)))
      else Sweep(w.h, w.succ, w.dst, Some(e), Next(s, e), w.n + 1)
  }

  /** One step of rhashtable_last_table. */
  function WalkNext(s: State, w: Worker): Worker
    requires w.Held? || w.Walk?
  {
    if w.Held? then Walk(w.h, w.succ, s.first)
    else match Future(s, w.c)
      case Some(t) => Walk(w.h, w.succ, t)
      case None => Sweep(w.h, w.succ, w.c, None, Head(s, Slot(s.first, w.h)), 0)
  }

  function DropLast(l: seq<Elem>): seq<Elem> {
    if l == [] then [] else l[..|l| - 1]
  }

  function FollowNext(c: Config, s: State, k: Key, l: Look): Look
    requires l.Follow?
  {
    match l.cur
    case At(y) => if c.key(y) == k then Hit(y) else Follow(l.t, Next(s, y))
    case Nulls(b) => if b == SlotOf(c, s.tables, l.t, k) then AtEnd(l.t) else OpenBucket(l.t)
  }

  function OnILock(c: Config, s: State, tid: Tid): State
    requires tid in s.ins && s.ins[tid].phase.Arrive?
  {
    var Arrive(t, fast) := s.ins[tid].phase;
    var b := Bucket(c, s, tid, t);
    var s1 := s.(lock := s.lock[b := ByInserter(tid)]);
    Go(s1, tid, if fast then Peek(t) else Scan(t, Head(s, b), 0, false))
  }

  function OnIPeek(c: Config, s: State, tid: Tid): State
    requires tid in s.ins && s.ins[tid].phase.Peek?
  {
    var t := s.ins[tid].phase.t;
    Go(s, tid, if Future(s, t).Some? then Leave(t, Restart)
               else Scan(t, Head(s, Bucket(c, s, tid, t)), 0, true))
  }

  function OnIPrime(c: Config, s: State, tid: Tid): State
    requires tid in s.ins && s.ins[tid].phase.Clear?
  {
    var t := s.ins[tid].phase.t;
    Go(s.(next := s.next[s.ins[tid].obj := Head(s, Bucket(c, s, tid, t))]), tid, Primed(t))
  }

  function OnILink(c: Config, s: State, tid: Tid): State
    requires tid in s.ins && s.ins[tid].phase.Primed?
  {
    var t, o := s.ins[tid].phase.t, s.ins[tid].obj;
    var b := Bucket(c, s, tid, t);
    Go(s.(head := s.head[b := At(o)], chain := s.chain[b := [o] + Chain(s, b)], home := s.home[o := b]),
       tid, Linked(t))
  }

  function OnIUnlock(c: Config, s: State, tid: Tid): State
    requires tid in s.ins && (s.ins[tid].phase.Linked? || s.ins[tid].phase.Leave?)
  {
    var p := s.ins[tid].phase;
    Go(s.(lock := Unlock(s.lock, Bucket(c, s, tid, p.t))), tid, UnlockNext(p))
  }

  function OnIGrow(s: State, tid: Tid, size: nat, seed: nat, fail: bool): State
    requires tid in s.ins && s.ins[tid].phase.Rehash?
  {
    Go(s.(tables := if fail then s.tables else Attach(s.tables, s.ins[tid].phase.t, size, seed)),
       tid, if fail then Done(false) else Begin(false))
  }

  function OnWLock(s: State): State
    requires s.worker.Drain?
  {
    s.(lock := s.lock[Slot(s.first, s.worker.h) := ByWorker], worker := Held(s.worker.h, s.worker.succ))
  }

  function OnWLockNew(c: Config, s: State): State
    requires s.worker.Picked?
  {
    s.(lock := s.lock[Target(c, s, s.worker.m) := ByWorker],
       worker := Both(s.worker.h, s.worker.succ, s.worker.m))
  }

  function OnWRepoint(c: Config, s: State): State
    requires s.worker.Both?
  {
    s.(next := s.next[s.worker.m.entry := Head(s, Target(c, s, s.worker.m))],
       worker := Repointed(s.worker.h, s.worker.succ, s.worker.m))
  }

  function OnWJoin(c: Config, s: State): State
    requires s.worker.Repointed?
  {
    var m := s.worker.m;
    var b, o := Target(c, s, m), Slot(s.first, s.worker.h);
    s.(head := s.head[b := At(m.entry)], lock := Unlock(s.lock, b),
       worker := Joined(s.worker.h, s.worker.succ, m),
       chain := s.chain[o := DropLast(Chain(s, o))][b := [m.entry] + Chain(s, b)],
       home := s.home[m.entry := b])
  }

  function OnWUnlink(s: State): State
    requires s.worker.Joined?
  {
    var m := s.worker.m;
    s.(worker := Held(s.worker.h, s.worker.succ),
       next := if m.prev.Some? then s.next[m.prev.value := m.after] else s.next,
       head := if m.prev.Some? then s.head else s.head[Slot(s.first, s.worker.h) := m.after])
  }

  function OnWRelease(s: State): State
    requires s.worker.Emptied?
  {
    s.(lock := Unlock(s.lock, Slot(s.first, s.worker.h)), worker := Drain(s.worker.h + 1, s.worker.succ))
  }

  function OnDLock(c: Config, s: State, d: Tid): State
    requires d in s.rem && s.rem[d].phase.Nearing?
  {
    var t := s.rem[d].phase.t;
    var b := DropBucket(c, s, d, t);
    DropOn(s.(lock := s.lock[b := ByRemover(d)]), d, Seeking(t, None, Head(s, b), 0))
  }

  function OnDCut(c: Config, s: State, d: Tid): State
    requires d in s.rem && s.rem[d].phase.Cutting?
  {
    var Cutting(t, prev, after, n) := s.rem[d].phase;
    var e, b := s.rem[d].obj, DropBucket(c, s, d, t);
    DropOn(s.(next := if prev.Some? then s.next[prev.value := after] else s.next,
              head := if prev.Some? then s.head else s.head[b := after],
              lock := if prev.Some? then s.lock else Unlock(s.lock, b),
              chain := s.chain[b := Without(Chain(s, b), n)], home := s.home - {e}, gone := s.gone + [e],
              rdr := Forget(s.rdr, e)),
           d, if prev.Some? then Leaving(t, true) else Dropped(true))
  }

  function OnDUnlock(c: Config, s: State, d: Tid): State
    requires d in s.rem && s.rem[d].phase.Leaving?
  {
    var Leaving(t, took) := s.rem[d].phase;
    DropOn(s.(lock := Unlock(s.lock, DropBucket(c, s, d, t))), d, if took then Dropped(true) else Onward(t))
  }

  function OnDNext(c: Config, s: State, d: Tid): State
    requires d in s.rem && s.rem[d].phase.Onward?
  {
    var f := Future(s, s.rem[d].phase.t);
    DropOn(s, d, if f.None? then Dropped(false) else Nearing(f.value))
  }

  function OnREnter(c: Config, s: State, rid: Tid): State
    requires rid in s.rdr
  {
    var k := s.rdr[rid].key;
    s.(rdr := s.rdr[rid := Reader(k, OpenBucket(s.first), set x <- s.home | c.key(x) == k, |s.gone|)])
  }

  function OnROpen(c: Config, s: State, rid: Tid): State
    requires rid in s.rdr && s.rdr[rid].look.OpenBucket?
  {
    var t := s.rdr[rid].look.t;
    LookOn(s, rid, Follow(t, Head(s, SlotOf(c, s.tables, t, s.rdr[rid].key))))
  }

  function OnRFuture(c: Config, s: State, rid: Tid): State
    requires rid in s.rdr && s.rdr[rid].look.AtEnd?
  {
    var f := Future(s, s.rdr[rid].look.t);
    LookOn(s, rid, if f.None? then Miss else OpenBucket(f.value))
  }

  function OnIStart(s: State, tid: Tid, obj: Elem): State
  {
    s.(ins := s.ins[tid := Inserter(obj, Begin(true))])
  }

  function OnIRead(s: State, tid: Tid): State
    requires tid in s.ins && s.ins[tid].phase.Begin?
  {
    Go(s, tid, Arrive(s.first, s.ins[tid].phase.fast))
  }

  function OnIScan(c: Config, s: State, tid: Tid): State
    requires tid in s.ins && s.ins[tid].phase.Scan?
  {
    Go(s, tid, ScanNext(c, s, c.key(s.ins[tid].obj), s.ins[tid].phase))
  }

  function OnIDecide(s: State, tid: Tid, full: bool, crowded: bool): State
    requires tid in s.ins && s.ins[tid].phase.Missed?
  {
    Go(s, tid, DecideNext(s, s.ins[tid].phase, full, crowded))
  }

  function OnWAttach(s: State, at: nat, size: nat, seed: nat): State
  {
    s.(tables := Attach(s.tables, at, size, seed))
  }

  function OnWBegin(s: State): State
    requires Future(s, s.first).Some?
  {
    s.(worker := Drain(0, Future(s, s.first).value))
  }

  function OnWWalk(s: State): State
    requires s.worker.Held? || s.worker.Walk?
  {
    s.(worker := WalkNext(s, s.worker))
  }

  function OnWSweep(s: State): State
    requires s.worker.Sweep?
  {
    s.(worker := SweepNext(s, s.worker))
  }

  function OnWPublish(s: State): State
    requires !s.worker.Idle?
  {
    s.(first := s.worker.succ, worker := Idle)
  }

  function OnDStart(s: State, d: Tid, e: Elem): State
  {
    s.(rem := s.rem[d := Remover(e, Starting)])
  }

  function OnDRead(s: State, d: Tid): State
    requires d in s.rem && s.rem[d].phase.Starting?
  {
    DropOn(s, d, Nearing(s.first))
  }

  function OnDSeek(s: State, d: Tid): State
    requires d in s.rem && s.rem[d].phase.Seeking?
  {
    DropOn(s, d, SeekNext(s, s.rem[d].obj, s.rem[d].phase))
  }

  function OnRStart(s: State, rid: Tid, k: Key): State
  {
    s.(rdr := s.rdr[rid := Reader(k, Enter, {}, 0)])
  }

  function OnRFollow(c: Config, s: State, rid: Tid): State
    requires rid in s.rdr && s.rdr[rid].look.Follow?
  {
    LookOn(s, rid, FollowNext(c, s, s.rdr[rid].key, s.rdr[rid].look))
  }

  /** One atomic step. */
  function Apply(c: Config, s: State, a: Action): State
    requires Enabled(c, s, a)
  {
    match a
    case IStart(tid, obj) => OnIStart(s, tid, obj)
    case IRead(tid) => OnIRead(s, tid)
    case ILock(tid) => OnILock(c, s, tid)
    case IPeek(tid) => OnIPeek(c, s, tid)
    case IScan(tid) => OnIScan(c, s, tid)
    case IDecide(tid, full, crowded) => OnIDecide(s, tid, full, crowded)
    case IPrime(tid) => OnIPrime(c, s, tid)
    case ILink(tid) => OnILink(c, s, tid)
    case IUnlock(tid) => OnIUnlock(c, s, tid)
    case IGrow(tid, size, seed, fail) => OnIGrow(s, tid, size, seed, fail)
    case WAttach(at, size, seed) => OnWAttach(s, at, size, seed)
    case WBegin => OnWBegin(s)
    case WLock => OnWLock(s)
    case WWalk => OnWWalk(s)
    case WSweep => OnWSweep(s)
    case WLockNew => OnWLockNew(c, s)
    case WRepoint => OnWRepoint(c, s)
    case WJoin => OnWJoin(c, s)
    case WUnlink => OnWUnlink(s)
    case WRelease => OnWRelease(s)
    case WPublish => OnWPublish(s)
    case DStart(d, e) => OnDStart(s, d, e)
    case DRead(d) => OnDRead(s, d)
    case DLock(d) => OnDLock(c, s, d)
    case DSeek(d) => OnDSeek(s, d)
    case DCut(d) => OnDCut(c, s, d)
    case DUnlock(d) => OnDUnlock(c, s, d)
    case DNext(d) => OnDNext(c, s, d)
    case RStart(rid, k) => OnRStart(s, rid, k)
    case REnter(rid) => OnREnter(c, s, rid)
    case ROpen(rid) => OnROpen(c, s, rid)
    case RFollow(rid) => OnRFollow(c, s, rid)
    case RFuture(rid) => OnRFuture(c, s, rid)
  }

  predicate Init(s: State) {
    && |s.tables| == 1 && s.tables[0].size > 0 && s.tables[0].future == None
    && s.first == 0 && s.worker == Idle
    && s.head == map[] && s.next == map[] && s.lock == map[] && s.ins == map[]
    && s.rdr == map[] && s.rem == map[] && s.chain == map[] && s.home == map[] && s.gone == []
  }

  /** A run: the initial state, then one action after another. */
  ghost predicate Run(c: Config, ss: seq<State>, acts: seq<Action>) {
    && |ss| == |acts| + 1 && Init(ss[0])
    && (forall i :: 0 <= i < |acts| ==> Enabled(c, ss[i], acts[i]))
    && (forall i :: 0 <= i < |acts| ==> ss[i + 1] == Apply(c, ss[i], acts[i]))
  }
}
