/** Saturating reference counts (compat/lib-refcount.c) as compare-and-swap loops of many
    threads on one 32-bit counter and one lock. */
module Refcount {
  import opened Wrappers

  const MODULUS: int := 0x1_0000_0000
  const MAX: nat := 0xffff_ffff

  type u32 = x: int | 0 <= x < 0x1_0000_0000

  /** The loops: refcount_add_not_zero_checked, refcount_inc_not_zero_checked,
      refcount_sub_and_test_checked, refcount_dec_if_one, refcount_dec_not_one. */
  datatype Atom = Add(n: u32) | Inc | Sub(n: u32) | IfOne | NotOne

  /** What follows a loop: nothing, or the second half of refcount_dec_and_lock. */
  datatype Use = Alone | BeforeLock | UnderLock

  datatype Phase =
    | Idle
    | Load(a: Atom, use: Use)                // next: first read of the counter
    | Loop(a: Atom, use: Use, val: u32)      // next: decide on val, or swap
    | Wait                                   // next: take the lock
    | Returned(a: Atom, use: Use, ok: bool)

  /** `holds` is auxiliary: the references each thread owns. */
  datatype State = State(v: u32, lock: Option<nat>, threads: seq<Phase>, holds: seq<nat>)

  // ----- one iteration of each loop -----

  datatype Choice = Return(ok: bool) | Swap(to: u32)

  function Decide(a: Atom, val: u32): Choice {
    match a
    case Add(n) =>
      if val == 0 then Return(false)
      else if val == MAX then Return(true)
      else var n1 := (val + n) % MODULUS; Swap(if n1 < val then MAX else n1)
    case Inc =>
      var n1 := (val + 1) % MODULUS;
      if val == 0 then Return(false) else if n1 == 0 then Return(true) else Swap(n1)
    case Sub(n) =>
      var n1 := (val - n) % MODULUS;
      if val == MAX then Return(false) else if n1 > val then Return(false) else Swap(n1)
    case NotOne =>
      var n1 := (val - 1) % MODULUS;
      if val == MAX then Return(true) else if val == 1 then Return(false)
      else if n1 > val then Return(true) else Swap(n1)
    case IfOne => if val == 1 then Swap(0) else Return(false)
  }

  /** The return value after a successful swap. */
  predicate Swapped(a: Atom, to: u32) {
    a.Sub? ==> to == 0
  }

  /** References gained (or, negative, given up) when the loop returns. */
  function Delta(a: Atom, ok: bool): int {
    match a
    case Add(n) => if ok then n else 0
    case Inc => if ok then 1 else 0
    case Sub(n) => 0 - (n as int)
    case NotOne => if ok then -1 else 0
    case IfOne => if ok then -1 else 0
  }

  datatype Action = Begin(t: nat, a: Atom) | BeginLocked(t: nat) | Step(t: nat) | Release(t: nat)

  predicate Enabled(s: State, act: Action) {
    && act.t < |s.threads| == |s.holds|
    && match act
       case Begin(t, _) => s.threads[t].Idle? || s.threads[t].Returned?
       case BeginLocked(t) => (s.threads[t].Idle? || s.threads[t].Returned?) && s.lock != Some(t)
       case Step(t) => s.threads[t].Load? || s.threads[t].Loop? || (s.threads[t].Wait? && s.lock.None?)
       case Release(t) => s.threads[t].Returned? && s.lock == Some(t)
  }

  function Plus(h: nat, d: int): nat { if h + d >= 0 then h + d else 0 }

  /** The loop of thread t returns ok with the counter at v. */
  function Finish(s: State, t: nat, a: Atom, use: Use, ok: bool, v: u32): State
    requires t < |s.threads| == |s.holds|
  {
    State(v,
          if use.UnderLock? && !ok then None else s.lock,
          s.threads[t := if use.BeforeLock? && !ok then Wait else Returned(a, use, ok)],
          s.holds[t := Plus(s.holds[t], Delta(a, ok))])
  }

  function Next(s: State, act: Action): State
    requires Enabled(s, act)
  {
    var t := act.t;
    match act
    case Begin(_, a) => s.(threads := s.threads[t := Load(a, Alone)])
    case BeginLocked(_) => s.(threads := s.threads[t := Load(NotOne, BeforeLock)])
    case Release(_) => s.(lock := None)
    case Step(_) =>
      match s.threads[t]
      case Wait => s.(lock := Some(t), threads := s.threads[t := Load(Sub(1), UnderLock)])
      case Load(a, use) =>
        if a.IfOne? then (if s.v == 1 then Finish(s, t, a, use, true, 0) else Finish(s, t, a, use, false, s.v))
        else s.(threads := s.threads[t := Loop(a, use, s.v)])
      case Loop(a, use, val) =>
        match Decide(a, val)
        case Return(ok) => Finish(s, t, a, use, ok, s.v)
        case Swap(to) =>
          if s.v == val then Finish(s, t, a, use, Swapped(a, to), to)
          else s.(threads := s.threads[t := Loop(a, use, s.v)])
  }

  predicate Init(s: State) {
    && |s.threads| == |s.holds| && s.lock == None
    && forall t :: 0 <= t < |s.threads| ==> s.threads[t] == Idle
  }

  ghost predicate Run(ss: seq<State>, acts: seq<Action>) {
    && |ss| == |acts| + 1 && Init(ss[0])
    && (forall i :: 0 <= i < |acts| ==> Enabled(ss[i], acts[i]))
    && (forall i :: 0 <= i < |acts| ==> ss[i + 1] == Next(ss[i], acts[i]))
  }

  // ----- the counter alone -----

  /** The counter moves from v to w as mathematics would, saturating at MAX and never below 0. */
  predicate Moves(a: Atom, v: u32, w: u32) {
    match a
    case Add(n) => v > 0 && w == if v + n < MAX then v + n else MAX
    case Inc => v > 0 && w == v + 1
    case Sub(n) => n <= v && w == v - n
    case NotOne => v >= 2 && w == v - 1
    case IfOne => v == 1 && w == 0
  }

  lemma SwapMoves(a: Atom, val: u32)
    requires Decide(a, val).Swap?
    ensures val < MAX && Moves(a, val, Decide(a, val).to)
  {
  }

  /** Whatever the interleaving, a step that changes the counter is one successful swap of one
      loop; 0 and MAX are absorbing. */
  lemma CounterStep(s: State, act: Action)
    requires Enabled(s, act)
    ensures var v, v' := s.v, Next(s, act).v;
            && (v == 0 ==> v' == 0) && (v == MAX ==> v' == MAX)
            && (v' != v ==> act.Step? && (s.threads[act.t].Loop? || s.threads[act.t].Load?) && Moves(s.threads[act.t].a, v, v'))
  {
    if act.Step? && s.threads[act.t].Loop? {
      var Loop(a, _, val) := s.threads[act.t];
      if Decide(a, val).Swap? { SwapMoves(a, val); }
    }
  }

  /** A decrement by at least one that reports the counter has become 0. */
  ghost predicate FreeStep(s: State, act: Action) {
    && Enabled(s, act) && act.Step?
    && (s.threads[act.t].Load? || s.threads[act.t].Loop?)
    && (s.threads[act.t].a.IfOne? || (s.threads[act.t].a.Sub? && s.threads[act.t].a.n >= 1))
    && Next(s, act).threads[act.t] == Returned(s.threads[act.t].a, s.threads[act.t].use, true)
  }

  lemma FreeIsFall(s: State, act: Action)
    requires FreeStep(s, act)
    ensures s.v > 0 && Next(s, act).v == 0
  {
  }

  lemma {:induction false} ZeroStays(ss: seq<State>, acts: seq<Action>, i: nat, j: nat)
    requires Run(ss, acts) && i <= j < |ss| && ss[i].v == 0
    ensures ss[j].v == 0
  {
    if i < j {
      ZeroStays(ss, acts, i, j - 1);
      CounterStep(ss[j - 1], acts[j - 1]);
    }
  }

  /** In any interleaving at most one decrement reports 0: the object is freed once. */
  lemma FreedOnce(ss: seq<State>, acts: seq<Action>, i: nat, j: nat)
    requires Run(ss, acts) && i <= j < |acts| && FreeStep(ss[i], acts[i]) && FreeStep(ss[j], acts[j])
    ensures i == j
  {
    FreeIsFall(ss[i], acts[i]);
    FreeIsFall(ss[j], acts[j]);
    if i < j { ZeroStays(ss, acts, i + 1, j); }
  }

  // ----- references held -----

  function Sum(h: seq<nat>): nat {
    if h == [] then 0 else Sum(h[..|h| - 1]) + h[|h| - 1]
  }

  lemma {:induction false} SumUpdate(h: seq<nat>, t: nat, x: nat)
    requires t < |h|
    ensures Sum(h[t := x]) == Sum(h) - h[t] + x && h[t] <= Sum(h)
  {
    var n := |h| - 1;
    if t < n {
      SumUpdate(h[..n], t, x);
      assert h[t := x][..n] == h[..n][t := x];
    } else {
      assert h[t := x][..n] == h[..n];
    }
  }

  lemma {:induction false} SumZero(h: seq<nat>, t: nat)
    requires Sum(h) == 0 && t < |h|
    ensures h[t] == 0
  {
    SumUpdate(h, t, 0);
  }

  /** Threads drop only references they hold. */
  predicate Honest(s: State, act: Action)
    requires Enabled(s, act)
  {
    match act
    case Begin(t, Sub(n)) => n <= s.holds[t]
    case Begin(t, NotOne) => s.holds[t] >= 1
    case Begin(t, IfOne) => s.holds[t] >= 1
    case BeginLocked(t) => s.holds[t] >= 1
    case _ => true
  }

  /** References a thread is about to give up. */
  function Owed(p: Phase): nat {
    match p
    case Wait => 1
    case Load(a, _) => Cost(a)
    case Loop(a, _, _) => Cost(a)
    case _ => 0
  }

  function Cost(a: Atom): nat {
    match a
    case Sub(n) => n
    case NotOne => 1
    case IfOne => 1
    case _ => 0
  }

  ghost predicate ThreadOk(p: Phase, held: nat) {
    Owed(p) <= held && (p.Loop? ==> Owed(p) <= p.val < MAX)
  }

  ghost predicate Balanced(s: State) {
    && |s.threads| == |s.holds|
    && (s.v == MAX || (s.v == Sum(s.holds) && forall t :: 0 <= t < |s.threads| ==> ThreadOk(s.threads[t], s.holds[t])))
  }

  lemma FinishBalanced(s: State, t: nat, a: Atom, use: Use, ok: bool, v: u32)
    requires Balanced(s) && s.v < MAX && t < |s.threads| && Owed(s.threads[t]) == Cost(a)
    requires use.BeforeLock? ==> a.NotOne?
    requires v == MAX || v == s.v + Delta(a, ok)
    ensures Balanced(Finish(s, t, a, use, ok, v))
  {
    SumUpdate(s.holds, t, Plus(s.holds[t], Delta(a, ok)));
  }

  /** refcount_dec_and_lock runs its loops in order. */
  ghost predicate Staged(s: State) {
    forall t :: 0 <= t < |s.threads| && (s.threads[t].Load? || s.threads[t].Loop?) ==>
      && (s.threads[t].use.BeforeLock? ==> s.threads[t].a == NotOne)
      && (s.threads[t].use.UnderLock? ==> s.threads[t].a == Sub(1) && s.lock == Some(t))
  }

  lemma StagedStep(s: State, act: Action)
    requires Enabled(s, act) && Staged(s)
    ensures Staged(Next(s, act))
  {
  }

  /** What one loop iteration does to the counter is what the thread gains or gives up. */
  lemma DecideDelta(a: Atom, val: u32)
    requires Cost(a) <= val < MAX
    ensures match Decide(a, val)
            case Return(ok) => Delta(a, ok) == 0
            case Swap(to) => to == MAX || to == val + Delta(a, Swapped(a, to))
  {
  }

  lemma BalancedStep(s: State, act: Action)
    requires Enabled(s, act) && Honest(s, act) && Balanced(s) && Staged(s)
    ensures Balanced(Next(s, act))
  {
    var t := act.t;
    if s.v < MAX && act.Step? && (s.threads[t].Load? || s.threads[t].Loop?) {
      var a, use := s.threads[t].a, s.threads[t].use;
      assert ThreadOk(s.threads[t], s.holds[t]);
      SumUpdate(s.holds, t, 0);
      if s.threads[t].Load? {
        if a.IfOne? { FinishBalanced(s, t, a, use, s.v == 1, if s.v == 1 then 0 else s.v); }
      } else {
        var val := s.threads[t].val;
        DecideDelta(a, val);
        match Decide(a, val)
        case Return(ok) => FinishBalanced(s, t, a, use, ok, s.v);
        case Swap(to) => if s.v == val { FinishBalanced(s, t, a, use, Swapped(a, to), to); }
      }
    } else if s.v == MAX {
      CounterStep(s, act);
    }
  }

  ghost predicate HonestRun(ss: seq<State>, acts: seq<Action>) {
    && Run(ss, acts) && ss[0].v == Sum(ss[0].holds)
    && forall i :: 0 <= i < |acts| ==> Enabled(ss[i], acts[i]) && Honest(ss[i], acts[i])
  }

  /** If threads drop only what they hold, the counter is saturated or equals the number of
      references held. */
  lemma {:induction false} CountsReferences(ss: seq<State>, acts: seq<Action>, i: nat)
    requires HonestRun(ss, acts) && i < |ss|
    ensures Balanced(ss[i]) && Staged(ss[i])
    ensures ss[i].v == MAX || ss[i].v == Sum(ss[i].holds)
  {
    if i > 0 {
      CountsReferences(ss, acts, i - 1);
      StagedStep(ss[i - 1], acts[i - 1]);
      BalancedStep(ss[i - 1], acts[i - 1]);
    }
  }

  /** The object is freed only when nobody holds a reference. */
  lemma FreedUnheld(ss: seq<State>, acts: seq<Action>, i: nat)
    requires HonestRun(ss, acts) && i < |acts| && FreeStep(ss[i], acts[i])
    ensures var h := ss[i + 1].holds; forall t :: 0 <= t < |h| ==> h[t] == 0
  {
    CountsReferences(ss, acts, i + 1);
    FreeIsFall(ss[i], acts[i]);
    var h := ss[i + 1].holds;
    forall t | 0 <= t < |h| ensures h[t] == 0 { SumZero(h, t); }
  }

  // ----- refcount_dec_and_lock -----

  /** Every drop goes through refcount_dec_and_lock. */
  ghost predicate DropsLocked(acts: seq<Action>) {
    forall i :: 0 <= i < |acts| && acts[i].Begin? ==> acts[i].a.Add? || acts[i].a.Inc?
  }

  ghost predicate OnlyLocked(s: State) {
    forall t :: 0 <= t < |s.threads| && (s.threads[t].Load? || s.threads[t].Loop?) && s.threads[t].use.Alone? ==>
      s.threads[t].a.Add? || s.threads[t].a.Inc?
  }

  lemma {:induction false} LockedRun(ss: seq<State>, acts: seq<Action>, i: nat)
    requires Run(ss, acts) && DropsLocked(acts) && i < |ss|
    ensures Staged(ss[i]) && OnlyLocked(ss[i])
  {
    if i > 0 {
      LockedRun(ss, acts, i - 1);
      StagedStep(ss[i - 1], acts[i - 1]);
    }
  }

  /** The step from 1 to 0 happens under the lock, and returns true with the lock held. */
  lemma LastDropUnderLock(ss: seq<State>, acts: seq<Action>, i: nat)
    requires Run(ss, acts) && DropsLocked(acts) && i < |acts| && ss[i].v > 0 && ss[i + 1].v == 0
    ensures ss[i].v == 1 && acts[i].Step? && ss[i].lock == Some(acts[i].t) && ss[i + 1].lock == Some(acts[i].t)
    ensures ss[i + 1].threads[acts[i].t] == Returned(Sub(1), UnderLock, true)
  {
    LockedRun(ss, acts, i);
    CounterStep(ss[i], acts[i]);
  }
}
