/** When the slice given to an END action is the contents of its element (compat/lib-asn1_decoder.c).

    For a definite length it always is.  For an indefinite length the machine takes the first
    end-of-contents octets that it meets at its own position, and that is the position of the
    grammar only as long as it has passed whole elements, none of them with tag octet 0. */
module Asn1Exact {
  import opened Asn1Scan
  import opened Asn1Machine

  // ----- the machine and the scanner in step -----

  /** With `depth` indefinite lengths open inside an element and the element itself, the scanner
      started at its contents is at p as well, `k.zeros` levels further out, or it has stopped. */
  ghost predicate InStep(d: seq<byte>, start: nat, p: nat, depth: nat, k: Mark)
    requires start <= |d| && p <= |d| && depth >= 1
  {
    var r := Scan(d, start, 1);
    || k.astray
    || (k.zeros < depth && r == Scan(d, p, depth - k.zeros))
    || (k.zeros > 0 && (r.Error? || r.end <= p))
  }

  /** All open elements; what surrounds a definite length waits at its header. */
  ghost predicate Synced(d: seq<byte>, cons: seq<Frame>, marks: seq<Mark>, p: nat, depth: nat)
    decreases |cons|
  {
    && |cons| == |marks| && p <= |d|
    && (cons == [] ||
        var n := |cons| - 1;
        var f := cons[n];
        && f.hdr <= f.start <= |d|
        && if f.indef then InStep(d, f.start, p, depth + 1, marks[n]) && Synced(d, cons[..n], marks[..n], p, depth + 1)
           else Synced(d, cons[..n], marks[..n], f.start - f.hdr, 0))
  }

  /** The scanner makes the same move at every level. */
  ghost predicate Follows(d: seq<byte>, p: nat, p': nat, delta: int)
    requires p <= |d| && p' <= |d|
  {
    && (forall l: nat :: l >= 1 && l + delta >= 1 ==> Scan(d, p, l) == Scan(d, p', l + delta))
    && (delta < 0 ==> Scan(d, p, 1) == Found(p'))
  }

  lemma InStepAdvances(d: seq<byte>, start: nat, p: nat, p': nat, depth: nat, delta: int, k: Mark)
    requires start <= |d| && p <= p' <= |d| && -1 <= delta <= 1 && depth >= 1 && depth + delta >= 1
    requires Follows(d, p, p', delta) && InStep(d, start, p, depth, k)
    ensures InStep(d, start, p', depth + delta, k)
  {
    if k.zeros < depth {
      var l := depth - k.zeros;
      assert l + delta >= 1 ==> Scan(d, p, l) == Scan(d, p', l + delta);
    }
  }

  lemma {:induction false} Advance(d: seq<byte>, cons: seq<Frame>, marks: seq<Mark>, p: nat, p': nat, depth: nat, delta: int)
    requires p <= p' <= |d| && -1 <= delta <= 1 && depth + delta >= 0
    requires Follows(d, p, p', delta) && Synced(d, cons, marks, p, depth)
    ensures Synced(d, cons, marks, p', depth + delta)
    decreases |cons|
  {
    if cons != [] && cons[|cons| - 1].indef {
      var n := |cons| - 1;
      Advance(d, cons[..n], marks[..n], p, p', depth + 1, delta);
      InStepAdvances(d, cons[n].start, p, p', depth + 1, delta, marks[n]);
    }
  }

  /** An element with tag octet 0: the scanner takes it for end-of-contents, or stops. */
  lemma {:induction false} ZeroPassed(d: seq<byte>, cons: seq<Frame>, marks: seq<Mark>, p: nat, p': nat, depth: nat)
    requires p + 2 <= p' <= |d| && d[p] == 0 && (d[p + 1] == 0 ==> p' == p + 2)
    requires Synced(d, cons, marks, p, depth)
    ensures Synced(d, cons, Touch(cons, marks, true), p', depth)
    decreases |cons|
  {
    if cons != [] && cons[|cons| - 1].indef {
      var n := |cons| - 1;
      ZeroPassed(d, cons[..n], marks[..n], p, p', depth + 1);
      TouchParts(cons, marks, true);
      assert ReadHeader(d, p) == if d[p + 1] == 0 then Eoc(p + 2) else Bad(InvalidEoc);
    }
  }

  lemma {:induction false} JumpPassed(d: seq<byte>, cons: seq<Frame>, marks: seq<Mark>, p: nat, p': nat, depth: nat)
    requires p' <= |d| && Synced(d, cons, marks, p, depth)
    ensures Synced(d, cons, Touch(cons, marks, false), p', depth)
    decreases |cons|
  {
    if cons != [] && cons[|cons| - 1].indef {
      var n := |cons| - 1;
      JumpPassed(d, cons[..n], marks[..n], p, p', depth + 1);
      TouchParts(cons, marks, false);
    }
  }

  lemma TouchParts(cons: seq<Frame>, marks: seq<Mark>, zero: bool)
    requires cons != [] && |cons| == |marks| && cons[|cons| - 1].indef
    ensures var n, r := |cons| - 1, Touch(cons, marks, zero);
            && |r| == |marks| && r[..n] == Touch(cons[..n], marks[..n], zero)
            && r[n] == if zero then marks[n].(zeros := marks[n].zeros + 1) else marks[n].(astray := true)
  {
  }

  // ----- passing one element -----

  /** The scanner reads a definite header as the machine does. */
  lemma DefiniteHeader(d: seq<byte>, start: nat, hdr: nat, n: nat)
    requires DefiniteAt(d, start, hdr, n) && d[start - hdr] != 0
    ensures ReadHeader(d, start - hdr) == Def(start, n)
  {
    var q := start - hdr;
    var tag, len := [d[q]], d[q + 1..start];
    assert d[q..q + |tag + len|] == tag + len;
    HeaderComplete(d, q, tag, len, n);
  }

  lemma IndefiniteHeader(d: seq<byte>, start: nat, hdr: nat)
    requires IndefiniteAt(d, start, hdr)
    ensures ReadHeader(d, start - hdr) == Indef(start) && d[start - hdr] != 0
  {
    var q := start - hdr;
    assert d[q..q + |[d[q]] + [0x80]|] == [d[q]] + [0x80];
    HeaderComplete(d, q, [d[q]], [0x80], 0);
  }

  lemma DefinitePassed(d: seq<byte>, cons: seq<Frame>, marks: seq<Mark>, start: nat, hdr: nat, n: nat)
    requires DefiniteAt(d, start, hdr, n) && start + n <= |d| && Synced(d, cons, marks, start - hdr, 0)
    ensures Synced(d, cons, Passed(cons, marks, d[start - hdr], true), start + n, 0)
  {
    var q := start - hdr;
    if d[q] == 0 {
      assert d[q + 1] == d[q + 1..start][0];
      ZeroPassed(d, cons, marks, q, start + n, 0);
    } else {
      DefiniteHeader(d, start, hdr, n);
      Advance(d, cons, marks, q, start + n, 0, 0);
    }
  }

  lemma IndefinitePassed(d: seq<byte>, cons: seq<Frame>, marks: seq<Mark>, start: nat, hdr: nat, n: nat, e: nat)
    requires IndefiniteAt(d, start, hdr) && start <= n <= |d| && EndsAt(d[..n], start, e)
    requires Synced(d, cons, marks, start - hdr, 0)
    ensures d[start - hdr] != 0 && Synced(d, cons, marks, e, 0)
  {
    var q := start - hdr;
    IndefiniteHeader(d, start, hdr);
    assert d[..n][start..e] == d[start..e];
    forall l: nat | l >= 1 ensures Scan(d, q, l) == Scan(d, e, l) {
      ScanAfter(d, q, Indef(start), start, l);
      ScanPast(d, start, e, l);
    }
    Advance(d, cons, marks, q, e, 0, 0);
  }

  // ----- opening and closing -----

  lemma Opened(d: seq<byte>, cons: seq<Frame>, marks: seq<Mark>, f: Frame)
    requires f.hdr <= f.start <= |d| && (f.indef ==> IndefiniteAt(d, f.start, f.hdr))
    requires Synced(d, cons, marks, f.start - f.hdr, 0)
    ensures Synced(d, cons + [f], marks + [Mark(0, false)], f.start, 0)
  {
    var n := |cons|;
    assert (cons + [f])[..n] == cons && (marks + [Mark(0, false)])[..n] == marks;
    if f.indef {
      IndefiniteHeader(d, f.start, f.hdr);
      Advance(d, cons, marks, f.start - f.hdr, f.start, 0, 1);
    }
  }

  lemma Closed(d: seq<byte>, cons: seq<Frame>, marks: seq<Mark>, p: nat)
    requires cons != [] && cons[|cons| - 1].indef && Synced(d, cons, marks, p, 0)
    requires p + 2 <= |d| && d[p] == 0 && d[p + 1] == 0
    ensures Synced(d, cons[..|cons| - 1], marks[..|cons| - 1], p + 2, 0)
    ensures var k, f := marks[|cons| - 1], cons[|cons| - 1];
            !k.astray ==> (EndsAt(d, f.start, p + 2) <==> k.zeros == 0)
  {
    var n := |cons| - 1;
    assert ReadHeader(d, p) == Eoc(p + 2);
    Advance(d, cons[..n], marks[..n], p, p + 2, 1, -1);
    ScanIsGrammar(d, cons[n].start, p + 2);
  }

  // ----- every step -----

  /** For an indefinite length the slice is the contents exactly if no element with tag octet 0
      was matched in it. */
  ghost predicate EventExact(d: seq<byte>, e: Event) {
    e.Contents? && IndefiniteAt(d, e.start, e.hdr) && !e.mark.astray ==>
      (EndsAt(d, e.start, e.start + e.len + 2) <==> e.mark.zeros == 0)
  }

  ghost predicate LogExact(d: seq<byte>, log: seq<Event>) {
    forall i :: 0 <= i < |log| ==> EventExact(d, log[i])
  }

  ghost predicate Exact(d: seq<byte>, s: State) {
    Synced(d, s.cons, s.marks, s.dp, 0) && LogExact(d, s.log)
  }

  /** Between a matched header and what the opcode does with the element. */
  ghost predicate Midway(d: seq<byte>, s: State)
    requires s.hdr <= s.dp
  {
    Synced(d, s.cons, s.marks, if s.flags.cons then s.dp else s.dp - s.hdr, 0) && LogExact(d, s.log)
  }

  lemma MatchingExact(m: seq<byte>, d: seq<byte>, s: State, op: byte)
    requires Inv(d, s) && Exact(d, s) && Matches(op) && OpLen(op) > 0 && s.pc + OpLen(op) <= |m|
    ensures var r := Matching(m, d, s, op);
            && (r.Skipped? ==> Exact(d, r.s))
            && (r.Accepted? ==> r.s.hdr <= r.s.dp && Midway(d, r.s))
  {
    var r := Matching(m, d, s, op);
    if r.Accepted? {
      var h := AcceptedIs(m, d, s, op);
      HeaderExact(d, s, h);
    }
  }

  lemma HeaderExact(d: seq<byte>, s: State, h: State)
    requires Exact(d, s) && |d| <= 65535 && JustMatched(d, h) && h.dp <= h.datalen <= |d|
    requires h.dp - h.hdr == s.dp && h.cons == s.cons && h.marks == s.marks && h.log == s.log
    ensures h.flags.cons ==> Midway(d, Push(h)) && Push(h).flags.cons && Push(h).hdr <= Push(h).dp
    ensures !h.flags.cons ==> Midway(d, h)
  {
    if h.flags.cons {
      PushIs(d, h);
      Opened(d, s.cons, s.marks, Frame(h.dp, h.hdr, if h.flags.indef then 0 else h.datalen, h.flags.indef));
    }
  }

  lemma LogGrows(d: seq<byte>, log: seq<Event>, e: Event)
    requires LogExact(d, log) && EventExact(d, e)
    ensures LogExact(d, log + [e])
  {
  }

  /** The element behind a matched header has been passed. */
  lemma LeafDefinite(d: seq<byte>, s: State)
    requires s.hdr <= s.dp && Midway(d, s) && !s.flags.cons && DefiniteAt(d, s.dp, s.hdr, s.len) && s.dp + s.len <= |d| && d[s.dp - s.hdr] == s.tag
    ensures Synced(d, s.cons, Passed(s.cons, s.marks, s.tag, true), s.dp + s.len, 0)
  {
    DefinitePassed(d, s.cons, s.marks, s.dp, s.hdr, s.len);
  }

  lemma LeafIndefinite(d: seq<byte>, s: State, e: nat)
    requires s.hdr <= s.dp && Midway(d, s) && !s.flags.cons && IndefiniteAt(d, s.dp, s.hdr) && d[s.dp - s.hdr] == s.tag
    requires s.dp <= s.datalen <= |d| && EndsAt(d[..s.datalen], s.dp, e)
    ensures Synced(d, s.cons, Passed(s.cons, s.marks, s.tag, true), e, 0)
  {
    IndefinitePassed(d, s.cons, s.marks, s.dp, s.hdr, s.datalen, e);
  }

  lemma EvalMatchExact(d: seq<byte>, s: State, op: byte, ret: int)
    requires Inv(d, s) && JustMatched(d, s) && Midway(d, s) && EvalMatch(d, s, op, ret).Running?
    ensures Exact(d, EvalMatch(d, s, op, ret).s)
  {
    var len := MatchedIs(d, s, op, ret);
    if !s.flags.cons { LeafPassed(d, s, len); }
    LogGrows(d, s.log, Element(s.hdr, s.tag, s.dp, len, s.flags.cons, s.flags.indef));
  }

  lemma LeafPassed(d: seq<byte>, s: State, len: nat)
    requires JustMatched(d, s) && Midway(d, s) && !s.flags.cons && s.dp + len <= s.datalen <= |d|
    requires !s.flags.indef ==> len == s.len
    requires s.flags.indef ==> EndsAt(d[..s.datalen], s.dp, s.dp + len)
    ensures Synced(d, s.cons, Passed(s.cons, s.marks, s.tag, true), s.dp + len, 0)
  {
    if s.flags.indef { LeafIndefinite(d, s, s.dp + len); } else { LeafDefinite(d, s); }
  }

  lemma EvalJumpExact(m: seq<byte>, d: seq<byte>, s: State, op: byte)
    requires Inv(d, s) && JustMatched(d, s) && Midway(d, s) && s.pc + 2 < |m| && EvalJump(m, s, op).Running?
    requires !s.flags.cons ==> !s.flags.indef
    ensures Exact(d, EvalJump(m, s, op).s)
  {
    if !s.flags.cons { JumpInto(d, s); }
  }

  lemma JumpInto(d: seq<byte>, s: State)
    requires s.hdr <= s.dp <= |d| && Midway(d, s) && !s.flags.cons && DefiniteAt(d, s.dp, s.hdr, s.len) && d[s.dp - s.hdr] == s.tag
    ensures Synced(d, s.cons, Passed(s.cons, s.marks, s.tag, s.len == 0), s.dp, 0)
  {
    if s.len == 0 {
      LeafDefinite(d, s);
    } else {
      JumpPassed(d, s.cons, s.marks, s.dp - s.hdr, s.dp, 0);
    }
  }

  lemma CloseIndefinite(d: seq<byte>, s: State)
    requires Exact(d, s) && s.cons != [] && s.cons[|s.cons| - 1].indef && s.cons[|s.cons| - 1].start <= s.dp
    requires s.dp + 2 <= |d| && d[s.dp] == 0 && d[s.dp + 1] == 0
    ensures Synced(d, s.cons[..|s.cons| - 1], Outside(d, s), s.dp + 2, 0)
    ensures var f := s.cons[|s.cons| - 1]; EventExact(d, Contents(f.hdr, f.start, s.dp - f.start, Innermost(s)))
  {
    Closed(d, s.cons, s.marks, s.dp);
  }

  lemma CloseDefinite(d: seq<byte>, s: State, f: Frame)
    requires Exact(d, s) && s.cons != [] && s.cons[|s.cons| - 1] == f && !f.indef && f.start <= s.dp
    requires DefiniteAt(d, f.start, f.hdr, s.dp - f.start)
    ensures Synced(d, s.cons[..|s.cons| - 1], Outside(d, s), s.dp, 0)
  {
    ClosedPart(d, s.cons, s.marks, s.dp);
    assert Outside(d, s) == Passed(s.cons[..|s.cons| - 1], s.marks[..|s.cons| - 1], d[f.start - f.hdr], true);
  }

  lemma ClosedPart(d: seq<byte>, cons: seq<Frame>, marks: seq<Mark>, p: nat)
    requires cons != [] && Synced(d, cons, marks, p, 0) && !cons[|cons| - 1].indef && cons[|cons| - 1].start <= p
    requires DefiniteAt(d, cons[|cons| - 1].start, cons[|cons| - 1].hdr, p - cons[|cons| - 1].start)
    ensures var n := |cons| - 1;
            |marks| == n + 1 && Synced(d, cons[..n], Passed(cons[..n], marks[..n], d[cons[n].start - cons[n].hdr], true), p, 0)
  {
    var n := |cons| - 1;
    DefinitePassed(d, cons[..n], marks[..n], cons[n].start, cons[n].hdr, p - cons[n].start);
  }

  lemma NotBoth(d: seq<byte>, start: nat, hdr: nat, n: nat)
    requires DefiniteAt(d, start, hdr, n)
    ensures !IndefiniteAt(d, start, hdr)
  {
    assert d[start - hdr + 1..start][0] == d[start - hdr + 1];
  }

  lemma EvalEndExact(m: seq<byte>, d: seq<byte>, s: State, op: byte, ret: int)
    requires Inv(d, s) && Exact(d, s) && Ends(op) && s.pc + OpLen(op) <= |m| && EvalEnd(m, d, s, op, ret).Running?
    ensures Exact(d, EvalEnd(m, d, s, op, ret).s)
  {
    TopFrame(d, s);
    EvalEndIs(m, d, s, op, ret);
    var s', f := EvalEnd(m, d, s, op, ret).s, s.cons[|s.cons| - 1];
    if s'.cons != s.cons {
      if f.indef {
        CloseIndefinite(d, s);
      } else {
        CloseDefinite(d, s, f);
        NotBoth(d, f.start, f.hdr, s.dp - f.start);
      }
      LogGrows(d, s.log, Contents(f.hdr, f.start, s.dp - f.start, Innermost(s)));
    }
  }

  lemma EvalExact(m: seq<byte>, d: seq<byte>, s: State, op: byte, ret: int)
    requires Inv(d, s) && Exact(d, s) && OpLen(op) > 0 && !Matches(op) && s.pc + OpLen(op) <= |m|
    requires Eval(m, d, s, op, ret).Running?
    ensures Exact(d, Eval(m, d, s, op, ret).s)
  {
    if Ends(op) {
      EvalEndExact(m, d, s, op, ret);
    } else if op == ACT || op == MAYBE_ACT {
      LogGrows(d, s.log, Loose(s.hdr, s.tag, s.tdp, s.len));
    }
  }

  /** A JUMP that does not open an element has matched a primitive one. */
  lemma JumpIsDefinite(m: seq<byte>, d: seq<byte>, s: State, op: byte)
    requires Inv(d, s) && Matches(op) && OpLen(op) > 0 && s.pc + OpLen(op) <= |m| && Matching(m, d, s, op).Accepted? && Bit(op, 4)
    ensures var s1 := Matching(m, d, s, op).s; !s1.flags.cons ==> !s1.flags.indef
  {
    MatchingKeeps(m, d, s, op);
    AcceptedTag(m, d, s, op);
  }

  lemma EvalAcceptedExact(m: seq<byte>, d: seq<byte>, s: State, op: byte, ret: int)
    requires Inv(d, s) && JustMatched(d, s) && Midway(d, s) && Matches(op) && OpLen(op) > 0 && s.pc + OpLen(op) <= |m|
    requires (Bit(op, 4) && !s.flags.cons ==> !s.flags.indef) && Eval(m, d, s, op, ret).Running?
    ensures Exact(d, Eval(m, d, s, op, ret).s)
  {
    if Bit(op, 4) {
      EvalJumpExact(m, d, s, op);
    } else {
      EvalMatchExact(d, s, op, ret);
    }
  }

  lemma AcceptedReady(m: seq<byte>, d: seq<byte>, s: State, op: byte)
    requires Inv(d, s) && Exact(d, s) && Matches(op) && OpLen(op) > 0 && s.pc + OpLen(op) <= |m| && Matching(m, d, s, op).Accepted?
    ensures var s1 := Matching(m, d, s, op).s; Inv(d, s1) && JustMatched(d, s1) && Midway(d, s1)
    ensures var s1 := Matching(m, d, s, op).s; Bit(op, 4) && !s1.flags.cons ==> !s1.flags.indef
  {
    MatchingExact(m, d, s, op);
    MatchingKeeps(m, d, s, op);
    if Bit(op, 4) { JumpIsDefinite(m, d, s, op); }
  }

  lemma StepExact(m: seq<byte>, d: seq<byte>, s: State, ret: int)
    requires Inv(d, s) && Exact(d, s) && Step(m, d, s, ret).Running?
    ensures Exact(d, Step(m, d, s, ret).s)
  {
    var op := m[s.pc];
    if !Matches(op) {
      EvalExact(m, d, s, op, ret);
    } else if Matching(m, d, s, op).Accepted? {
      AcceptedReady(m, d, s, op);
      EvalAcceptedExact(m, d, Matching(m, d, s, op).s, op, ret);
    } else {
      MatchingExact(m, d, s, op);
    }
  }

  // ----- every run -----

  /** In every run of any bytecode on any input, the slice given to the END action of an element
      with an indefinite length is its contents exactly if no element with tag octet 0 was matched
      in it (unless a JUMP went into a primitive element). */
  lemma {:induction false} RunExact(m: seq<byte>, d: seq<byte>, rets: seq<int>)
    requires |d| <= 65535
    ensures Run(m, d, rets).Running? ==> Exact(d, Run(m, d, rets).s)
    ensures Run(m, d, rets).Complete? ==> LogExact(d, Run(m, d, rets).log)
    decreases |rets|
  {
    if rets != [] {
      var n := |rets| - 1;
      RunExact(m, d, rets[..n]);
      var r := Run(m, d, rets[..n]);
      if r.Running? {
        var r1 := Step(m, d, r.s, rets[n]);
        if r1.Running? {
          StepExact(m, d, r.s, rets[n]);
        } else if r1.Complete? {
          CompleteKeeps(m, d, r.s, rets[n]);
        }
      }
    }
  }

  // ----- bytecode for which every slice is right -----

  /** The opcode at pc leads to positions in P only. */
  predicate LeadsInto(m: seq<byte>, P: set<nat>, pc: nat) {
    pc < |m| && OpLen(m[pc]) > 0 && pc + OpLen(m[pc]) <= |m| ==>
      && pc + OpLen(m[pc]) in P
      && (Matches(m[pc]) && Bit(m[pc], 4) ==> m[pc + 2] in P && U8(pc + OpLen(m[pc])) in P)
      && (Ends(m[pc]) && Bit(m[pc], 2) ==> m[pc + 1] in P)
  }

  /** P holds all positions that control can reach. */
  predicate Code(m: seq<byte>, P: set<nat>) {
    0 in P && forall pc <- P :: LeadsInto(m, P, pc)
  }

  /** A JUMP at pc asks for a constructed element. */
  predicate JumpConstructed(m: seq<byte>, pc: nat) {
    pc + 1 < |m| && Matches(m[pc]) && Bit(m[pc], 4) ==> Bit(m[pc + 1], 32)
  }

  /** The opcode at pc does not accept a tag octet 0. */
  predicate RefusesZero(m: seq<byte>, pc: nat) {
    pc < |m| && Matches(m[pc]) ==> !Bit(m[pc], 8) && (pc + 1 < |m| ==> m[pc + 1] != 0 && m[pc + 1] != 32)
  }

  predicate MarkOk(k: Mark, nonzero: bool) {
    !k.astray && (nonzero ==> k.zeros == 0)
  }

  predicate MarksOk(marks: seq<Mark>, nonzero: bool) {
    forall i :: 0 <= i < |marks| ==> MarkOk(marks[i], nonzero)
  }

  predicate TagsOk(d: seq<byte>, cons: seq<Frame>) {
    forall i :: 0 <= i < |cons| ==> 0 < cons[i].hdr <= cons[i].start <= |d| && d[cons[i].start - cons[i].hdr] != 0
  }

  predicate InCode(s: State, P: set<nat>) {
    s.pc in P && forall i :: 0 <= i < |s.jumps| ==> s.jumps[i] in P
  }

  predicate LogTidy(log: seq<Event>, nonzero: bool) {
    forall i :: 0 <= i < |log| && log[i].Contents? ==> MarkOk(log[i].mark, nonzero)
  }

  predicate Tidy(d: seq<byte>, s: State, nonzero: bool) {
    MarksOk(s.marks, nonzero) && (nonzero ==> TagsOk(d, s.cons)) && LogTidy(s.log, nonzero)
  }

  lemma {:induction false} TouchTidy(cons: seq<Frame>, marks: seq<Mark>)
    requires MarksOk(marks, false)
    ensures MarksOk(Touch(cons, marks, true), false)
    decreases |cons|
  {
    if cons != [] && |cons| == |marks| && cons[|cons| - 1].indef {
      var n := |cons| - 1;
      TouchTidy(cons[..n], marks[..n]);
      TouchParts(cons, marks, true);
    }
  }

  lemma PassedTidy(cons: seq<Frame>, marks: seq<Mark>, tag: byte, nonzero: bool)
    requires MarksOk(marks, nonzero) && (nonzero ==> tag != 0)
    ensures MarksOk(Passed(cons, marks, tag, true), nonzero)
  {
    if tag == 0 { TouchTidy(cons, marks); }
  }

  lemma MatchedNonzero(m: seq<byte>, d: seq<byte>, s: State, op: byte)
    requires Bounded(d, s) && s.pc < |m| && op == m[s.pc] && RefusesZero(m, s.pc)
    requires Matches(op) && OpLen(op) > 0 && s.pc + OpLen(op) <= |m| && Matching(m, d, s, op).Accepted?
    ensures Matching(m, d, s, op).s.tag != 0
  {
    AcceptedTag(m, d, s, op);
  }

  lemma MatchingTidy(m: seq<byte>, d: seq<byte>, s: State, op: byte, nonzero: bool)
    requires Inv(d, s) && Tidy(d, s, nonzero)
    requires Matches(op) && OpLen(op) > 0 && s.pc + OpLen(op) <= |m| && Matching(m, d, s, op).Accepted?
    requires nonzero ==> Matching(m, d, s, op).s.tag != 0
    ensures Tidy(d, Matching(m, d, s, op).s, nonzero)
  {
    var h := AcceptedIs(m, d, s, op);
    if h.flags.cons { PushTidy(d, h, nonzero); }
  }

  lemma PushTidy(d: seq<byte>, h: State, nonzero: bool)
    requires |d| <= 65535 && h.dp <= h.datalen <= |d| && JustMatched(d, h) && Tidy(d, h, nonzero) && (nonzero ==> h.tag != 0)
    ensures Tidy(d, Push(h), nonzero)
  {
    PushIs(d, h);
  }

  lemma EvalMatchTidy(d: seq<byte>, s: State, op: byte, ret: int, nonzero: bool)
    requires Inv(d, s) && JustMatched(d, s) && EvalMatch(d, s, op, ret).Running?
    requires Tidy(d, s, nonzero) && (nonzero ==> s.tag != 0)
    ensures Tidy(d, EvalMatch(d, s, op, ret).s, nonzero)
  {
    var len := MatchedIs(d, s, op, ret);
    PassedTidy(s.cons, s.marks, s.tag, nonzero);
  }

  lemma OutsideTidy(d: seq<byte>, s: State, nonzero: bool)
    requires s.cons != [] && Tidy(d, s, nonzero)
    ensures MarksOk(Outside(d, s), nonzero) && MarkOk(Innermost(s), nonzero)
  {
    var n, f := |s.cons| - 1, s.cons[|s.cons| - 1];
    var marks := if s.marks == [] then [] else s.marks[..|s.marks| - 1];
    if !f.indef && 0 < f.hdr <= f.start <= |d| { PassedTidy(s.cons[..n], marks, d[f.start - f.hdr], nonzero); }
  }

  lemma EvalEndTidy(m: seq<byte>, d: seq<byte>, s: State, op: byte, ret: int, nonzero: bool)
    requires Inv(d, s) && Tidy(d, s, nonzero) && Ends(op) && s.pc + OpLen(op) <= |m| && EvalEnd(m, d, s, op, ret).Running?
    ensures Tidy(d, EvalEnd(m, d, s, op, ret).s, nonzero)
  {
    TopFrame(d, s);
    EvalEndIs(m, d, s, op, ret);
    OutsideTidy(d, s, nonzero);
  }

  lemma EvalTidy(m: seq<byte>, d: seq<byte>, s: State, op: byte, ret: int, nonzero: bool)
    requires Inv(d, s) && Tidy(d, s, nonzero) && OpLen(op) > 0 && s.pc + OpLen(op) <= |m|
    requires Matches(op) ==> JustMatched(d, s) && (nonzero ==> s.tag != 0) && (Bit(op, 4) ==> s.flags.cons)
    requires Eval(m, d, s, op, ret).Running?
    ensures Tidy(d, Eval(m, d, s, op, ret).s, nonzero)
  {
    if Matches(op) {
      if !Bit(op, 4) { EvalMatchTidy(d, s, op, ret, nonzero); }
    } else if Ends(op) {
      EvalEndTidy(m, d, s, op, ret, nonzero);
    }
  }

  lemma AcceptedTidy(m: seq<byte>, d: seq<byte>, s: State, op: byte, nonzero: bool)
    requires Inv(d, s) && Tidy(d, s, nonzero) && s.pc < |m| && op == m[s.pc] && (nonzero ==> RefusesZero(m, s.pc))
    requires Matches(op) && OpLen(op) > 0 && s.pc + OpLen(op) <= |m| && Matching(m, d, s, op).Accepted?
    ensures var s1 := Matching(m, d, s, op).s; Tidy(d, s1, nonzero) && (nonzero ==> s1.tag != 0)
  {
    if nonzero { MatchedNonzero(m, d, s, op); }
    MatchingTidy(m, d, s, op, nonzero);
  }

  lemma JumpOpens(m: seq<byte>, d: seq<byte>, s: State, op: byte)
    requires Bounded(d, s) && s.pc < |m| && op == m[s.pc] && Matches(op) && OpLen(op) > 0 && s.pc + OpLen(op) <= |m|
    requires Matching(m, d, s, op).Accepted? && JumpConstructed(m, s.pc) && Bit(op, 4)
    ensures Matching(m, d, s, op).s.flags.cons
  {
    AcceptedTag(m, d, s, op);
  }

  lemma StepTidy(m: seq<byte>, d: seq<byte>, s: State, ret: int, nonzero: bool)
    requires Inv(d, s) && Tidy(d, s, nonzero) && JumpConstructed(m, s.pc) && (nonzero ==> RefusesZero(m, s.pc))
    requires Step(m, d, s, ret).Running?
    ensures Tidy(d, Step(m, d, s, ret).s, nonzero)
  {
    var op := m[s.pc];
    if !Matches(op) {
      EvalTidy(m, d, s, op, ret, nonzero);
    } else if Matching(m, d, s, op).Accepted? {
      AcceptedTidy(m, d, s, op, nonzero);
      MatchingKeeps(m, d, s, op);
      if Bit(op, 4) { JumpOpens(m, d, s, op); }
      EvalTidy(m, d, Matching(m, d, s, op).s, op, ret, nonzero);
    } else {
      SkippedIs(m, d, s, op);
    }
  }

  /** Control stays in the code. */
  lemma EvalInCode(m: seq<byte>, P: set<nat>, d: seq<byte>, s: State, ret: int)
    requires Inv(d, s) && s.pc < |m| && OpLen(m[s.pc]) > 0 && s.pc + OpLen(m[s.pc]) <= |m| && InCode(s, P) && LeadsInto(m, P, s.pc)
    requires (Matches(m[s.pc]) ==> JustMatched(d, s)) && Eval(m, d, s, m[s.pc], ret).Running?
    ensures InCode(Eval(m, d, s, m[s.pc], ret).s, P)
  {
    var op := m[s.pc];
    if Matches(op) {
      if !Bit(op, 4) { var len := MatchedIs(d, s, op, ret); }
    } else if Ends(op) {
      TopFrame(d, s);
      EvalEndIs(m, d, s, op, ret);
    }
  }

  lemma StepInCode(m: seq<byte>, P: set<nat>, d: seq<byte>, s: State, ret: int)
    requires Inv(d, s) && InCode(s, P) && LeadsInto(m, P, s.pc) && Step(m, d, s, ret).Running?
    ensures InCode(Step(m, d, s, ret).s, P)
  {
    var op := m[s.pc];
    if !Matches(op) {
      EvalInCode(m, P, d, s, ret);
    } else if Matching(m, d, s, op).Accepted? {
      MatchingKeeps(m, d, s, op);
      var h := AcceptedIs(m, d, s, op);
      EvalInCode(m, P, d, Matching(m, d, s, op).s, ret);
    } else {
      SkippedIs(m, d, s, op);
    }
  }

  /** Over a whole run. */
  lemma {:induction false} RunTidy(m: seq<byte>, P: set<nat>, d: seq<byte>, rets: seq<int>, nonzero: bool)
    requires |d| <= 65535 && Code(m, P) && (forall pc <- P :: JumpConstructed(m, pc))
    requires nonzero ==> forall pc <- P :: RefusesZero(m, pc)
    ensures Run(m, d, rets).Running? ==> Tidy(d, Run(m, d, rets).s, nonzero) && InCode(Run(m, d, rets).s, P)
    ensures Run(m, d, rets).Complete? ==> LogTidy(Run(m, d, rets).log, nonzero)
    decreases |rets|
  {
    if rets != [] {
      var n := |rets| - 1;
      RunTidy(m, P, d, rets[..n], nonzero);
      var r := Run(m, d, rets[..n]);
      if r.Running? {
        var r1 := Step(m, d, r.s, rets[n]);
        if r1.Running? {
          StepTidy(m, d, r.s, rets[n], nonzero);
          StepInCode(m, P, d, r.s, rets[n]);
        } else if r1.Complete? {
          CompleteKeeps(m, d, r.s, rets[n]);
        }
      }
    }
  }

  /** The END callbacks of a run so far. */
  function LogOf(r: Result): seq<Event> {
    match r
    case Running(s) => s.log
    case Complete(log) => log
    case _ => []
  }

  /** If every JUMP asks for a constructed element, the slice given to the END action of an
      indefinite length is its contents exactly if no element with tag octet 0 was matched in it. */
  lemma SliceExact(m: seq<byte>, P: set<nat>, d: seq<byte>, rets: seq<int>, i: nat)
    requires |d| <= 65535 && Code(m, P) && (forall pc <- P :: JumpConstructed(m, pc))
    requires i < |LogOf(Run(m, d, rets))|
    ensures var e := LogOf(Run(m, d, rets))[i]; EventExact(d, e) && (e.Contents? ==> !e.mark.astray)
  {
    RunExact(m, d, rets);
    RunTidy(m, P, d, rets, false);
  }

  /** If moreover no opcode accepts tag octet 0, every END action on every input gets exactly the
      contents of its element. */
  lemma SliceIsContents(m: seq<byte>, P: set<nat>, d: seq<byte>, rets: seq<int>, i: nat)
    requires |d| <= 65535 && Code(m, P) && (forall pc <- P :: JumpConstructed(m, pc) && RefusesZero(m, pc))
    requires i < |LogOf(Run(m, d, rets))|
    ensures var e := LogOf(Run(m, d, rets))[i];
            e.Contents? ==> DefiniteAt(d, e.start, e.hdr, e.len) ||
                            (IndefiniteAt(d, e.start, e.hdr) && EndsAt(d, e.start, e.start + e.len + 2))
  {
    SliceExact(m, P, d, rets, i);
    RunTidy(m, P, d, rets, true);
    assert EventOk(d, LogOf(Run(m, d, rets))[i]);
  }
}
