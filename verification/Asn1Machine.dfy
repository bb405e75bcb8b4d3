/** The bytecode machine of asn1_ber_decoder (compat/lib-asn1_decoder.c), one opcode per
    step.  Callback results are inputs; every callback is logged. */
module Asn1Machine {
  import opened Asn1Scan

  const NR_CONS_STACK: nat := 10
  const NR_JUMP_STACK: nat := 10

  // ----- opcodes (include/linux/asn1_ber_bytecode.h) -----

  const COND_FAIL := 0x1c
  const COMPLETE := 0x1d
  const ACT := 0x1e
  const MAYBE_ACT := 0x1f

  predicate Bit(x: byte, b: nat)
    requires b in {1, 2, 4, 8, 16, 32}
  {
    (x / b) % 2 == 1
  }

  predicate Matches(op: byte) { op <= 0x1b }
  predicate Ends(op: byte) { 0x20 <= op <= 0x27 }

  /** asn1_op_lengths; 0 for a value that is not an opcode. */
  function OpLen(op: byte): nat {
    if op in {0x08, 0x09, 0x18, 0x19, 0x1c, 0x1d, 0x20, 0x21, 0x28} then 1
    else if op in {0x00, 0x01, 0x0a, 0x0b, 0x11, 0x1a, 0x1b, 0x1e, 0x1f, 0x22, 0x23, 0x24, 0x25} then 2
    else if op in {0x02, 0x03, 0x04, 0x05, 0x13, 0x15, 0x26, 0x27} then 3
    else 0
  }

  // ----- state -----

  /** One entry of the three cons stacks: start of the contents, header length, and the
      saved end of the enclosing element (0 for an indefinite length).  `indef` is
      auxiliary. */
  datatype Frame = Frame(start: nat, hdr: nat, end: nat, indef: bool)

  datatype Event =
    | Element(hdr: nat, tag: byte, start: nat, len: nat, cons: bool, indef: bool)  // MATCH ... ACT
    | Contents(hdr: nat, start: nat, len: nat, mark: Mark)                         // END ... ACT
    | Loose(hdr: nat, tag: byte, start: nat, len: nat)                             // ACT, MAYBE_ACT

  /** Auxiliary, one for each open element: how many elements with tag octet 0 were matched in it,
      and whether a JUMP went into the contents of a primitive element in it.  What happens inside
      a definite length does not concern the elements around it. */
  datatype Mark = Mark(zeros: nat, astray: bool)

  datatype Flags = Flags(indef: bool, matched: bool, last: bool, cons: bool)

  datatype State = State(
    pc: nat, dp: nat, tdp: nat, len: nat, datalen: nat, tag: byte, hdr: nat, flags: Flags,
    cons: seq<Frame>, marks: seq<Mark>, jumps: seq<nat>, log: seq<Event>)

  datatype Failure =
    | DataOverrun | MachineOverrun | JumpUnderflow | JumpOverflow | ConsUnderflow | ConsOverflow
    | ConsLength | MissingEnd | InvalidEnd | LengthTooLong | IndefinitePrim | TagMismatch | LongTagFound
    | StacksNotEmpty | ScanFailed(msg: Message)

  datatype Result =
    | Running(s: State)
    | Complete(log: seq<Event>)
    | Failed(why: Failure)
    | Refused(ret: int)      // a callback returned a negative value
    | NotAnOpcode            // outside the behaviour described here

  function U16(x: nat): nat { x % 0x10000 }
  function U8(x: nat): nat { x % 0x100 }

  function Start(d: seq<byte>): State {
    State(0, 0, 0, 0, |d|, 0, 0, Flags(false, false, false, false), [], [], [], [])
  }

  /** A zero tag, or else a primitive JUMP, seen from all open elements that it lies in. */
  function Touch(cons: seq<Frame>, marks: seq<Mark>, zero: bool): (r: seq<Mark>)
    ensures |r| == |marks|
  {
    if cons == [] || |cons| != |marks| || !cons[|cons| - 1].indef then marks
    else
      var n, k := |cons| - 1, marks[|cons| - 1];
      Touch(cons[..n], marks[..n], zero) + [if zero then k.(zeros := k.zeros + 1) else k.(astray := true)]
  }

  /** The marks after the element with tag octet `tag` has been passed, as a whole or not. */
  function Passed(cons: seq<Frame>, marks: seq<Mark>, tag: byte, whole: bool): (r: seq<Mark>)
    ensures |r| == |marks|
  {
    if whole && tag != 0 then marks else Touch(cons, marks, whole)
  }

  // ----- what the header octets say -----

  /** The element whose contents start at `start` has a header of hdr octets with a short tag
      and a definite length n. */
  predicate DefiniteAt(d: seq<byte>, start: nat, hdr: nat, n: nat) {
    && 2 <= hdr <= start <= |d| && hdr <= 4
    && d[start - hdr] % 32 != 31 && LenOk(d[start - hdr + 1..start], n)
  }

  predicate IndefiniteAt(d: seq<byte>, start: nat, hdr: nat) {
    && hdr == 2 <= start <= |d|
    && d[start - 2] % 32 != 31 && Bit(d[start - 2], 32) && d[start - 1] == 0x80
  }

  // ----- invariant -----

  predicate FrameOk(d: seq<byte>, f: Frame, datalen: nat) {
    && f.start <= datalen <= |d|
    && (f.end == 0 <==> f.indef)
    && (f.indef ==> IndefiniteAt(d, f.start, f.hdr))
    && (!f.indef ==> datalen <= f.end && DefiniteAt(d, f.start, f.hdr, datalen - f.start))
  }

  /** The end of the element around frame f. */
  function Outer(f: Frame, datalen: nat): nat {
    if f.indef then datalen else f.end
  }

  /** Saved ends are nested outward, from the innermost end `datalen` to the end of the data,
      and elements open inside one another. */
  predicate Nested(d: seq<byte>, cons: seq<Frame>, datalen: nat) {
    if cons == [] then datalen == |d|
    else
      var f, rest := cons[|cons| - 1], cons[..|cons| - 1];
      && FrameOk(d, f, datalen)
      && (rest != [] ==> rest[|rest| - 1].start + f.hdr <= f.start)
      && Nested(d, rest, Outer(f, datalen))
  }

  predicate Bounded(d: seq<byte>, s: State) {
    && s.dp <= s.datalen <= |d|
    && (s.cons != [] ==> s.cons[|s.cons| - 1].start <= s.dp)
  }

  /** What a callback may rely on. */
  ghost predicate EventOk(d: seq<byte>, e: Event) {
    match e
    case Contents(hdr, start, len, _) =>
      && start + len <= |d|
      && (DefiniteAt(d, start, hdr, len) ||
          (IndefiniteAt(d, start, hdr) && start + len + 2 <= |d| && d[start + len..start + len + 2] == END))
    case Element(hdr, tag, start, len, cons, indef) =>
      && 2 <= hdr <= start <= |d| && d[start - hdr] == tag
      && (!indef ==> start + len <= |d| && DefiniteAt(d, start, hdr, len))
      && (indef ==> IndefiniteAt(d, start, hdr))
      && (indef && !cons ==> start + len <= |d| && exists n: nat :: n <= |d| && EndsAt(d[..n], start, start + len))
    case Loose(_, _, _, _) => true
  }

  ghost predicate Inv(d: seq<byte>, s: State) {
    && |d| <= 65535
    && Bounded(d, s)
    && |s.cons| <= NR_CONS_STACK && |s.jumps| <= NR_JUMP_STACK
    && Nested(d, s.cons, s.datalen)
    && forall i :: 0 <= i < |s.log| ==> EventOk(d, s.log[i])
  }

  // ----- matching a tag -----

  /** The tag test: the CONS bit of the data is ignored if the opcode asks for CONS. */
  predicate TagMatches(optag: byte, tag: byte) {
    tag == optag || (Bit(optag, 32) && tag == optag - 32)
  }

  datatype TagResult = Skipped(s: State) | Rejected(why: Failure) | Accepted(s: State)

  /** Length octets at dp: the position after them and the length, 0x80 if indefinite. */
  datatype LengthResult = Length(next: nat, len: nat, indef: bool) | BadLength(why: Failure)

  function MatchLength(d: seq<byte>, dp: nat, datalen: nat, prim: bool): (r: LengthResult)
    requires 1 <= dp < datalen <= |d|
    ensures r.Length? ==> dp < r.next <= datalen && r.next - dp <= 3
    ensures r.Length? && !r.indef ==> r.next + r.len <= datalen && LenOk(d[dp..r.next], r.len)
    ensures r.Length? && r.indef ==> r.next == dp + 1 && d[dp] == 0x80 && !prim
  {
    var len := d[dp];
    var p := dp + 1;
    if len > 0x7f then
      if len == 0x80 then
        if prim then BadLength(IndefinitePrim)
        else if datalen - p < 2 then BadLength(DataOverrun)
        else Length(p, 0x80, true)
      else
        var n := len - 0x80;
        if n > 2 then BadLength(LengthTooLong)
        else if n > datalen - p then BadLength(DataOverrun)
        else
          var v := BigEndian(d[p..p + n]);
          assert d[dp..p + n][1..] == d[p..p + n];
          if v > datalen - (p + n) then BadLength(DataOverrun) else Length(p + n, v, false)
    else if len > datalen - p then BadLength(DataOverrun)
    else Length(p, len, false)
  }

  /** All bits of x and y agree: x ^ y is 0. */
  predicate SameBits(x: nat, y: nat) {
    (x == 0 && y == 0) || (x % 2 == y % 2 && SameBits(x / 2, y / 2))
  }

  lemma {:induction false} BitsAreNumber(x: nat, y: nat)
    ensures SameBits(x, y) <==> x == y
  {
    if x > 0 || y > 0 { BitsAreNumber(x / 2, y / 2); }
  }

  lemma TagParts(x: byte)
    ensures x == 64 * (x / 64) + 32 * ((x / 32) % 2) + x % 32
  {
    assert x / 32 == 2 * (x / 64) + (x / 32) % 2;
  }

  /** The tag test on bits, (optag ^ tag) & ~(optag & 0x20) == 0: the five bits below and the two
      bits above the CONS bit agree, and so does that bit unless the opcode has it. */
  lemma TagTestOnBits(optag: byte, tag: byte)
    ensures TagMatches(optag, tag) <==>
            && SameBits(optag % 32, tag % 32) && SameBits(optag / 64, tag / 64)
            && (Bit(optag, 32) || !Bit(tag, 32))
  {
    BitsAreNumber(optag % 32, tag % 32);
    BitsAreNumber(optag / 64, tag / 64);
    TagParts(optag);
    TagParts(tag);
    PartsMatch(optag, tag, optag / 64, tag / 64, (optag / 32) % 2, (tag / 32) % 2, optag % 32, tag % 32);
  }

  lemma PartsMatch(x: int, y: int, a: int, a': int, b: int, b': int, c: int, c': int)
    requires x == 64 * a + 32 * b + c && y == 64 * a' + 32 * b' + c' && 0 <= b < 2 && 0 <= b' < 2 && 0 <= c < 32 && 0 <= c' < 32
    ensures y == x || (b == 1 && y == x - 32) <==> a == a' && c == c' && (b == 1 || b' == 0)
  {
  }

  /** Opening a constructed element: positions are stored in 16 bits, the header length in 8. */
  function Push(s: State): State {
    var f := Frame(U16(s.dp), U8(s.hdr), if s.flags.indef then 0 else U16(s.datalen), s.flags.indef);
    s.(cons := s.cons + [f], marks := s.marks + [Mark(0, false)], datalen := if s.flags.indef then s.datalen else s.dp + s.len)
  }

  /** The registers after a matched header. */
  function Header(d: seq<byte>, s: State, l: LengthResult, cons: bool): State
    requires l.Length? && s.dp < |d| && s.dp <= l.next
  {
    s.(dp := l.next, tdp := l.next, len := l.len, tag := d[s.dp], hdr := l.next - s.dp,
       flags := Flags(l.indef, true, false, cons))
  }

  /** Everything the code does before it evaluates an opcode of `size` octets that matches a
      tag: conditional, skippable, or for any tag. */
  function MatchTag(d: seq<byte>, s: State, size: nat, cond: bool, skip: bool, any: bool, optag: byte): (r: TagResult)
    requires Bounded(d, s)
    ensures r.Accepted? ==> Bounded(d, r.s) && r.s.pc == s.pc
  {
    var cons := !any && Bit(optag, 32);
    if (cond && s.flags.matched) || (skip && s.dp == s.datalen) then
      Skipped(s.(flags := s.flags.(last := false), pc := s.pc + size))
    else if s.datalen - s.dp < 2 then Rejected(DataOverrun)
    else if d[s.dp] % 32 == 31 then Rejected(LongTagFound)
    else if !any && !TagMatches(optag, d[s.dp]) then
      if skip then
        Skipped(s.(flags := Flags(false, false, false, cons), hdr := 2, tag := d[s.dp], pc := s.pc + size))
      else Rejected(TagMismatch)
    else
      var l := MatchLength(d, s.dp + 1, s.datalen, !Bit(d[s.dp], 32));
      if l.BadLength? then Rejected(l.why)
      else if cons && |s.cons| >= NR_CONS_STACK then Rejected(ConsOverflow)
      else Accepted(if cons then Push(Header(d, s, l, cons)) else Header(d, s, l, cons))
  }

  // ----- evaluating an opcode -----

  function Call(s: State, e: Event, ret: int, then_: State): Result {
    if ret < 0 then Refused(ret) else Running(then_.(log := s.log + [e]))
  }

  /** MATCH without JUMP: a leaf is stepped over, a constructed element entered. */
  function EvalMatch(d: seq<byte>, s: State, op: byte, ret: int): Result
    requires Bounded(d, s)
  {
    ScanStaysInside(d[..s.datalen], s.dp, 1);
    var scan := if !s.flags.cons && s.flags.indef then Scan(d[..s.datalen], s.dp, 1) else Found(s.dp + s.len);
    if scan.Error? then Failed(ScanFailed(scan.msg))
    else
      var len := scan.end - s.dp;
      var s1 := s.(len := len, dp := if s.flags.cons then s.dp else s.dp + len, pc := s.pc + OpLen(op),
                   marks := if s.flags.cons then s.marks else Passed(s.cons, s.marks, s.tag, true));
      if Bit(op, 2) then Call(s, Element(s.hdr, s.tag, s.dp, len, s.flags.cons, s.flags.indef), ret, s1)
      else Running(s1)
  }

  function EvalJump(m: seq<byte>, s: State, op: byte): Result
    requires s.pc + 2 < |m|
  {
    if |s.jumps| == NR_JUMP_STACK then Failed(JumpOverflow)
    else Running(s.(jumps := s.jumps + [U8(s.pc + OpLen(op))], pc := m[s.pc + 2],
                    marks := if s.flags.cons then s.marks else Passed(s.cons, s.marks, s.tag, s.len == 0)))
  }

  /** END_SEQ, END_SET and their OF and ACT forms. */
  function EvalEnd(m: seq<byte>, d: seq<byte>, s: State, op: byte, ret: int): Result
    requires Bounded(d, s) && Ends(op) && s.pc + OpLen(op) <= |m|
  {
    var of, act := Bit(op, 2), Bit(op, 4);
    if Bit(op, 1) && !of && !s.flags.matched then Failed(TagMismatch)
    else if s.cons == [] then Failed(ConsUnderflow)
    else
      var f, rest := s.cons[|s.cons| - 1], s.cons[..|s.cons| - 1];
      var again := Running(s.(tdp := f.start, hdr := f.hdr, len := s.datalen, pc := if of then m[s.pc + 1] else 0));
      if f.end == 0 then
        if s.datalen - s.dp < 2 then Failed(DataOverrun)
        else if d[s.dp] != 0 then (if of then again else Failed(MissingEnd))
        else if d[s.dp + 1] != 0 then Failed(InvalidEnd)
        else
          Leave(s, f, rest, Outside(d, s), s.dp + 2, s.datalen, s.dp - f.start, op, act, ret)
      else if s.dp < s.datalen && of then again
      else if s.dp != s.datalen then Failed(ConsLength)
      else Leave(s, f, rest, Outside(d, s), s.dp, f.end, s.datalen - f.start, op, act, ret)
  }

  /** The mark of the innermost open element. */
  function Innermost(s: State): Mark {
    if s.marks == [] then Mark(0, false) else s.marks[|s.marks| - 1]
  }

  /** The marks of the other open elements once the innermost one is closed. */
  function Outside(d: seq<byte>, s: State): seq<Mark>
    requires s.cons != []
  {
    var f := s.cons[|s.cons| - 1];
    var marks := if s.marks == [] then [] else s.marks[..|s.marks| - 1];
    if f.indef || f.start > |d| || f.hdr > f.start || f.hdr == 0 then marks
    else Passed(s.cons[..|s.cons| - 1], marks, d[f.start - f.hdr], true)
  }

  function Leave(s: State, f: Frame, rest: seq<Frame>, marks: seq<Mark>, dp: nat, datalen: nat, len: nat, op: byte, act: bool, ret: int): Result {
    var s1 := s.(cons := rest, marks := marks, tdp := f.start, hdr := f.hdr, len := len, dp := dp, datalen := datalen,
                 pc := s.pc + OpLen(op));
    if act then Call(s, Contents(f.hdr, f.start, len, Innermost(s)), ret, s1) else Running(s1)
  }

  function Eval(m: seq<byte>, d: seq<byte>, s: State, op: byte, ret: int): Result
    requires Bounded(d, s) && OpLen(op) > 0 && s.pc + OpLen(op) <= |m|
  {
    var next := s.pc + OpLen(op);
    if Matches(op) then (if Bit(op, 4) then EvalJump(m, s, op) else EvalMatch(d, s, op, ret))
    else if Ends(op) then EvalEnd(m, d, s, op, ret)
    else if op == COND_FAIL then (if !s.flags.matched then Failed(TagMismatch) else Running(s.(pc := next)))
    else if op == COMPLETE then (if s.jumps != [] || s.cons != [] then Failed(StacksNotEmpty) else Complete(s.log))
    else if op == MAYBE_ACT && !s.flags.last then Running(s.(pc := next))
    else if op == ACT || op == MAYBE_ACT then
      Call(s, Loose(s.hdr, s.tag, s.tdp, s.len), ret, s.(pc := next))
    else if s.jumps == [] then Failed(JumpUnderflow)
    else
      Running(s.(jumps := s.jumps[..|s.jumps| - 1], pc := s.jumps[|s.jumps| - 1],
                 flags := s.flags.(matched := true, last := true)))
  }

  /** One opcode. */
  function Step(m: seq<byte>, d: seq<byte>, s: State, ret: int): Result
    requires Bounded(d, s)
  {
    if s.pc >= |m| then Failed(MachineOverrun)
    else
      var op := m[s.pc];
      if OpLen(op) == 0 then NotAnOpcode
      else if s.pc + OpLen(op) > |m| then Failed(MachineOverrun)
      else if !Matches(op) then Eval(m, d, s, op, ret)
      else
        match Matching(m, d, s, op)
        case Skipped(s1) => Running(s1)
        case Rejected(why) => Failed(why)
        case Accepted(s1) => Eval(m, d, s1, op, ret)
  }

  /** The tag test of the opcode at pc. */
  function Matching(m: seq<byte>, d: seq<byte>, s: State, op: byte): (r: TagResult)
    requires Bounded(d, s) && Matches(op) && OpLen(op) > 0 && s.pc + OpLen(op) <= |m|
    ensures r.Accepted? ==> Bounded(d, r.s) && r.s.pc == s.pc
  {
    var any := Bit(op, 8);
    MatchTag(d, s, OpLen(op), Bit(op, 16), Bit(op, 1), any, if any then 0 else m[s.pc + 1])
  }

  // ----- every step keeps the invariant -----

  /** What holds right after a tag has been matched. */
  predicate JustMatched(d: seq<byte>, s: State) {
    && 2 <= s.hdr <= s.dp <= |d| && d[s.dp - s.hdr] == s.tag && s.flags.matched
    && (!s.flags.indef ==> s.dp + s.len <= s.datalen && DefiniteAt(d, s.dp, s.hdr, s.len))
    && (s.flags.indef ==> IndefiniteAt(d, s.dp, s.hdr))
  }

  /** Opening an element: 16-bit and 8-bit storage loses nothing, and the 0 that marks an
      indefinite length is never a saved end. */
  lemma PushKeeps(d: seq<byte>, s: State)
    requires Inv(d, s) && JustMatched(d, s) && |s.cons| < NR_CONS_STACK
    requires s.cons != [] ==> s.cons[|s.cons| - 1].start + s.hdr <= s.dp
    ensures Inv(d, Push(s)) && JustMatched(d, Push(s))
    ensures Push(s).cons[|s.cons|] == Frame(s.dp, s.hdr, if s.flags.indef then 0 else s.datalen, s.flags.indef)
    ensures !s.flags.indef ==> s.datalen != 0
  {
    PushIs(d, s);
    var f := Frame(s.dp, s.hdr, if s.flags.indef then 0 else s.datalen, s.flags.indef);
    assert FrameOk(d, f, Push(s).datalen);
    NestedGrows(d, s.cons, f, s.datalen, Push(s).datalen);
  }

  /** No bit is lost. */
  lemma PushIs(d: seq<byte>, s: State)
    requires |d| <= 65535 && s.dp <= s.datalen <= |d| && JustMatched(d, s)
    ensures Push(s) == s.(cons := s.cons + [Frame(s.dp, s.hdr, if s.flags.indef then 0 else s.datalen, s.flags.indef)],
                          marks := s.marks + [Mark(0, false)],
                          datalen := if s.flags.indef then s.datalen else s.dp + s.len)
  {
  }

  lemma NestedGrows(d: seq<byte>, cons: seq<Frame>, f: Frame, outer: nat, datalen: nat)
    requires Nested(d, cons, outer) && FrameOk(d, f, datalen) && outer == Outer(f, datalen)
    requires cons != [] ==> cons[|cons| - 1].start + f.hdr <= f.start
    ensures Nested(d, cons + [f], datalen)
  {
    assert (cons + [f])[..|cons|] == cons;
  }

  lemma HeaderKeeps(d: seq<byte>, s: State, cons: bool)
    requires Inv(d, s) && s.datalen - s.dp >= 2 && d[s.dp] % 32 != 31
    requires MatchLength(d, s.dp + 1, s.datalen, !Bit(d[s.dp], 32)).Length?
    ensures var l := MatchLength(d, s.dp + 1, s.datalen, !Bit(d[s.dp], 32));
            var s1 := Header(d, s, l, cons);
            && Inv(d, s1) && JustMatched(d, s1)
            && (s.cons != [] ==> s.cons[|s.cons| - 1].start + s1.hdr <= s1.dp)
  {
    HeaderMatched(d, s, MatchLength(d, s.dp + 1, s.datalen, !Bit(d[s.dp], 32)), cons);
  }

  lemma HeaderMatched(d: seq<byte>, s: State, l: LengthResult, cons: bool)
    requires s.datalen <= |d| && s.datalen - s.dp >= 2 && d[s.dp] % 32 != 31 && l.Length?
    requires l == MatchLength(d, s.dp + 1, s.datalen, !Bit(d[s.dp], 32))
    ensures s.dp + 2 <= l.next <= s.datalen && JustMatched(d, Header(d, s, l, cons))
  {
    var s1 := Header(d, s, l, cons);
    assert d[s1.dp - s1.hdr + 1..s1.dp] == d[s.dp + 1..l.next];
  }

  lemma LogKeeps(d: seq<byte>, log: seq<Event>, e: Event)
    requires (forall i :: 0 <= i < |log| ==> EventOk(d, log[i])) && EventOk(d, e)
    ensures forall i :: 0 <= i < |log + [e]| ==> EventOk(d, (log + [e])[i])
  {
  }

  lemma MatchEvent(d: seq<byte>, s: State, e: nat)
    requires Inv(d, s) && JustMatched(d, s) && !s.flags.cons && s.flags.indef
    requires Scan(d[..s.datalen], s.dp, 1) == Found(e)
    ensures s.dp <= e <= s.datalen && EventOk(d, Element(s.hdr, s.tag, s.dp, e - s.dp, false, true))
  {
    ScanStaysInside(d[..s.datalen], s.dp, 1);
    ScanIsGrammar(d[..s.datalen], s.dp, e);
  }

  /** The event of a matched element and the registers after it. */
  lemma MatchedKeeps(d: seq<byte>, s: State, len: nat, pc: nat, marks: seq<Mark>, log: bool)
    requires Inv(d, s) && (s.flags.cons || s.dp + len <= s.datalen)
    requires EventOk(d, Element(s.hdr, s.tag, s.dp, len, s.flags.cons, s.flags.indef))
    ensures var e := Element(s.hdr, s.tag, s.dp, len, s.flags.cons, s.flags.indef);
            Inv(d, s.(len := len, dp := if s.flags.cons then s.dp else s.dp + len, pc := pc, marks := marks,
                      log := if log then s.log + [e] else s.log))
  {
    LogKeeps(d, s.log, Element(s.hdr, s.tag, s.dp, len, s.flags.cons, s.flags.indef));
  }

  /** The registers after a match, with the length found by the scan for an indefinite leaf. */
  lemma EvalMatchIs(d: seq<byte>, s: State, op: byte, ret: int, len: nat)
    requires Bounded(d, s) && EvalMatch(d, s, op, ret).Running?
    requires if !s.flags.cons && s.flags.indef then Scan(d[..s.datalen], s.dp, 1) == Found(s.dp + len) else len == s.len
    ensures var e := Element(s.hdr, s.tag, s.dp, len, s.flags.cons, s.flags.indef);
            EvalMatch(d, s, op, ret).s ==
              s.(len := len, dp := if s.flags.cons then s.dp else s.dp + len, pc := s.pc + OpLen(op),
                 marks := if s.flags.cons then s.marks else Passed(s.cons, s.marks, s.tag, true),
                 log := if Bit(op, 2) then s.log + [e] else s.log)
  {
  }

  /** The length that a match reports, and its event. */
  lemma MatchedLength(d: seq<byte>, s: State, op: byte, ret: int) returns (len: nat)
    requires Inv(d, s) && JustMatched(d, s) && EvalMatch(d, s, op, ret).Running?
    ensures if !s.flags.cons && s.flags.indef then Scan(d[..s.datalen], s.dp, 1) == Found(s.dp + len) else len == s.len
    ensures s.flags.cons || s.dp + len <= s.datalen
    ensures EventOk(d, Element(s.hdr, s.tag, s.dp, len, s.flags.cons, s.flags.indef))
  {
    len := s.len;
    if !s.flags.cons && s.flags.indef {
      var e := Scan(d[..s.datalen], s.dp, 1).end;
      MatchEvent(d, s, e);
      len := e - s.dp;
    }
  }

  /** What a match does to the registers, without its scan. */
  lemma MatchedIs(d: seq<byte>, s: State, op: byte, ret: int) returns (len: nat)
    requires Inv(d, s) && JustMatched(d, s) && EvalMatch(d, s, op, ret).Running?
    ensures (s.flags.cons || s.dp + len <= s.datalen) && (s.flags.cons || !s.flags.indef ==> len == s.len)
    ensures !s.flags.cons && s.flags.indef ==> EndsAt(d[..s.datalen], s.dp, s.dp + len)
    ensures var e := Element(s.hdr, s.tag, s.dp, len, s.flags.cons, s.flags.indef);
            && EventOk(d, e)
            && EvalMatch(d, s, op, ret).s ==
                 s.(len := len, dp := if s.flags.cons then s.dp else s.dp + len, pc := s.pc + OpLen(op),
                    marks := if s.flags.cons then s.marks else Passed(s.cons, s.marks, s.tag, true),
                    log := if Bit(op, 2) then s.log + [e] else s.log)
  {
    len := MatchedLength(d, s, op, ret);
    EvalMatchIs(d, s, op, ret, len);
    ScanIsGrammar(d[..s.datalen], s.dp, s.dp + len);
  }

  lemma EvalMatchKeeps(d: seq<byte>, s: State, op: byte, ret: int)
    requires Inv(d, s) && JustMatched(d, s) && EvalMatch(d, s, op, ret).Running?
    ensures Inv(d, EvalMatch(d, s, op, ret).s)
  {
    var len := MatchedIs(d, s, op, ret);
    MatchedKeeps(d, s, len, s.pc + OpLen(op), if s.flags.cons then s.marks else Passed(s.cons, s.marks, s.tag, true), Bit(op, 2));
  }

  /** Leaving an element: the callback gets exactly its contents. */
  lemma ContentsEvent(d: seq<byte>, s: State)
    requires Inv(d, s) && s.cons != []
    ensures var f := s.cons[|s.cons| - 1];
            && (f.indef && s.datalen - s.dp >= 2 && d[s.dp] == 0 && d[s.dp + 1] == 0 ==>
                  EventOk(d, Contents(f.hdr, f.start, s.dp - f.start, Innermost(s))))
            && (!f.indef && s.dp == s.datalen ==> EventOk(d, Contents(f.hdr, f.start, s.datalen - f.start, Innermost(s))))
  {
    if s.datalen - s.dp >= 2 && d[s.dp] == 0 && d[s.dp + 1] == 0 { assert d[s.dp..s.dp + 2] == END; }
  }

  lemma LeaveKeeps(d: seq<byte>, s: State, s': State)
    requires Inv(d, s) && s.cons != []
    requires var f := s.cons[|s.cons| - 1];
             && s'.cons == s.cons[..|s.cons| - 1] && s'.jumps == s.jumps && s'.datalen == Outer(f, s.datalen)
             && s.dp <= s'.dp <= s'.datalen
             && var e := Contents(f.hdr, f.start, s.dp - f.start, Innermost(s)); EventOk(d, e) && (s'.log == s.log || s'.log == s.log + [e])
    ensures Inv(d, s')
  {
    var f := s.cons[|s.cons| - 1];
    NestedFacts(d, s'.cons, s'.datalen);
    LogKeeps(d, s.log, Contents(f.hdr, f.start, s.dp - f.start, Innermost(s)));
  }

  lemma TopFrame(d: seq<byte>, s: State)
    requires Inv(d, s)
    ensures s.cons != [] ==> FrameOk(d, s.cons[|s.cons| - 1], s.datalen)
  {
  }

  /** An END opcode goes round again with everything in place, or closes the innermost element at
      its end. */
  lemma EvalEndIs(m: seq<byte>, d: seq<byte>, s: State, op: byte, ret: int)
    requires Bounded(d, s) && Ends(op) && s.pc + OpLen(op) <= |m| && EvalEnd(m, d, s, op, ret).Running?
    requires s.cons != [] ==> FrameOk(d, s.cons[|s.cons| - 1], s.datalen)
    ensures s.cons != []
    ensures var f, s' := s.cons[|s.cons| - 1], EvalEnd(m, d, s, op, ret).s;
      if |s'.cons| == |s.cons| then
        s' == s.(tdp := s'.tdp, hdr := s'.hdr, len := s'.len, pc := s'.pc) && Bit(op, 2) && s'.pc == m[s.pc + 1]
      else
        && (if f.indef then s.datalen - s.dp >= 2 && d[s.dp] == 0 && d[s.dp + 1] == 0 else s.dp == s.datalen)
        && s' == s.(cons := s.cons[..|s.cons| - 1], marks := Outside(d, s), tdp := s'.tdp, hdr := s'.hdr, len := s'.len,
                    dp := if f.indef then s.dp + 2 else s.dp, datalen := Outer(f, s.datalen), pc := s.pc + OpLen(op), log := s'.log)
        && s'.log == if Bit(op, 4) then s.log + [Contents(f.hdr, f.start, s.dp - f.start, Innermost(s))] else s.log
  {
  }

  lemma EvalEndKeeps(m: seq<byte>, d: seq<byte>, s: State, op: byte, ret: int)
    requires Inv(d, s) && Ends(op) && s.pc + OpLen(op) <= |m| && EvalEnd(m, d, s, op, ret).Running?
    ensures Inv(d, EvalEnd(m, d, s, op, ret).s)
  {
    TopFrame(d, s);
    EvalEndIs(m, d, s, op, ret);
    var f, s' := s.cons[|s.cons| - 1], EvalEnd(m, d, s, op, ret).s;
    if |s'.cons| != |s.cons| {
      ContentsEvent(d, s);
      LeaveKeeps(d, s, s');
    }
  }

  lemma EvalMatchingKeeps(m: seq<byte>, d: seq<byte>, s: State, op: byte, ret: int)
    requires Inv(d, s) && OpLen(op) > 0 && s.pc + OpLen(op) <= |m| && Matches(op) && JustMatched(d, s)
    requires Eval(m, d, s, op, ret).Running?
    ensures Inv(d, Eval(m, d, s, op, ret).s)
  {
    if !Bit(op, 4) { EvalMatchKeeps(d, s, op, ret); }
  }

  /** The opcodes that are about no element. */
  lemma EvalOtherKeeps(m: seq<byte>, d: seq<byte>, s: State, op: byte, ret: int)
    requires Inv(d, s) && OpLen(op) > 0 && s.pc + OpLen(op) <= |m| && !Matches(op) && !Ends(op)
    requires Eval(m, d, s, op, ret).Running?
    ensures Inv(d, Eval(m, d, s, op, ret).s)
  {
    if op == ACT || op == MAYBE_ACT { LogKeeps(d, s.log, Loose(s.hdr, s.tag, s.tdp, s.len)); }
  }

  lemma EvalKeeps(m: seq<byte>, d: seq<byte>, s: State, op: byte, ret: int)
    requires Inv(d, s) && OpLen(op) > 0 && s.pc + OpLen(op) <= |m| && (Matches(op) ==> JustMatched(d, s))
    requires Eval(m, d, s, op, ret).Running?
    ensures Inv(d, Eval(m, d, s, op, ret).s)
  {
    if Matches(op) {
      EvalMatchingKeeps(m, d, s, op, ret);
    } else if Ends(op) {
      EvalEndKeeps(m, d, s, op, ret);
    } else {
      EvalOtherKeeps(m, d, s, op, ret);
    }
  }

  /** What an accepted match has read. */
  lemma AcceptedReads(m: seq<byte>, d: seq<byte>, s: State, op: byte)
    requires Bounded(d, s) && Matches(op) && OpLen(op) > 0 && s.pc + OpLen(op) <= |m| && Matching(m, d, s, op).Accepted?
    ensures s.datalen - s.dp >= 2 && d[s.dp] % 32 != 31 && MatchLength(d, s.dp + 1, s.datalen, !Bit(d[s.dp], 32)).Length?
    ensures var cons := !Bit(op, 8) && Bit(m[s.pc + 1], 32);
            var h := Header(d, s, MatchLength(d, s.dp + 1, s.datalen, !Bit(d[s.dp], 32)), cons);
            && Matching(m, d, s, op).s == (if cons then Push(h) else h)
            && (cons ==> |s.cons| < NR_CONS_STACK)
            && (!Bit(op, 8) ==> TagMatches(m[s.pc + 1], d[s.dp]))
  {
  }

  lemma AcceptedHeader(m: seq<byte>, d: seq<byte>, s: State, op: byte) returns (h: State, cons: bool)
    requires Bounded(d, s) && Matches(op) && OpLen(op) > 0 && s.pc + OpLen(op) <= |m| && Matching(m, d, s, op).Accepted?
    ensures s.datalen - s.dp >= 2 && d[s.dp] % 32 != 31 && MatchLength(d, s.dp + 1, s.datalen, !Bit(d[s.dp], 32)).Length?
    ensures h == Header(d, s, MatchLength(d, s.dp + 1, s.datalen, !Bit(d[s.dp], 32)), cons) && h.flags.cons == cons
    ensures Matching(m, d, s, op).s == (if cons then Push(h) else h) && (cons ==> |s.cons| < NR_CONS_STACK)
  {
    AcceptedReads(m, d, s, op);
    cons := !Bit(op, 8) && Bit(m[s.pc + 1], 32);
    h := Header(d, s, MatchLength(d, s.dp + 1, s.datalen, !Bit(d[s.dp], 32)), cons);
  }

  /** An accepted match has the registers h of its header, with the element opened if the opcode
      asks for it. */
  lemma AcceptedIs(m: seq<byte>, d: seq<byte>, s: State, op: byte) returns (h: State)
    requires Inv(d, s) && Matches(op) && OpLen(op) > 0 && s.pc + OpLen(op) <= |m| && Matching(m, d, s, op).Accepted?
    ensures Matching(m, d, s, op).s == if h.flags.cons then Push(h) else h
    ensures Inv(d, h) && JustMatched(d, h) && (h.flags.cons ==> |h.cons| < NR_CONS_STACK)
    ensures h == s.(dp := h.dp, tdp := h.tdp, len := h.len, tag := h.tag, hdr := h.hdr, flags := h.flags) && h.dp - h.hdr == s.dp
    ensures h.cons != [] ==> h.cons[|h.cons| - 1].start + h.hdr <= h.dp
  {
    var cons;
    h, cons := AcceptedHeader(m, d, s, op);
    HeaderKeeps(d, s, cons);
  }

  /** The tag it has, and when it opens the element. */
  lemma AcceptedTag(m: seq<byte>, d: seq<byte>, s: State, op: byte)
    requires Bounded(d, s) && Matches(op) && OpLen(op) > 0 && s.pc + OpLen(op) <= |m| && Matching(m, d, s, op).Accepted?
    ensures var s1 := Matching(m, d, s, op).s;
            && (s1.flags.cons <==> !Bit(op, 8) && Bit(m[s.pc + 1], 32))
            && (!Bit(op, 8) ==> TagMatches(m[s.pc + 1], s1.tag))
  {
    AcceptedReads(m, d, s, op);
  }

  lemma MatchingKeeps(m: seq<byte>, d: seq<byte>, s: State, op: byte)
    requires Inv(d, s) && Matches(op) && OpLen(op) > 0 && s.pc + OpLen(op) <= |m|
    ensures var r := Matching(m, d, s, op);
            && (!r.Rejected? ==> Inv(d, r.s))
            && (r.Accepted? ==> JustMatched(d, r.s))
  {
    if Matching(m, d, s, op).Accepted? {
      var h := AcceptedIs(m, d, s, op);
      if h.flags.cons { PushKeeps(d, h); }
    } else if Matching(m, d, s, op).Skipped? {
      SkippedIs(m, d, s, op);
    }
  }

  /** A skipped match moves on in the bytecode only. */
  lemma SkippedIs(m: seq<byte>, d: seq<byte>, s: State, op: byte)
    requires Bounded(d, s) && Matches(op) && OpLen(op) > 0 && s.pc + OpLen(op) <= |m| && Matching(m, d, s, op).Skipped?
    ensures var r := Matching(m, d, s, op).s; r == s.(flags := r.flags, hdr := r.hdr, tag := r.tag, pc := s.pc + OpLen(op))
  {
  }

  lemma StepKeeps(m: seq<byte>, d: seq<byte>, s: State, ret: int)
    requires Inv(d, s) && Step(m, d, s, ret).Running?
    ensures Inv(d, Step(m, d, s, ret).s)
  {
    var op := m[s.pc];
    if Matches(op) {
      MatchingKeeps(m, d, s, op);
      var r := Matching(m, d, s, op);
      if r.Accepted? { EvalKeeps(m, d, r.s, op, ret); }
    } else {
      EvalKeeps(m, d, s, op, ret);
    }
  }

  lemma CompleteKeeps(m: seq<byte>, d: seq<byte>, s: State, ret: int)
    requires Inv(d, s) && Step(m, d, s, ret).Complete?
    ensures Step(m, d, s, ret).log == s.log
  {
  }

  // ----- every run -----

  /** asn1_ber_decoder for as many opcodes as there are callback results. */
  function Run(m: seq<byte>, d: seq<byte>, rets: seq<int>): (r: Result)
    requires |d| <= 65535
    ensures r.Running? ==> Inv(d, r.s)
    ensures r.Complete? ==> forall i :: 0 <= i < |r.log| ==> EventOk(d, r.log[i])
  {
    if rets == [] then Running(Start(d))
    else
      var r := Run(m, d, rets[..|rets| - 1]);
      if !r.Running? then r
      else
        var r1 := Step(m, d, r.s, rets[|rets| - 1]);
        if r1.Running? then StepKeeps(m, d, r.s, rets[|rets| - 1]); r1
        else if r1.Complete? then CompleteKeeps(m, d, r.s, rets[|rets| - 1]); r1
        else r1
  }

  /** In every state that any bytecode reaches on any input: the cursor and the current end
      stay inside the data, the stacks inside their arrays, saved ends are nested outward with
      16-bit storage exact and 0 only for indefinite lengths, and every callback so far was
      given what the header octets promise. */
  lemma RunIsSafe(m: seq<byte>, d: seq<byte>, rets: seq<int>)
    requires |d| <= 65535 && Run(m, d, rets).Running?
    ensures var s := Run(m, d, rets).s;
            && s.dp <= s.datalen <= |d| && |s.cons| <= 10 && |s.jumps| <= 10
            && (forall i :: 0 <= i < |s.log| ==> EventOk(d, s.log[i]))
            && (forall i :: 0 <= i < |s.cons| ==>
                  s.cons[i].start <= s.dp && (s.cons[i].indef <==> s.cons[i].end == 0) && s.cons[i].end <= |d|)
            && (forall i, j :: 0 <= i < j < |s.cons| ==> s.cons[i].start + s.cons[j].hdr <= s.cons[j].start)
            && (forall i, j :: 0 <= i < j < |s.cons| && !s.cons[i].indef && !s.cons[j].indef ==>
                  s.datalen <= s.cons[j].end <= s.cons[i].end)
  {
    var s := Run(m, d, rets).s;
    NestedFacts(d, s.cons, s.datalen);
  }

  /** Saved ends, from the outermost frame to the innermost. */
  lemma {:induction false} NestedEnds(d: seq<byte>, cons: seq<Frame>, datalen: nat)
    requires Nested(d, cons, datalen)
    ensures datalen <= |d|
    ensures forall i :: 0 <= i < |cons| ==>
              (cons[i].indef <==> cons[i].end == 0) && cons[i].end <= |d| && (!cons[i].indef ==> datalen <= cons[i].end)
    ensures forall i, j :: 0 <= i < j < |cons| && !cons[i].indef && !cons[j].indef ==> cons[j].end <= cons[i].end
  {
    if cons != [] {
      var f, rest := cons[|cons| - 1], cons[..|cons| - 1];
      NestedEnds(d, rest, Outer(f, datalen));
      assert forall i :: 0 <= i < |rest| ==> rest[i] == cons[i];
    }
  }

  lemma {:induction false} NestedStarts(d: seq<byte>, cons: seq<Frame>, datalen: nat)
    requires Nested(d, cons, datalen)
    ensures forall i :: 0 <= i < |cons| ==> cons[i].start <= cons[|cons| - 1].start
    ensures forall i, j :: 0 <= i < j < |cons| ==> cons[i].start + cons[j].hdr <= cons[j].start
  {
    if cons != [] {
      var f, rest := cons[|cons| - 1], cons[..|cons| - 1];
      NestedStarts(d, rest, Outer(f, datalen));
      assert forall i :: 0 <= i < |rest| ==> rest[i] == cons[i];
    }
  }

  lemma NestedFacts(d: seq<byte>, cons: seq<Frame>, datalen: nat)
    requires Nested(d, cons, datalen)
    ensures datalen <= |d|
    ensures forall i :: 0 <= i < |cons| ==>
              && cons[i].start <= cons[|cons| - 1].start && (cons[i].indef <==> cons[i].end == 0) && cons[i].end <= |d|
              && (!cons[i].indef ==> datalen <= cons[i].end)
    ensures forall i, j :: 0 <= i < j < |cons| ==> cons[i].start + cons[j].hdr <= cons[j].start
    ensures forall i, j :: 0 <= i < j < |cons| && !cons[i].indef && !cons[j].indef ==> cons[j].end <= cons[i].end
  {
    NestedEnds(d, cons, datalen);
    NestedStarts(d, cons, datalen);
  }
}
