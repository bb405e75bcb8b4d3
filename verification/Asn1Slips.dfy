/** Bytecode and data for which asn1_ber_decoder (compat/lib-asn1_decoder.c) gives an END action
    something else than the contents of its element: why the conditions of Asn1Exact are there. */
module Asn1Slips {
  import opened Asn1Scan
  import opened Asn1Machine
  import opened Asn1Exact

  lemma Lengths()
    ensures OpLen(0x00) == 2 && OpLen(0x04) == 3 && OpLen(0x08) == 1 && OpLen(0x24) == 2 && OpLen(0x28) == 1
  {
  }

  // ----- five steps -----

  /** The registers after a header at dp. */
  function Read(s: State, tag: byte, len: nat, flags: Flags): State {
    s.(dp := s.dp + 2, tdp := s.dp + 2, len := len, tag := tag, hdr := 2, flags := flags)
  }

  /** MATCH 0x30 enters an indefinite element. */
  lemma Enter(m: seq<byte>, d: seq<byte>, s: State)
    requires Bounded(d, s) && s.pc + 2 <= |m| && m[s.pc] == 0 && m[s.pc + 1] == 0x30 && |s.cons| < NR_CONS_STACK
    requires s.dp + 4 <= s.datalen && d[s.dp] == 0x30 && d[s.dp + 1] == 0x80
    ensures Step(m, d, s, 0) == Running(Push(Read(s, 0x30, 0x80, Flags(true, true, false, true))).(pc := s.pc + 2))
  {
    Lengths();
    assert MatchLength(d, s.dp + 1, s.datalen, false) == Length(s.dp + 2, 0x80, true);
    assert Matching(m, d, s, 0) == Accepted(Push(Read(s, 0x30, 0x80, Flags(true, true, false, true))));
  }

  /** MATCH_ANY takes two zero octets for an element. */
  lemma TakeZero(m: seq<byte>, d: seq<byte>, s: State)
    requires Bounded(d, s) && s.pc < |m| && m[s.pc] == 8
    requires s.dp + 2 <= s.datalen && d[s.dp] == 0 && d[s.dp + 1] == 0
    ensures Step(m, d, s, 0) ==
            Running(Read(s, 0, 0, Flags(false, true, false, false)).(pc := s.pc + 1, marks := Touch(s.cons, s.marks, true)))
  {
    Lengths();
    assert MatchLength(d, s.dp + 1, s.datalen, true) == Length(s.dp + 2, 0, false);
    assert Matching(m, d, s, 8) == Accepted(Read(s, 0, 0, Flags(false, true, false, false)));
  }

  /** MATCH_JUMP 0x04 stays at the contents of the octet string. */
  lemma JumpInside(m: seq<byte>, d: seq<byte>, s: State)
    requires Bounded(d, s) && s.pc + 3 <= |m| && s.pc < 100 && m[s.pc] == 4 && m[s.pc + 1] == 4 && s.jumps == []
    requires s.dp + 4 <= s.datalen && d[s.dp] == 4 && d[s.dp + 1] == 2
    ensures Step(m, d, s, 0) ==
            Running(Read(s, 4, 2, Flags(false, true, false, false)).(
                      pc := m[s.pc + 2], jumps := [s.pc + 3], marks := Touch(s.cons, s.marks, false)))
  {
    Lengths();
    assert MatchLength(d, s.dp + 1, s.datalen, true) == Length(s.dp + 2, 2, false);
    assert Matching(m, d, s, 4) == Accepted(Read(s, 4, 2, Flags(false, true, false, false)));
  }

  lemma Return(m: seq<byte>, d: seq<byte>, s: State, pc: nat)
    requires Bounded(d, s) && s.pc < |m| && m[s.pc] == 0x28 && s.jumps == [pc]
    ensures Step(m, d, s, 0) == Running(s.(pc := pc, jumps := [], flags := s.flags.(matched := true, last := true)))
  {
    Lengths();
  }

  /** END_SEQ_ACT at two zero octets closes the innermost element. */
  lemma EndAct(m: seq<byte>, d: seq<byte>, s: State, f: Frame, k: Mark)
    requires Bounded(d, s) && s.pc + 2 <= |m| && m[s.pc] == 0x24 && s.cons == [f] && s.marks == [k] && f.indef && f.end == 0
    requires s.dp + 2 <= s.datalen && d[s.dp] == 0 && d[s.dp + 1] == 0
    ensures Step(m, d, s, 0).Running?
    ensures Step(m, d, s, 0).s.log == s.log + [Contents(f.hdr, f.start, s.dp - f.start, k)]
  {
    Lengths();
  }

  lemma RunStep(m: seq<byte>, d: seq<byte>, rets: seq<int>)
    requires |d| <= 65535 && Run(m, d, rets).Running?
    ensures Run(m, d, rets + [0]) == Step(m, d, Run(m, d, rets).s, 0)
  {
    assert (rets + [0])[..|rets|] == rets;
  }

  // ----- the two slips -----

  lemma EnterRun(m: seq<byte>, d: seq<byte>)
    requires 2 < |m| && m[0] == 0 && m[1] == 0x30 && 4 <= |d| <= 65535 && d[0] == 0x30 && d[1] == 0x80
    ensures Run(m, d, [0]) == Running(State(2, 2, 2, 0x80, |d|, 0x30, 2, Flags(true, true, false, true),
                                            [Frame(2, 2, 0, true)], [Mark(0, false)], [], []))
  {
    Enter(m, d, Start(d));
    RunStep(m, d, []);
    assert [] + [0] == [0];
  }

  lemma ZeroRun(m: seq<byte>, d: seq<byte>)
    requires |m| >= 5 && m[0] == 0 && m[1] == 0x30 && m[2] == 8 && m[3] == 0x24
    requires 6 <= |d| <= 65535 && d[0] == 0x30 && d[1] == 0x80 && d[2] == 0 && d[3] == 0 && d[4] == 0 && d[5] == 0
    ensures LogOf(Run(m, d, [0, 0, 0])) == [Contents(2, 2, 2, Mark(1, false))]
  {
    EnterRun(m, d);
    var s1, f := Run(m, d, [0]).s, Frame(2, 2, 0, true);
    TakeZero(m, d, s1);
    RunStep(m, d, [0]);
    assert [0] + [0] == [0, 0] && [0, 0] + [0] == [0, 0, 0];
    var s2 := Run(m, d, [0, 0]).s;
    TouchParts([f], [Mark(0, false)], true);
    assert s2.marks == [Mark(1, false)];
    EndAct(m, d, s2, f, Mark(1, false));
    RunStep(m, d, [0, 0]);
  }

  lemma EmptyEnds(d: seq<byte>, start: nat, e: nat)
    requires start + 2 <= |d| && d[start] == 0 && d[start + 1] == 0
    ensures EndsAt(d, start, e) <==> e == start + 2
  {
    ScanIsGrammar(d, start, e);
  }

  /** MATCH 0x30, MATCH_ANY, END_SEQ_ACT, COMPLETE on an empty indefinite element followed by two
      zero octets: the action gets the element's own end-of-contents as its contents. */
  lemma ZeroTagSlips() returns (m: seq<byte>, d: seq<byte>)
    ensures |d| == 6 && LogOf(Run(m, d, [0, 0, 0])) == [Contents(2, 2, 2, Mark(1, false))]
    ensures EndsAt(d, 2, 4) && !EndsAt(d, 2, 6)
  {
    m, d := [0x00, 0x30, 0x08, 0x24, 0x00, 0x1d], [0x30, 0x80, 0, 0, 0, 0];
    ZeroRun(m, d);
    EmptyEnds(d, 2, 4);
    EmptyEnds(d, 2, 6);
  }

  lemma JumpRun(m: seq<byte>, d: seq<byte>)
    requires |m| >= 9 && m[0] == 0 && m[1] == 0x30 && m[2] == 4 && m[3] == 4 && m[4] == 8 && m[5] == 0x24 && m[8] == 0x28
    requires 6 <= |d| <= 65535 && d[0] == 0x30 && d[1] == 0x80 && d[2] == 4 && d[3] == 2 && d[4] == 0 && d[5] == 0
    ensures LogOf(Run(m, d, [0, 0, 0, 0])) == [Contents(2, 2, 2, Mark(0, true))]
  {
    EnterRun(m, d);
    var s1, f := Run(m, d, [0]).s, Frame(2, 2, 0, true);
    JumpInside(m, d, s1);
    RunStep(m, d, [0]);
    assert [0] + [0] == [0, 0] && [0, 0] + [0] == [0, 0, 0] && [0, 0, 0] + [0] == [0, 0, 0, 0];
    var s2 := Run(m, d, [0, 0]).s;
    TouchParts([f], [Mark(0, false)], false);
    assert s2.marks == [Mark(0, true)];
    Return(m, d, s2, 5);
    RunStep(m, d, [0, 0]);
    EndAct(m, d, Run(m, d, [0, 0, 0]).s, f, Mark(0, true));
    RunStep(m, d, [0, 0, 0]);
  }

  lemma StringEnds(d: seq<byte>, start: nat, e: nat)
    requires start + 6 <= |d| && d[start] == 4 && d[start + 1] == 2 && d[start + 4] == 0 && d[start + 5] == 0
    ensures EndsAt(d, start, e) <==> e == start + 6
  {
    ScanAfter(d, start, Def(start + 2, 2), start + 4, 1);
    ScanIsGrammar(d, start, e);
  }

  /** MATCH 0x30, MATCH_JUMP 0x04 to a RETURN, END_SEQ_ACT on an indefinite element with an octet
      string of two zero octets: the action gets the header of the octet string. */
  lemma JumpSlips() returns (m: seq<byte>, d: seq<byte>)
    ensures |d| == 8 && LogOf(Run(m, d, [0, 0, 0, 0])) == [Contents(2, 2, 2, Mark(0, true))]
    ensures EndsAt(d, 2, 8) && !EndsAt(d, 2, 6)
  {
    m, d := [0x00, 0x30, 0x04, 0x04, 0x08, 0x24, 0x00, 0x1d, 0x28], [0x30, 0x80, 0x04, 0x02, 0, 0, 0, 0];
    JumpRun(m, d);
    StringEnds(d, 2, 8);
    StringEnds(d, 2, 6);
  }
}
