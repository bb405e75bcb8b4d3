/** Finding the end of an indefinite-length element (compat/lib-asn1_decoder.c:
    asn1_find_indefinite_length) against the grammar of ITU-T X.690, sections 8.1.2
    (identifier octets), 8.1.3 (length octets) and 8.1.5 (end-of-contents octets). */
module Asn1Scan {
  import opened Wrappers

  type byte = x: int | 0 <= x < 256

  // ----- the grammar -----

  /** An element: a definite length and contents that are not looked into, or an indefinite
      length and nested elements. */
  datatype Item =
    | Definite(tag: seq<byte>, len: seq<byte>, contents: seq<byte>)
    | Indefinite(tag: seq<byte>, body: seq<Item>)

  const END: seq<byte> := [0, 0]

  function BigEndian(s: seq<byte>): nat {
    if s == [] then 0 else BigEndian(s[..|s| - 1]) * 256 + s[|s| - 1]
  }

  /** Subsequent identifier octets: all but the last have bit 8 set. */
  predicate LongTagOk(s: seq<byte>) {
    && s != [] && s[|s| - 1] < 128
    && forall i :: 0 <= i < |s| - 1 ==> s[i] >= 128
  }

  predicate TagOk(tag: seq<byte>) {
    tag != [] && tag[0] != 0 && (if tag[0] % 32 == 31 then LongTagOk(tag[1..]) else |tag| == 1)
  }

  predicate Constructed(t: byte) {
    (t / 32) % 2 == 1
  }

  /** Length octets of a definite length n: short form, or long form with 1 to 7 octets. */
  predicate LenOk(s: seq<byte>, n: nat) {
    && s != []
    && if s[0] <= 0x7f then |s| == 1 && s[0] == n
       else 1 <= s[0] - 0x80 <= 7 && |s| == 1 + (s[0] - 0x80) && BigEndian(s[1..]) == n
  }

  predicate ItemOk(i: Item)
    decreases i, 1
  {
    match i
    case Definite(tag, len, contents) => TagOk(tag) && LenOk(len, |contents|)
    case Indefinite(tag, body) => TagOk(tag) && Constructed(tag[0]) && ItemsOk(body)
  }

  predicate ItemsOk(s: seq<Item>)
    decreases s, 0
  {
    s == [] || (ItemOk(s[0]) && ItemsOk(s[1..]))
  }

  function Encode(i: Item): seq<byte>
    decreases i, 1
  {
    match i
    case Definite(tag, len, contents) => tag + len + contents
    case Indefinite(tag, body) => tag + [0x80] + EncodeAll(body) + END
  }

  function EncodeAll(s: seq<Item>): seq<byte>
    decreases s, 0
  {
    if s == [] then [] else Encode(s[0]) + EncodeAll(s[1..])
  }

  // ----- the scanner -----

  datatype Message = MissingEoc | Overrun | InvalidEoc | IndefinitePrimitive | TooLong

  datatype Outcome = Found(end: nat) | Error(msg: Message)

  datatype Header = Eoc(next: nat) | Def(next: nat, len: nat) | Indef(next: nat) | Bad(msg: Message)

  /** The position after the subsequent identifier octets at dp. */
  function LongTag(d: seq<byte>, dp: nat): (r: Option<nat>)
    requires dp <= |d|
    ensures r.Some? ==> dp < r.value < |d|
    decreases |d| - dp
  {
    if |d| - dp < 2 then None
    else if d[dp] >= 128 then LongTag(d, dp + 1)
    else Some(dp + 1)
  }

  function ReadLength(d: seq<byte>, p: nat, cons: bool): (r: Header)
    requires p < |d|
    ensures !r.Eoc? && (!r.Bad? ==> p < r.next <= |d|)
  {
    if d[p] <= 0x7f then Def(p + 1, d[p])
    else if d[p] == 0x80 then (if cons then Indef(p + 1) else Bad(IndefinitePrimitive))
    else
      var n := d[p] - 0x80;
      if n > 7 then Bad(TooLong)
      else if n > |d| - (p + 1) then Bad(Overrun)
      else Def(p + 1 + n, BigEndian(d[p + 1..p + 1 + n]))
  }

  /** The position after all identifier octets at dp. */
  function AfterTag(d: seq<byte>, dp: nat): (r: Option<nat>)
    requires dp < |d|
    ensures r.Some? && dp + 1 < |d| ==> dp < r.value < |d|
  {
    if d[dp] % 32 == 31 then LongTag(d, dp + 1) else Some(dp + 1)
  }

  function ReadHeader(d: seq<byte>, dp: nat): (r: Header)
    requires dp <= |d|
    ensures !r.Bad? ==> dp + 2 <= r.next <= |d|
  {
    if |d| - dp < 2 then Bad(if |d| == dp then MissingEoc else Overrun)
    else if d[dp] == 0 then (if d[dp + 1] != 0 then Bad(InvalidEoc) else Eoc(dp + 2))
    else
      var p := AfterTag(d, dp);
      if p.None? then Bad(Overrun) else ReadLength(d, p.value, Constructed(d[dp]))
  }

  /** The scan from dp with `level` indefinite lengths open. */
  function Scan(d: seq<byte>, dp: nat, level: nat): Outcome
    requires dp <= |d| && level >= 1
    decreases |d| - dp
  {
    match ReadHeader(d, dp)
    case Bad(m) => Error(m)
    case Eoc(n) => if level == 1 then Found(n) else Scan(d, n, level - 1)
    case Indef(n) => Scan(d, n, level + 1)
    case Def(n, len) => if len > |d| - n then Error(Overrun) else Scan(d, n + len, level)
  }

  lemma {:induction false} ScanStaysInside(d: seq<byte>, dp: nat, level: nat)
    requires dp <= |d| && level >= 1
    ensures Scan(d, dp, level).Found? ==> dp <= Scan(d, dp, level).end <= |d|
    decreases |d| - dp
  {
    match ReadHeader(d, dp)
    case Bad(_) =>
    case Eoc(n) => if level > 1 { ScanStaysInside(d, n, level - 1); }
    case Indef(n) => ScanStaysInside(d, n, level + 1);
    case Def(n, len) => if len <= |d| - n { ScanStaysInside(d, n + len, level); }
  }

  /** The loop over subsequent identifier octets. */
  method SkipLongTag(d: seq<byte>, start: nat) returns (r: Option<nat>)
    requires start <= |d|
    ensures r == LongTag(d, start)
  {
    var p, more := start, true;
    while more
      invariant start <= p <= |d|
      invariant if more then LongTag(d, p) == LongTag(d, start) else LongTag(d, start) == Some(p)
      decreases |d| - p, more
    {
      if |d| - p < 2 { return None; }
      more := d[p] >= 128;
      p := p + 1;
    }
    return Some(p);
  }

  /** The loop over the n octets of a long-form length. */
  method ReadOctets(d: seq<byte>, start: nat, n: nat) returns (len: nat)
    requires start + n <= |d|
    ensures len == BigEndian(d[start..start + n])
  {
    len := 0;
    for i := 0 to n
      invariant len == BigEndian(d[start..start + i])
    {
      assert d[start..start + i + 1][..i] == d[start..start + i];
      len := len * 256 + d[start + i];
    }
  }

  /** Identifier and length octets at dp. */
  method NextHeader(d: seq<byte>, dp: nat) returns (h: Header)
    requires dp <= |d|
    ensures h == ReadHeader(d, dp)
  {
    if |d| - dp < 2 {
      if |d| == dp { return Bad(MissingEoc); }
      return Bad(Overrun);
    }
    var tag := d[dp];
    if tag == 0 {
      if d[dp + 1] != 0 { return Bad(InvalidEoc); }
      return Eoc(dp + 2);
    }
    var p := dp + 1;
    if tag % 32 == 31 {
      var q := SkipLongTag(d, p);
      if q.None? { return Bad(Overrun); }
      p := q.value;
    }
    var len: nat := d[p];
    p := p + 1;
    if len <= 0x7f { return Def(p, len); }
    if len == 0x80 {
      if !Constructed(tag) { return Bad(IndefinitePrimitive); }
      return Indef(p);
    }
    var n := len - 0x80;
    if n > 7 { return Bad(TooLong); }
    if n > |d| - p { return Bad(Overrun); }
    len := ReadOctets(d, p, n);
    return Def(p + n, len);
  }

  /** asn1_find_indefinite_length on the octets before the end of the containing element. */
  method FindIndefiniteLength(d: seq<byte>, start: nat) returns (r: Outcome)
    requires start <= |d|
    ensures r.Found? ==> EndsAt(d, start, r.end)
    ensures forall e: nat :: EndsAt(d, start, e) ==> r == Found(e)
    ensures r == Scan(d, start, 1)
  {
    var dp, level := start, 1;
    while true
      invariant start <= dp <= |d| && level >= 1
      invariant Scan(d, start, 1) == Scan(d, dp, level)
      decreases |d| - dp
    {
      var h := NextHeader(d, dp);
      match h
      case Bad(m) =>
        r := Error(m);
        break;
      case Eoc(n) =>
        if level == 1 {
          r := Found(n);
          break;
        }
        dp, level := n, level - 1;
      case Indef(n) =>
        dp, level := n, level + 1;
      case Def(n, len) =>
        if len > |d| - n {
          r := Error(Overrun);
          break;
        }
        dp := n + len;
    }
    forall e: nat ensures Scan(d, start, 1) == Found(e) <==> EndsAt(d, start, e) { ScanIsGrammar(d, start, e); }
  }

  // ----- the scanner accepts exactly the grammar -----

  /** Contents still open when `|stack|` indefinite lengths are open, innermost first. */
  function EncodeStack(stack: seq<seq<Item>>): seq<byte> {
    if stack == [] then [] else EncodeAll(stack[0]) + END + EncodeStack(stack[1..])
  }

  predicate StackOk(stack: seq<seq<Item>>) {
    forall i :: 0 <= i < |stack| ==> ItemsOk(stack[i])
  }

  /** d has s at dp. */
  predicate At(d: seq<byte>, dp: nat, s: seq<byte>) {
    dp + |s| <= |d| && d[dp..dp + |s|] == s
  }

  lemma AtSplit(d: seq<byte>, dp: nat, s: seq<byte>, t: seq<byte>)
    requires At(d, dp, s + t)
    ensures At(d, dp, s) && At(d, dp + |s|, t)
  {
    assert d[dp..dp + |s|] == d[dp..dp + |s + t|][..|s|];
    assert d[dp + |s|..dp + |s + t|] == d[dp..dp + |s + t|][|s|..];
  }

  lemma {:induction false} LongTagSound(d: seq<byte>, dp: nat)
    requires dp <= |d| && LongTag(d, dp).Some?
    ensures LongTagOk(d[dp..LongTag(d, dp).value])
    decreases |d| - dp
  {
    var e := LongTag(d, dp).value;
    if d[dp] >= 128 {
      LongTagSound(d, dp + 1);
      assert d[dp..e] == [d[dp]] + d[dp + 1..e];
    }
  }

  lemma {:induction false} LongTagComplete(d: seq<byte>, dp: nat, s: seq<byte>)
    requires LongTagOk(s) && dp + |s| < |d| && d[dp..dp + |s|] == s
    ensures LongTag(d, dp) == Some(dp + |s|)
    decreases |s|
  {
    assert d[dp] == s[0];
    if |s| > 1 {
      assert d[dp + 1..dp + |s|] == s[1..];
      LongTagComplete(d, dp + 1, s[1..]);
    }
  }

  lemma TagSound(d: seq<byte>, dp: nat)
    requires dp + 1 < |d| && d[dp] != 0 && AfterTag(d, dp).Some?
    ensures TagOk(d[dp..AfterTag(d, dp).value])
  {
    if d[dp] % 32 == 31 {
      LongTagSound(d, dp + 1);
      var p := AfterTag(d, dp).value;
      assert d[dp..p][1..] == d[dp + 1..p];
    }
  }

  lemma TagComplete(d: seq<byte>, dp: nat, tag: seq<byte>)
    requires TagOk(tag) && At(d, dp, tag) && dp + |tag| < |d|
    ensures d[dp] == tag[0] && AfterTag(d, dp) == Some(dp + |tag|)
  {
    assert d[dp] == d[dp..dp + |tag|][0];
    if d[dp] % 32 == 31 {
      assert d[dp + 1..dp + 1 + |tag[1..]|] == d[dp..dp + |tag|][1..];
      LongTagComplete(d, dp + 1, tag[1..]);
    }
  }

  /** The header octets at dp as the grammar sees them. */
  lemma HeaderSound(d: seq<byte>, dp: nat) returns (tag: seq<byte>, len: seq<byte>)
    requires dp <= |d| && (ReadHeader(d, dp).Def? || ReadHeader(d, dp).Indef?)
    ensures TagOk(tag) && d[dp..ReadHeader(d, dp).next] == tag + len
    ensures ReadHeader(d, dp).Def? ==> LenOk(len, ReadHeader(d, dp).len)
    ensures ReadHeader(d, dp).Indef? ==> len == [0x80] && Constructed(tag[0])
  {
    TagSound(d, dp);
    var p, e := AfterTag(d, dp).value, ReadHeader(d, dp).next;
    tag, len := d[dp..p], d[p..e];
    if d[p] > 0x80 { assert len[1..] == d[p + 1..e]; }
  }

  lemma LengthComplete(d: seq<byte>, p: nat, len: seq<byte>, n: nat, cons: bool)
    requires len != [] && At(d, p, len)
    ensures len == [0x80] && cons ==> ReadLength(d, p, cons) == Indef(p + 1)
    ensures LenOk(len, n) ==> ReadLength(d, p, cons) == Def(p + |len|, n)
  {
    assert d[p] == d[p..p + |len|][0];
    if d[p] > 0x80 { assert d[p + 1..p + |len|] == d[p..p + |len|][1..]; }
  }

  lemma HeaderComplete(d: seq<byte>, dp: nat, tag: seq<byte>, len: seq<byte>, n: nat)
    requires TagOk(tag) && len != [] && At(d, dp, tag + len)
    requires len == [0x80] ==> Constructed(tag[0])
    ensures len == [0x80] ==> ReadHeader(d, dp) == Indef(dp + |tag| + 1)
    ensures LenOk(len, n) ==> ReadHeader(d, dp) == Def(dp + |tag| + |len|, n)
  {
    AtSplit(d, dp, tag, len);
    TagComplete(d, dp, tag);
    LengthComplete(d, dp + |tag|, len, n, Constructed(tag[0]));
  }

  lemma StackCons(s: seq<Item>, stack: seq<seq<Item>>)
    ensures EncodeStack([s] + stack) == EncodeAll(s) + END + EncodeStack(stack)
  {
    assert ([s] + stack)[1..] == stack;
  }

  lemma ItemsCons(i: Item, s: seq<Item>)
    ensures EncodeAll([i] + s) == Encode(i) + EncodeAll(s)
    ensures ItemsOk([i] + s) <==> ItemOk(i) && ItemsOk(s)
  {
    assert ([i] + s)[1..] == s;
  }

  lemma FoldDefinite(i: Item, inner: seq<seq<Item>>) returns (stack: seq<seq<Item>>)
    requires inner != [] && StackOk(inner) && ItemOk(i)
    ensures |stack| == |inner| && StackOk(stack) && EncodeStack(stack) == Encode(i) + EncodeStack(inner)
  {
    stack := [[i] + inner[0]] + inner[1..];
    assert inner == [inner[0]] + inner[1..];
    StackCons(inner[0], inner[1..]);
    ItemsCons(i, inner[0]);
    StackCons([i] + inner[0], inner[1..]);
    assert EncodeStack(stack) == Encode(i) + EncodeAll(inner[0]) + END + EncodeStack(inner[1..]);
  }

  lemma FoldIndefinite(tag: seq<byte>, inner: seq<seq<Item>>) returns (stack: seq<seq<Item>>)
    requires |inner| >= 2 && StackOk(inner) && TagOk(tag) && Constructed(tag[0])
    ensures |stack| == |inner| - 1 && StackOk(stack)
    ensures EncodeStack(stack) == tag + [0x80] + EncodeStack(inner)
  {
    var i := Indefinite(tag, inner[0]);
    assert inner == [inner[0]] + inner[1..];
    StackCons(inner[0], inner[1..]);
    stack := FoldDefinite(i, inner[1..]);
    assert Encode(i) + EncodeStack(inner[1..]) == tag + [0x80] + (EncodeAll(inner[0]) + END + EncodeStack(inner[1..]));
  }

  lemma Glue(d: seq<byte>, a: nat, b: nat, c: nat)
    requires a <= b <= c <= |d|
    ensures d[a..c] == d[a..b] + d[b..c]
  {
  }

  lemma SoundEnd(d: seq<byte>, dp: nat, e: nat, rest: seq<seq<Item>>) returns (stack: seq<seq<Item>>)
    requires dp <= |d| && ReadHeader(d, dp).Eoc? && ReadHeader(d, dp).next <= e <= |d|
    requires StackOk(rest) && d[ReadHeader(d, dp).next..e] == EncodeStack(rest)
    ensures |stack| == |rest| + 1 && StackOk(stack) && d[dp..e] == EncodeStack(stack)
  {
    stack := [[]] + rest;
    StackCons([], rest);
    Glue(d, dp, dp + 2, e);
    assert d[dp..dp + 2] == END;
  }

  lemma SoundIndefinite(d: seq<byte>, dp: nat, e: nat, inner: seq<seq<Item>>) returns (stack: seq<seq<Item>>)
    requires dp <= |d| && ReadHeader(d, dp).Indef? && ReadHeader(d, dp).next <= e <= |d| && |inner| >= 2
    requires StackOk(inner) && d[ReadHeader(d, dp).next..e] == EncodeStack(inner)
    ensures |stack| == |inner| - 1 && StackOk(stack) && d[dp..e] == EncodeStack(stack)
  {
    var tag, len := HeaderSound(d, dp);
    stack := FoldIndefinite(tag, inner);
    Glue(d, dp, ReadHeader(d, dp).next, e);
  }

  lemma SoundDefinite(d: seq<byte>, dp: nat, e: nat, inner: seq<seq<Item>>) returns (stack: seq<seq<Item>>)
    requires dp <= |d| && ReadHeader(d, dp).Def? && inner != [] && StackOk(inner)
    requires ReadHeader(d, dp).next + ReadHeader(d, dp).len <= e <= |d|
    requires d[ReadHeader(d, dp).next + ReadHeader(d, dp).len..e] == EncodeStack(inner)
    ensures |stack| == |inner| && StackOk(stack) && d[dp..e] == EncodeStack(stack)
  {
    var tag, octets := HeaderSound(d, dp);
    var Def(n, len) := ReadHeader(d, dp);
    Glue(d, dp, n, n + len);
    Glue(d, dp, n + len, e);
    stack := FoldDefinite(Definite(tag, octets, d[n..n + len]), inner);
  }

  /** Whatever the scanner accepts is elements of the grammar and a matching end for each
      open level. */
  lemma {:induction false} ScanSound(d: seq<byte>, dp: nat, level: nat, e: nat) returns (stack: seq<seq<Item>>)
    requires dp <= |d| && level >= 1 && Scan(d, dp, level) == Found(e)
    ensures |stack| == level && StackOk(stack) && dp <= e <= |d| && d[dp..e] == EncodeStack(stack)
    decreases |d| - dp
  {
    match ReadHeader(d, dp)
    case Eoc(n) =>
      var rest: seq<seq<Item>> := [];
      if level > 1 { rest := ScanSound(d, n, level - 1, e); }
      stack := SoundEnd(d, dp, e, rest);
    case Indef(n) =>
      var inner := ScanSound(d, n, level + 1, e);
      stack := SoundIndefinite(d, dp, e, inner);
    case Def(n, len) =>
      var inner := ScanSound(d, n + len, level, e);
      stack := SoundDefinite(d, dp, e, inner);
  }

  /** What the scanner sees at the first element of a stack that lies at dp. */
  lemma FirstDefinite(d: seq<byte>, dp: nat, i: Item, t: seq<Item>, rest: seq<seq<Item>>)
    requires i.Definite? && ItemOk(i) && At(d, dp, EncodeStack([[i] + t] + rest))
    ensures var n := dp + |i.tag| + |i.len|;
            && n + |i.contents| <= |d| && ReadHeader(d, dp) == Def(n, |i.contents|)
            && At(d, n + |i.contents|, EncodeStack([t] + rest))
            && n + |i.contents| + |EncodeStack([t] + rest)| == dp + |EncodeStack([[i] + t] + rest)|
  {
    FirstItem(i, t, rest);
    DefiniteFirst(d, dp, i.tag, i.len, i.contents, EncodeStack([t] + rest));
  }

  lemma DefiniteFirst(d: seq<byte>, dp: nat, tag: seq<byte>, len: seq<byte>, contents: seq<byte>, tail: seq<byte>)
    requires TagOk(tag) && LenOk(len, |contents|) && At(d, dp, tag + len + contents + tail)
    ensures var n := dp + |tag| + |len|;
            n + |contents| <= |d| && ReadHeader(d, dp) == Def(n, |contents|) && At(d, n + |contents|, tail)
  {
    AtSplit(d, dp, tag + len + contents, tail);
    AtSplit(d, dp, tag + len, contents);
    HeaderComplete(d, dp, tag, len, |contents|);
  }

  lemma FirstIndefinite(d: seq<byte>, dp: nat, i: Item, t: seq<Item>, rest: seq<seq<Item>>)
    requires i.Indefinite? && ItemOk(i) && At(d, dp, EncodeStack([[i] + t] + rest))
    ensures var n := dp + |i.tag| + 1;
            && n <= |d| && ReadHeader(d, dp) == Indef(n)
            && At(d, n, EncodeStack([i.body] + ([t] + rest)))
            && n + |EncodeStack([i.body] + ([t] + rest))| == dp + |EncodeStack([[i] + t] + rest)|
  {
    var h, tail := i.tag + [0x80], EncodeStack([i.body] + ([t] + rest));
    FirstItem(i, t, rest);
    StackCons(i.body, [t] + rest);
    assert Encode(i) + EncodeStack([t] + rest) == h + tail;
    AtSplit(d, dp, h, tail);
    HeaderComplete(d, dp, i.tag, [0x80], 0);
  }

  lemma FirstItem(i: Item, t: seq<Item>, rest: seq<seq<Item>>)
    ensures EncodeStack([[i] + t] + rest) == Encode(i) + EncodeStack([t] + rest)
  {
    StackCons([i] + t, rest);
    ItemsCons(i, t);
    StackCons(t, rest);
    assert Encode(i) + EncodeAll(t) + END + EncodeStack(rest) == Encode(i) + (EncodeAll(t) + END + EncodeStack(rest));
  }

  lemma FirstEnd(d: seq<byte>, dp: nat, rest: seq<seq<Item>>)
    requires At(d, dp, EncodeStack([[]] + rest))
    ensures dp + 2 <= |d| && ReadHeader(d, dp) == Eoc(dp + 2) && At(d, dp + 2, EncodeStack(rest))
    ensures 2 + |EncodeStack(rest)| == |EncodeStack([[]] + rest)|
  {
    StackCons([], rest);
    assert EncodeStack([[]] + rest) == END + EncodeStack(rest);
    AtSplit(d, dp, END, EncodeStack(rest));
    assert d[dp..dp + 2] == END && d[dp] == END[0] && d[dp + 1] == END[1];
  }

  lemma StackPush(s: seq<Item>, rest: seq<seq<Item>>)
    requires ItemsOk(s) && StackOk(rest)
    ensures StackOk([s] + rest)
  {
  }

  lemma FirstHeader(d: seq<byte>, dp: nat, i: Item, t: seq<Item>, rest: seq<seq<Item>>)
    returns (n: nat, tail: seq<seq<Item>>)
    requires ItemOk(i) && ItemsOk(t) && StackOk(rest) && At(d, dp, EncodeStack([[i] + t] + rest))
    ensures dp < n && tail != [] && StackOk(tail) && At(d, n, EncodeStack(tail))
    ensures n + |EncodeStack(tail)| == dp + |EncodeStack([[i] + t] + rest)|
    ensures var h := ReadHeader(d, dp);
            || (h == Indef(n) && |tail| == |rest| + 2)
            || (h.Def? && h.next + h.len == n && |tail| == |rest| + 1)
  {
    StackPush(t, rest);
    if i.Definite? {
      FirstDefinite(d, dp, i, t, rest);
      n, tail := dp + |i.tag| + |i.len| + |i.contents|, [t] + rest;
    } else {
      FirstIndefinite(d, dp, i, t, rest);
      StackPush(i.body, [t] + rest);
      n, tail := dp + |i.tag| + 1, [i.body] + ([t] + rest);
    }
  }

  /** How a header changes the number of open lengths. */
  function Change(h: Header): int {
    if h.Indef? then 1 else if h.Eoc? then -1 else 0
  }

  /** What is left of the scan after a header h at dp. */
  lemma ScanAfter(d: seq<byte>, dp: nat, h: Header, n: nat, level: nat)
    requires dp <= |d| && level >= 1 && h == ReadHeader(d, dp) && !h.Bad?
    requires n == (if h.Def? then h.next + h.len else h.next) && n <= |d|
    ensures Scan(d, dp, level) == if level + Change(h) == 0 then Found(n) else Scan(d, n, level + Change(h))
  {
  }

  /** One header of a stack of open contents. */
  lemma FirstOf(d: seq<byte>, dp: nat, stack: seq<seq<Item>>) returns (h: Header, n: nat, tail: seq<seq<Item>>)
    requires stack != [] && StackOk(stack) && At(d, dp, EncodeStack(stack))
    ensures dp < n <= |d| && StackOk(tail) && At(d, n, EncodeStack(tail)) && n + |EncodeStack(tail)| == dp + |EncodeStack(stack)|
    ensures h == ReadHeader(d, dp) && !h.Bad? && n == (if h.Def? then h.next + h.len else h.next)
    ensures |tail| == |stack| + Change(h)
  {
    var s, rest := stack[0], stack[1..];
    assert stack == [s] + rest;
    h := ReadHeader(d, dp);
    if s == [] {
      FirstEnd(d, dp, rest);
      n, tail := dp + 2, rest;
    } else {
      assert s == [s[0]] + s[1..];
      n, tail := FirstHeader(d, dp, s[0], s[1..], rest);
    }
  }

  lemma ScanFirst(d: seq<byte>, dp: nat, stack: seq<seq<Item>>, depth: nat) returns (n: nat, tail: seq<seq<Item>>)
    requires stack != [] && StackOk(stack) && At(d, dp, EncodeStack(stack))
    ensures dp < n <= |d| && StackOk(tail) && At(d, n, EncodeStack(tail)) && n + |EncodeStack(tail)| == dp + |EncodeStack(stack)|
    ensures Scan(d, dp, |stack| + depth) == if |tail| + depth == 0 then Found(n) else Scan(d, n, |tail| + depth)
  {
    var h;
    h, n, tail := FirstOf(d, dp, stack);
    ScanAfter(d, dp, h, n, |stack| + depth);
  }

  /** The scan passes a stack of open contents, at whatever depth. */
  lemma {:induction false} ScanThrough(d: seq<byte>, dp: nat, stack: seq<seq<Item>>, e: nat, depth: nat)
    requires StackOk(stack) && At(d, dp, EncodeStack(stack)) && e == dp + |EncodeStack(stack)|
    ensures |stack| + depth > 0 ==> Scan(d, dp, |stack| + depth) == if depth == 0 then Found(e) else Scan(d, e, depth)
    decreases |d| - dp
  {
    if stack != [] {
      var n, tail := ScanFirst(d, dp, stack, depth);
      ScanThrough(d, n, tail, e, depth);
    }
  }

  lemma ScanComplete(d: seq<byte>, dp: nat, stack: seq<seq<Item>>)
    requires stack != [] && StackOk(stack) && At(d, dp, EncodeStack(stack))
    ensures Scan(d, dp, |stack|) == Found(dp + |EncodeStack(stack)|)
  {
    ScanThrough(d, dp, stack, dp + |EncodeStack(stack)|, 0);
  }

  /** The octets from start to e are elements ended by a matching end-of-contents. */
  ghost predicate EndsAt(d: seq<byte>, start: nat, e: nat) {
    start <= e <= |d| && exists body: seq<Item> :: ItemsOk(body) && d[start..e] == EncodeAll(body) + END
  }

  /** The scanner succeeds exactly on inputs with a prefix "elements, then end-of-contents",
      and returns exactly that prefix. */
  lemma ScanIsGrammar(d: seq<byte>, start: nat, e: nat)
    requires start <= |d|
    ensures Scan(d, start, 1) == Found(e) <==> EndsAt(d, start, e)
  {
    if Scan(d, start, 1) == Found(e) {
      var stack := ScanSound(d, start, 1, e);
      assert stack == [stack[0]] + [];
      StackCons(stack[0], []);
      assert d[start..e] == EncodeAll(stack[0]) + END;
    }
    if EndsAt(d, start, e) {
      var body := BodyOf(d, start, e);
      ScanComplete(d, start, [body]);
    }
  }

  lemma BodyOf(d: seq<byte>, start: nat, e: nat) returns (body: seq<Item>)
    requires EndsAt(d, start, e)
    ensures ItemsOk(body) && At(d, start, EncodeStack([body])) && |EncodeStack([body])| == e - start
  {
    body :| ItemsOk(body) && d[start..e] == EncodeAll(body) + END;
    StackCons(body, []);
    assert [body] + [] == [body];
    assert EncodeStack([body]) == EncodeAll(body) + END;
  }

  /** Seen from outside, the contents of an indefinite length are passed in one go. */
  lemma ScanPast(d: seq<byte>, start: nat, e: nat, depth: nat)
    requires EndsAt(d, start, e) && depth >= 1
    ensures Scan(d, start, depth + 1) == Scan(d, e, depth)
  {
    var body := BodyOf(d, start, e);
    ScanThrough(d, start, [body], e, depth);
  }
}
