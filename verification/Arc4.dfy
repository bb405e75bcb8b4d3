/** The ARC4 cipher of compat/lib-crypto-arc4.c: key setup and the software-pipelined
    keystream loop, against the textbook cipher. */
module Arc4 {

  type index = x: int | 0 <= x < 256

  // ----- the textbook cipher -----

  datatype State = State(s: seq<index>, i: index, j: index)

  predicate Permutation(s: seq<index>) {
    |s| == 256 && forall p, q :: 0 <= p < q < 256 ==> s[p] != s[q]
  }

  function Swap(s: seq<index>, p: index, q: index): seq<index>
    requires |s| == 256
  {
    s[p := s[q]][q := s[p]]
  }

  function Add(a: index, b: index): index { (a + b) % 256 }

  /** One step of the generator. */
  function Next(t: State): (r: State)
    requires |t.s| == 256
    ensures |r.s| == 256
  {
    var i := Add(t.i, 1);
    var j := Add(t.j, t.s[i]);
    State(Swap(t.s, i, j), i, j)
  }

  /** The keystream octet of a state. */
  function Output(t: State): index
    requires |t.s| == 256
  {
    t.s[Add(t.s[t.i], t.s[t.j])]
  }

  function Mix(m: bv8, k: index): bv8 { m ^ (k as bv8) }

  function After(t: State, n: nat): (r: State)
    requires |t.s| == 256
    ensures |r.s| == 256
    decreases n
  {
    if n == 0 then t else After(Next(t), n - 1)
  }

  /** Each message octet mixed with the next keystream octet. */
  function Encrypt(t: State, m: seq<bv8>): (r: seq<bv8>)
    requires |t.s| == 256
    ensures |r| == |m|
    decreases |m|
  {
    if m == [] then [] else [Mix(m[0], Output(Next(t)))] + Encrypt(Next(t), m[1..])
  }

  function Identity(): (s: seq<index>)
    ensures Permutation(s)
  {
    seq(256, k requires 0 <= k < 256 => k)
  }

  /** Position n of the key repeated for ever. */
  function Repeated(n: nat, size: nat): (k: nat)
    requires size >= 1
    ensures k < size
  {
    if n < size then n else Repeated(n - size, size)
  }

  /** Key scheduling after n rounds: the table and j. */
  function Schedule(key: seq<bv8>, n: nat): (r: (seq<index>, index))
    requires |key| >= 1 && n <= 256
    ensures |r.0| == 256
  {
    if n == 0 then (Identity(), 0)
    else
      var (s, j) := Schedule(key, n - 1);
      var j' := Add(Add(j, key[Repeated(n - 1, |key|)] as index), s[n - 1]);
      (Swap(s, n - 1, j'), j')
  }

  function Start(key: seq<bv8>): (r: State)
    requires |key| >= 1
    ensures |r.s| == 256
  {
    State(Schedule(key, 256).0, 0, 0)
  }

  // ----- properties of the cipher -----

  lemma SwapPermutes(s: seq<index>, p: index, q: index)
    requires Permutation(s)
    ensures Permutation(Swap(s, p, q))
  {
  }

  lemma {:induction false} SchedulePermutes(key: seq<bv8>, n: nat)
    requires |key| >= 1 && n <= 256
    ensures Permutation(Schedule(key, n).0)
  {
    if n > 0 {
      SchedulePermutes(key, n - 1);
      SwapPermutes(Schedule(key, n - 1).0, n - 1, Schedule(key, n).1);
    }
  }

  lemma {:induction false} AfterPermutes(t: State, n: nat)
    requires Permutation(t.s)
    ensures Permutation(After(t, n).s)
    decreases n
  {
    if n > 0 {
      SwapPermutes(t.s, Next(t).i, Next(t).j);
      AfterPermutes(Next(t), n - 1);
    }
  }

  /** Encrypting in chunks is encrypting the concatenation. */
  lemma {:induction false} ChunksConcatenate(t: State, a: seq<bv8>, b: seq<bv8>)
    requires |t.s| == 256
    ensures Encrypt(t, a + b) == Encrypt(t, a) + Encrypt(After(t, |a|), b)
    decreases |a|
  {
    if a == [] {
      assert a + b == b;
    } else {
      assert (a + b)[1..] == a[1..] + b;
      ChunksConcatenate(Next(t), a[1..], b);
    }
  }

  lemma BackOne(x: index, i: index)
    ensures x == Add(i, 1) <==> Add(x, 255) == i
  {
  }

  lemma MixTwice(m: bv8, k: index)
    ensures Mix(Mix(m, k), k) == m
  {
  }

  /** Crypting twice from the same state returns the message. */
  lemma {:induction false} CryptTwice(t: State, m: seq<bv8>)
    requires |t.s| == 256
    ensures Encrypt(t, Encrypt(t, m)) == m
    decreases |m|
  {
    if m != [] {
      MixTwice(m[0], Output(Next(t)));
      CryptTwice(Next(t), m[1..]);
      assert Encrypt(t, m)[1..] == Encrypt(Next(t), m[1..]);
    }
  }

  lemma {:induction false} RepeatedStep(n: nat, size: nat)
    requires size >= 1
    ensures Repeated(n + 1, size) == if Repeated(n, size) + 1 >= size then 0 else Repeated(n, size) + 1
    decreases n
  {
    if n >= size { RepeatedStep(n - size, size); }
  }

  // ----- the program -----

  /** One octet more. */
  lemma EncryptNext(u: State, m: seq<bv8>, n: nat, out: seq<bv8>)
    requires |u.s| == 256 && n < |m|
    ensures out + Encrypt(u, m[n..]) == out + [Mix(m[n], Output(Next(u)))] + Encrypt(Next(u), m[n + 1..])
  {
    assert m[n..][1..] == m[n + 1..] && m[n..][0] == m[n];
  }

  class Context {
    const S: array<index>
    var x: index
    var y: index

    ghost predicate Valid()
      reads this, S
    {
      S.Length == 256 && Permutation(S[..])
    }

    /** The textbook state: x is one ahead of i. */
    ghost function View(): State
      reads this, S
      requires Valid()
    {
      State(S[..], Add(x, 255), y)
    }

    constructor ()
      ensures fresh(S) && S.Length == 256
    {
      S := new index[256];
    }

    /** arc4_setkey. */
    method SetKey(key: seq<bv8>)
      requires |key| >= 1 && S.Length == 256
      modifies this, S
      ensures Valid() && View() == Start(key)
    {
      x, y := 1, 0;
      var i := 0;
      while i < 256
        invariant 0 <= i <= 256 && x == 1 && y == 0
        invariant forall p :: 0 <= p < i ==> S[p] == p
      {
        S[i] := i;
        i := i + 1;
      }
      assert S[..] == Identity();
      var j: index, k: nat := 0, 0;
      i := 0;
      while i < 256
        invariant 0 <= i <= 256 && x == 1 && y == 0 && k == Repeated(i, |key|)
        invariant (S[..], j) == Schedule(key, i)
      {
        ghost var s := S[..];
        var a := S[i];
        j := Add(Add(j, key[k] as index), a);
        S[i] := S[j];
        S[j] := a;
        assert S[..] == Swap(s, i, j);
        RepeatedStep(i, |key|);
        k := k + 1;
        if k >= |key| { k := 0; }
        i := i + 1;
      }
      SchedulePermutes(key, 256);
    }

    /** The state in the middle of arc4_crypt's loop: the operands of the next swap have been
        fetched from textbook state u. */
    ghost predicate Fetched(u: State, x': index, y': index, a: index, b: index)
      reads this, S
    {
      && S.Length == 256 && S[..] == u.s && Permutation(u.s)
      && x' == Add(u.i, 1) && y' == Add(u.j, S[x']) && a == S[x'] && b == S[y']
    }

    /** The swap of the pipelined loop is a textbook step. */
    method Exchange(ghost u: State, x': index, y': index, a: index, b: index)
      requires Fetched(u, x', y', a, b)
      modifies S
      ensures S.Length == 256 && S[..] == Next(u).s && Permutation(S[..])
      ensures x' == Next(u).i && y' == Next(u).j && S[Add(a, b)] == Output(Next(u))
    {
      S[y'] := a;
      S[x'] := b;
      assert S[..] == Next(u).s;
      SwapPermutes(u.s, x', y');
    }

    /** The loop of arc4_crypt: each round swaps, fetches the operands of the next round, then
        emits. */
    method Rounds(ghost t: State, input: seq<bv8>, x0: index, y0: index, a0: index, b0: index)
      returns (out: seq<bv8>, x': index, y': index)
      requires Fetched(t, x0, y0, a0, b0) && input != []
      modifies S
      ensures out == Encrypt(t, input)
      ensures var u := After(t, |input|); S[..] == u.s && Permutation(u.s) && x' == Add(u.i, 1) && y' == u.j
    {
      ghost var u := t;
      var a, b, n := a0, b0, 0;
      out, x', y' := [], x0, y0;
      while true
        invariant 0 <= n < |input| && Fetched(u, x', y', a, b)
        invariant Encrypt(t, input) == out + Encrypt(u, input[n..])
        invariant After(t, |input|) == After(u, |input| - n)
        decreases |input| - n
      {
        Exchange(u, x', y', a, b);
        EncryptNext(u, input, n, out);
        u := Next(u);
        a := Add(a, b);
        x' := Add(x', 1);
        var ta := S[x'];
        var ty := Add(y', ta);
        var tb := S[ty];
        out := out + [Mix(input[n], S[a])];
        n := n + 1;
        if n == |input| { break; }
        y', a, b := ty, ta, tb;
      }
      assert Encrypt(u, input[n..]) == [] && After(u, 0) == u;
    }

    /** arc4_crypt. */
    method Crypt(input: seq<bv8>) returns (out: seq<bv8>)
      requires Valid()
      modifies this, S
      ensures Valid() && out == Encrypt(old(View()), input) && View() == After(old(View()), |input|)
    {
      out := [];
      if |input| == 0 { return; }
      ghost var t := View();
      BackOne(x, t.i);
      var a := S[x];
      var y1 := Add(y, a);
      var b := S[y1];
      var x';
      out, x', y1 := Rounds(t, input, x, y1, a, b);
      BackOne(x', After(t, |input|).i);
      x, y := x', y1;
    }
  }
}
