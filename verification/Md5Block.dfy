// The MD5 block transformation: RFC 1321 section 3.4 as a table of operations,
// and the unrolled code with its shortened auxiliary functions.
module Md5Block {
  import opened Bytes
  import opened Md5Mix

  datatype State = State(a: Word, b: Word, c: Word, d: Word)

  // Section 3.3.
  const INIT := State(0x67452301, 0xefcdab89, 0x98badcfe, 0x10325476)

  // ----- RFC 1321 section 3.4 -----

  function Mix(round: nat, x: Word, y: Word, z: Word): Word {
    if round == 0 then F(x, y, z)
    else if round == 1 then G(x, y, z)
    else if round == 2 then H(x, y, z)
    else I(x, y, z)
  }

  // Circular shift left.
  function Rotate(v: Word, s: nat): Word
    requires s <= 32
  {
    (v << s) | (v >> (32 - s))
  }

  // [abcd k s i]: a = b + ((a + mix(b, c, d) + X[k] + T[i]) <<< s)
  function Operation(round: nat, a: Word, b: Word, c: Word, d: Word, x: Word, s: nat, t: Word): Word
    requires s <= 32
  {
    b + Rotate(a + Mix(round, b, c, d) + x + t, s)
  }

  // The word that operation i of a round takes.
  function Index(round: nat, i: nat): (k: nat)
    ensures k < 16
  {
    if round == 0 then i % 16
    else if round == 1 then (5 * i + 1) % 16
    else if round == 2 then (3 * i + 5) % 16
    else 7 * i % 16
  }

  // The shift amounts, which repeat every four operations of a round.
  function Shifts(round: nat): (r: (nat, nat, nat, nat))
    ensures r.0 <= 32 && r.1 <= 32 && r.2 <= 32 && r.3 <= 32
  {
    if round == 0 then (7, 12, 17, 22)
    else if round == 1 then (5, 9, 14, 20)
    else if round == 2 then (4, 11, 16, 23)
    else (6, 10, 15, 21)
  }

  // The table T: the integer part of 4294967296 times abs(sin(i)), four
  // operations at a time.
  function Sines(g: nat): (Word, Word, Word, Word) {
    if g == 0 then (0xd76aa478, 0xe8c7b756, 0x242070db, 0xc1bdceee)
    else if g == 1 then (0xf57c0faf, 0x4787c62a, 0xa8304613, 0xfd469501)
    else if g == 2 then (0x698098d8, 0x8b44f7af, 0xffff5bb1, 0x895cd7be)
    else if g == 3 then (0x6b901122, 0xfd987193, 0xa679438e, 0x49b40821)
    else if g == 4 then (0xf61e2562, 0xc040b340, 0x265e5a51, 0xe9b6c7aa)
    else if g == 5 then (0xd62f105d, 0x02441453, 0xd8a1e681, 0xe7d3fbc8)
    else if g == 6 then (0x21e1cde6, 0xc33707d6, 0xf4d50d87, 0x455a14ed)
    else if g == 7 then (0xa9e3e905, 0xfcefa3f8, 0x676f02d9, 0x8d2a4c8a)
    else if g == 8 then (0xfffa3942, 0x8771f681, 0x6d9d6122, 0xfde5380c)
    else if g == 9 then (0xa4beea44, 0x4bdecfa9, 0xf6bb4b60, 0xbebfbc70)
    else if g == 10 then (0x289b7ec6, 0xeaa127fa, 0xd4ef3085, 0x04881d05)
    else if g == 11 then (0xd9d4d039, 0xe6db99e5, 0x1fa27cf8, 0xc4ac5665)
    else if g == 12 then (0xf4292244, 0x432aff97, 0xab9423a7, 0xfc93a039)
    else if g == 13 then (0x655b59c3, 0x8f0ccc92, 0xffeff47d, 0x85845dd1)
    else if g == 14 then (0x6fa87e4f, 0xfe2ce6e0, 0xa3014314, 0x4e0811a1)
    else (0xf7537e82, 0xbd3af235, 0x2ad7d2bb, 0xeb86d391)
  }

  // Four operations, [ABCD ...] [DABC ...] [CDAB ...] [BCDA ...].
  function Group(st: State, x: seq<Word>, g: nat): State
    requires |x| == 16
  {
    var r, s, t := g / 4, Shifts(g / 4), Sines(g);
    var a := Operation(r, st.a, st.b, st.c, st.d, x[Index(r, 4 * (g % 4))], s.0, t.0);
    var d := Operation(r, st.d, a, st.b, st.c, x[Index(r, 4 * (g % 4) + 1)], s.1, t.1);
    var c := Operation(r, st.c, d, a, st.b, x[Index(r, 4 * (g % 4) + 2)], s.2, t.2);
    var b := Operation(r, st.b, c, d, a, x[Index(r, 4 * (g % 4) + 3)], s.3, t.3);
    State(a, b, c, d)
  }

  function Groups(st: State, x: seq<Word>, n: nat): State
    requires |x| == 16
  {
    if n == 0 then st else Group(Groups(st, x, n - 1), x, n - 1)
  }

  // Four bytes, low-order byte first.
  function WordAt(block: seq<Byte>, p: nat): Word
    requires p + 4 <= |block|
  {
    (block[p] as Word) | ((block[p + 1] as Word) << 8) | ((block[p + 2] as Word) << 16) | ((block[p + 3] as Word) << 24)
  }

  function Words(block: seq<Byte>): (x: seq<Word>)
    requires |block| == 64
    ensures |x| == 16
  {
    seq(16, n requires 0 <= n < 16 => WordAt(block, 4 * n))
  }

  function Sum(a: State, b: State): State {
    State(a.a + b.a, a.b + b.b, a.c + b.c, a.d + b.d)
  }

  // What one block makes of st: sixteen groups of operations on its words, added
  // to the state before them. Stated as a quantifier, so that a use of Transform
  // in a contract, where nothing can be hidden, does not unfold into the table.
  ghost predicate Transforms(st: State, block: seq<Byte>, r: State)
    requires |block| == 64
  {
    forall x: seq<Word> :: |x| == 16 && x == Words(block) ==> r == Sum(Groups(st, x, |x|), st)
  }

  ghost function Transform(st: State, block: seq<Byte>): State
    requires |block| == 64
  {
    TransformsTo(st, block, Words(block));
    var r :| Transforms(st, block, r);
    r
  }

  lemma TransformsTo(st: State, block: seq<Byte>, x: seq<Word>)
    requires |block| == 64 && x == Words(block)
    ensures Transforms(st, block, Sum(Groups(st, x, |x|), st))
  {
    hide Groups, Words, Sum;
  }

  // Transform is the plain sum.
  lemma TransformIs(st: State, block: seq<Byte>, x: seq<Word>)
    requires |block| == 64 && x == Words(block)
    ensures Transform(st, block) == Sum(Groups(st, x, |x|), st)
  {
    hide Groups, Words, Sum;
  }

  // ----- The code -----

  // STEP: f is the value of the auxiliary function.
  function Step(f: Word, a: Word, b: Word, x: Word, t: Word, s: nat): Word
    requires s <= 32
  {
    Rotate(a + (f + x + t), s) + b
  }

  // The auxiliary function of a round, as coded.
  function FastMix(round: nat, x: Word, y: Word, z: Word): Word {
    if round == 0 then FastF(x, y, z)
    else if round == 1 then FastG(x, y, z)
    else if round == 2 then H(x, y, z)
    else I(x, y, z)
  }

  lemma FastMixIsMix(round: nat, x: Word, y: Word, z: Word)
    ensures FastMix(round, x, y, z) == Mix(round, x, y, z)
  {
    hide F, G, H, I, FastF, FastG;
    FastFIsF(x, y, z);
    FastGIsG(x, y, z);
  }

  lemma SumOrder(a: Word, f: Word, x: Word, t: Word)
    ensures a + (f + x + t) == a + f + x + t
  {
  }

  lemma SumTurned(a: Word, b: Word)
    ensures a + b == b + a
  {
  }

  // One STEP is one operation of the table.
  lemma StepIsOperation(round: nat, a: Word, b: Word, c: Word, d: Word, x: Word, s: nat, t: Word)
    requires s <= 32
    ensures Step(FastMix(round, b, c, d), a, b, x, t, s) == Operation(round, a, b, c, d, x, s, t)
  {
    hide Rotate, Mix, FastMix;
    FastMixIsMix(round, b, c, d);
    var f := Mix(round, b, c, d);
    SumOrder(a, f, x, t);
    SumTurned(Rotate(a + f + x + t, s), b);
  }

  // Four STEPs of the code, with the words, shifts and constants of group g.
  function FastGroup(st: State, x: seq<Word>, g: nat): State
    requires |x| == 16
  {
    var r, s, t := g / 4, Shifts(g / 4), Sines(g);
    var a := Step(FastMix(r, st.b, st.c, st.d), st.a, st.b, x[Index(r, 4 * (g % 4))], t.0, s.0);
    var d := Step(FastMix(r, a, st.b, st.c), st.d, a, x[Index(r, 4 * (g % 4) + 1)], t.1, s.1);
    var c := Step(FastMix(r, d, a, st.b), st.c, d, x[Index(r, 4 * (g % 4) + 2)], t.2, s.2);
    var b := Step(FastMix(r, c, d, a), st.b, c, x[Index(r, 4 * (g % 4) + 3)], t.3, s.3);
    State(a, b, c, d)
  }

  lemma FourSteps(st: State, x: seq<Word>, g: nat)
    requires |x| == 16
    ensures FastGroup(st, x, g) == Group(st, x, g)
  {
    hide Step, FastMix, Operation, Index, Shifts, Sines;
    var r, s, t := g / 4, Shifts(g / 4), Sines(g);
    var q := Group(st, x, g);
    StepIsOperation(r, st.a, st.b, st.c, st.d, x[Index(r, 4 * (g % 4))], s.0, t.0);
    StepIsOperation(r, st.d, q.a, st.b, st.c, x[Index(r, 4 * (g % 4) + 1)], s.1, t.1);
    StepIsOperation(r, st.c, q.d, q.a, st.b, x[Index(r, 4 * (g % 4) + 2)], s.2, t.2);
    StepIsOperation(r, st.b, q.c, q.d, q.a, x[Index(r, 4 * (g % 4) + 3)], s.3, t.3);
  }

  lemma NextGroup(st: State, x: seq<Word>, n: nat)
    requires |x| == 16
    ensures Groups(st, x, n + 1) == Group(Groups(st, x, n), x, n)
  {
    hide Group;
  }

  // The unrolled steps, four at a time.
  method Steps0(st: State, x: seq<Word>) returns (q: State)
    requires |x| == 16
    ensures q == Group(st, x, 0)
  {
    hide Step, Group, FastF, FastG, H, I;
    var a, b, c, d := st.a, st.b, st.c, st.d;
    a := Step(FastF(b, c, d), a, b, x[0], 0xd76aa478, 7);
    d := Step(FastF(a, b, c), d, a, x[1], 0xe8c7b756, 12);
    c := Step(FastF(d, a, b), c, d, x[2], 0x242070db, 17);
    b := Step(FastF(c, d, a), b, c, x[3], 0xc1bdceee, 22);
    FourSteps(st, x, 0);
    q := State(a, b, c, d);
  }

  method Steps4(st: State, x: seq<Word>) returns (q: State)
    requires |x| == 16
    ensures q == Group(st, x, 1)
  {
    hide Step, Group, FastF, FastG, H, I;
    var a, b, c, d := st.a, st.b, st.c, st.d;
    a := Step(FastF(b, c, d), a, b, x[4], 0xf57c0faf, 7);
    d := Step(FastF(a, b, c), d, a, x[5], 0x4787c62a, 12);
    c := Step(FastF(d, a, b), c, d, x[6], 0xa8304613, 17);
    b := Step(FastF(c, d, a), b, c, x[7], 0xfd469501, 22);
    FourSteps(st, x, 1);
    q := State(a, b, c, d);
  }

  method Steps8(st: State, x: seq<Word>) returns (q: State)
    requires |x| == 16
    ensures q == Group(st, x, 2)
  {
    hide Step, Group, FastF, FastG, H, I;
    var a, b, c, d := st.a, st.b, st.c, st.d;
    a := Step(FastF(b, c, d), a, b, x[8], 0x698098d8, 7);
    d := Step(FastF(a, b, c), d, a, x[9], 0x8b44f7af, 12);
    c := Step(FastF(d, a, b), c, d, x[10], 0xffff5bb1, 17);
    b := Step(FastF(c, d, a), b, c, x[11], 0x895cd7be, 22);
    FourSteps(st, x, 2);
    q := State(a, b, c, d);
  }

  method Steps12(st: State, x: seq<Word>) returns (q: State)
    requires |x| == 16
    ensures q == Group(st, x, 3)
  {
    hide Step, Group, FastF, FastG, H, I;
    var a, b, c, d := st.a, st.b, st.c, st.d;
    a := Step(FastF(b, c, d), a, b, x[12], 0x6b901122, 7);
    d := Step(FastF(a, b, c), d, a, x[13], 0xfd987193, 12);
    c := Step(FastF(d, a, b), c, d, x[14], 0xa679438e, 17);
    b := Step(FastF(c, d, a), b, c, x[15], 0x49b40821, 22);
    FourSteps(st, x, 3);
    q := State(a, b, c, d);
  }

  method Steps16(st: State, x: seq<Word>) returns (q: State)
    requires |x| == 16
    ensures q == Group(st, x, 4)
  {
    hide Step, Group, FastF, FastG, H, I;
    var a, b, c, d := st.a, st.b, st.c, st.d;
    a := Step(FastG(b, c, d), a, b, x[1], 0xf61e2562, 5);
    d := Step(FastG(a, b, c), d, a, x[6], 0xc040b340, 9);
    c := Step(FastG(d, a, b), c, d, x[11], 0x265e5a51, 14);
    b := Step(FastG(c, d, a), b, c, x[0], 0xe9b6c7aa, 20);
    FourSteps(st, x, 4);
    q := State(a, b, c, d);
  }

  method Steps20(st: State, x: seq<Word>) returns (q: State)
    requires |x| == 16
    ensures q == Group(st, x, 5)
  {
    hide Step, Group, FastF, FastG, H, I;
    var a, b, c, d := st.a, st.b, st.c, st.d;
    a := Step(FastG(b, c, d), a, b, x[5], 0xd62f105d, 5);
    d := Step(FastG(a, b, c), d, a, x[10], 0x02441453, 9);
    c := Step(FastG(d, a, b), c, d, x[15], 0xd8a1e681, 14);
    b := Step(FastG(c, d, a), b, c, x[4], 0xe7d3fbc8, 20);
    FourSteps(st, x, 5);
    q := State(a, b, c, d);
  }

  method Steps24(st: State, x: seq<Word>) returns (q: State)
    requires |x| == 16
    ensures q == Group(st, x, 6)
  {
    hide Step, Group, FastF, FastG, H, I;
    var a, b, c, d := st.a, st.b, st.c, st.d;
    a := Step(FastG(b, c, d), a, b, x[9], 0x21e1cde6, 5);
    d := Step(FastG(a, b, c), d, a, x[14], 0xc33707d6, 9);
    c := Step(FastG(d, a, b), c, d, x[3], 0xf4d50d87, 14);
    b := Step(FastG(c, d, a), b, c, x[8], 0x455a14ed, 20);
    FourSteps(st, x, 6);
    q := State(a, b, c, d);
  }

  method Steps28(st: State, x: seq<Word>) returns (q: State)
    requires |x| == 16
    ensures q == Group(st, x, 7)
  {
    hide Step, Group, FastF, FastG, H, I;
    var a, b, c, d := st.a, st.b, st.c, st.d;
    a := Step(FastG(b, c, d), a, b, x[13], 0xa9e3e905, 5);
    d := Step(FastG(a, b, c), d, a, x[2], 0xfcefa3f8, 9);
    c := Step(FastG(d, a, b), c, d, x[7], 0x676f02d9, 14);
    b := Step(FastG(c, d, a), b, c, x[12], 0x8d2a4c8a, 20);
    FourSteps(st, x, 7);
    q := State(a, b, c, d);
  }

  method Steps32(st: State, x: seq<Word>) returns (q: State)
    requires |x| == 16
    ensures q == Group(st, x, 8)
  {
    hide Step, Group, FastF, FastG, H, I;
    var a, b, c, d := st.a, st.b, st.c, st.d;
    a := Step(H(b, c, d), a, b, x[5], 0xfffa3942, 4);
    d := Step(H(a, b, c), d, a, x[8], 0x8771f681, 11);
    c := Step(H(d, a, b), c, d, x[11], 0x6d9d6122, 16);
    b := Step(H(c, d, a), b, c, x[14], 0xfde5380c, 23);
    FourSteps(st, x, 8);
    q := State(a, b, c, d);
  }

  method Steps36(st: State, x: seq<Word>) returns (q: State)
    requires |x| == 16
    ensures q == Group(st, x, 9)
  {
    hide Step, Group, FastF, FastG, H, I;
    var a, b, c, d := st.a, st.b, st.c, st.d;
    a := Step(H(b, c, d), a, b, x[1], 0xa4beea44, 4);
    d := Step(H(a, b, c), d, a, x[4], 0x4bdecfa9, 11);
    c := Step(H(d, a, b), c, d, x[7], 0xf6bb4b60, 16);
    b := Step(H(c, d, a), b, c, x[10], 0xbebfbc70, 23);
    FourSteps(st, x, 9);
    q := State(a, b, c, d);
  }

  method Steps40(st: State, x: seq<Word>) returns (q: State)
    requires |x| == 16
    ensures q == Group(st, x, 10)
  {
    hide Step, Group, FastF, FastG, H, I;
    var a, b, c, d := st.a, st.b, st.c, st.d;
    a := Step(H(b, c, d), a, b, x[13], 0x289b7ec6, 4);
    d := Step(H(a, b, c), d, a, x[0], 0xeaa127fa, 11);
    c := Step(H(d, a, b), c, d, x[3], 0xd4ef3085, 16);
    b := Step(H(c, d, a), b, c, x[6], 0x04881d05, 23);
    FourSteps(st, x, 10);
    q := State(a, b, c, d);
  }

  method Steps44(st: State, x: seq<Word>) returns (q: State)
    requires |x| == 16
    ensures q == Group(st, x, 11)
  {
    hide Step, Group, FastF, FastG, H, I;
    var a, b, c, d := st.a, st.b, st.c, st.d;
    a := Step(H(b, c, d), a, b, x[9], 0xd9d4d039, 4);
    d := Step(H(a, b, c), d, a, x[12], 0xe6db99e5, 11);
    c := Step(H(d, a, b), c, d, x[15], 0x1fa27cf8, 16);
    b := Step(H(c, d, a), b, c, x[2], 0xc4ac5665, 23);
    FourSteps(st, x, 11);
    q := State(a, b, c, d);
  }

  method Steps48(st: State, x: seq<Word>) returns (q: State)
    requires |x| == 16
    ensures q == Group(st, x, 12)
  {
    hide Step, Group, FastF, FastG, H, I;
    var a, b, c, d := st.a, st.b, st.c, st.d;
    a := Step(I(b, c, d), a, b, x[0], 0xf4292244, 6);
    d := Step(I(a, b, c), d, a, x[7], 0x432aff97, 10);
    c := Step(I(d, a, b), c, d, x[14], 0xab9423a7, 15);
    b := Step(I(c, d, a), b, c, x[5], 0xfc93a039, 21);
    FourSteps(st, x, 12);
    q := State(a, b, c, d);
  }

  method Steps52(st: State, x: seq<Word>) returns (q: State)
    requires |x| == 16
    ensures q == Group(st, x, 13)
  {
    hide Step, Group, FastF, FastG, H, I;
    var a, b, c, d := st.a, st.b, st.c, st.d;
    a := Step(I(b, c, d), a, b, x[12], 0x655b59c3, 6);
    d := Step(I(a, b, c), d, a, x[3], 0x8f0ccc92, 10);
    c := Step(I(d, a, b), c, d, x[10], 0xffeff47d, 15);
    b := Step(I(c, d, a), b, c, x[1], 0x85845dd1, 21);
    FourSteps(st, x, 13);
    q := State(a, b, c, d);
  }

  method Steps56(st: State, x: seq<Word>) returns (q: State)
    requires |x| == 16
    ensures q == Group(st, x, 14)
  {
    hide Step, Group, FastF, FastG, H, I;
    var a, b, c, d := st.a, st.b, st.c, st.d;
    a := Step(I(b, c, d), a, b, x[8], 0x6fa87e4f, 6);
    d := Step(I(a, b, c), d, a, x[15], 0xfe2ce6e0, 10);
    c := Step(I(d, a, b), c, d, x[6], 0xa3014314, 15);
    b := Step(I(c, d, a), b, c, x[13], 0x4e0811a1, 21);
    FourSteps(st, x, 14);
    q := State(a, b, c, d);
  }

  method Steps60(st: State, x: seq<Word>) returns (q: State)
    requires |x| == 16
    ensures q == Group(st, x, 15)
  {
    hide Step, Group, FastF, FastG, H, I;
    var a, b, c, d := st.a, st.b, st.c, st.d;
    a := Step(I(b, c, d), a, b, x[4], 0xf7537e82, 6);
    d := Step(I(a, b, c), d, a, x[11], 0xbd3af235, 10);
    c := Step(I(d, a, b), c, d, x[2], 0x2ad7d2bb, 15);
    b := Step(I(c, d, a), b, c, x[9], 0xeb86d391, 21);
    FourSteps(st, x, 15);
    q := State(a, b, c, d);
  }

  method AllSteps(st: State, x: seq<Word>) returns (q: State)
    requires |x| == 16
    ensures q == Groups(st, x, |x|)
  {
    hide Group, Groups;
    NoGroups(st, x);
    q := st;
    q := Steps0(q, x);
    NextGroup(st, x, 0);
    q := Steps4(q, x);
    NextGroup(st, x, 1);
    q := Steps8(q, x);
    NextGroup(st, x, 2);
    q := Steps12(q, x);
    NextGroup(st, x, 3);
    q := Steps16(q, x);
    NextGroup(st, x, 4);
    q := Steps20(q, x);
    NextGroup(st, x, 5);
    q := Steps24(q, x);
    NextGroup(st, x, 6);
    q := Steps28(q, x);
    NextGroup(st, x, 7);
    q := Steps32(q, x);
    NextGroup(st, x, 8);
    q := Steps36(q, x);
    NextGroup(st, x, 9);
    q := Steps40(q, x);
    NextGroup(st, x, 10);
    q := Steps44(q, x);
    NextGroup(st, x, 11);
    q := Steps48(q, x);
    NextGroup(st, x, 12);
    q := Steps52(q, x);
    NextGroup(st, x, 13);
    q := Steps56(q, x);
    NextGroup(st, x, 14);
    q := Steps60(q, x);
    NextGroup(st, x, 15);
  }

  // One turn of the loop in body.
  method TransformBlock(st: State, block: seq<Byte>) returns (r: State)
    requires |block| == 64
    ensures r == Transform(st, block)
  {
    hide Groups, Words, Transform, Sum;
    var x := Words(block);
    TransformIs(st, block, x);
    var q := AllSteps(st, x);
    r := Sum(q, st);
  }

  lemma NoGroups(st: State, x: seq<Word>)
    requires |x| == 16
    ensures Groups(st, x, 0) == st
  {
  }
}
