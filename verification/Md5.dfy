// The streaming MD5 context (RFC 1321) used for password hashes.
module Md5 {
  import opened Bytes
  import opened Division
  import opened Lists
  import opened Md5Block

  // ----- The digest of a whole message, RFC 1321 section 3 -----

  function Zeros(n: nat): (s: seq<Byte>)
    ensures |s| == n
  {
    seq(n, _ => 0)
  }

  // Sections 3.1 and 3.2: a one bit, zero bits up to 56 modulo 64 bytes, and the
  // low-order 64 bits of the length in bits.
  function Padding(n: nat): (s: seq<Byte>)
    ensures (n + |s|) % 64 == 0
  {
    PadFits(n);
    [0x80] + Zeros((55 - n) % 64) + Le64(8 * n)
  }

  lemma PadFits(n: nat)
    ensures (n + (1 + (55 - n) % 64 + 8)) % 64 == 0
  {
    var q := (55 - n) / 64;
    assert (55 - n) % 64 == 55 - n - 64 * q;
  }

  // Section 3.4: every 16-word block in turn.
  ghost function Fold(st: State, m: seq<Byte>): State
    requires |m| % 64 == 0
    decreases |m|
  {
    if m == [] then st else Fold(Transform(st, m[..64]), m[64..])
  }

  // One block from position p on.
  lemma FoldFirst(st: State, m: seq<Byte>, p: nat)
    requires p + 64 <= |m| && (|m| - p) % 64 == 0
    ensures |m[p..]| % 64 == 0 && |m[p + 64..]| % 64 == 0
    ensures Fold(st, m[p..]) == Fold(Transform(st, m[p..p + 64]), m[p + 64..])
  {
    hide Transform;
    assert m[p..][..64] == m[p..p + 64] && m[p..][64..] == m[p + 64..];
  }

  // Section 3.5: the state, low-order byte of A first.
  function Digest(st: State): (s: seq<Byte>)
    ensures |s| == 16
  {
    Le32(st.a as int) + Le32(st.b as int) + Le32(st.c as int) + Le32(st.d as int)
  }

  ghost function Hash(m: seq<Byte>): seq<Byte> {
    Digest(Fold(INIT, m + Padding(|m|)))
  }

  // ----- Lemmas on blocks -----

  lemma {:induction false} FoldConcat(st: State, a: seq<Byte>, b: seq<Byte>)
    requires |a| % 64 == 0 && |b| % 64 == 0
    ensures Fold(st, a + b) == Fold(Fold(st, a), b)
    decreases |a|
  {
    hide Transform;
    if a == [] {
      assert a + b == b;
    } else {
      assert (a + b)[..64] == a[..64] && (a + b)[64..] == a[64..] + b;
      FoldConcat(Transform(st, a[..64]), a[64..], b);
    }
  }

  // The part of a message that fills whole blocks, and the rest.
  function Blocks(m: seq<Byte>): (b: seq<Byte>)
    ensures |b| % 64 == 0
  {
    m[..|m| - |m| % 64]
  }

  function Tail(m: seq<Byte>): (t: seq<Byte>)
    ensures |t| == |m| % 64 < 64
  {
    m[|m| - |m| % 64..]
  }

  // Appending whole blocks b and a short rest t to blocks.
  lemma Recut(m: seq<Byte>, blocks: seq<Byte>, t: seq<Byte>)
    requires m == blocks + t && |blocks| % 64 == 0 && |t| < 64
    ensures Blocks(m) == blocks && Tail(m) == t
  {
  }

  lemma Cut(m: seq<Byte>)
    ensures m == Blocks(m) + Tail(m)
  {
  }

  // ----- The bit counter -----

  // hi and lo after n bytes, as MD5_Update keeps them.
  ghost predicate Counts(lo: int, hi: int, n: nat) {
    lo == n % 0x2000_0000 && hi == n / 0x2000_0000 % 0x1_0000_0000
  }

  lemma CountStep(lo: int, hi: int, n: nat, size: nat)
    requires Counts(lo, hi, n)
    ensures var lo' := (lo + size) % 0x2000_0000;
            var carry := if lo' < lo then 1 else 0;
            Counts(lo', ((hi + carry) % 0x1_0000_0000 + size / 0x2000_0000) % 0x1_0000_0000, n + size)
  {
    DivMod(n, 0x2000_0000);
    DivMod(size, 0x2000_0000);
    var q, s, t := n / 0x2000_0000, size / 0x2000_0000, size % 0x2000_0000;
    CountParts(q, lo, s, t, n, size);
    ModSum(q, s, if lo + t >= 0x2000_0000 then 1 else 0);
  }

  // The sum by quotients and remainders: the remainders carry when they reach
  // the divisor.
  lemma CountParts(q: nat, lo: nat, s: nat, t: nat, n: nat, size: nat)
    requires n == q * 0x2000_0000 + lo && size == s * 0x2000_0000 + t && lo < 0x2000_0000 && t < 0x2000_0000
    ensures var carry := if lo + t >= 0x2000_0000 then 1 else 0;
            var lo' := (lo + size) % 0x2000_0000;
            && lo' == (n + size) % 0x2000_0000 && (lo' < lo <==> carry == 1)
            && (n + size) / 0x2000_0000 == q + s + carry
  {
    var carry := if lo + t >= 0x2000_0000 then 1 else 0;
    DivUnique(lo + size, 0x2000_0000, s + carry, lo + t - carry * 0x2000_0000);
    DivUnique(n + size, 0x2000_0000, q + s + carry, lo + t - carry * 0x2000_0000);
  }

  lemma ModSum(a: nat, b: nat, c: nat)
    ensures ((a % 0x1_0000_0000 + c) % 0x1_0000_0000 + b) % 0x1_0000_0000 == (a + b + c) % 0x1_0000_0000
  {
  }

  // The counter is the length in bits, modulo 2^64.
  lemma CounterBytes(lo: int, hi: int, n: nat)
    requires Counts(lo, hi, n)
    ensures Le32(lo * 8) + Le32(hi) == Le64(8 * n)
  {
    var q := n / 0x2000_0000;
    assert 8 * n == q * 0x1_0000_0000 + lo * 8;
    assert 8 * n / 0x1_0000_0000 == q;
    Le32Mod(8 * n, lo * 8, q);
    Le32Mod(q, hi, q / 0x1_0000_0000);
  }

  // Four bytes hold a number modulo 2^32.
  lemma Le32Mod(v: int, w: int, k: int)
    requires v == w + k * 0x1_0000_0000
    ensures Le32(v) == Le32(w)
  {
    LowByte(v, w, k * 0x100_0000);
    LowByte(v / 0x100, w / 0x100, k * 0x1_0000);
    LowByte(v / 0x1_0000, w / 0x1_0000, k * 0x100);
    LowByte(v / 0x100_0000, w / 0x100_0000, k);
  }

  lemma LowByte(v: int, w: int, j: int)
    requires v == w + j * 0x100
    ensures v % 0x100 == w % 0x100
  {
  }

  // ----- The context -----

  // The context has consumed m: whole blocks are folded into the state, the
  // rest waits at the front of the buffer, and the counter has seen it all.
  ghost predicate Consumed(st: State, lo: int, hi: int, buffer: seq<Byte>, m: seq<Byte>) {
    && |buffer| == 64
    && st == Fold(INIT, Blocks(m))
    && buffer[..|m| % 64] == Tail(m)
    && Counts(lo, hi, |m|)
  }

  lemma CutMore(m: seq<Byte>, data: seq<Byte>, blocks: seq<Byte>, t: seq<Byte>)
    requires Tail(m) + data == blocks + t && |blocks| % 64 == 0 && |t| < 64
    ensures Blocks(m + data) == Blocks(m) + blocks && Tail(m + data) == t
  {
    hide Blocks, Tail;
    var b := Blocks(m);
    Cut(m);
    assert m + data == b + (Tail(m) + data);
    assert b + (blocks + t) == b + blocks + t;
    WholeBlocks(|b|, |blocks|);
    Recut(m + data, b + blocks, t);
  }

  lemma WholeBlocks(a: nat, b: nat)
    requires a % 64 == 0 && b % 64 == 0
    ensures (a + b) % 64 == 0
  {
  }

  lemma FoldNothing(st: State)
    ensures Fold(st, []) == st
  {
    hide Transform;
  }

  lemma NothingCut()
    ensures Blocks([]) == [] && Tail([]) == []
  {
  }

  lemma CountsNothing()
    ensures Counts(0, 0, 0)
  {
  }

  lemma ConsumedNothing(buffer: seq<Byte>)
    requires |buffer| == 64
    ensures Consumed(INIT, 0, 0, buffer, [])
  {
    hide Fold, INIT, Blocks, Tail, Counts;
    FoldNothing(INIT);
    NothingCut();
    assert Counts(0, 0, 0) by { CountsNothing(); }
  }

  lemma TwoRuns(st: State, all: seq<Byte>, first: seq<Byte>, blocks: seq<Byte>, t: seq<Byte>)
    requires all == first + (blocks + t) && |first| % 64 == 0 && |blocks| % 64 == 0
    ensures all == first + blocks + t && |first + blocks| % 64 == 0
    ensures Fold(st, first + blocks) == Fold(Fold(st, first), blocks)
  {
    hide Fold;
    FoldConcat(st, first, blocks);
  }

  // The state of the context once input has been cut into blocks and a rest.
  lemma Absorbed(before: State, st: State, lo: int, hi: int, lo': int, hi': int, was: seq<Byte>, buffer: seq<Byte>,
                 m: seq<Byte>, input: seq<Byte>, blocks: seq<Byte>, t: seq<Byte>)
    requires Consumed(before, lo, hi, was, m)
    requires Tail(m) + input == blocks + t && |blocks| % 64 == 0 && |t| < 64
    requires st == Fold(before, blocks) && |buffer| == 64 && buffer[..|t|] == t
    requires Counts(lo', hi', |m| + |input|)
    ensures Consumed(st, lo', hi', buffer, m + input)
  {
    hide Fold, Counts, Blocks, Tail, INIT;
    CutMore(m, input, blocks, t);
    FoldConcat(INIT, Blocks(m), blocks);
    RestLength(m + input, t);
  }

  lemma RestLength(m: seq<Byte>, t: seq<Byte>)
    requires Tail(m) == t
    ensures |m| % 64 == |t|
  {
  }

  class Context {
    var lo: int
    var hi: int
    var st: State
    var buffer: array<Byte>
    ghost var msg: seq<Byte>     // everything consumed so far

    ghost predicate Valid()
      reads this, buffer
    {
      Consumed(st, lo, hi, buffer[..], msg)
    }

    // MD5_Init
    constructor ()
      ensures Valid() && fresh(buffer) && msg == []
    {
      hide Fold, Blocks, Tail, Counts, Consumed;
      lo, hi, st := 0, 0, INIT;
      buffer := new Byte[64];
      msg := [];
      new;
      ConsumedNothing(buffer[..]);
    }

    // body: one or more whole blocks.
    method Body(data: seq<Byte>)
      requires |data| % 64 == 0 && data != []
      modifies this`st
      ensures st == Fold(old(st), data)
    {
      hide Transform, Fold;
      var ptr, size := 0, |data|;
      ghost var start := st;
      while true
        invariant 0 <= ptr && size == |data| - ptr && size % 64 == 0 && size > 0
        invariant Fold(start, data) == Fold(st, data[ptr..])
        decreases size
      {
        FoldFirst(st, data, ptr);
        st := TransformBlock(st, data[ptr..ptr + 64]);
        ptr := ptr + 64;
        size := size - 64;
        if size == 0 {
          break;
        }
      }
      assert data[|data|..] == [];
      FoldNothing(st);
    }

    // The copy into the buffer at offset used.
    method Copy(used: nat, data: seq<Byte>)
      requires used + |data| <= buffer.Length
      modifies buffer
      ensures buffer[..] == old(buffer[..used]) + data + old(buffer[used + |data|..])
    {
      forall i | 0 <= i < |data| {
        buffer[used + i] := data[i];
      }
    }

    // The bit counter, with its carry from the low to the high part.
    method Count(size: nat)
      requires Counts(lo, hi, |msg|)
      modifies this`lo, this`hi
      ensures Counts(lo, hi, |msg| + size)
    {
      CountStep(lo, hi, |msg|, size);
      var savedLo := lo;
      lo := (savedLo + size) % 0x2000_0000;
      if lo < savedLo {
        hi := (hi + 1) % 0x1_0000_0000;
      }
      hi := (hi + size / 0x2000_0000) % 0x1_0000_0000;
    }

    // Complete the block that waits in the buffer, and fold it.
    method Fill(used: nat, data: seq<Byte>)
      requires buffer.Length == 64 && used + |data| == 64
      modifies this`st, buffer
      ensures st == Fold(old(st), old(buffer[..used]) + data)
    {
      hide Fold;
      Copy(used, data);
      assert buffer[..] == old(buffer[..used]) + data;
      Body(buffer[..]);
    }

    // Fold the whole blocks of data and keep the rest.
    method Absorb(data: seq<Byte>) returns (ghost blocks: seq<Byte>, ghost t: seq<Byte>)
      requires buffer.Length == 64
      modifies this`st, buffer
      ensures data == blocks + t && |blocks| % 64 == 0 && |t| < 64
      ensures st == Fold(old(st), blocks) && buffer[..|t|] == t
    {
      hide Fold;
      var rest := data;
      blocks := [];
      FoldNothing(st);
      if |data| >= 64 {
        var whole := |data| - |data| % 64;
        Body(data[..whole]);
        blocks, rest := data[..whole], data[whole..];
      }
      Copy(0, rest);
      t := rest;
    }

    // MD5_Update
    method Update(input: seq<Byte>)
      requires Valid()
      modifies this, buffer
      ensures Valid() && msg == old(msg) + input && buffer == old(buffer)
    {
      hide Fold, Counts, Blocks, Tail;
      var data := input;
      var used := lo % 64;
      UsedIsTail(lo, hi, msg);
      ghost var tail, was := Tail(msg), buffer[..];
      Count(|input|);
      ghost var first := [];
      FoldNothing(st);
      if used != 0 {
        var free := 64 - used;
        if |input| < free {
          Copy(used, input);
          assert tail + input == [] + (tail + input);
          Absorbed(old(st), st, old(lo), old(hi), lo, hi, was, buffer[..], msg, input, [], tail + input);
          msg := msg + input;
          return;
        }
        Fill(used, input[..free]);
        first, data := tail + input[..free], input[free..];
      }
      assert tail + input == first + data;
      ghost var blocks, t := Absorb(data);
      TwoRuns(old(st), tail + input, first, blocks, t);
      Absorbed(old(st), st, old(lo), old(hi), lo, hi, was, buffer[..], msg, input, first + blocks, t);
      msg := msg + input;
    }

    // The end of the last block: zeros up to byte 56, then the bit count.
    method Finish(used: nat)
      requires buffer.Length == 64 && used <= 56 && Counts(lo, hi, |msg|)
      modifies this`lo, this`st, buffer
      ensures st == Fold(old(st), old(buffer[..used]) + Zeros(56 - used) + Le64(8 * |msg|))
    {
      hide Fold, Le32, Le64;
      CounterBytes(lo, hi, |msg|);
      CounterInRange(lo, hi, |msg|);
      Copy(used, Zeros(56 - used));
      lo := lo * 8 % 0x1_0000_0000;
      Copy(56, Le32(lo));
      Copy(60, Le32(hi));
      assert buffer[..] == old(buffer[..used]) + Zeros(56 - used) + (Le32(lo) + Le32(hi));
      Body(buffer[..]);
    }

    // The bit 1 behind the message, and one block more when the bit count has no
    // room behind it.
    method Mark() returns (used: nat, ghost before: seq<Byte>)
      requires Valid()
      modifies this`st, buffer
      ensures used <= 56 && |before| % 64 == 0 && st == Fold(INIT, before)
      ensures msg + Padding(|msg|) == before + (buffer[..used] + Zeros(56 - used) + Le64(8 * |msg|))
    {
      hide Fold, Counts, Blocks, Tail, INIT, Padding, Le64;
      used := lo % 64;
      UsedIsTail(lo, hi, msg);
      ghost var t := Tail(msg);
      before := Blocks(msg);
      Copy(used, [0x80]);
      used := used + 1;
      assert buffer[..used] == t + [0x80];
      var free := 64 - used;
      if free < 8 {
        FlushBlock(used, t + [0x80]);
        ghost var full := t + [0x80] + Zeros(free);
        FoldConcat(INIT, before, full);
        TwoLastBlocks(msg, full, Zeros(56) + Le64(8 * |msg|));
        before := before + full;
        used := 0;
        assert buffer[..0] + Zeros(56) == Zeros(56);
      } else {
        OneLastBlock(msg, t + [0x80] + Zeros(56 - used) + Le64(8 * |msg|));
      }
    }

    // MD5_Final
    method Final() returns (result: seq<Byte>)
      requires Valid()
      modifies this, buffer
      ensures result == Hash(old(msg))
      ensures lo == 0 && hi == 0 && st == State(0, 0, 0, 0)
      ensures forall i :: 0 <= i < buffer.Length ==> buffer[i] == 0
    {
      hide Fold, Counts, Blocks, Tail, INIT, Padding, Le64;
      var used;
      ghost var before;
      used, before := Mark();
      ghost var last := buffer[..used] + Zeros(56 - used) + Le64(8 * |msg|);
      Finish(used);
      FoldConcat(INIT, before, last);
      result := Digest(st);
      Clear();
    }

    // A block without room for the bit count: zeros to its end.
    method FlushBlock(used: nat, ghost front: seq<Byte>)
      requires buffer.Length == 64 && used <= 64 && buffer[..used] == front
      modifies this`st, buffer
      ensures st == Fold(old(st), front + Zeros(64 - used))
    {
      hide Fold;
      Copy(used, Zeros(64 - used));
      assert buffer[..] == front + Zeros(64 - used);
      Body(buffer[..]);
    }

    method Clear()
      requires buffer.Length == 64
      modifies this`lo, this`hi, this`st, buffer
      ensures lo == 0 && hi == 0 && st == State(0, 0, 0, 0)
      ensures forall i :: 0 <= i < buffer.Length ==> buffer[i] == 0
    {
      lo, hi, st := 0, 0, State(0, 0, 0, 0);
      Copy(0, Zeros(64));
      assert buffer[..] == Zeros(64);
    }
  }

  lemma CounterInRange(lo: int, hi: int, n: nat)
    requires Counts(lo, hi, n)
    ensures lo * 8 % 0x1_0000_0000 == lo * 8
  {
  }

  lemma PadRun(m: seq<Byte>)
    ensures (55 - |m|) % 64 == (if |Tail(m)| <= 55 then 55 - |Tail(m)| else 119 - |Tail(m)|)
  {
    var q := |m| / 64;
    assert |m| == 64 * q + |Tail(m)|;
  }

  lemma ZerosSplit(a: nat, b: nat)
    ensures Zeros(a + b) == Zeros(a) + Zeros(b)
  {
  }

  // The padding fits the block that waits.
  lemma OneLastBlock(m: seq<Byte>, last: seq<Byte>)
    requires |Tail(m)| <= 55 && last == Tail(m) + [0x80] + Zeros(55 - |Tail(m)|) + Le64(8 * |m|)
    ensures m + Padding(|m|) == Blocks(m) + last
  {
    hide Blocks, Tail, Le64;
    PadRun(m);
    Cut(m);
    assert Blocks(m) + Tail(m) + ([0x80] + Zeros(55 - |Tail(m)|) + Le64(8 * |m|)) == Blocks(m) + last;
  }

  // The padding needs one more block.
  lemma TwoLastBlocks(m: seq<Byte>, full: seq<Byte>, last: seq<Byte>)
    requires |Tail(m)| > 55 && full == Tail(m) + [0x80] + Zeros(63 - |Tail(m)|) && last == Zeros(56) + Le64(8 * |m|)
    ensures m + Padding(|m|) == Blocks(m) + full + last
  {
    hide Blocks, Tail, Le64;
    var t, z, len := Tail(m), Zeros(63 - |Tail(m)|), Le64(8 * |m|);
    PadRun(m);
    Cut(m);
    ZerosSplit(63 - |t|, 56);
    assert Blocks(m) + t + ([0x80] + (z + Zeros(56)) + len) == Blocks(m) + (t + [0x80] + z) + (Zeros(56) + len);
  }

  // lo & 0x3f is the length of the waiting rest.
  lemma UsedIsTail(lo: int, hi: int, m: seq<Byte>)
    requires Counts(lo, hi, |m|)
    ensures lo % 64 == |Tail(m)|
  {
    DivMod(|m|, 0x2000_0000);
    DivMod(lo, 64);
    DivMod(|m|, 64);
    RemOfLow(|m|, |m| / 0x2000_0000, lo, lo / 64, lo % 64);
  }

  lemma RemOfLow(n: nat, q: nat, lo: nat, k: nat, r: nat)
    requires n == q * 0x2000_0000 + lo && lo == k * 64 + r && r < 64
    ensures n % 64 == r
  {
    DivUnique(n, 64, q * 0x80_0000 + k, r);
  }

  // ----- Any cutting of the message -----

  // However a message is cut into updates, the digest is that of the whole.
  method HashPieces(pieces: seq<seq<Byte>>) returns (result: seq<Byte>)
    ensures result == Hash(Flatten(pieces))
  {
    hide Hash;
    var ctx := new Context();
    for i := 0 to |pieces|
      invariant ctx.Valid() && fresh(ctx) && fresh(ctx.buffer)
      invariant ctx.msg == Flatten(pieces[..i])
    {
      ctx.Update(pieces[i]);
      assert pieces[..i + 1][..i] == pieces[..i];
    }
    assert pieces[..|pieces|] == pieces;
    result := ctx.Final();
  }
}
