/** The streaming interface: a context fed with pieces of a message of any sizes holds what the
    whole message would have left there, and finishes with the digest of the whole message. */
module Md5Stream {
  import opened Bits
  import opened Division
  import opened Md5

  /** The padding block: one bit, then zeros. */
  const PADDING: seq<Byte> := [0x80] + seq(63, _ => 0)

  class Context {
    var total0: nat
    var total1: nat
    var state: State
    const buffer: array<Byte>

    /** The context after the bytes m. */
    ghost predicate Holds(m: seq<Byte>)
      reads this, buffer
    {
      && total0 == |m| % W32
      && total1 == |m| / W32 % W64
      && Low(state) == Blocks(INITIAL, m)
      && buffer.Length == 64
      && buffer[..|m| % 64] == Rest(m)
    }

    constructor Starts()
      ensures Holds([]) && fresh(buffer)
    {
      total0, total1, state := 0, 0, INITIAL;
      buffer := new Byte[64](_ => 0);
    }

    /** Adds one block to the state: the low halves are those of the RFC. */
    method Process(data: seq<Byte>)
      requires |data| == 64
      modifies `state
      ensures Low(state) == Block(old(Low(state)), data)
    {
      hide MacroStep, Operation, Words;
      var x := Words(data);
      var r := state;
      for i := 0 to 64
        invariant state == old(state) && Low(r) == Operations(Low(state), x, i)
      {
        StepLow(r, x, i);
        r := MacroStep(r, x, i);
      }
      WordLow(state.a, r.a);
      WordLow(state.b, r.b);
      WordLow(state.c, r.c);
      WordLow(state.d, r.d);
      state := State((state.a + r.a) % W64, (state.b + r.b) % W64, (state.c + r.c) % W64, (state.d + r.d) % W64);
    }

    method Copy(at: nat, piece: seq<Byte>)
      requires at + |piece| <= buffer.Length
      modifies buffer
      ensures buffer[..at + |piece|] == old(buffer[..at]) + piece
    {
      forall i | 0 <= i < |piece| {
        buffer[at + i] := piece[i];
      }
    }

    /** What Holds says of the state and the buffer. */
    ghost predicate Blocked(m: seq<Byte>)
      reads `state, buffer
    {
      && Low(state) == Blocks(INITIAL, m)
      && buffer.Length == 64
      && buffer[..|m| % 64] == Rest(m)
    }

    /** Completes the block in progress. */
    method Fill(ghost m: seq<Byte>, piece: seq<Byte>)
      requires Blocked(m) && |m| % 64 + |piece| == 64
      modifies `state, buffer
      ensures Blocked(m + piece)
    {
      hide Blocks;
      Copy(64 - |piece|, piece);
      BlockCompleted(m, piece);
      assert buffer[..] == Rest(m) + piece;
      Process(buffer[..]);
    }

    /** Takes a block straight from the input. */
    method Take(ghost m: seq<Byte>, piece: seq<Byte>)
      requires Blocked(m) && |m| % 64 == 0 && |piece| == 64
      modifies `state
      ensures Blocked(m + piece)
    {
      hide Blocks;
      BlockCompleted(m, piece);
      assert Rest(m) + piece == piece;
      Process(piece);
    }

    /** Keeps bytes that do not complete a block. */
    method Keep(ghost m: seq<Byte>, piece: seq<Byte>, left: nat)
      requires Blocked(m) && left == |m| % 64 && left + |piece| < 64
      modifies buffer
      ensures Blocked(m + piece)
    {
      hide Blocks;
      BlockContinued(m, piece);
      Copy(left, piece);
    }

    /** Takes whole blocks straight from the input, from position start on. */
    method ProcessWhole(ghost m: seq<Byte>, input: seq<Byte>, start: nat) returns (k: nat)
      requires start <= |input| && Blocked(m) && (|m| % 64 == 0 || |m| % 64 + |input| - start < 64)
      modifies `state
      ensures start <= k <= |input| && Blocked(m + input[start..k])
      ensures (|m| + k - start) % 64 == |m| % 64 && |m| % 64 + |input| - k < 64
    {
      hide Blocked;
      k := start;
      assert m + input[start..k] == m;
      while |input| - k >= 64
        invariant start <= k <= |input| && Blocked(m + input[start..k])
        invariant (|m| + k - start) % 64 == |m| % 64
        invariant |m| % 64 == 0 || |m| % 64 + |input| - k < 64
      {
        ghost var done := m + input[start..k];
        var piece := input[k..k + 64];
        Take(done, piece);
        assert done + piece == m + input[start..k + 64];
        k := k + 64;
      }
    }

    /** Fills the block in progress, takes whole blocks, and keeps the rest in the buffer. */
    method Absorb(ghost m: seq<Byte>, input: seq<Byte>, left0: nat)
      requires Blocked(m) && left0 == |m| % 64
      modifies `state, buffer
      ensures Blocked(m + input)
    {
      hide Blocked;
      var left, k := left0, 0;
      var fill := 64 - left;
      if left > 0 && |input| >= fill {
        Fill(m, input[..fill]);
        k, left := fill, 0;
      } else {
        assert m + input[..0] == m;
      }
      ghost var begun := m + input[..k];
      var from := k;
      k := ProcessWhole(begun, input, from);
      ghost var done := m + input[..k];
      assert begun + input[from..k] == done;
      assert done + input[k..] == m + input;
      if k < |input| {
        Keep(done, input[k..], left);
      } else {
        assert done == m + input;
      }
    }

    method Update(ghost m: seq<Byte>, input: seq<Byte>)
      requires Holds(m) && |input| < 0x8000_0000
      modifies this, buffer
      ensures Holds(m + input)
    {
      hide Blocks, Rest, Low;
      if input == [] {
        assert m + input == m;
        return;
      }
      var left := total0 % 64;
      LeftIs(|m|);
      CountsOn(|m|, |input|);
      total0 := (total0 + |input|) % W32;
      if total0 < |input| {
        total1 := (total1 + 1) % W64;
      }
      Absorb(m, input, left);
    }

    method Finish(ghost m: seq<Byte>) returns (output: seq<Byte>)
      requires Holds(m)
      modifies this, buffer
      ensures output == Digest(m)
    {
      hide Blocks, Bytes, Or64, Shl, Shr, Holds;
      var high := Or64(Shl(total1, 3) % W64, Shr(total0, 29));
      var low := Shl(total0, 3) % W64;
      var length := Bytes(low) + Bytes(high);
      var last := total0 % 64;
      var padn := if last < 56 then 56 - last else 120 - last;
      Counters(m);
      PaddingIs(|m|, total0, total1);
      Update(m, PADDING[..padn]);
      Update(m + PADDING[..padn], length);
      assert m + PADDING[..padn] + length == m + Padding(|m|);
      output := Bytes(state.a) + Bytes(state.b) + Bytes(state.c) + Bytes(state.d);
      OutputIs(state);
      Counters(m + Padding(|m|));
    }

    lemma Counters(m: seq<Byte>)
      requires Holds(m)
      ensures total0 == |m| % W32 && total1 == |m| / W32 % W64 && Low(state) == Blocks(INITIAL, m)
    {
    }
  }

  lemma LeftIs(n: nat)
    ensures n % W32 % 64 == n % 64
  {
  }

  lemma {:induction false} OutputIs(st: State)
    ensures Bytes(st.a) + Bytes(st.b) + Bytes(st.c) + Bytes(st.d) == Output(Low(st))
  {
    hide Bytes;
    BytesLow(st.a);
    BytesLow(st.b);
    BytesLow(st.c);
    BytesLow(st.d);
  }

  lemma WordLow(x: nat, y: nat)
    ensures (x + y) % W64 % W32 == (x % W32 + y % W32) % W32
  {
    ModMod(x + y);
    ModAdd(x, y);
  }

  /** The two counters go on counting bytes: the carry is seen by comparing with the addend. */
  lemma CountsOn(n: nat, k: nat)
    requires k < W32
    ensures (n % W32 + k) % W32 == (n + k) % W32
    ensures (n + k) / W32 == n / W32 + if (n + k) % W32 < k then 1 else 0
  {
  }

  lemma {:induction false} Shl3(h: nat)
    ensures Shl(h, 3) == 8 * h
  {
    assert Shl(h, 1) == 2 * h;
    assert Shl(h, 2) == 2 * Shl(h, 1);
  }

  lemma {:induction false} LowWord(n: nat)
    ensures Bytes(Shl(n % W32, 3) % W64) == Bytes(8 * n)
  {
    hide Bytes, Shl;
    Shl3(n % W32);
    BytesLow(8 * (n % W32));
    BytesLow(8 * n);
  }

  lemma {:induction false} ShrIs(v: nat, k: nat)
    ensures Shr(v, k) == v / Pow2(k)
    decreases k
  {
    if k > 0 {
      ShrIs(v / 2, k - 1);
      HalvedQuotient(v, Pow2(k - 1));
    }
  }

  lemma {:induction false} HalvedQuotient(v: nat, p: nat)
    requires p > 0
    ensures v / 2 / p == v / (2 * p)
  {
    var h := v / 2;
    var q, r := h / p, h % p;
    Doubled(p, q);
    ModUnique(v, 2 * p, q, 2 * r + v % 2);
  }

  lemma {:induction false} HighBits(t: nat)
    requires t < W32
    ensures Shr(t, 29) == 8 * t / W32 < 8
  {
    hide Pow2, Shr;
    ShrIs(t, 29);
    Pow2Word();
    Pow2Word64();
    Pow2Add(29, 3);
    Pow2Three();
  }

  lemma Pow2Three()
    ensures Pow2(3) == 8
  {
  }

  /** (h << 3) | v, where v has three bits. */
  lemma {:induction false} JoinThree(h: nat, v: nat)
    requires v < 8
    ensures Or64(Shl(h, 3) % W64, v) == (8 * h + v) % W64
  {
    hide Shl, Pow2, Map3;
    Pow2Word();
    Pow2Word64();
    Pow2Three();
    ShlAddMod(h, v, 3, 64);
    ShlAddMod(h, 0, 3, 64);
    OrJoin(h % Pow2(61), v, 3, 64);
    Shl3(h);
  }

  lemma {:induction false} HighWord(n: nat)
    ensures Bytes(Or64(Shl(n / W32 % W64, 3) % W64, Shr(n % W32, 29))) == Bytes(8 * n / W32)
  {
    hide Bytes, Shl, Shr, Or64;
    var h, v := n / W32 % W64, Shr(n % W32, 29);
    HighBits(n % W32);
    JoinThree(h, v);
    HighSum(n, v);
    BytesLow((8 * h + v) % W64);
    BytesLow(8 * n / W32);
  }

  lemma Multiple(x: nat, k: nat)
    ensures (W32 * k + x) % W32 == x % W32
  {
  }

  lemma {:induction false} HighSum(n: nat, v: nat)
    requires v == 8 * (n % W32) / W32
    ensures (8 * (n / W32 % W64) + v) % W64 % W32 == 8 * n / W32 % W32
  {
    var q := n / W32;
    var u, w := q / W64, q % W64;
    assert 8 * n / W32 == 8 * q + v;
    ModMod(8 * w + v);
    Multiple(8 * w + v, 8 * W32 * u);
    assert q == W64 * u + w;
    assert W32 * (8 * W32 * u) == 8 * (W64 * u);
  }

  /** The bytes fed at the end are the padding and the length in bits of the RFC. */
  lemma {:induction false} PaddingIs(n: nat, total0: nat, total1: nat)
    requires total0 == n % W32 && total1 == n / W32 % W64
    ensures total0 % 64 == n % 64 && PadLength(n) <= 64
    ensures PADDING[..PadLength(n)]
          + (Bytes(Shl(total0, 3) % W64) + Bytes(Or64(Shl(total1, 3) % W64, Shr(total0, 29)))) == Padding(n)
  {
    hide Bytes, Shl, Shr, Or64;
    LowWord(n);
    HighWord(n);
    assert PADDING[..PadLength(n)] == [0x80] + seq(PadLength(n) - 1, _ => 0);
  }

  method Hash(input: seq<Byte>) returns (output: seq<Byte>)
    requires |input| < 0x8000_0000
    ensures output == Digest(input)
  {
    var context := new Context.Starts();
    context.Update([], input);
    assert [] + input == input;
    output := context.Finish(input);
  }

  function Concat(pieces: seq<seq<Byte>>): seq<Byte> {
    if pieces == [] then [] else Concat(pieces[..|pieces| - 1]) + pieces[|pieces| - 1]
  }

  /** However a message is cut into pieces, the digest is that of the message. */
  method HashPieces(pieces: seq<seq<Byte>>) returns (output: seq<Byte>)
    requires forall p :: p in pieces ==> |p| < 0x8000_0000
    ensures output == Digest(Concat(pieces))
  {
    var context := new Context.Starts();
    for i := 0 to |pieces|
      invariant context.Holds(Concat(pieces[..i])) && fresh(context) && fresh(context.buffer)
    {
      assert pieces[..i + 1][..i] == pieces[..i];
      context.Update(Concat(pieces[..i]), pieces[i]);
    }
    assert pieces[..|pieces|] == pieces;
    output := context.Finish(Concat(pieces));
  }
}
