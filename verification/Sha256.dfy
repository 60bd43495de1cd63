/** SHA-256: the block specification of FIPS 180-4, and the streaming class that computes it. */
module Sha256 {
  import opened Base

  // ---- section 4: functions and constants -----------------------------------

  const K: seq<seq<bv32>> := [
    [0x428a2f98, 0x71374491, 0xb5c0fbcf, 0xe9b5dba5, 0x3956c25b, 0x59f111f1, 0x923f82a4, 0xab1c5ed5],
    [0xd807aa98, 0x12835b01, 0x243185be, 0x550c7dc3, 0x72be5d74, 0x80deb1fe, 0x9bdc06a7, 0xc19bf174],
    [0xe49b69c1, 0xefbe4786, 0x0fc19dc6, 0x240ca1cc, 0x2de92c6f, 0x4a7484aa, 0x5cb0a9dc, 0x76f988da],
    [0x983e5152, 0xa831c66d, 0xb00327c8, 0xbf597fc7, 0xc6e00bf3, 0xd5a79147, 0x06ca6351, 0x14292967],
    [0x27b70a85, 0x2e1b2138, 0x4d2c6dfc, 0x53380d13, 0x650a7354, 0x766a0abb, 0x81c2c92e, 0x92722c85],
    [0xa2bfe8a1, 0xa81a664b, 0xc24b8b70, 0xc76c51a3, 0xd192e819, 0xd6990624, 0xf40e3585, 0x106aa070],
    [0x19a4c116, 0x1e376c08, 0x2748774c, 0x34b0bcb5, 0x391c0cb3, 0x4ed8aa4a, 0x5b9cca4f, 0x682e6ff3],
    [0x748f82ee, 0x78a5636f, 0x84c87814, 0x8cc70208, 0x90befffa, 0xa4506ceb, 0xbef9a3f7, 0xc67178f2]]

  function RoundConstant(t: nat): bv32
    requires t < 64
  {
    K[t / 8][t % 8]
  }

  function H0(): Vars {
    Vars(0x6a09e667, 0xbb67ae85, 0x3c6ef372, 0xa54ff53a, 0x510e527f, 0x9b05688c, 0x1f83d9ab, 0x5be0cd19)
  }

  datatype Vars = Vars(a: bv32, b: bv32, c: bv32, d: bv32, e: bv32, f: bv32, g: bv32, h: bv32)

  function Rotr(x: bv32, n: nat): bv32
    requires n <= 32
  {
    (x >> n) | (x << (32 - n))
  }

  /** Addition modulo 2^32. */
  function Plus(x: bv32, y: bv32): bv32 { x + y }

  function Ch(x: bv32, y: bv32, z: bv32): bv32 { (x & y) ^ (!x & z) }

  function Maj(x: bv32, y: bv32, z: bv32): bv32 { (x & y) ^ (x & z) ^ (y & z) }

  function BigSigma0(x: bv32): bv32 { Rotr(x, 2) ^ Rotr(x, 13) ^ Rotr(x, 22) }

  function BigSigma1(x: bv32): bv32 { Rotr(x, 6) ^ Rotr(x, 11) ^ Rotr(x, 25) }

  function SmallSigma0(x: bv32): bv32 { Rotr(x, 7) ^ Rotr(x, 18) ^ (x >> 3) }

  function SmallSigma1(x: bv32): bv32 { Rotr(x, 17) ^ Rotr(x, 19) ^ (x >> 10) }

  // ---- section 5.1.1: padding -------------------------------------------------

  /** The smallest number of zero bytes that leaves room for exactly the length field. */
  function ZeroBytes(length: nat): nat { (55 - length as int) % 64 }

  function BigEndian64(n: u64): (r: seq<byte>)
    ensures |r| == 8
  {
    seq(8, i requires 0 <= i < 8 => (n / Pow256(7 - i) % 256) as byte)
  }

  function Zeros(n: nat): seq<byte> { seq(n, _ => 0 as byte) }

  const TWO_64: nat := 0x1_0000_0000_0000_0000

  /** Unsigned 64-bit wrap-around. */
  function Wrap(n: nat): u64 { n % TWO_64 }

  /** The length field counts bits; the class computes it modulo 2^64, which the standard never reaches. */
  function Pad(message: seq<byte>): seq<byte> {
    message + [0x80 as byte] + Zeros(ZeroBytes(|message|)) + BigEndian64(Wrap(8 * |message|))
  }

  lemma PadLength(message: seq<byte>)
    ensures |Pad(message)| % 64 == 0
    ensures |Pad(message)| / 64 == |message| / 64 + if |message| % 64 < 56 then 1 else 2
  {
  }

  // ---- section 6.2.2: compression ----------------------------------------------

  function Word(block: seq<byte>, t: nat): bv32
    requires |block| == 64 && t < 16
  {
    (block[4 * t] as bv32 << 24) | (block[4 * t + 1] as bv32 << 16)
    | (block[4 * t + 2] as bv32 << 8) | (block[4 * t + 3] as bv32)
  }

  /** The next schedule word W_t, from the words before it. */
  function NextWord(block: seq<byte>, w: seq<bv32>): bv32
    requires |block| == 64 && |w| < 64
  {
    var t := |w|;
    if t < 16 then Word(block, t) else Expand(w[t - 2], w[t - 7], w[t - 15], w[t - 16])
  }

  function Expand(w2: bv32, w7: bv32, w15: bv32, w16: bv32): bv32 {
    Plus(Plus(Plus(SmallSigma1(w2), w7), SmallSigma0(w15)), w16)
  }

  function Schedule(block: seq<byte>, t: nat): (w: seq<bv32>)
    requires |block| == 64 && t <= 64
    ensures |w| == t
  {
    if t == 0 then [] else Schedule(block, t - 1) + [NextWord(block, Schedule(block, t - 1))]
  }

  function Round(v: Vars, k: bv32, w: bv32): Vars {
    var t1 := Plus(Plus(Plus(Plus(v.h, BigSigma1(v.e)), Ch(v.e, v.f, v.g)), k), w);
    var t2 := Plus(BigSigma0(v.a), Maj(v.a, v.b, v.c));
    Vars(Plus(t1, t2), v.a, v.b, v.c, Plus(v.d, t1), v.e, v.f, v.g)
  }

  function Rounds(v: Vars, w: seq<bv32>, t: nat): Vars
    requires |w| == 64 && t <= 64
  {
    if t == 0 then v else Round(Rounds(v, w, t - 1), RoundConstant(t - 1), w[t - 1])
  }

  function AddVars(h: Vars, v: Vars): Vars {
    Vars(Plus(h.a, v.a), Plus(h.b, v.b), Plus(h.c, v.c), Plus(h.d, v.d),
         Plus(h.e, v.e), Plus(h.f, v.f), Plus(h.g, v.g), Plus(h.h, v.h))
  }

  function Compress(h: Vars, block: seq<byte>): Vars
    requires |block| == 64
  {
    AddVars(h, Rounds(h, Schedule(block, 64), 64))
  }

  function FoldBlocks(h: Vars, bytes: seq<byte>): Vars
    requires |bytes| % 64 == 0
    decreases |bytes|
  {
    if bytes == [] then h else FoldBlocks(Compress(h, bytes[..64]), bytes[64..])
  }

  function WordBytes(w: bv32): seq<byte> {
    [((w >> 24) & 0xff) as byte, ((w >> 16) & 0xff) as byte, ((w >> 8) & 0xff) as byte, (w & 0xff) as byte]
  }

  function VarsBytes(v: Vars): seq<byte> {
    WordBytes(v.a) + WordBytes(v.b) + WordBytes(v.c) + WordBytes(v.d)
    + WordBytes(v.e) + WordBytes(v.f) + WordBytes(v.g) + WordBytes(v.h)
  }

  /** SHA-256 of a message: fold the compression over the blocks of the padded message. */
  function Sha256Of(message: seq<byte>): (digest: seq<byte>)
    ensures |digest| == 32
  {
    PadLength(message);
    VarsBytes(FoldBlocks(H0(), Pad(message)))
  }

  lemma {:induction false} FoldAppend(h: Vars, a: seq<byte>, b: seq<byte>)
    requires |a| % 64 == 0 && |b| % 64 == 0
    ensures FoldBlocks(h, a + b) == FoldBlocks(FoldBlocks(h, a), b)
    decreases |a|
  {
    if a == [] {
      assert a + b == b;
    } else {
      assert (a + b)[..64] == a[..64] && (a + b)[64..] == a[64..] + b;
      FoldAppend(Compress(h, a[..64]), a[64..], b);
    }
  }

  lemma FoldSnoc(h: Vars, a: seq<byte>, block: seq<byte>)
    requires |a| % 64 == 0 && |block| == 64
    ensures FoldBlocks(h, a + block) == Compress(FoldBlocks(h, a), block)
  {
    FoldAppend(h, a, block);
    assert block[..64] == block && block[64..] == [];
  }

  lemma CountBits(n: nat, k: nat)
    ensures Wrap(Wrap(8 * n) + 8 * k) == Wrap(8 * (n + k))
  {
    var q := 8 * n / TWO_64;
    assert 8 * (n + k) == 8 * n % TWO_64 + 8 * k + TWO_64 * q;
  }

  lemma FoldOne(h: Vars, block: seq<byte>)
    requires |block| == 64
    ensures FoldBlocks(h, block) == Compress(h, block)
  {
    hide Compress;
    FoldSnoc(h, [], block);
    assert [] + block == block;
  }

  /** The one or two last blocks: the bytes left over, the mark, the zeros and the length field. */
  function LastBlocks(tail: seq<byte>, len: seq<byte>): (r: seq<byte>)
    requires |tail| < 64 && |len| == 8
    ensures |r| % 64 == 0
  {
    if |tail| < 56 then tail + [0x80 as byte] + Zeros(55 - |tail|) + len
    else (tail + [0x80 as byte] + Zeros(63 - |tail|)) + (Zeros(56) + len)
  }

  /** The padded message, split after the bytes that the streaming class has already compressed. */
  lemma PadSplit(message: seq<byte>, n: nat)
    requires n <= |message| && n % 64 == 0 && |message| - n < 64
    ensures var tail := message[n..];
            var len := BigEndian64(Wrap(8 * |message|));
            Pad(message) == message[..n] + LastBlocks(tail, len)
  {
    var tail := message[n..];
    var len := BigEndian64(Wrap(8 * |message|));
    assert message == message[..n] + tail;
    if |tail| < 56 {
      assert ZeroBytes(|message|) == 55 - |tail|;
    } else {
      assert ZeroBytes(|message|) == 119 - |tail|;
      assert Zeros(119 - |tail|) == Zeros(63 - |tail|) + Zeros(56);
    }
  }

  // ---- the streaming class -------------------------------------------------------

  class Hasher {
    var state: Vars
    const buffer: array<byte>
    var bitLength: u64
    var bufferLength: nat
    ghost var message: seq<byte>  // everything handed to Update so far
    ghost var done: nat           // how much of it is compressed into state

    /** The state after some bytes went into the buffer; a full buffer has still to be compressed. */
    ghost predicate Pending()
      reads this, buffer
    {
      && buffer.Length == 64
      && bufferLength <= 64 && done + bufferLength == |message|
      && done % 64 == 0
      && bitLength == Wrap(8 * done)
      && buffer[..bufferLength] == message[done..]
      && state == FoldBlocks(H0(), message[..done])
    }

    ghost predicate Valid()
      reads this, buffer
    {
      Pending() && bufferLength < 64
    }

    constructor ()
      ensures Valid() && message == [] && fresh(buffer)
    {
      state := H0();
      buffer := new byte[64](_ => 0);
      bitLength, bufferLength, message, done := 0, 0, [], 0;
    }

    method ExpandSchedule() returns (schedule: array<bv32>)
      requires buffer.Length == 64
      ensures schedule.Length == 64 && schedule[..] == Schedule(buffer[..], 64)
    {
      hide Word, Expand;
      ghost var block := buffer[..];
      schedule := new bv32[64](_ => 0);
      for i := 0 to 16
        invariant schedule[..i] == Schedule(block, i)
      {
        ghost var w := schedule[..i];
        schedule[i] := Word(buffer[..], i);
        assert schedule[..i + 1] == w + [NextWord(block, w)];
      }
      for i := 16 to 64
        invariant schedule[..i] == Schedule(block, i)
      {
        ghost var w := schedule[..i];
        schedule[i] := Expand(schedule[i - 2], schedule[i - 7], schedule[i - 15], schedule[i - 16]);
        assert schedule[..i + 1] == w + [NextWord(block, w)];
      }
      assert schedule[..64] == schedule[..];
    }

    /** One round, as the rotation of the eight working variables. */
    static method OneRound(v: Vars, k: bv32, w: bv32) returns (r: Vars)
      ensures r == Round(v, k, w)
    {
      hide BigSigma0, BigSigma1, Ch, Maj, Plus;
      var Vars(a, b, c, d, e, f, g, h) := v;
      var temp1 := Plus(Plus(Plus(Plus(h, BigSigma1(e)), Ch(e, f, g)), k), w);
      var temp2 := Plus(BigSigma0(a), Maj(a, b, c));
      h := g;
      g := f;
      f := e;
      e := Plus(d, temp1);
      d := c;
      c := b;
      b := a;
      a := Plus(temp1, temp2);
      r := Vars(a, b, c, d, e, f, g, h);
    }

    method RunRounds(schedule: array<bv32>) returns (v: Vars)
      requires schedule.Length == 64
      ensures v == Rounds(state, schedule[..], 64)
    {
      hide Round, RoundConstant;
      v := state;
      for i := 0 to 64
        invariant v == Rounds(state, schedule[..], i)
      {
        v := OneRound(v, RoundConstant(i), schedule[i]);
      }
    }

    method Transform()
      requires buffer.Length == 64
      modifies this`state
      ensures state == Compress(old(state), buffer[..])
    {
      hide Schedule, Rounds, AddVars;
      var schedule := ExpandSchedule();
      var v := RunRounds(schedule);
      state := AddVars(state, v);
    }

    method Flush()
      requires Pending() && bufferLength == 64
      modifies this
      ensures Valid() && message == old(message)
    {
      hide Compress, FoldBlocks, H0, Wrap;
      ghost var before, block := message[..done], buffer[..];
      assert block == message[done..];
      FoldSnoc(H0(), before, block);
      assert before + block == message[..done + 64];
      CountBits(done, 64);
      Transform();
      assert state == FoldBlocks(H0(), message[..done + 64]);
      bitLength := Wrap(bitLength + 512);
      bufferLength := 0;
      done := done + 64;
      assert buffer[..0] == message[done..];
    }

    method Update(data: seq<byte>)
      requires Valid()
      modifies this, buffer
      ensures Valid() && message == old(message) + data
    {
      hide FoldBlocks, H0, Wrap;
      for i := 0 to |data|
        invariant Valid() && message == old(message) + data[..i]
      {
        ghost var before, tail := message[..done], buffer[..bufferLength];
        buffer[bufferLength] := data[i];
        bufferLength := bufferLength + 1;
        message := message + [data[i]];
        assert buffer[..bufferLength] == tail + [data[i]];
        assert message[..done] == before;
        if bufferLength == 64 { Flush(); }
        assert data[..i + 1] == data[..i] + [data[i]];
      }
      assert data[..|data|] == data;
    }

    method FillZeros(from: nat, to: nat)
      requires buffer.Length == 64 && from <= to <= 64
      modifies buffer
      ensures buffer[..] == old(buffer[..from]) + Zeros(to - from) + old(buffer[to..])
    {
      for i := from to to
        invariant forall k :: 0 <= k < 64 ==> buffer[k] == if from <= k < i then 0 else old(buffer[k])
      {
        buffer[i] := 0;
      }
    }

    method WriteLength(bits: u64)
      requires buffer.Length == 64
      modifies buffer
      ensures buffer[..] == old(buffer[..56]) + BigEndian64(bits)
    {
      for i := 0 to 8
        invariant forall k :: 0 <= k < 56 ==> buffer[k] == old(buffer[k])
        invariant forall k :: 0 <= k < i ==> buffer[56 + k] == BigEndian64(bits)[k]
      {
        buffer[56 + i] := (bits / Pow256(7 - i) % 256) as byte;
      }
    }

    /** Completes the buffer with the padding and compresses the last one or two blocks. */
    method CompressLastBlocks(totalBits: u64)
      requires buffer.Length == 64 && bufferLength < 64
      modifies this, buffer
      ensures state == FoldBlocks(old(state), LastBlocks(old(buffer[..bufferLength]), BigEndian64(totalBits)))
    {
      hide Compress, FoldBlocks, BigEndian64;
      ghost var tail := buffer[..bufferLength];
      var length := bufferLength;
      buffer[length] := 0x80;
      length := length + 1;
      assert buffer[..length] == tail + [0x80 as byte];
      if length > 56 {
        FillZeros(length, 64);
        ghost var first := buffer[..];
        assert first == tail + [0x80 as byte] + Zeros(64 - length);
        Transform();
        FillZeros(0, 56);
        WriteLength(totalBits);
        FoldOne(old(state), first);
        FoldSnoc(old(state), first, buffer[..]);
        assert buffer[..] == Zeros(56) + BigEndian64(totalBits);
      } else {
        FillZeros(length, 56);
        assert buffer[..56] == tail + [0x80 as byte] + Zeros(56 - length);
        WriteLength(totalBits);
        FoldOne(old(state), buffer[..]);
      }
      Transform();
      bufferLength := 0;
    }

    /** Pads, compresses the last blocks and reads the digest off; the object is spent afterwards. */
    method Finish() returns (digest: seq<byte>)
      requires Valid()
      modifies this, buffer
      ensures digest == Sha256Of(old(message))
    {
      hide FoldBlocks, VarsBytes, BigEndian64, H0, Wrap;
      ghost var tail := buffer[..bufferLength];
      PadSplit(message, done);
      var totalBits := Wrap(bitLength + bufferLength * 8);
      CountBits(done, |tail|);
      FoldAppend(H0(), message[..done], LastBlocks(tail, BigEndian64(totalBits)));
      CompressLastBlocks(totalBits);
      digest := VarsBytes(state);
    }
  }

  function Flatten(chunks: seq<seq<byte>>): seq<byte> {
    if chunks == [] then [] else chunks[0] + Flatten(chunks[1..])
  }

  /** However a message is cut into update calls, the class yields the digest of the whole message. */
  method HashChunks(chunks: seq<seq<byte>>) returns (digest: seq<byte>)
    ensures digest == Sha256Of(Flatten(chunks))
  {
    hide Sha256Of, Hasher.Pending, Hasher.Valid;
    var hasher := new Hasher();
    for i := 0 to |chunks|
      invariant hasher.Valid() && fresh(hasher) && fresh(hasher.buffer)
      invariant hasher.message + Flatten(chunks[i..]) == Flatten(chunks)
    {
      ghost var rest := Flatten(chunks[i + 1..]);
      assert chunks[i..][0] == chunks[i] && chunks[i..][1..] == chunks[i + 1..];
      assert hasher.message + (chunks[i] + rest) == (hasher.message + chunks[i]) + rest;
      hasher.Update(chunks[i]);
    }
    assert hasher.message + [] == hasher.message;
    digest := hasher.Finish();
  }
}
