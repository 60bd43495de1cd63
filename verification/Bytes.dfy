/**
 * The byte writer and the bounded byte reader.
 * PutX(x, rest) is the encoding of x in front of rest; ReadX takes it off again and returns what follows.
 */
module Bytes {
  import opened Base

  type Parse<T> = Option<(T, seq<byte>)>

  function LittleEndian(n: nat, width: nat): (r: seq<byte>)
    ensures |r| == width
  {
    if width == 0 then [] else [(n % 256) as byte] + LittleEndian(n / 256, width - 1)
  }

  function FromLittleEndian(s: seq<byte>): nat {
    if s == [] then 0 else s[0] as nat + 256 * FromLittleEndian(s[1..])
  }

  function PutUint(n: nat, width: nat, rest: seq<byte>): seq<byte> { LittleEndian(n, width) + rest }

  function ReadUint(s: seq<byte>, width: nat): Parse<nat> {
    if |s| < width then None else Some((FromLittleEndian(s[..width]), s[width..]))
  }

  lemma {:induction false} LittleEndianRoundTrip(n: nat, width: nat)
    requires n < Pow256(width)
    ensures FromLittleEndian(LittleEndian(n, width)) == n
  {
    if width > 0 {
      LittleEndianRoundTrip(n / 256, width - 1);
      assert LittleEndian(n, width)[1..] == LittleEndian(n / 256, width - 1);
    }
  }

  lemma {:induction false} FromLittleEndianRoundTrip(s: seq<byte>)
    ensures FromLittleEndian(s) < Pow256(|s|)
    ensures LittleEndian(FromLittleEndian(s), |s|) == s
  {
    if s != [] {
      FromLittleEndianRoundTrip(s[1..]);
      assert s == [s[0]] + s[1..];
      var n := FromLittleEndian(s);
      assert n % 256 == s[0] as nat && n / 256 == FromLittleEndian(s[1..]);
    }
  }

  lemma Widths()
    ensures Pow256(1) == 0x100 && Pow256(2) == 0x1_0000 && Pow256(4) == U32_MAX + 1 && Pow256(8) == U64_MAX + 1
  {
    assert Pow256(4) == 256 * (256 * Pow256(2));
    assert Pow256(8) == 256 * (256 * (256 * (256 * Pow256(4))));
  }

  /** Reading takes off exactly what a write of an in-range value put on. */
  lemma ReadPutUint(n: nat, width: nat, rest: seq<byte>)
    requires n < Pow256(width)
    ensures ReadUint(PutUint(n, width, rest), width) == Some((n, rest))
  {
    LittleEndianRoundTrip(n, width);
    var s := PutUint(n, width, rest);
    assert s[..width] == LittleEndian(n, width) && s[width..] == rest;
  }

  /** Whatever is read is what a write of the value that came out would have put there. */
  lemma PutReadUint(s: seq<byte>, width: nat)
    ensures var r := ReadUint(s, width);
            r.Some? ==> r.value.0 < Pow256(width) && s == PutUint(r.value.0, width, r.value.1)
  {
    if |s| >= width {
      FromLittleEndianRoundTrip(s[..width]);
      assert s == s[..width] + s[width..];
    }
  }

  // ---- booleans --------------------------------------------------------------

  function PutBool(b: bool, rest: seq<byte>): seq<byte> { PutUint(if b then 1 else 0, 1, rest) }

  function ReadBool(s: seq<byte>): Parse<bool> {
    var (n, rest) :- ReadUint(s, 1);
    if n > 1 then None else Some((n == 1, rest))
  }

  lemma ReadPutBool(b: bool, rest: seq<byte>)
    ensures ReadBool(PutBool(b, rest)) == Some((b, rest))
  {
    Widths();
    ReadPutUint(if b then 1 else 0, 1, rest);
  }

  lemma PutReadBool(s: seq<byte>)
    ensures var r := ReadBool(s); r.Some? ==> s == PutBool(r.value.0, r.value.1)
  {
    PutReadUint(s, 1);
  }

  // ---- length-prefixed text ----------------------------------------------------

  /** The text of the implementation is made of bytes. */
  predicate IsBytes(t: string) { forall i :: 0 <= i < |t| ==> t[i] as int < 256 }

  function ToBytes(t: string): seq<byte> { seq(|t|, i requires 0 <= i < |t| => (t[i] as int % 256) as byte) }

  function ToChars(s: seq<byte>): string { seq(|s|, i requires 0 <= i < |s| => s[i] as int as char) }

  function PutText(t: string, rest: seq<byte>): seq<byte> {
    PutUint(|t| % (U32_MAX + 1), 4, ToBytes(t) + rest)
  }

  function ReadText(s: seq<byte>, bound: u32): Parse<string> {
    var (n, rest) :- ReadUint(s, 4);
    if n > bound || |rest| < n then None else Some((ToChars(rest[..n]), rest[n..]))
  }

  /** What a std::string can hold and its 32-bit length prefix can say. */
  predicate PlainText(t: string) { IsBytes(t) && |t| <= U32_MAX }

  lemma ReadPutText(t: string, bound: u32, rest: seq<byte>)
    requires PlainText(t)
    ensures ReadText(PutText(t, rest), bound) == if |t| <= bound then Some((t, rest)) else None
  {
    hide PutUint, ReadUint, LittleEndian, FromLittleEndian, Pow256;
    Widths();
    ReadPutUint(|t|, 4, ToBytes(t) + rest);
    assert (ToBytes(t) + rest)[..|t|] == ToBytes(t) && (ToBytes(t) + rest)[|t|..] == rest;
    assert ToChars(ToBytes(t)) == t;
  }

  lemma PutReadText(s: seq<byte>, bound: u32)
    ensures var r := ReadText(s, bound);
            r.Some? ==> |r.value.0| <= bound && IsBytes(r.value.0) && s == PutText(r.value.0, r.value.1)
  {
    hide PutUint, ReadUint, ToBytes, ToChars, IsBytes;
    PutReadUint(s, 4);
    var r := ReadText(s, bound);
    if r.Some? {
      var (n, rest) := ReadUint(s, 4).value;
      CharsToBytes(rest[..n]);
      assert rest == rest[..n] + rest[n..];
    }
  }

  lemma CharsToBytes(s: seq<byte>)
    ensures |ToChars(s)| == |s| && IsBytes(ToChars(s)) && ToBytes(ToChars(s)) == s
  {
  }

  // ---- lists ---------------------------------------------------------------------

  function PutList<T>(xs: seq<T>, put: (T, seq<byte>) -> seq<byte>, rest: seq<byte>): seq<byte> {
    if xs == [] then rest else put(xs[0], PutList(xs[1..], put, rest))
  }

  function ReadList<T>(s: seq<byte>, n: nat, read: seq<byte> -> Parse<T>): Parse<seq<T>>
    decreases n
  {
    if n == 0 then Some(([], s))
    else
      var (x, s1) :- read(s);
      var (xs, s2) :- ReadList(s1, n - 1, read);
      Some(([x] + xs, s2))
  }

  /** What comes of reading back a value that may be refused, in front of the rest. */
  function Placed<T>(x: Option<T>, rest: seq<byte>): Parse<T> {
    match x case None => None case Some(y) => Some((y, rest))
  }

  function When<T>(ok: bool, x: T): Option<T> { if ok then Some(x) else None }

  /** What reading back does to every element; one refusal refuses the list. */
  function Collect<T>(xs: seq<T>, out: T -> Option<T>): Option<seq<T>> {
    if xs == [] then Some([])
    else
      var y :- out(xs[0]);
      var ys :- Collect(xs[1..], out);
      Some([y] + ys)
  }

  lemma {:induction false} CollectMeaning<T>(xs: seq<T>, out: T -> Option<T>)
    ensures Collect(xs, out).Some? <==> forall x :: x in xs ==> out(x).Some?
    ensures Collect(xs, out).Some? ==>
              && |Collect(xs, out).value| == |xs|
              && forall i :: 0 <= i < |xs| ==> out(xs[i]) == Some(Collect(xs, out).value[i])
  {
    if xs != [] {
      CollectMeaning(xs[1..], out);
      assert forall x :: x in xs <==> x == xs[0] || x in xs[1..];
    }
  }

  lemma {:induction false} ReadPutList<T(!new)>(
      xs: seq<T>, put: (T, seq<byte>) -> seq<byte>, read: seq<byte> -> Parse<T>, out: T -> Option<T>, rest: seq<byte>)
    requires forall x, r :: x in xs ==> read(put(x, r)) == Placed(out(x), r)
    ensures ReadList(PutList(xs, put, rest), |xs|, read) == Placed(Collect(xs, out), rest)
  {
    if xs != [] {
      ReadPutList(xs[1..], put, read, out, rest);
      assert read(put(xs[0], PutList(xs[1..], put, rest))) == Placed(out(xs[0]), PutList(xs[1..], put, rest));
    }
  }

  /** Elements that come back as they are. */
  lemma ReadPutSame<T(!new)>(
      xs: seq<T>, put: (T, seq<byte>) -> seq<byte>, read: seq<byte> -> Parse<T>, ok: T -> bool, rest: seq<byte>)
    requires forall x, r :: x in xs ==> read(put(x, r)) == Placed(When(ok(x), x), r)
    ensures ReadList(PutList(xs, put, rest), |xs|, read) == Placed(When(forall x :: x in xs ==> ok(x), xs), rest)
  {
    var out := (x: T) => When(ok(x), x);
    ReadPutList(xs, put, read, out, rest);
    CollectMeaning(xs, out);
    if Collect(xs, out).Some? { assert Collect(xs, out).value == xs; }
  }

  lemma {:induction false} PutReadList<T(!new)>(
      s: seq<byte>, n: nat, put: (T, seq<byte>) -> seq<byte>, read: seq<byte> -> Parse<T>, ok: T -> bool)
    requires forall t :: read(t).Some? ==> ok(read(t).value.0) && t == put(read(t).value.0, read(t).value.1)
    ensures var r := ReadList(s, n, read);
            r.Some? ==>
              && |r.value.0| == n && (forall x :: x in r.value.0 ==> ok(x))
              && s == PutList(r.value.0, put, r.value.1)
    decreases n
  {
    if n > 0 && ReadList(s, n, read).Some? {
      var (x, s1) := read(s).value;
      PutReadList(s1, n - 1, put, read, ok);
      var (xs, s2) := ReadList(s1, n - 1, read).value;
      assert ([x] + xs)[1..] == xs;
    }
  }

  /** The loop form of ReadList: what was taken so far, in front of what is still to come. */
  function Prepended<T>(xs: seq<T>, p: Parse<seq<T>>): Parse<seq<T>> {
    match p case None => None case Some((ys, rest)) => Some((xs + ys, rest))
  }

  lemma PrependedNil<T>(p: Parse<seq<T>>)
    ensures Prepended([], p) == p
  {
    if p.Some? { assert [] + p.value.0 == p.value.0; }
  }

  lemma PrependedStep<T>(xs: seq<T>, x: T, p: Parse<seq<T>>)
    ensures p.Some? ==> Prepended(xs, Some(([x] + p.value.0, p.value.1))) == Prepended(xs + [x], p)
  {
    if p.Some? { assert xs + ([x] + p.value.0) == (xs + [x]) + p.value.0; }
  }

  // ---- the classes -----------------------------------------------------------------

  class ByteWriter {
    var data: seq<byte>

    constructor ()
      ensures data == []
    {
      data := [];
    }

    /** u8, u16, u32 and u64: the low bytes of the value, least significant first. */
    method Uint(n: nat, width: nat)
      modifies this
      ensures forall rest {:trigger PutUint(n, width, rest)} :: data + rest == old(data) + PutUint(n, width, rest)
    {
      var v := n;
      for i := 0 to width
        invariant data + LittleEndian(v, width - i) == old(data) + LittleEndian(n, width)
      {
        assert data + ([(v % 256) as byte] + LittleEndian(v / 256, width - i - 1))
            == (data + [(v % 256) as byte]) + LittleEndian(v / 256, width - i - 1);
        data := data + [(v % 256) as byte];
        v := v / 256;
      }
      assert data + [] == data;
      forall rest ensures data + rest == old(data) + PutUint(n, width, rest) {
        assert (old(data) + LittleEndian(n, width)) + rest == old(data) + (LittleEndian(n, width) + rest);
      }
    }

    method Bool(b: bool)
      modifies this
      ensures forall rest {:trigger PutBool(b, rest)} :: data + rest == old(data) + PutBool(b, rest)
    {
      Uint(if b then 1 else 0, 1);
    }

    /** length_prefixed: a 32-bit length, then the characters. */
    method Text(t: string)
      modifies this
      ensures forall rest {:trigger PutText(t, rest)} :: data + rest == old(data) + PutText(t, rest)
    {
      hide PutUint;
      Uint(|t| % (U32_MAX + 1), 4);
      ghost var afterLength := data;
      for i := 0 to |t|
        invariant data == afterLength + ToBytes(t)[..i]
      {
        data := data + [(t[i] as int % 256) as byte];
        assert ToBytes(t)[..i + 1] == ToBytes(t)[..i] + [(t[i] as int % 256) as byte];
      }
      assert ToBytes(t)[..|t|] == ToBytes(t);
      forall rest ensures data + rest == old(data) + PutText(t, rest) {
        assert (afterLength + ToBytes(t)) + rest == afterLength + (ToBytes(t) + rest);
      }
    }
  }

  /** A method that reads agrees with its parsing function: same success, same value, same bytes left over. */
  ghost predicate Agrees<T>(spec: Parse<T>, result: Option<T>, rest: seq<byte>) {
    match spec
    case None => result == None
    case Some((value, left)) => result == Some(value) && rest == left
  }

  class ByteReader {
    const data: seq<byte>
    var offset: nat

    ghost predicate Valid()
      reads this
    {
      offset <= |data|
    }

    ghost function Rest(): seq<byte>
      reads this
      requires Valid()
    {
      data[offset..]
    }

    constructor (data: seq<byte>)
      ensures Valid() && Rest() == data && this.data == data
    {
      this.data := data;
      offset := 0;
    }

    method Uint(width: nat) returns (r: Option<nat>)
      requires Valid()
      modifies this
      ensures Valid() && Agrees(ReadUint(old(Rest()), width), r, Rest())
    {
      var value: nat, scale: nat := 0, 1;
      ghost var start := offset;
      for i := 0 to width
        invariant Valid() && offset == start + i
        invariant start + width <= |data| ==>
                    value + scale * FromLittleEndian(data[start + i..start + width]) ==
                      FromLittleEndian(data[start..start + width])
      {
        if offset >= |data| { return None; }
        if start + width <= |data| {
          UnfoldScaled(data[start + i..start + width], value, scale);
          assert data[start + i..start + width][1..] == data[start + i + 1..start + width];
        }
        value := value + scale * data[offset] as nat;
        scale := scale * 256;
        offset := offset + 1;
      }
      assert data[start + width..start + width] == [];
      assert data[start..][..width] == data[start..start + width] && data[start..][width..] == data[start + width..];
      return Some(value);
    }

    static lemma UnfoldScaled(s: seq<byte>, value: nat, scale: nat)
      requires s != []
      ensures value + scale * FromLittleEndian(s)
           == (value + scale * s[0] as nat) + (scale * 256) * FromLittleEndian(s[1..])
    {
      Distribute(scale, s[0] as nat, FromLittleEndian(s[1..]));
    }

    static lemma Distribute(x: nat, y: nat, z: nat)
      ensures x * (y + 256 * z) == x * y + (x * 256) * z
    {
    }

    method Bool() returns (r: Option<bool>)
      requires Valid()
      modifies this
      ensures Valid() && Agrees(ReadBool(old(Rest())), r, Rest())
    {
      var n := Uint(1);
      if n == None || n.value > 1 { return None; }
      return Some(n.value == 1);
    }

    /** length_prefixed: the length is checked against the bound before anything is taken. */
    method Text(bound: u32) returns (r: Option<string>)
      requires Valid()
      modifies this
      ensures Valid() && Agrees(ReadText(old(Rest()), bound), r, Rest())
    {
      var n := Uint(4);
      if n == None || n.value > bound || n.value > |data| - offset { return None; }
      ghost var rest := Rest();
      r := Some(ToChars(data[offset..offset + n.value]));
      assert data[offset..offset + n.value] == rest[..n.value] && data[offset + n.value..] == rest[n.value..];
      offset := offset + n.value;
    }
  }
}
