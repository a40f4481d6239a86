/** The Open Sound Control (OSC 1.0) message encoder of osc.go.

    A message is the address pattern as an OSC-string, the type-tag string
    (a ',' followed by the tags, zero-padded), then one block per argument.
    Every block, and so the whole message, is a multiple of 4 bytes long.
 */
module Osc {

  newtype byte = b: int | 0 <= b < 256
  newtype uint32 = w: int | 0 <= w < 0x1_0000_0000

  type Bytes = seq<byte>

  const Two31: int := 0x8000_0000
  const Two32: int := 0x1_0000_0000

  /** The byte ',' that opens every type-tag string. */
  const Comma: byte := 0x2c

  /** A Go float32, carried as its IEEE-754 bit pattern (math.Float32bits). */
  datatype Float32 = Float32(bits: uint32)

  /** A Go float64. The encoder only ever uses its narrowing to float32, so the
      model keeps just that: the bit pattern of float32(f). */
  datatype Float64 = Float64(narrowed: Float32)

  /** The dynamic type of one variadic argument of Message. `Other` stands for
      every Go type the type switch does not name (a slice, nil, a bool, ...). */
  datatype Arg =
    | Str(s: Bytes)
    | Int(i: int)
    | F64(d: Float64)
    | F32(f: Float32)
    | Other

  function Zeros(n: nat): (z: Bytes)
    ensures |z| == n
    ensures forall k | 0 <= k < n :: z[k] == 0
  {
    seq(n, _ => 0 as byte)
  }

  // ---------------------------------------------------------------------------
  // Padding
  // ---------------------------------------------------------------------------

  /** Number of zero bytes that bring a length l up to a multiple of four.
      Lengths are never negative, so Go's truncating % agrees with Dafny's. */
  function NumZeroBytes(l: nat): (n: nat)
    ensures n < 4
    ensures (l + n) % 4 == 0
    ensures n == 0 <==> l % 4 == 0
  {
    (4 - l % 4) % 4
  }

  /** Appends the fewest zero bytes that make the length a multiple of four. */
  function AddZeroBytes(msg: Bytes): (r: Bytes)
    ensures |r| % 4 == 0
    ensures |msg| <= |r| < |msg| + 4
    ensures r[..|msg|] == msg
    ensures forall k | |msg| <= k < |r| :: r[k] == 0
  {
    var n := NumZeroBytes(|msg|);
    if n > 0 then msg + Zeros(n) else msg
  }

  lemma AddZeroBytesIdempotent(msg: Bytes)
    ensures AddZeroBytes(AddZeroBytes(msg)) == AddZeroBytes(msg)
  {
  }

  /** Once the bytes already emitted are aligned, padding the whole message
      pads only the block appended last. */
  lemma AddZeroBytesAfterAligned(prefix: Bytes, block: Bytes)
    requires |prefix| % 4 == 0
    ensures AddZeroBytes(prefix + block) == prefix + AddZeroBytes(block)
  {
    assert NumZeroBytes(|prefix + block|) == NumZeroBytes(|block|);
  }

  // ---------------------------------------------------------------------------
  // Blocks
  // ---------------------------------------------------------------------------

  /** An OSC-string: the bytes, one NUL, then zeros up to a multiple of four.
      Used for the address pattern and for string arguments. */
  function OscString(s: Bytes): (r: Bytes)
    ensures |r| % 4 == 0
    ensures |s| < |r| <= |s| + 4
    ensures r[..|s|] == s
    ensures forall k | |s| <= k < |r| :: r[k] == 0
  {
    AddZeroBytes(s + [0])
  }

  /** The type-tag block: ',' and the tags, then zeros up to a multiple of
      four. Unlike an OSC-string it gets no NUL when 1 + |tag| is already a
      multiple of four. */
  function TypeTagBlock(tag: Bytes): (r: Bytes)
    ensures |r| % 4 == 0
    ensures 1 + |tag| <= |r| < |tag| + 5
    ensures r[0] == Comma && r[1..1 + |tag|] == tag
    ensures forall k | 1 + |tag| <= k < |r| :: r[k] == 0
    ensures |r| > 1 + |tag| <==> (1 + |tag|) % 4 != 0
  {
    var r := AddZeroBytes([Comma] + tag);
    assert r[..1 + |tag|] == [Comma] + tag;
    assert r[1..1 + |tag|] == r[..1 + |tag|][1..];
    r
  }

  /** The four bytes of w, most significant first. */
  function BigEndian32(w: uint32): (r: Bytes)
    ensures |r| == 4
    ensures Uint32Of(r) == w as int
  {
    var w1 := w as int / 256;
    var w2 := w1 / 256;
    [(w2 / 256) as byte, (w2 % 256) as byte, (w1 % 256) as byte, (w as int % 256) as byte]
  }

  /** The unsigned value of four big-endian bytes. */
  function Uint32Of(b: Bytes): int
    requires |b| == 4
  {
    ((b[0] as int * 256 + b[1] as int) * 256 + b[2] as int) * 256 + b[3] as int
  }

  /** The signed (two's-complement) value of four big-endian bytes. */
  function Int32Of(b: Bytes): int
    requires |b| == 4
  {
    if b[0] >= 128 then Uint32Of(b) - Two32 else Uint32Of(b)
  }

  /** Go's conversion int32(i): keep the low 32 bits, read them as signed. */
  function ToInt32(i: int): (r: int)
    ensures -Two31 <= r < Two31
    ensures (r - i) % Two32 == 0
  {
    var w := i % Two32;
    if w < Two31 then w else w - Two32
  }

  /** encodeInt: the big-endian two's-complement bytes of int32(i). */
  function EncodeInt(i: int): (r: Bytes)
    ensures |r| == 4
    ensures Int32Of(r) == ToInt32(i)
  {
    var w := (i % Two32) as uint32;
    var r := BigEndian32(w);
    assert r[0] >= 128 <==> w as int >= Two31;
    r
  }

  /** encodeFloat32: the big-endian bytes of the IEEE-754 single-precision bits. */
  function EncodeFloat32(f: Float32): (r: Bytes)
    ensures |r| == 4
    ensures Uint32Of(r) == f.bits as int
  {
    BigEndian32(f.bits)
  }

  /** encodeFloat64: narrowed to float32, then encoded as a float32. */
  function EncodeFloat64(d: Float64): (r: Bytes)
    ensures |r| == 4
    ensures Uint32Of(r) == d.narrowed.bits as int
  {
    EncodeFloat32(d.narrowed)
  }

  /** What the type switch of Message appends for one argument, before the
      padding that follows every argument. */
  function Payload(a: Arg): (r: Bytes)
    ensures a.Str? ==> |r| == |a.s| + 1 && r[..|a.s|] == a.s && r[|a.s|] == 0
    ensures a.Int? || a.F32? || a.F64? ==> |r| == 4
    ensures a.Other? ==> r == []
  {
    match a
    case Str(s) => s + [0]
    case Int(i) => EncodeInt(i)
    case F64(d) => EncodeFloat64(d)
    case F32(f) => EncodeFloat32(f)
    case Other => []
  }

  /** The block one argument contributes: its payload, zero-padded. */
  function ArgBlock(a: Arg): (r: Bytes)
    ensures |r| % 4 == 0
  {
    AddZeroBytes(Payload(a))
  }

  /** Per dynamic type, what an argument contributes to the message. */
  lemma ArgBlockByType(a: Arg)
    ensures a.Str? ==> ArgBlock(a) == OscString(a.s)
    ensures a.Int? ==> ArgBlock(a) == EncodeInt(a.i) && Int32Of(ArgBlock(a)) == ToInt32(a.i)
    ensures a.F32? ==> |ArgBlock(a)| == 4 && Uint32Of(ArgBlock(a)) == a.f.bits as int
    ensures a.F64? ==> ArgBlock(a) == EncodeFloat32(a.d.narrowed)
    ensures a.Other? ==> ArgBlock(a) == []
  {
  }

  /** The argument blocks, in argument order. */
  function ArgBlocks(args: seq<Arg>): (r: Bytes)
    ensures |r| % 4 == 0
  {
    if args == [] then []
    else
      var front := ArgBlocks(args[..|args| - 1]);
      var last := ArgBlock(args[|args| - 1]);
      AlignedConcat(front, last);
      front + last
  }

  /** The message Message(addr, typeTag, args...) returns: the address
      block, the type-tag block and the argument blocks, in that order. It is
      a whole number of 4-byte words, and never shorter than its address, a
      NUL, and the ',' of the type tags. */
  function Encode(addr: Bytes, typeTag: Bytes, args: seq<Arg>): (r: Bytes)
    ensures |r| % 4 == 0
    ensures |addr| + 5 <= |r|
  {
    AlignedConcat(OscString(addr), TypeTagBlock(typeTag));
    AlignedConcat(OscString(addr) + TypeTagBlock(typeTag), ArgBlocks(args));
    OscString(addr) + TypeTagBlock(typeTag) + ArgBlocks(args)
  }

  /** A message with one argument: address block, type-tag block, its block. */
  lemma EncodeOneArg(addr: Bytes, typeTag: Bytes, a: Arg)
    ensures Encode(addr, typeTag, [a]) == OscString(addr) + TypeTagBlock(typeTag) + ArgBlock(a)
  {
    assert [a][..0] == [];
    assert ArgBlocks([a]) == [] + ArgBlock(a);
    assert [] + ArgBlock(a) == ArgBlock(a);
  }

  /** Adding an argument appends exactly that argument's block. */
  lemma EncodeAppend(addr: Bytes, typeTag: Bytes, args: seq<Arg>, a: Arg)
    ensures Encode(addr, typeTag, args + [a]) == Encode(addr, typeTag, args) + ArgBlock(a)
  {
    assert (args + [a])[..|args|] == args;
  }

  // ---------------------------------------------------------------------------
  // The encoder
  // ---------------------------------------------------------------------------

  /** Message builds the packet step by step, re-padding after every block. */
  method Message(addr: Bytes, typeTag: Bytes, args: seq<Arg>) returns (msg: Bytes)
    ensures msg == Encode(addr, typeTag, args)
    ensures |msg| % 4 == 0
  {
    msg := addr;
    msg := msg + [0];
    msg := AddZeroBytes(msg);

    msg := msg + [Comma];
    if typeTag != [] {
      msg := msg + typeTag;
    }
    msg := AddZeroBytes(msg);
    Header(addr, typeTag);

    ghost var header := msg;
    for k := 0 to |args|
      invariant msg == header + ArgBlocks(args[..k])
    {
      ghost var before := msg;
      match args[k] {
        case Str(s) =>
          msg := msg + s;
          msg := msg + [0];
          ConcatAssoc(before, s, [0]);
        case Int(i) =>
          var b := EncodeInt(i);
          msg := msg + b;
        case F64(d) =>
          var b := EncodeFloat64(d);
          msg := msg + b;
        case F32(f) =>
          var b := EncodeFloat32(f);
          msg := msg + b;
        case Other =>
          assert msg == before + [];
      }
      msg := AddZeroBytes(msg);
      ArgStep(header, args, k, before);
    }
    assert args[..|args|] == args;
  }

  /** The address and type-tag blocks, as Message pads them in turn. */
  lemma Header(addr: Bytes, typeTag: Bytes)
    ensures AddZeroBytes(AddZeroBytes(addr + [0]) + [Comma] + typeTag)
         == OscString(addr) + TypeTagBlock(typeTag)
  {
    ConcatAssoc(OscString(addr), [Comma], typeTag);
    AddZeroBytesAfterAligned(OscString(addr), [Comma] + typeTag);
  }

  /** One turn of Message's loop: the padded payload extends the blocks so far. */
  lemma ArgStep(header: Bytes, args: seq<Arg>, k: nat, before: Bytes)
    requires k < |args|
    requires |header| % 4 == 0
    requires before == header + ArgBlocks(args[..k])
    ensures AddZeroBytes(before + Payload(args[k])) == header + ArgBlocks(args[..k + 1])
  {
    var done := ArgBlocks(args[..k]);
    var block := AddZeroBytes(Payload(args[k]));
    AlignedConcat(header, done);
    AddZeroBytesAfterAligned(header + done, Payload(args[k]));
    ArgBlocksTake(args, k);
    ConcatAssoc(header, done, block);
  }

  lemma ConcatAssoc(a: Bytes, b: Bytes, c: Bytes)
    ensures a + (b + c) == a + b + c
  {
  }

  lemma ArgBlocksTake(args: seq<Arg>, k: nat)
    requires k < |args|
    ensures ArgBlocks(args[..k + 1]) == ArgBlocks(args[..k]) + AddZeroBytes(Payload(args[k]))
  {
    assert args[..k + 1][..k] == args[..k];
  }

  lemma AlignedConcat(a: Bytes, b: Bytes)
    requires |a| % 4 == 0 && |b| % 4 == 0
    ensures |a + b| % 4 == 0
  {
    assert |a + b| == (|a| / 4 + |b| / 4) * 4;
  }

  // ---------------------------------------------------------------------------
  // Reading back
  // ---------------------------------------------------------------------------

  /** The bytes before the first NUL (all of b when it has none): how an OSC
      reader takes a string off the front of a packet. */
  function UntilNul(b: Bytes): (r: Bytes)
    ensures |r| <= |b| && r == b[..|r|]
    ensures 0 !in r
  {
    if b == [] || b[0] == 0 then [] else [b[0]] + UntilNul(b[1..])
  }

  lemma {:induction false} UntilNulTerminated(s: Bytes, rest: Bytes)
    requires 0 !in s
    ensures UntilNul(s + [0] + rest) == s
  {
    if s != [] {
      assert (s + [0] + rest)[1..] == s[1..] + [0] + rest;
      UntilNulTerminated(s[1..], rest);
    }
  }

  lemma {:induction false} UntilNulUnterminated(s: Bytes)
    requires 0 !in s
    ensures UntilNul(s) == s
  {
    if s != [] {
      UntilNulUnterminated(s[1..]);
    }
  }

  /** An OSC-string gives back the string it was built from, whatever follows. */
  lemma OscStringRoundTrip(s: Bytes, rest: Bytes)
    requires 0 !in s
    ensures UntilNul(OscString(s) + rest) == s
  {
    var r := OscString(s);
    assert r == s + [0] + r[|s| + 1..] by {
      assert r[..|s|] == s;
    }
    assert r + rest == s + [0] + (r[|s| + 1..] + rest);
    UntilNulTerminated(s, r[|s| + 1..] + rest);
  }

  /** A reader recovers the address pattern from any encoded message. */
  lemma EncodeAddressRoundTrip(addr: Bytes, typeTag: Bytes, args: seq<Arg>)
    requires 0 !in addr
    ensures UntilNul(Encode(addr, typeTag, args)) == addr
  {
    OscStringRoundTrip(addr, TypeTagBlock(typeTag) + ArgBlocks(args));
    assert Encode(addr, typeTag, args) == OscString(addr) + (TypeTagBlock(typeTag) + ArgBlocks(args));
  }

  /** The type-tag block holds a NUL terminator exactly when 1 + |tag| is not
      a multiple of four. */
  lemma TypeTagBlockTerminated(tag: Bytes)
    requires 0 !in tag
    ensures 0 in TypeTagBlock(tag) <==> (1 + |tag|) % 4 != 0
  {
    var r := TypeTagBlock(tag);
    if (1 + |tag|) % 4 != 0 {
      assert r[1 + |tag|] == 0;
    } else {
      assert r == r[..1 + |tag|];
      assert r[..1 + |tag|] == [Comma] + tag by {
        assert r[1..1 + |tag|] == tag;
      }
    }
  }

  /** When it is terminated, the type-tag block is the OSC-string of ','
      followed by the tags, as OSC 1.0 asks. */
  lemma TypeTagBlockIsOscString(tag: Bytes)
    requires (1 + |tag|) % 4 != 0
    ensures TypeTagBlock(tag) == OscString([Comma] + tag)
  {
    var t := [Comma] + tag;
    var r, o := AddZeroBytes(t), AddZeroBytes(t + [0]);
    assert |r| == |o|;
    forall k | 0 <= k < |r|
      ensures r[k] == o[k]
    {
      if k < |t| {
        assert r[k] == r[..|t|][k] && o[k] == o[..|t| + 1][k];
      }
    }
  }

  /** The message for address "/info" with no type tags: with no arguments,
      and with one argument of a type the switch skips (the nil slice the
      repository's test passes as a single argument). */
  lemma InfoExample()
    ensures Encode([0x2f, 0x69, 0x6e, 0x66, 0x6f], [], [])
         == [0x2f, 0x69, 0x6e, 0x66, 0x6f, 0, 0, 0, 0x2c, 0, 0, 0]
    ensures Encode([0x2f, 0x69, 0x6e, 0x66, 0x6f], [], [Other])
         == [0x2f, 0x69, 0x6e, 0x66, 0x6f, 0, 0, 0, 0x2c, 0, 0, 0]
  {
    EncodeOneArg([0x2f, 0x69, 0x6e, 0x66, 0x6f], [], Other);
  }

  /** encodeInt of 0, 1 and -1. */
  lemma EncodeIntExamples()
    ensures EncodeInt(0) == [0, 0, 0, 0]
    ensures EncodeInt(1) == [0, 0, 0, 1]
    ensures EncodeInt(-1) == [0xff, 0xff, 0xff, 0xff]
  {
  }

  /** A byte-sized non-negative int is three zero bytes and itself. */
  lemma EncodeIntSmall(v: int)
    requires 0 <= v < 256
    ensures EncodeInt(v) == [0, 0, 0, v as byte]
    ensures ArgBlock(Int(v)) == [0, 0, 0, v as byte]
  {
    assert v % Two32 == v;
  }

  /** Integers that fit in 32 bits survive encodeInt unchanged. */
  lemma EncodeIntRoundTrip(i: int)
    requires -Two31 <= i < Two31
    ensures Int32Of(EncodeInt(i)) == i
  {
  }
}
