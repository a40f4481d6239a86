/** Remote control of a Behringer X32 digital mixer over OSC
    (behringer/x32/x32.go): validated channel commands that encode one OSC
    message each and write it to the mixer's byte sink, and the fader law
    between decibels and the mixer's normalised level.
 */
module X32 {

  import opened Osc

  /** The longest channel name the mixer accepts, in bytes. */
  const MaxNameLength: nat := 12

  /** Icon and colour codes are passed to the mixer unchanged. */
  type Icon = int
  type Color = int

  datatype Error =
    | ChannelOutOfRange(ch: int)
    | NameTooLong(name: Bytes)
    | SinkError

  /** A Go `error` result: nil (Pass) or an error. */
  datatype Outcome = Pass | Fail(error: Error)

  // The ASCII bytes of the fixed parts of the address patterns and type tags.
  const TagInt: Bytes := [0x69]  // "i"
  const TagString: Bytes := [0x73]  // "s"
  const ChPrefix: Bytes := [0x2f, 0x63, 0x68, 0x2f]  // "/ch/"
  const MixOn: Bytes := [0x2f, 0x6d, 0x69, 0x78, 0x2f, 0x6f, 0x6e]  // "/mix/on"
  const ConfigName: Bytes := [0x2f, 0x63, 0x6f, 0x6e, 0x66, 0x69, 0x67, 0x2f, 0x6e, 0x61, 0x6d, 0x65]  // "/config/name"
  const ConfigColor: Bytes := [0x2f, 0x63, 0x6f, 0x6e, 0x66, 0x69, 0x67, 0x2f, 0x63, 0x6f, 0x6c, 0x6f, 0x72]  // "/config/color"
  const ConfigIcon: Bytes := [0x2f, 0x63, 0x6f, 0x6e, 0x66, 0x69, 0x67, 0x2f, 0x69, 0x63, 0x6f, 0x6e]  // "/config/icon"
  const MainMixOn: Bytes := [0x2f, 0x6d, 0x61, 0x69, 0x6e, 0x2f, 0x73, 0x74, 0x2f, 0x6d, 0x69, 0x78, 0x2f, 0x6f, 0x6e]  // "/main/st/mix/on"

  // ---------------------------------------------------------------------------
  // Channels and their address patterns
  // ---------------------------------------------------------------------------

  /** validChannelRange: the X32 has input channels 1 to 32. */
  function ValidChannelRange(ch: int): (ok: bool)
    ensures ok <==> 1 <= ch <= 32
  {
    ch > 0 && ch < 33
  }

  /** The verb %02d applied to a number below 100: two ASCII decimal digits,
      the first one '0' for numbers below 10. */
  function TwoDigits(n: int): (r: Bytes)
    requires 0 <= n < 100
    ensures |r| == 2
    ensures 0x30 <= r[0] <= 0x39 && 0x30 <= r[1] <= 0x39
    ensures (r[0] as int - 0x30) * 10 + (r[1] as int - 0x30) == n
  {
    [(0x30 + n / 10) as byte, (0x30 + n % 10) as byte]
  }

  /** The address pattern "/ch/NN" followed by a parameter path. */
  function ChannelAddress(ch: int, path: Bytes): (r: Bytes)
    requires ValidChannelRange(ch)
    ensures |r| == 6 + |path|
    ensures r[..4] == ChPrefix && r[4..6] == TwoDigits(ch) && r[6..] == path
  {
    ChPrefix + TwoDigits(ch) + path
  }

  /** Distinct channels never share an address pattern. */
  lemma ChannelAddressInjective(c1: int, c2: int, path: Bytes)
    requires ValidChannelRange(c1) && ValidChannelRange(c2)
    requires ChannelAddress(c1, path) == ChannelAddress(c2, path)
    ensures c1 == c2
  {
    var a1, a2 := ChannelAddress(c1, path), ChannelAddress(c2, path);
    assert a1[4..6] == TwoDigits(c1);
    assert a2[4..6] == TwoDigits(c2);
  }

  // ---------------------------------------------------------------------------
  // The bytes each command puts on the wire
  // ---------------------------------------------------------------------------

  /** "/ch/NN/mix/on" with one int argument v (0 mutes, 1 unmutes): the
      13-byte address, three NULs, ",i" and two NULs, then v as an int32. */
  lemma ChannelMixOnBytes(ch: int, v: int)
    requires ValidChannelRange(ch) && 0 <= v < 256
    ensures Encode(ChannelAddress(ch, MixOn), TagInt, [Int(v)])
         == ChPrefix + TwoDigits(ch) + MixOn + [0, 0, 0] + [Comma, 0x69, 0, 0] + [0, 0, 0, v as byte]
  {
    var addr := ChannelAddress(ch, MixOn);
    EncodeOneArg(addr, TagInt, Int(v));
    assert OscString(addr) == addr + [0, 0, 0];
    assert TypeTagBlock(TagInt) == [Comma, 0x69, 0, 0];
    EncodeIntSmall(v);
  }

  /** "/main/st/mix/on" with one int argument v: the 15-byte address, one NUL,
      ",i" and two NULs, then v as an int32. */
  lemma MainMixOnBytes(v: int)
    requires 0 <= v < 256
    ensures Encode(MainMixOn, TagInt, [Int(v)])
         == MainMixOn + [0] + [Comma, 0x69, 0, 0] + [0, 0, 0, v as byte]
  {
    EncodeOneArg(MainMixOn, TagInt, Int(v));
    assert OscString(MainMixOn) == MainMixOn + [0];
    assert TypeTagBlock(TagInt) == [Comma, 0x69, 0, 0];
    EncodeIntSmall(v);
  }

  /** "/ch/NN/config/name" with the name as an OSC-string; a name of at most
      12 bytes makes a message of at most 40 bytes. */
  lemma ChannelNameBytes(ch: int, name: Bytes)
    requires ValidChannelRange(ch)
    ensures Encode(ChannelAddress(ch, ConfigName), TagString, [Str(name)])
         == ChPrefix + TwoDigits(ch) + ConfigName + [0, 0] + [Comma, 0x73, 0, 0] + OscString(name)
    ensures |name| <= MaxNameLength ==> |Encode(ChannelAddress(ch, ConfigName), TagString, [Str(name)])| <= 40
  {
    var addr := ChannelAddress(ch, ConfigName);
    EncodeOneArg(addr, TagString, Str(name));
    assert OscString(addr) == addr + [0, 0];
    assert TypeTagBlock(TagString) == [Comma, 0x73, 0, 0];
    ArgBlockByType(Str(name));
  }

  /** "/ch/NN/config/color" and "/ch/NN/config/icon" with one int code: a
      20-byte address block, ",i" and two NULs, then the code as an int32. */
  lemma ChannelCodeBytes(ch: int, path: Bytes, code: int)
    requires ValidChannelRange(ch) && (path == ConfigColor || path == ConfigIcon)
    ensures var m := Encode(ChannelAddress(ch, path), TagInt, [Int(code)]);
      |m| == 28 && m[..20] == OscString(ChannelAddress(ch, path)) &&
      m[20..24] == [Comma, 0x69, 0, 0] && m[24..] == EncodeInt(code)
  {
    var addr := ChannelAddress(ch, path);
    EncodeOneArg(addr, TagInt, Int(code));
    assert |OscString(addr)| == 20;
    assert TypeTagBlock(TagInt) == [Comma, 0x69, 0, 0];
    ArgBlockByType(Int(code));
  }

  /** The bytes the mixer tests expect from MuteChannel(2) and UnmuteMain(). */
  lemma WireExamples()
    ensures Encode(ChannelAddress(2, MixOn), TagInt, [Int(0)])
         == [0x2f, 0x63, 0x68, 0x2f, 0x30, 0x32, 0x2f, 0x6d, 0x69, 0x78, 0x2f, 0x6f, 0x6e] + [0, 0, 0] + [0x2c, 0x69] + [0, 0] + [0, 0, 0, 0]
    ensures Encode(MainMixOn, TagInt, [Int(1)])
         == [0x2f, 0x6d, 0x61, 0x69, 0x6e, 0x2f, 0x73, 0x74, 0x2f, 0x6d, 0x69, 0x78, 0x2f, 0x6f, 0x6e] + [0] + [0x2c, 0x69] + [0, 0] + [0, 0, 0, 1]
  {
    ChannelMixOnBytes(2, 0);
    MainMixOnBytes(1);
  }

  // ---------------------------------------------------------------------------
  // The mixer
  // ---------------------------------------------------------------------------

  /** A mixer and the byte sink it writes to. `written` is everything the sink
      has accepted so far; a sink built with `sinkFails` rejects every write. */
  class Mixer {
    var written: Bytes
    const sinkFails: bool

    /** NewMixer over an empty sink. */
    constructor (sinkFails: bool)
      ensures written == [] && this.sinkFails == sinkFails
    {
      written := [];
      this.sinkFails := sinkFails;
    }

    /** What the sink keeps of a write of p. */
    function Delivered(p: Bytes): Bytes
    {
      if sinkFails then [] else p
    }

    /** The error the sink reports for a write. */
    function SinkResult(): Outcome
    {
      if sinkFails then Fail(SinkError) else Pass
    }

    /** Write hands p to the sink in one call and reports its result. */
    method Write(p: Bytes) returns (n: nat, err: Outcome)
      modifies this
      ensures written == old(written) + Delivered(p)
      ensures n == |Delivered(p)| && err == SinkResult()
    {
      if sinkFails {
        n, err := 0, Fail(SinkError);
      } else {
        written := written + p;
        n, err := |p|, Pass;
      }
    }

    /** WriteMessage encodes one OSC message and writes it in a single call. */
    method WriteMessage(addr: Bytes, typeTag: Bytes, args: seq<Arg>) returns (err: Outcome)
      modifies this
      ensures written == old(written) + Delivered(Encode(addr, typeTag, args))
      ensures err == SinkResult()
    {
      var msg := Message(addr, typeTag, args);
      var _, e := Write(msg);
      err := e;
    }

    method MuteChannel(ch: int) returns (err: Outcome)
      modifies this
      ensures !ValidChannelRange(ch) ==> err == Fail(ChannelOutOfRange(ch)) && written == old(written)
      ensures ValidChannelRange(ch) ==>
        err == SinkResult() &&
        written == old(written) + Delivered(Encode(ChannelAddress(ch, MixOn), TagInt, [Int(0)]))
    {
      if !ValidChannelRange(ch) {
        return Fail(ChannelOutOfRange(ch));
      }
      var addr := ChannelAddress(ch, MixOn);
      err := WriteMessage(addr, TagInt, [Int(0)]);
    }

    method MuteMain() returns (err: Outcome)
      modifies this
      ensures err == SinkResult()
      ensures written == old(written) + Delivered(Encode(MainMixOn, TagInt, [Int(0)]))
    {
      err := WriteMessage(MainMixOn, TagInt, [Int(0)]);
    }

    method NameChannel(ch: int, name: Bytes) returns (err: Outcome)
      modifies this
      ensures !ValidChannelRange(ch) ==> err == Fail(ChannelOutOfRange(ch)) && written == old(written)
      ensures ValidChannelRange(ch) && |name| > MaxNameLength ==>
        err == Fail(NameTooLong(name)) && written == old(written)
      ensures ValidChannelRange(ch) && |name| <= MaxNameLength ==>
        err == SinkResult() &&
        written == old(written) + Delivered(Encode(ChannelAddress(ch, ConfigName), TagString, [Str(name)]))
    {
      if !ValidChannelRange(ch) {
        return Fail(ChannelOutOfRange(ch));
      }
      if |name| > MaxNameLength {
        return Fail(NameTooLong(name));
      }
      var addr := ChannelAddress(ch, ConfigName);
      err := WriteMessage(addr, TagString, [Str(name)]);
    }

    method SetChannelColor(ch: int, color: Color) returns (err: Outcome)
      modifies this
      ensures !ValidChannelRange(ch) ==> err == Fail(ChannelOutOfRange(ch)) && written == old(written)
      ensures ValidChannelRange(ch) ==>
        err == SinkResult() &&
        written == old(written) + Delivered(Encode(ChannelAddress(ch, ConfigColor), TagInt, [Int(color)]))
    {
      if !ValidChannelRange(ch) {
        return Fail(ChannelOutOfRange(ch));
      }
      var addr := ChannelAddress(ch, ConfigColor);
      err := WriteMessage(addr, TagInt, [Int(color)]);
    }

    method SetChannelIcon(ch: int, icon: Icon) returns (err: Outcome)
      modifies this
      ensures !ValidChannelRange(ch) ==> err == Fail(ChannelOutOfRange(ch)) && written == old(written)
      ensures ValidChannelRange(ch) ==>
        err == SinkResult() &&
        written == old(written) + Delivered(Encode(ChannelAddress(ch, ConfigIcon), TagInt, [Int(icon)]))
    {
      if !ValidChannelRange(ch) {
        return Fail(ChannelOutOfRange(ch));
      }
      var addr := ChannelAddress(ch, ConfigIcon);
      err := WriteMessage(addr, TagInt, [Int(icon)]);
    }

    method UnmuteChannel(ch: int) returns (err: Outcome)
      modifies this
      ensures !ValidChannelRange(ch) ==> err == Fail(ChannelOutOfRange(ch)) && written == old(written)
      ensures ValidChannelRange(ch) ==>
        err == SinkResult() &&
        written == old(written) + Delivered(Encode(ChannelAddress(ch, MixOn), TagInt, [Int(1)]))
    {
      if !ValidChannelRange(ch) {
        return Fail(ChannelOutOfRange(ch));
      }
      var addr := ChannelAddress(ch, MixOn);
      err := WriteMessage(addr, TagInt, [Int(1)]);
    }

    method UnmuteMain() returns (err: Outcome)
      modifies this
      ensures err == SinkResult()
      ensures written == old(written) + Delivered(Encode(MainMixOn, TagInt, [Int(1)]))
    {
      err := WriteMessage(MainMixOn, TagInt, [Int(1)]);
    }
  }

  // ---------------------------------------------------------------------------
  // The fader law
  // ---------------------------------------------------------------------------

  /** dbLevelToDecimal: a level in dB onto the mixer's [0, 1] scale, linear on
      each of the segments [-90, -60), [-60, -30), [-30, -10) and [-10, 10],
      clamped outside [-90, 10]. */
  function DbLevelToDecimal(db: real): (f: real)
    ensures 0.0 <= f <= 1.0
    ensures db < -90.0 ==> f == 0.0
    ensures db > 10.0 ==> f == 1.0
  {
    if db < -90.0 then 0.0
    else if db < -60.0 then (db + 90.0) / 480.0
    else if db < -30.0 then (db + 70.0) / 160.0
    else if db < -10.0 then (db + 50.0) / 80.0
    else if db <= 10.0 then (db + 30.0) / 40.0
    else 1.0
  }

  /** decimalToDBLevel: a level on the [0, 1] scale back to dB, clamped to
      [-90, 10] outside [0, 1]. */
  function DecimalToDbLevel(f: real): (db: real)
    ensures -90.0 <= db <= 10.0
    ensures f > 1.0 ==> db == 10.0
    ensures f < 0.0 ==> db == -90.0
  {
    if f > 1.0 then 10.0
    else if f >= 0.5 then f * 40.0 - 30.0
    else if f >= 0.25 then f * 80.0 - 50.0
    else if f >= 0.0625 then f * 160.0 - 70.0
    else if f >= 0.0 then f * 480.0 - 90.0
    else -90.0
  }

  /** The segment ends of the fader law. */
  lemma DbLevelBreakpoints()
    ensures DbLevelToDecimal(-90.0) == 0.0
    ensures DbLevelToDecimal(-60.0) == 0.0625
    ensures DbLevelToDecimal(-30.0) == 0.25
    ensures DbLevelToDecimal(-10.0) == 0.5
    ensures DbLevelToDecimal(0.0) == 0.75
    ensures DbLevelToDecimal(10.0) == 1.0
    ensures DecimalToDbLevel(0.0) == -90.0
    ensures DecimalToDbLevel(0.0625) == -60.0
    ensures DecimalToDbLevel(0.25) == -30.0
    ensures DecimalToDbLevel(0.5) == -10.0
    ensures DecimalToDbLevel(0.75) == 0.0
    ensures DecimalToDbLevel(1.0) == 10.0
  {
  }

  /** A louder level never gives a lower fader position. */
  lemma DbLevelMonotone(a: real, b: real)
    requires a <= b
    ensures DbLevelToDecimal(a) <= DbLevelToDecimal(b)
  {
  }

  /** A louder fader position never gives a lower level. */
  lemma DecimalMonotone(a: real, b: real)
    requires a <= b
    ensures DecimalToDbLevel(a) <= DecimalToDbLevel(b)
  {
  }

  /** Over exact reals the two laws undo each other on [-90, 10] ... */
  lemma DbLevelRoundTrip(db: real)
    requires -90.0 <= db <= 10.0
    ensures DecimalToDbLevel(DbLevelToDecimal(db)) == db
  {
  }

  /** ... and on [0, 1]. */
  lemma DecimalRoundTrip(f: real)
    requires 0.0 <= f <= 1.0
    ensures DbLevelToDecimal(DecimalToDbLevel(f)) == f
  {
  }
}
