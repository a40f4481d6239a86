# OSC encoder and Behringer X32 commands, in Dafny

This project models the two pieces of logic in the `goaudiovideo/osc` Go
repository:

- **`osc.go`** builds Open Sound Control (OSC 1.0) messages. A message is the
  address pattern as an OSC-string (its bytes, a NUL, zero padding to a
  multiple of four), then the type-tag string (`,` and the tags, zero padded),
  then one block per argument. A string becomes an OSC-string. A Go `int`
  becomes the four big-endian bytes of `int32(i)`. A `float32` becomes its four
  IEEE-754 bytes. A `float64` is narrowed to `float32` first. Module `Osc`
  (`osc.dfy`) models it. `Message` is an imperative method that grows the
  byte sequence block by block, as the Go loop does. It is proved equal to the
  function `Encode`, which is the concatenation of the blocks. The central
  invariant is proved: every block, and the whole message, is a multiple of 4
  bytes long.
- **`behringer/x32/x32.go`** drives a Behringer X32 mixer. Each `Mixer` command
  first checks the channel (1..32) and, for names, the length (at most 12
  bytes). It then renders the channel as two zero-padded decimal digits inside
  a fixed address pattern, encodes one OSC message and writes it to the
  mixer's writer. The file also holds the piecewise-linear fader law between
  decibels and the mixer's [0, 1] level. Module `X32` (`x32.dfy`) models the
  mixer as a class whose field `written` holds every byte the writer has
  accepted. Each command's postcondition says exactly which bytes it appends,
  and that nothing is appended when validation fails. The fader law is
  modelled over exact reals.

Go strings are byte strings, so every string is a `seq<byte>`. The fixed
address parts are written as ASCII byte displays.

Where the code departs from OSC 1.0, the model follows the code:

- The type-tag block gets no NUL terminator when `1 + len(typeTag)` is already
  a multiple of four. `Osc.TypeTagBlockTerminated` proves that the block holds
  a NUL exactly when `(1 + |tag|) % 4 != 0`.
- An argument of a Go type the type switch does not name is skipped. No bytes
  are written for it and no error is raised. It is modelled as the `Other`
  variant, whose block is empty.

## Model

| member | source | states |
|---|---|---|
| `Osc.NumZeroBytes` | osc.go:74-76 | the count is below 4, brings `l` to a multiple of 4, and is 0 exactly when `l` already is one |
| `Osc.AddZeroBytes` | osc.go:63-70 | keeps `msg` as a prefix, appends only zero bytes, fewer than 4, and the result is a multiple of 4 |
| `Osc.AddZeroBytesIdempotent` | osc.go:63-70 | padding twice is the same as padding once |
| `Osc.AddZeroBytesAfterAligned` | osc.go:56 | after an aligned prefix, re-padding the whole message pads only the block appended last |
| `Osc.OscString` | osc.go:19-21 | the address block: the bytes, then zeros (at least one NUL, at most four bytes added) up to a multiple of 4 |
| `Osc.OscStringRoundTrip` | osc.go:19-21 | reading up to the first NUL gives back a NUL-free string from its OSC-string, whatever follows |
| `Osc.TypeTagBlock` | osc.go:25-29 | `,` then the tags then zero padding to a multiple of 4; bytes are added after the tags exactly when `(1 + |tag|) % 4 != 0` |
| `Osc.TypeTagBlockTerminated` | osc.go:25-29 | for NUL-free tags, the block contains a NUL exactly when `1 + |tag|` is not a multiple of 4 |
| `Osc.TypeTagBlockIsOscString` | osc.go:25-29 | when `1 + |tag|` is not a multiple of 4, the block is the OSC-string of `,` and the tags |
| `Osc.ToInt32` | osc.go:98 | Go's `int32(i)` lies in the int32 range and differs from `i` by a multiple of 2^32 |
| `Osc.BigEndian32` | osc.go:98 | four bytes whose big-endian unsigned value is `w` |
| `Osc.EncodeInt` | osc.go:96-102 | four bytes whose big-endian two's-complement value is `int32(i)` |
| `Osc.EncodeIntRoundTrip` | osc.go:96-102 | an `int` in the int32 range is read back unchanged |
| `Osc.EncodeIntExamples` | osc.go:96-102 | 0 gives `00 00 00 00`, 1 gives `00 00 00 01`, -1 gives `ff ff ff ff` |
| `Osc.EncodeIntSmall` | osc.go:37-42 | an int in 0..255 is three zero bytes and itself, and needs no padding |
| `Osc.EncodeFloat32` | osc.go:80-86 | four bytes whose big-endian value is the float32's IEEE-754 bit pattern |
| `Osc.EncodeFloat64` | osc.go:90-92 | four bytes whose big-endian value is the bit pattern of the float64 narrowed to float32 |
| `Osc.Payload` | osc.go:34-54 | what the type switch appends before padding: a string's bytes and one NUL, exactly 4 bytes for an int, a float32 or a float64, nothing for any other type |
| `Osc.ArgBlock` | osc.go:33-56 | every argument block is a multiple of 4 bytes |
| `Osc.ArgBlockByType` | osc.go:33-56 | a string gives its OSC-string, an int exactly its 4 encodeInt bytes, float32 and float64 exactly 4 bytes, any other type nothing |
| `Osc.ArgBlocks` | osc.go:32-57 | the argument blocks in argument order, a multiple of 4 bytes in total |
| `Osc.Encode` | osc.go:17-59 | the message is address block ++ type-tag block ++ argument blocks; it is a multiple of 4 bytes and at least `|addr| + 5` long |
| `Osc.EncodeOneArg` | osc.go:17-59 | a one-argument message is address block ++ type-tag block ++ that argument's block |
| `Osc.EncodeAppend` | osc.go:32-57 | one more argument appends exactly that argument's block |
| `Osc.Message` | osc.go:17-60 | the imperative encoder returns exactly address block ++ type-tag block ++ argument blocks, a multiple of 4 bytes; being equal to a function of its inputs, the same inputs always give the same bytes |
| `Osc.EncodeAddressRoundTrip` | osc.go:19-21 | a reader that stops at the first NUL recovers a NUL-free address from any encoded message |
| `Osc.InfoExample` | osc_test.go:17-22 | `/info` with no tags is `2f 69 6e 66 6f 00 00 00 2c 00 00 00`, both with no arguments and with the test's nil slice passed as one argument of a type the switch skips |
| `X32.ValidChannelRange` | behringer/x32/x32.go:132-134 | true exactly for channels 1 to 32 |
| `X32.TwoDigits` | behringer/x32/x32.go:78 | `%02d` gives two ASCII decimal digits that read back as the number |
| `X32.ChannelAddress` | behringer/x32/x32.go:78 | `/ch/` then the two digits of `%02d` then the parameter path, `6 + |path|` bytes |
| `X32.ChannelAddressInjective` | behringer/x32/x32.go:78 | two valid channels with the same address pattern are the same channel |
| `X32.ChannelMixOnBytes` | behringer/x32/x32.go:78-79 | `/ch/NN/mix/on` with int `v` is the address, three NULs, `,i` and two NULs, then `00 00 00 v` |
| `X32.MainMixOnBytes` | behringer/x32/x32.go:83-85 | `/main/st/mix/on` with int `v` is the address, one NUL, `,i` and two NULs, then `00 00 00 v` |
| `X32.ChannelNameBytes` | behringer/x32/x32.go:96-97 | the name message is the address, two NULs, `,s` and two NULs, then the name's OSC-string, at most 40 bytes for a name of at most 12 bytes |
| `X32.ChannelCodeBytes` | behringer/x32/x32.go:105-106 | the colour or icon message is 28 bytes: the 20-byte OSC-string of its address, `,i` and two NULs, then the code's encodeInt bytes |
| `X32.WireExamples` | behringer/x32/x32_test.go:22 | channel 2 muted gives `/ch/02/mix/on\0\0\0,i\0\0\0\0\0\0` and the main unmuted gives `/main/st/mix/on\0,i\0\0\0\0\0\1` |
| `X32.Mixer.constructor` | behringer/x32/x32.go:35-39 | a new mixer over a writer that holds nothing yet |
| `X32.Mixer.Write` | behringer/x32/x32.go:42-44 | the bytes go to the writer in one call; the count and the writer's error are returned |
| `X32.Mixer.WriteMessage` | behringer/x32/x32.go:47-54 | appends exactly one encoded message to the writer and returns the writer's error |
| `X32.Mixer.MuteChannel` | behringer/x32/x32.go:74-80 | an invalid channel gives an out-of-range error and writes nothing; otherwise appends `Message("/ch/NN/mix/on", "i", 0)` |
| `X32.Mixer.MuteMain` | behringer/x32/x32.go:83-85 | with no validation, appends `Message("/main/st/mix/on", "i", 0)` |
| `X32.Mixer.NameChannel` | behringer/x32/x32.go:89-98 | checks the channel first, then rejects names over 12 bytes, writing nothing in either case; otherwise appends `Message("/ch/NN/config/name", "s", name)` |
| `X32.Mixer.SetChannelColor` | behringer/x32/x32.go:101-107 | an invalid channel writes nothing; otherwise appends `Message("/ch/NN/config/color", "i", color)` |
| `X32.Mixer.SetChannelIcon` | behringer/x32/x32.go:110-116 | an invalid channel writes nothing; otherwise appends `Message("/ch/NN/config/icon", "i", icon)` |
| `X32.Mixer.UnmuteChannel` | behringer/x32/x32.go:119-125 | an invalid channel gives an out-of-range error and writes nothing; otherwise appends `Message("/ch/NN/mix/on", "i", 1)` |
| `X32.Mixer.UnmuteMain` | behringer/x32/x32.go:128-130 | with no validation, appends `Message("/main/st/mix/on", "i", 1)` |
| `X32.DbLevelToDecimal` | behringer/x32/x32.go:138-153 | the level is in [0, 1], 0 below -90 dB and 1 above +10 dB |
| `X32.DecimalToDbLevel` | behringer/x32/x32.go:157-172 | the dB value is in [-90, 10], 10 above 1.0 and -90 below 0 |
| `X32.DbLevelBreakpoints` | behringer/x32/x32.go:136-172 | -90, -60, -30, -10, 0 and 10 dB map to 0, 0.0625, 0.25, 0.5, 0.75 and 1, and back |
| `X32.DbLevelMonotone` | behringer/x32/x32.go:138-153 | a louder level never gives a lower fader position |
| `X32.DecimalMonotone` | behringer/x32/x32.go:157-172 | a higher fader position never gives a lower level |
| `X32.DbLevelRoundTrip` | behringer/x32/x32.go:136-172 | over exact reals, converting dB to a level and back is the identity on [-90, 10] |
| `X32.DecimalRoundTrip` | behringer/x32/x32.go:136-172 | over exact reals, converting a level to dB and back is the identity on [0, 1] |

## Left out

- `Osc.Message`: the error returns of `encodeInt`, `encodeFloat32` and `encodeFloat64` are not modelled. `binary.Write` of a fixed-size value into a `bytes.Buffer` cannot fail, so `Message` never returns an error. The "nil and the error, never a partial message" path is therefore not represented.
- `X32.Mixer.WriteMessage`: for the same reason, its early return on an encoding error is not modelled.
- `Osc.EncodeFloat64`: the float64 to float32 rounding is not modelled. A `Float64` value carries only the bit pattern of its narrowing. The IEEE-754 layout of a float32 is taken as given: a `Float32` is its bit pattern.
- Go's dynamic `interface{}` arguments are a closed datatype. `Other` stands for every type the type switch does not name.
- The writer is an append-only byte sequence. A failing writer is modelled as one that accepts nothing and reports an error. A Go `io.Writer` may also fail after a partial write; that case is not modelled.
- `X32.Mixer.Write`: whether the writer fails is fixed when the mixer is built (`sinkFails`), so a modelled writer fails on every call or on none; a writer that fails on some calls only is not modelled.
- `Mixer.Info` is not modelled. It reads raw bytes back from the socket and decodes nothing.
- `NewMixer` and `Mixer.Write` are thin pass-throughs to the `io.ReadWriter`; the model keeps only their effect on the written bytes.
- Icon and colour codes are plain integers passed through unchanged. The static name tables in `behringer/x32/constants.go` are not part of this model.
- The text of the `fmt.Errorf` messages is not modelled. An error variant carries the offending channel or name.
- `X32.DbLevelToDecimal`, `X32.DecimalToDbLevel`: computed over exact reals, not float64. Rounding at segment boundaries is not modelled.
- Go's `int` is 64-bit. Channel numbers and integer arguments are modelled as unbounded integers, and `EncodeInt` truncates any of them modulo 2^32.
