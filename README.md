# DMX dimmer core in Dafny

This project models the three pieces of sequential logic behind the DMX dimmer
application:

- **The fade engine** (`effect_engine.dfy`, module `EffectEngine`). It models
  `dmx_effect_librarys/effect_engine/effect_engine/main.c`: a table of 512 fade
  slots that is updated in place (class `FadeEngine` over an `array<FadeState>`).
  Each operation is specified by a function on the table as a value
  (`InitTable`, `Cancelled`, `AllCancelled`, `Started`, `ActiveFlag`), and one
  pass of `effects_apply` is specified slot by slot (`Advance`) with its counter
  (`ChangedCount`). The clock reading is the parameter `now`. The interpolation
  uses exact integer arithmetic, rounding half up:
  `v = (2*((dur-e)*start + e*end) + dur) / (2*dur)`.
- **The ArtDmx sender** (`dmx_sender.dfy`, module `DmxSender`). It models
  `dmx_sender/dmx_sender/main.c`: the 18-byte ArtDmx header of Art-Net 4
  (OpCode 0x5000, protocol version 14, 15-bit port-address, even big-endian
  Length), one pass of the sending loop (sequence bump, header, 512-byte payload
  copy), the front/back buffer update, and the start/stop lifecycle. These are
  all methods of class `Sender`, which holds the library's globals. The results
  of Winsock, `inet_addr` and `CreateThread` come in as a `Platform` value.
- **The ArtDmx receiver** (`test_node.dfy`, module `TestNode`). It models
  `testNode/main.py`: `parse_artdmx` (with its inverse `Unparse`), the
  classification and filter step of the receive loop, and `hexdump`.
- **The round trip** (`round_trip.dfy`, module `RoundTrip`). Every frame the
  sender assembles is recognised by the receiver and decodes to the sequence
  number, port-address and data it was built from.

`common.dfy` (module `Common`) holds the byte type, `Option`/`Result`, the
"Art-Net\0" ID and a few arithmetic lemmas.

Notes on the model:

- **Non-positive durations.** `startFade` accepts every duration and turns
  one ≤ 0 into 1 ms (`main.c:46`, `main.c:52`); `EffectiveDuration` states
  this.
- **Frame rate.** `start_sender` accepts every frame rate and replaces one
  outside 1..44 with 40 (`main.c:165`); `FpsSetting` states this.
- **SubUni names.** The receiver calls the high nibble of the SubUni byte
  `universe_hi` and the low one `subuni_lo`. Art-Net 4 puts the Universe in the
  low nibble and the Sub-Net in the high nibble, and so does the sender. The
  model keeps the receiver's names and proves the values it computes.
- **Shifts and masks.** C's `>>` on a negative `int` is taken to be an
  arithmetic shift, as with MSVC. Then `u & 0xF`, `(u >> 4) & 0xF` and
  `(u >> 8) & 0x7F` equal Dafny's `u % 16`, `(u / 16) % 16` and
  `(u / 256) % 128` for every `int`. So the port-address carried on the wire is
  `u % 0x8000`, which is `u & 0x7FFF` in two's complement.

## Model

| member | source | states |
|---|---|---|
| `EffectEngine.ClampU8` | dmx_effect_librarys/effect_engine/effect_engine/main.c:22-26 | the result is a byte; it equals the input inside 0..255 and saturates to 0 or 255 outside |
| `EffectEngine.Elapsed` | dmx_effect_librarys/effect_engine/effect_engine/main.c:69 | elapsed time is 0 when the clock is not after t0, otherwise now - t0 |
| `EffectEngine.Interpolate` | dmx_effect_librarys/effect_engine/effect_engine/main.c:77-79 | the level is the exact linear value rounded to nearest with ties up, lies between the start and end levels, and equals the start level at elapsed 0 |
| `EffectEngine.ClampNeverBites` | dmx_effect_librarys/effect_engine/effect_engine/main.c:79-80 | clamp_u8 never changes an interpolated level |
| `EffectEngine.Advance` | dmx_effect_librarys/effect_engine/effect_engine/main.c:66-85 | per slot: only the active flag can change; an idle slot leaves its channel alone; an expired fade writes exactly its end level, becomes idle and is counted even if the level was already there; a running fade stays active, writes the interpolated level `Interpolate(start, end, elapsed, dur)`, which lies between start and end, and is counted exactly when that level differs from the current one |
| `EffectEngine.ChangedCount` | dmx_effect_librarys/effect_engine/effect_engine/main.c:63-87 | the count over the first n channels is at most n, and 0 when no slot is active |
| `EffectEngine.ChangedCountIsCardinality` | dmx_effect_librarys/effect_engine/effect_engine/main.c:63-87 | the returned count equals the number of channels whose slot step reports a change |
| `EffectEngine.ScanLength` | dmx_effect_librarys/effect_engine/effect_engine/main.c:59-60 | apply examines no entry when len ≤ 0 and min(len, 512) entries otherwise |
| `EffectEngine.InitTable` | dmx_effect_librarys/effect_engine/effect_engine/main.c:28-30 | after init all 512 slots are zeroed, hence inactive |
| `EffectEngine.Cancelled` | dmx_effect_librarys/effect_engine/effect_engine/main.c:32-35 | a channel outside 1..512 changes nothing; otherwise only slot channel-1 changes, and only its active flag, which becomes false |
| `EffectEngine.AllCancelled` | dmx_effect_librarys/effect_engine/effect_engine/main.c:37-39 | every slot becomes inactive and keeps its other fields |
| `EffectEngine.EffectiveDuration` | dmx_effect_librarys/effect_engine/effect_engine/main.c:46-52 | the stored duration is at least 1 ms: a positive request is kept, and zero or negative becomes 1 |
| `EffectEngine.Started` | dmx_effect_librarys/effect_engine/effect_engine/main.c:42-54 | a channel outside 1..512 changes nothing; otherwise slot channel-1 becomes active with start = current, end = target, t0 = now and the effective duration, and no other slot changes |
| `EffectEngine.ActiveFlag` | dmx_effect_librarys/effect_engine/effect_engine/main.c:91-94 | is_active is 0 or 1, and 1 exactly for a channel in 1..512 whose slot is active |
| `EffectEngine.FadeEngine.constructor` | dmx_effect_librarys/effect_engine/effect_engine/main.c:16 | the static table starts zeroed, the same as after init |
| `EffectEngine.FadeEngine.Init` | dmx_effect_librarys/effect_engine/effect_engine/main.c:28-30 | the table becomes `InitTable()` |
| `EffectEngine.FadeEngine.Cancel` | dmx_effect_librarys/effect_engine/effect_engine/main.c:32-35 | the table becomes `Cancelled(old table, channel)` |
| `EffectEngine.FadeEngine.CancelAll` | dmx_effect_librarys/effect_engine/effect_engine/main.c:37-39 | the loop leaves the table as `AllCancelled(old table)` |
| `EffectEngine.FadeEngine.StartFade` | dmx_effect_librarys/effect_engine/effect_engine/main.c:42-54 | the table becomes `Started(old table, …, now)` |
| `EffectEngine.FadeEngine.Apply` | dmx_effect_librarys/effect_engine/effect_engine/main.c:58-88 | a null array changes nothing and returns 0; otherwise each of the first min(len,512) slots and dmx entries takes its `Advance` step, later slots and entries are unchanged, and the result is `ChangedCount` |
| `EffectEngine.FadeEngine.IsActive` | dmx_effect_librarys/effect_engine/effect_engine/main.c:91-94 | returns 1 exactly for a channel in 1..512 whose slot is active, else 0 |
| `EffectEngine.NothingActiveAfterInit` | dmx_effect_librarys/effect_engine/effect_engine/main.c:28-30 | after init is_active is 0 for every channel |
| `EffectEngine.CancelIdempotent` | dmx_effect_librarys/effect_engine/effect_engine/main.c:32-35 | cancelling twice equals cancelling once, and a cancelled channel reports inactive |
| `EffectEngine.AllCancelledIdempotent` | dmx_effect_librarys/effect_engine/effect_engine/main.c:37-39 | cancel_all is idempotent and leaves every channel inactive |
| `EffectEngine.CancelFreezesLevel` | dmx_effect_librarys/effect_engine/effect_engine/main.c:65-67 | after cancel, apply leaves that channel's level unchanged and uncounted |
| `EffectEngine.FadeBeginsAtStart` | dmx_effect_librarys/effect_engine/effect_engine/main.c:69-85 | a started fade reports active; applied at its own start time it writes the start level and counts only if the channel held a different level |
| `EffectEngine.FadeEndsAtTarget` | dmx_effect_librarys/effect_engine/effect_engine/main.c:70-74 | once the duration has passed, the level is exactly the target, the change is counted and the channel reports inactive |
| `EffectEngine.FadeMidpoint` | dmx_effect_librarys/effect_engine/effect_engine/main.c:77-79 | a 0→255 fade over 2000 ms is at 128 after 1000 ms |
| `DmxSender.WireLength` | dmx_sender/dmx_sender/main.c:59-65 | the Length field is even and at most 512; it is 0 for negative lengths and 512 for lengths of 512 or more; inside the range it is the request rounded up to even |
| `DmxSender.Header` | dmx_sender/dmx_sender/main.c:30-66 | the header is 18 bytes long |
| `DmxSender.SubUniIsLowByte` | dmx_sender/dmx_sender/main.c:52-56 | SubSwitch<<4 \| Universe is the low byte of the universe |
| `DmxSender.PortAddressIsLow15Bits` | dmx_sender/dmx_sender/main.c:52-57 | SubUni and Net together carry the universe modulo 2^15 |
| `DmxSender.HeaderFields` | dmx_sender/dmx_sender/main.c:30-66 | bytes 0-7 are "Art-Net\0"; the OpCode is 0x5000 low byte first; ProtVer is 14; byte 12 is the sequence and byte 13 is 0; byte 14 is u mod 256 and byte 15 is (u div 256) mod 128, together u mod 0x8000; the big-endian Length is `WireLength(dlen)` |
| `DmxSender.Frame` | dmx_sender/dmx_sender/main.c:79-83 | a frame is 530 bytes: the header for 512 data bytes followed by the DMX data |
| `DmxSender.NextSequence` | dmx_sender/dmx_sender/main.c:80 | the sequence goes up by one and wraps from 255 to 0 |
| `DmxSender.FpsSetting` | dmx_sender/dmx_sender/main.c:165 | the frame rate is the request when it is in 1..44, otherwise 40 |
| `DmxSender.IntervalMs` | dmx_sender/dmx_sender/main.c:71 | the interval is 1000 div fps for a positive rate, otherwise 25 ms |
| `DmxSender.IntervalOfAcceptedRates` | dmx_sender/dmx_sender/main.c:71 | every rate the sender stores gives an interval of 22 to 1000 ms |
| `DmxSender.ResolveAddress` | dmx_sender/dmx_sender/main.c:143-157 | the address is refused exactly when inet_addr reports INADDR_NONE and the text is not "255.255.255.255"; otherwise it is inet_addr's result |
| `DmxSender.Sender.constructor` | dmx_sender/dmx_sender/main.c:17-27 | the library starts not running, with zeroed buffers, a zeroed destination (address and port 0), front 0, fps 40 and sequence 1 |
| `DmxSender.Sender.Visible` | dmx_sender/dmx_sender/main.c:77 | the 512-byte buffer the sending loop reads: A while front is 0, otherwise B |
| `DmxSender.Sender.Hidden` | dmx_sender/dmx_sender/main.c:186-195 | the 512-byte buffer the next update_dmx writes: B while front is 0, otherwise A |
| `DmxSender.Sender.BuildArtnetHeader` | dmx_sender/dmx_sender/main.c:30-66 | the first 18 bytes of the packet become `Header(sequence, universe, dlen)` and the rest is unchanged |
| `DmxSender.Sender.SendStep` | dmx_sender/dmx_sender/main.c:73-83 | when not running nothing changes; otherwise the sequence advances, the packet length is 530 and the packet is `Frame(new sequence, universe, visible buffer)` |
| `DmxSender.Sender.Start` | dmx_sender/dmx_sender/main.c:114-177 | already running: returns 1 and changes nothing; -1, -2 and -4 for WSAStartup, socket and address failures, with the buffers, front, fps, sequence and universe untouched (on -4 the destination has already been reset to address 0, port 6454); otherwise the destination is the resolved address at port 6454, both buffers are zeroed, front is 0, fps is clamped and sequence is 1, and the result is 0 (running, sending for the requested universe) or -3 when the thread fails (not running, universe untouched) |
| `DmxSender.Sender.ClearBuffers` | dmx_sender/dmx_sender/main.c:160-161 | both 512-byte buffers become all zeros |
| `DmxSender.Sender.UpdateDmx` | dmx_sender/dmx_sender/main.c:179-196 | no change when not running, when data is null or when len ≤ 0; otherwise front toggles, the new visible buffer is the first min(len,512) data bytes followed by the rest of the old visible buffer, and the now-hidden buffer is the old visible one |
| `DmxSender.Sender.Stop` | dmx_sender/dmx_sender/main.c:198-220 | not running afterwards; a no-op when not running; otherwise the socket is closed |
| `TestNode.ParseArtDmx` | testNode/main.py:26-59 | a payload under 10 bytes is rejected as too short; the length is 256*byte6 + byte7; success happens exactly when 8 + length bytes are present, and the data is then bytes 8..8+length with any surplus ignored; otherwise the error reports the declared length and the smaller count of bytes present; universe_hi*16 + subuni_lo is the SubUni byte and absolute_universe is net*256 + SubUni |
| `TestNode.Passes` | testNode/main.py:103-108 | a parsed packet passes exactly when each given filter equals its net, its SubUni byte and its absolute universe; an absent filter passes everything |
| `TestNode.ParseThenUnparse` | testNode/main.py:37-41 | a successful parse is well formed and re-encodes to exactly the first 8 + length bytes of the payload |
| `TestNode.UnparseThenParse` | testNode/main.py:26-59 | every well-formed record, followed by any trailing bytes, parses back to itself once the payload reaches 10 bytes |
| `TestNode.OpCode` | testNode/main.py:93 | the OpCode is read low byte first from bytes 8-9 |
| `TestNode.IsArtNet` | testNode/main.py:88 | a datagram is Art-Net exactly when it has at least 10 bytes and starts with the 8-byte "Art-Net\0" ID |
| `TestNode.Classify` | testNode/main.py:88-134 | a datagram is ignored exactly when it is shorter than 10 bytes or does not start with "Art-Net\0"; an ArtDmx OpCode gives a parse error, a filtered packet or a shown packet, and it is shown exactly when it parses and passes every filter; ArtPoll, ArtPollReply and ArtSync are recognised by OpCode, and anything else is reported with its OpCode and payload length |
| `TestNode.ShownChannels` | testNode/main.py:112-113 | all channels for -1, otherwise the first max(0, n), clipped to the data |
| `TestNode.HexDigit` | testNode/main.py:21 | each digit is an upper-case hex digit whose value is the input |
| `TestNode.Hex` | testNode/main.py:23 | the `X` format gives at least one upper-case hex digit |
| `TestNode.HexRoundTrip` | testNode/main.py:21-23 | reading back the hex text of n gives n |
| `TestNode.HexWidth` | testNode/main.py:23 | a number below 16^k has at most k hex digits |
| `TestNode.ZeroPad` | testNode/main.py:23 | padding gives max(len, width) characters: zeros, then the text unchanged |
| `TestNode.ZeroPadValue` | testNode/main.py:23 | zero padding keeps the value of a hex string |
| `TestNode.HexByte` | testNode/main.py:21 | a byte is written as exactly two upper-case hex digits |
| `TestNode.HexByteShape` | testNode/main.py:21 | the two digits are `{b:02X}` (the hex of b zero-padded to width 2) and read back to b |
| `TestNode.HexPart` | testNode/main.py:21 | the hex column of k ≥ 1 bytes is 3k - 1 characters long, and empty for no bytes |
| `TestNode.HexPartContents` | testNode/main.py:21 | byte j appears as its two hex digits at columns 3j and 3j+1, single spaces separate neighbouring bytes, and the column holds only hex digits and spaces |
| `TestNode.AsciiChar` | testNode/main.py:22 | bytes 32..126 are shown as themselves and every other byte as '.' |
| `TestNode.AsciiPart` | testNode/main.py:22 | the ASCII column has one character per byte, each given by `AsciiChar` |
| `TestNode.PadRight` | testNode/main.py:23 | left-justification gives max(len, width) characters and keeps the text as a prefix |
| `TestNode.Line` | testNode/main.py:23 | one dump line: the offset as four or more hex digits, two spaces, the hex column left-justified to 3*width, two spaces, the ASCII column |
| `TestNode.PadRightFill` | testNode/main.py:23 | every character left-justification adds is a space |
| `TestNode.LineLayout` | testNode/main.py:23 | below offset 0x10000 a line is 8 + 3*width + k characters: columns 0-3 are the offset in hex, columns 4-5 two spaces, columns 6 to 6+3*width the hex column padded to 3*width, then two spaces and the ASCII column from column 8 + 3*width |
| `TestNode.Chunks` | testNode/main.py:19-20 | the chunks from offset i on, each paired with its offset: data[i:i+width], then the chunks from i + width, and none once i reaches the end |
| `TestNode.Lines` | testNode/main.py:18-23 | the list the loop builds: one `Line` per chunk, in offset order |
| `TestNode.PaddedHexColumn` | testNode/main.py:21-23 | the padded hex column is 3*width characters; byte j's two hex digits sit at columns 3j and 3j+1 and every other column is a space |
| `TestNode.LineHasNoNewline` | testNode/main.py:21-23 | no hex dump line contains a newline |
| `TestNode.JoinNewlines` | testNode/main.py:24 | joining k ≥ 1 newline-free lines with newlines gives exactly k - 1 newlines, and none for no lines |
| `TestNode.Join` | testNode/main.py:24 | `'\n'.join`: no lines give "", one line gives itself, and further lines follow a newline each |
| `TestNode.HexdumpLineCount` | testNode/main.py:17-24 | for a positive width the dump holds ceil(len / width) - 1 newlines, so it reads as ceil(len / width) lines, and none for empty data |
| `TestNode.ChunksCount` | testNode/main.py:19-20 | the loop visits ceil((len - i) / width) chunks from offset i on |
| `TestNode.ChunksAt` | testNode/main.py:19-20 | chunk j from offset i on starts at offset i + j*width and is data[off:off+width] |
| `TestNode.LinesShape` | testNode/main.py:17-24 | hexdump has ceil(len / width) lines, and line j shows the chunk at offset j*width |
| `TestNode.Hexdump` | testNode/main.py:17-24 | width 0 fails (Python's range raises), a negative width or empty data gives "", and a positive width joins the lines with newlines |
| `RoundTrip.FrameDecodes` | testNode/main.py:26-59 | parsing bytes 10.. of a sender frame succeeds with prot_ver (0,14), the same sequence, physical 0, SubUni u mod 256, Net (u div 256) mod 128, absolute_universe u mod 0x8000, length 512 and the same data |
| `RoundTrip.FrameIsShown` | testNode/main.py:88-97 | every sender frame starts with the Art-Net ID, has OpCode ArtDmx, and is shown by the receive loop when no filter is given |
| `RoundTrip.FrameAbsoluteFilter` | testNode/main.py:107 | a sender frame passes --filter-abs a exactly when a is the universe mod 0x8000 |

## Left out

- Winsock setup and teardown, `socket`, `setsockopt`, `sendto`, `shutdown`, `closesocket` and `WSACleanup` are foreign calls. Their outcomes come in as `Platform` fields. The socket itself is the flag `sockOpen`.
- `inet_addr` is the library's parser, so its result is a parameter (`Platform.inetAddr`). Only the special case for "255.255.255.255" is modelled.
- `CreateThread`, `WaitForSingleObject`, `CloseHandle` and the `Interlocked*` atomics are about concurrency. The model is sequential: `SendStep` is one iteration of the sending loop's body.
- The pacing of the sending loop (`GetTickCount`, `Sleep`, `next_tick`) is timing. Only the interval it aims for is modelled (`IntervalMs`).
- `sendto` of the assembled packet is left out. `SendStep` leaves the packet in `packet`.
- `GetTickCount64` becomes the parameter `now`. The 64-bit wrap of the clock is not modelled.
- DmxSender.Sender.Start: the destination's address family and the socket options (broadcast, 200 ms send timeout) are not modelled. The IPv4 address (`dest`) and the port (`destPort`) are.
- DmxSender.Sender.UpdateDmx: `data` is assumed not to be one of the library's two private buffers, which no caller can reach.
- EffectEngine.Interpolate: uses exact integer arithmetic. The source's doubles can come out one level lower at an exact half-way point when `elapsed/dur` has no exact binary representation.
- The C# WinForms layer (`Channels.cs`, `Channels.Designer.cs`, `Form1.cs`, `TextBook.cs`) is presentation. This includes the direct channel edit and the floating-point percentage label.
- `Native.cs` and `NativeEffects.cs` only declare foreign functions.
- In `testNode/main.py`, argument parsing, socket binding, `recvfrom`, timestamps and the text that `print` produces are I/O. The classification step and the filters are modelled; the printing is not.
