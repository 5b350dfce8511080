/** The Art-Net test receiver: it recognises Art-Net datagrams, decodes
    ArtDmx packets, applies the command-line filters and formats a hex dump.
    Sockets, argument parsing, timestamps and printing are outside the
    model; the filters come in as a `Filters` value. */
module TestNode {
  import opened Common

  const OP_POLL: int := 0x2000
  const OP_POLL_REPLY: int := 0x2100
  const OP_SYNC: int := 0x5200

  // ---- parse_artdmx ----

  /** The decoded ArtDmx fields, named as the receiver names them. The
      receiver calls the high nibble of SubUni the universe and the low one
      the sub-net; Art-Net 4 has them the other way round. */
  datatype ArtDmx = ArtDmx(
    protVer: (uint8, uint8),
    sequence: uint8,
    physical: uint8,
    net: uint8,
    universeHi: uint8,
    subuniLo: uint8,
    subuniByte: uint8,
    absoluteUniverse: nat,
    length: nat,
    data: seq<uint8>)

  datatype ParseError =
    | TooShort                               // "Payload too short for ArtDmx"
    | LengthMismatch(declared: nat, got: nat) // "Data length mismatch: header says .., got .."

  /** The bytes after the ID and OpCode that describe `m`: the inverse of `ParseArtDmx`. */
  function Unparse(m: ArtDmx): (p: seq<uint8>)
    requires m.length < 0x1_0000
  {
    [m.protVer.0, m.protVer.1, m.sequence, m.physical, m.subuniByte, m.net, m.length / 256, m.length % 256] + m.data
  }

  /** The records `ParseArtDmx` can produce. */
  predicate WellFormed(m: ArtDmx)
  {
    m.length == |m.data| < 0x1_0000 &&
    m.universeHi == m.subuniByte / 16 && m.subuniLo == m.subuniByte % 16 &&
    m.absoluteUniverse == m.net * 256 + m.subuniByte
  }

  /** `parse_artdmx(payload)`. */
  function ParseArtDmx(payload: seq<uint8>): (r: Result<ArtDmx, ParseError>)
    ensures r == Err(TooShort) <==> |payload| < 10
    ensures r.Ok? <==> |payload| >= 10 && 8 + Be16(payload[6], payload[7]) <= |payload|
    ensures r.Err? && |payload| >= 10 ==>
      r.error == LengthMismatch(Be16(payload[6], payload[7]), |payload| - 8) &&
      r.error.got < r.error.declared
    ensures r.Ok? ==>
      r.value.length == Be16(payload[6], payload[7]) &&
      r.value.data == payload[8..8 + r.value.length] &&
      r.value.universeHi * 16 + r.value.subuniLo == r.value.subuniByte &&
      r.value.absoluteUniverse == r.value.net * 256 + r.value.subuniByte
  {
    if |payload| < 10 then Err(TooShort)
    else
      var protHi, protLo, sq, phys := payload[0], payload[1], payload[2], payload[3];
      var subuni, net, lenHi, lenLo := payload[4], payload[5], payload[6], payload[7];
      var dlen := Be16(lenHi, lenLo);
      var data := payload[8..Min(8 + dlen, |payload|)];
      if |data| != dlen then Err(LengthMismatch(dlen, |data|))
      else
        var univHi := (subuni / 16) % 16;
        var univLo := subuni % 16;
        Ok(ArtDmx((protHi, protLo), sq, phys, net, univHi, univLo, subuni, 256 * (net as int) + subuni, dlen, data))
  }

  /** Parsing reads exactly the first 8 + length bytes and loses none of them. */
  lemma ParseThenUnparse(payload: seq<uint8>)
    requires ParseArtDmx(payload).Ok?
    ensures var m := ParseArtDmx(payload).value;
      m.length < 0x1_0000 && WellFormed(m) &&
      Unparse(m) == payload[..8 + m.length]
  {
    var m := ParseArtDmx(payload).value;
    assert Unparse(m)[..8] == payload[..8];
  }

  /** Every well-formed record survives unparsing and parsing, whatever
      bytes trail it, once the payload reaches the 10 bytes the parser insists on. */
  lemma UnparseThenParse(m: ArtDmx, trailing: seq<uint8>)
    requires WellFormed(m) && |m.data| + |trailing| >= 2
    ensures ParseArtDmx(Unparse(m) + trailing) == Ok(m)
  {
    var p := Unparse(m) + trailing;
    assert p[8..8 + m.length] == m.data;
    assert Be16(p[6], p[7]) == m.length;
  }

  // ---- the classification step of the receive loop ----

  /** The optional --filter-net, --filter-subuni and --filter-abs values. */
  datatype Filters = Filters(net: Option<int>, subuni: Option<int>, abs: Option<int>)

  const NoFilters: Filters := Filters(None, None, None)

  /** A decoded ArtDmx packet is shown when it matches every given filter. */
  predicate Passes(m: ArtDmx, f: Filters)
  {
    (f.net.None? || m.net == f.net.value) &&
    (f.subuni.None? || m.subuniByte == f.subuni.value) &&
    (f.abs.None? || m.absoluteUniverse == f.abs.value)
  }

  /** What the receive loop does with one datagram. */
  datatype Outcome =
    | Ignored                                  // too short or not Art-Net
    | DmxError(error: ParseError)              // ArtDmx that does not decode
    | DmxFiltered                              // ArtDmx that a filter drops
    | Dmx(packet: ArtDmx)                      // ArtDmx that is shown
    | Poll
    | PollReply(payloadLen: nat)
    | Sync
    | Other(opCode: nat, payloadLen: nat)

  predicate IsArtNet(d: seq<uint8>)
  {
    |d| >= 10 && d[..8] == ARTNET_ID
  }

  /** The OpCode of an Art-Net datagram, stored low byte first. */
  function OpCode(d: seq<uint8>): (op: nat)
    requires |d| >= 10
    ensures op % 256 == d[8] && op / 256 == d[9]
  {
    Be16(d[9], d[8])
  }

  function Classify(d: seq<uint8>, f: Filters): (o: Outcome)
    ensures o.Ignored? <==> !IsArtNet(d)
    ensures IsArtNet(d) ==>
      (OpCode(d) == OP_DMX <==> o.Dmx? || o.DmxError? || o.DmxFiltered?)
    ensures o.DmxError? <==> IsArtNet(d) && OpCode(d) == OP_DMX && ParseArtDmx(d[10..]).Err?
    ensures o.DmxError? ==> o.error == ParseArtDmx(d[10..]).error
    ensures o.Dmx? <==>
      IsArtNet(d) && OpCode(d) == OP_DMX && ParseArtDmx(d[10..]).Ok? &&
      Passes(ParseArtDmx(d[10..]).value, f)
    ensures o.Dmx? ==> o.packet == ParseArtDmx(d[10..]).value
    ensures o.Poll? <==> IsArtNet(d) && OpCode(d) == OP_POLL
    ensures o.Sync? <==> IsArtNet(d) && OpCode(d) == OP_SYNC
    ensures o.PollReply? <==> IsArtNet(d) && OpCode(d) == OP_POLL_REPLY && o.payloadLen == |d| - 10
    ensures o.Other? ==>
      o.opCode == OpCode(d) && o.payloadLen == |d| - 10 &&
      o.opCode !in {OP_DMX, OP_POLL, OP_POLL_REPLY, OP_SYNC}
  {
    if |d| < 10 || d[..8] != ARTNET_ID then Ignored
    else
      var op := OpCode(d);
      var payload := d[10..];
      if op == OP_DMX then
        match ParseArtDmx(payload)
        case Err(e) => DmxError(e)
        case Ok(m) => if Passes(m, f) then Dmx(m) else DmxFiltered
      else if op == OP_POLL then Poll
      else if op == OP_POLL_REPLY then PollReply(|payload|)
      else if op == OP_SYNC then Sync
      else Other(op, |payload|)
  }

  /** The channel values printed for a shown packet: all of them for
      --print-channels -1, otherwise that many (none when it is not positive). */
  function ShownChannels(m: ArtDmx, printChannels: int): (r: seq<uint8>)
    ensures printChannels == -1 ==> r == m.data[..Min(m.length, |m.data|)]
    ensures printChannels != -1 ==> r == m.data[..Min(Max(0, printChannels), |m.data|)]
  {
    var showN := if printChannels == -1 then m.length else Max(0, printChannels);
    if showN > 0 then m.data[..Min(showN, |m.data|)] else []
  }

  // ---- hexdump ----

  predicate IsHexDigit(c: char)
  {
    '0' <= c <= '9' || 'A' <= c <= 'F'
  }

  function DigitValue(c: char): (v: nat)
    requires IsHexDigit(c)
    ensures v < 16
  {
    if c <= '9' then c as int - '0' as int else c as int - 'A' as int + 10
  }

  /** An upper-case hex digit. */
  function HexDigit(v: nat): (c: char)
    requires v < 16
    ensures IsHexDigit(c) && DigitValue(c) == v
  {
    if v < 10 then ('0' as int + v) as char else ('A' as int + v - 10) as char
  }

  /** The value of a string of upper-case hex digits. */
  function HexValue(s: string): nat
    requires forall i :: 0 <= i < |s| ==> IsHexDigit(s[i])
  {
    if s == [] then 0 else 16 * HexValue(s[..|s| - 1]) + DigitValue(s[|s| - 1])
  }

  /** `n` in upper-case hex without leading zeros, as Python's `X` format writes it. */
  function Hex(n: nat): (s: string)
    ensures 1 <= |s| && forall i :: 0 <= i < |s| ==> IsHexDigit(s[i])
  {
    if n < 16 then [HexDigit(n)] else Hex(n / 16) + [HexDigit(n % 16)]
  }

  lemma {:induction false} HexRoundTrip(n: nat)
    ensures HexValue(Hex(n)) == n
  {
    if n >= 16 {
      HexRoundTrip(n / 16);
      var s := Hex(n);
      assert s[..|s| - 1] == Hex(n / 16);
    }
  }

  /** A number below 16^k has at most k hex digits. */
  lemma {:induction false} HexWidth(n: nat, k: nat, bound: nat)
    requires k >= 1 && bound == Pow16(k) && n < bound
    ensures |Hex(n)| <= k
  {
    if n >= 16 {
      DivModUnique(bound, 16, Pow16(k - 1), 0);
      assert n / 16 < Pow16(k - 1);
      HexWidth(n / 16, k - 1, Pow16(k - 1));
    }
  }

  function Pow16(k: nat): (p: nat)
    ensures p >= 1
  {
    if k == 0 then 1 else 16 * Pow16(k - 1)
  }

  /** `s` padded on the left with zeros to at least `w` characters. */
  function ZeroPad(s: string, w: nat): (r: string)
    ensures |r| == Max(|s|, w)
    ensures r[|r| - |s|..] == s
    ensures forall i :: 0 <= i < |r| - |s| ==> r[i] == '0'
  {
    if |s| >= w then s else seq(w - |s|, _ => '0') + s
  }

  /** Leading zeros do not change the value of a hex string. */
  lemma {:induction false} LeadingZeros(z: string, s: string)
    requires forall i :: 0 <= i < |z| ==> z[i] == '0'
    requires forall i :: 0 <= i < |s| ==> IsHexDigit(s[i])
    ensures HexValue(z + s) == HexValue(s)
    decreases |s|, |z|
  {
    if s == [] {
      if z != [] {
        assert (z + s)[..|z + s| - 1] == z[..|z| - 1] + [];
        LeadingZeros(z[..|z| - 1], []);
      }
    } else {
      assert (z + s)[..|z + s| - 1] == z + s[..|s| - 1];
      LeadingZeros(z, s[..|s| - 1]);
    }
  }

  /** Padding a hex string with zeros keeps it a hex string of the same value. */
  lemma ZeroPadValue(h: string, w: nat)
    requires forall i :: 0 <= i < |h| ==> IsHexDigit(h[i])
    ensures var z := ZeroPad(h, w);
      (forall i :: 0 <= i < |z| ==> IsHexDigit(z[i])) && HexValue(z) == HexValue(h)
  {
    var z := ZeroPad(h, w);
    var zeros := z[..|z| - |h|];
    assert z == zeros + h;
    LeadingZeros(zeros, h);
  }

  /** A byte as two upper-case hex digits, high nibble first. */
  function HexByte(b: uint8): (s: string)
    ensures |s| == 2 && IsHexDigit(s[0]) && IsHexDigit(s[1])
  {
    [HexDigit(b / 16), HexDigit(b % 16)]
  }

  /** The two digits are what `{b:02X}` writes (the hex of b zero-padded to
      width 2), and they read back to b. */
  lemma HexByteShape(b: uint8)
    ensures var s := HexByte(b);
      s == ZeroPad(Hex(b), 2) && HexValue(s) == b
  {
    var s := HexByte(b);
    if b < 16 {
      assert Hex(b) == [HexDigit(b)];
      assert HexDigit(0) == '0';
    } else {
      assert Hex(b / 16) == [HexDigit(b / 16)];
      assert Hex(b) == [HexDigit(b / 16), HexDigit(b % 16)];
    }
    TwoDigitValue(s);
    DivModUnique(b, 16, b / 16, b % 16);
  }

  /** The value of a two-digit hex string. */
  lemma TwoDigitValue(s: string)
    requires |s| == 2 && IsHexDigit(s[0]) && IsHexDigit(s[1])
    ensures HexValue(s) == 16 * DigitValue(s[0]) + DigitValue(s[1])
  {
    var p := s[..1];
    assert s[..|s| - 1] == p;
    assert p[..|p| - 1] == [];
    assert HexValue(p) == 16 * HexValue([]) + DigitValue(s[0]);
    assert HexValue(s) == 16 * HexValue(p) + DigitValue(s[1]);
  }

  /** The hex column: the chunk's bytes in hex, separated by single spaces. */
  function HexPart(chunk: seq<uint8>): (s: string)
    ensures |chunk| >= 1 ==> |s| == 3 * |chunk| - 1
    ensures |chunk| == 0 ==> s == ""
  {
    if chunk == [] then ""
    else if |chunk| == 1 then HexByte(chunk[0])
      else HexByte(chunk[0]) + " " + HexPart(chunk[1..])
  }

  /** Byte j of the chunk sits at columns 3j, 3j+1 of the hex column as its
      two-digit hex, and single spaces separate neighbouring bytes. */
  lemma {:induction false} HexPartContents(chunk: seq<uint8>)
    ensures var s := HexPart(chunk);
      (forall j :: 0 <= j < |chunk| ==> s[3 * j..3 * j + 2] == HexByte(chunk[j])) &&
      (forall j :: 0 <= j < |chunk| - 1 ==> s[3 * j + 2] == ' ') &&
      (forall i :: 0 <= i < |s| ==> IsHexDigit(s[i]) || s[i] == ' ')
  {
    if |chunk| >= 1 {
      var s := HexPart(chunk);
      var head := HexByte(chunk[0]);
      if |chunk| == 1 {
        assert s == head;
        assert s[0..2] == head;
      } else {
        var rest := HexPart(chunk[1..]);
        HexPartContents(chunk[1..]);
        assert s == head + " " + rest;
        assert s[..2] == head && s[2] == ' ';
        assert s[0] == head[0] && s[1] == head[1];
        forall j | 1 <= j < |chunk|
          ensures s[3 * j..3 * j + 2] == HexByte(chunk[j])
        {
          assert s[3 * j..3 * j + 2] == rest[3 * (j - 1)..3 * (j - 1) + 2];
          assert chunk[1..][j - 1] == chunk[j];
        }
        forall j | 1 <= j < |chunk| - 1
          ensures s[3 * j + 2] == ' '
        {
          assert s[3 * j + 2] == rest[3 * (j - 1) + 2];
        }
        forall i | 3 <= i < |s|
          ensures IsHexDigit(s[i]) || s[i] == ' '
        {
          assert s[i] == rest[i - 3];
        }
      }
    }
  }

  /** The character shown for a byte in the ASCII column. */
  function AsciiChar(b: uint8): (c: char)
    ensures 32 <= b < 127 ==> c as int == b
    ensures !(32 <= b < 127) ==> c == '.'
  {
    if 32 <= b < 127 then b as char else '.'
  }

  function AsciiPart(chunk: seq<uint8>): (s: string)
    ensures |s| == |chunk| && forall i :: 0 <= i < |chunk| ==> s[i] == AsciiChar(chunk[i])
  {
    seq(|chunk|, i requires 0 <= i < |chunk| => AsciiChar(chunk[i]))
  }

  /** `s` padded on the right with spaces to at least `w` characters. */
  function PadRight(s: string, w: nat): (r: string)
    ensures |r| == Max(|s|, w) && r[..|s|] == s
  {
    if |s| >= w then s else s + seq(w - |s|, _ => ' ')
  }

  /** The characters `PadRight` adds are spaces. */
  lemma PadRightFill(s: string, w: nat)
    ensures var r := PadRight(s, w);
      forall i :: |s| <= i < |r| ==> r[i] == ' '
  {
  }

  /** One hex dump line for the chunk at `offset`. */
  function Line(offset: nat, chunk: seq<uint8>, width: nat): string
  {
    ZeroPad(Hex(offset), 4) + "  " + PadRight(HexPart(chunk), width * 3) + "  " + AsciiPart(chunk)
  }

  /** Below offset 0x10000 every line has its offset in its first four
      columns and its ASCII column at column 8 + 3*width. */
  lemma LineLayout(offset: nat, chunk: seq<uint8>, width: nat)
    requires offset < 0x1_0000 && 1 <= |chunk| <= width
    ensures var l := Line(offset, chunk, width);
      |l| == 8 + 3 * width + |chunk| &&
      (forall i :: 0 <= i < 4 ==> IsHexDigit(l[i])) &&
      HexValue(l[..4]) == offset &&
      l[4..6] == "  " &&
      l[6..6 + 3 * width] == PadRight(HexPart(chunk), width * 3) &&
      l[6 + 3 * width..8 + 3 * width] == "  " &&
      l[8 + 3 * width..] == AsciiPart(chunk)
  {
    var head := ZeroPad(Hex(offset), 4);
    var col := PadRight(HexPart(chunk), width * 3);
    var ascii := AsciiPart(chunk);
    assert |head| == 4 && (forall i :: 0 <= i < 4 ==> IsHexDigit(head[i])) && HexValue(head) == offset by {
      HexWidth(offset, 4, Pow16(4));
      HexRoundTrip(offset);
      ZeroPadValue(Hex(offset), 4);
    }
    assert |col| == 3 * width;
    FiveParts(head, "  ", col, "  ", ascii);
  }

  /** Where each part of a five-part concatenation sits. */
  lemma FiveParts(a: string, b: string, c: string, d: string, e: string)
    ensures var l := a + b + c + d + e;
      var i1, i2, i3, i4 := |a|, |a| + |b|, |a| + |b| + |c|, |a| + |b| + |c| + |d|;
      |l| == i4 + |e| && l[..i1] == a && l[i1..i2] == b && l[i2..i3] == c &&
      l[i3..i4] == d && l[i4..] == e && (forall i :: 0 <= i < i1 ==> l[i] == a[i])
  {
  }

  /** Padding on the right keeps every slice of the padded text. */
  lemma PadKeepsSlice(s: string, w: nat, a: int, b: int)
    requires 0 <= a <= b <= |s|
    ensures PadRight(s, w)[a..b] == s[a..b]
  {
    var r := PadRight(s, w);
    assert r[a..b] == r[..|s|][a..b];
  }

  /** The hex column padded to 3*width: byte j as two hex digits at
      column 3j, and spaces everywhere else. */
  lemma PaddedHexColumn(chunk: seq<uint8>, width: nat)
    requires 1 <= |chunk| <= width
    ensures var col := PadRight(HexPart(chunk), width * 3);
      |col| == 3 * width &&
      (forall j :: 0 <= j < |chunk| ==> col[3 * j..3 * j + 2] == HexByte(chunk[j])) &&
      (forall j :: 0 <= j < |chunk| - 1 ==> col[3 * j + 2] == ' ') &&
      (forall i :: 3 * |chunk| - 1 <= i < 3 * width ==> col[i] == ' ')
  {
    var hex := HexPart(chunk);
    var col := PadRight(hex, width * 3);
    assert forall i :: 3 * |chunk| - 1 <= i < 3 * width ==> col[i] == ' ' by {
      PadRightFill(hex, width * 3);
    }
    assert forall j :: 0 <= j < |chunk| ==> col[3 * j..3 * j + 2] == HexByte(chunk[j]) by {
      forall j | 0 <= j < |chunk|
        ensures col[3 * j..3 * j + 2] == HexByte(chunk[j])
      {
        HexPartContents(chunk);
        PadKeepsSlice(hex, width * 3, 3 * j, 3 * j + 2);
      }
    }
    assert forall j :: 0 <= j < |chunk| - 1 ==> col[3 * j + 2] == ' ' by {
      forall j | 0 <= j < |chunk| - 1
        ensures col[3 * j + 2] == ' '
      {
        HexPartContents(chunk);
        PadKeepsSlice(hex, width * 3, 3 * j + 2, 3 * j + 3);
        assert col[3 * j + 2] == col[3 * j + 2..3 * j + 3][0];
      }
    }
  }

  /** The chunks at offsets i, i + width, ... of `data`, each with its offset:
      what `range(0, len(data), width)` and `data[i:i+width]` visit. */
  function Chunks(data: seq<uint8>, width: nat, i: nat): seq<(nat, seq<uint8>)>
    requires width > 0
    decreases |data| - i
  {
    if i >= |data| then []
    else [(i, data[i..Min(i + width, |data|)])] + Chunks(data, width, i + width)
  }

  /** The hex dump lines, one per chunk. */
  function Lines(data: seq<uint8>, width: nat): (ls: seq<string>)
    requires width > 0
  {
    var cs := Chunks(data, width, 0);
    seq(|cs|, k requires 0 <= k < |cs| => Line(cs[k].0, cs[k].1, width))
  }

  /** Ceiling division by `w`, one step of `w` at a time. */
  lemma CeilDivStep(r: nat, w: nat)
    requires w > 0
    ensures r == 0 ==> (r + w - 1) / w == 0
    ensures 0 < r <= w ==> (r + w - 1) / w == 1
    ensures r > w ==> (r + w - 1) / w == (r - w + w - 1) / w + 1
  {
    if r == 0 {
      DivModUnique(w - 1, w, 0, w - 1);
    } else if r <= w {
      DivModUnique(r + w - 1, w, 1, r - 1);
    } else {
      var q, m := (r - 1) / w, (r - 1) % w;
      DivModUnique(r - 1, w, q, m);
      DivModUnique(r + w - 1, w, q + 1, m);
    }
  }

  /** There are ceil((|data| - i) / width) chunks from offset i on. */
  lemma {:induction false} ChunksCount(data: seq<uint8>, width: nat, i: nat)
    requires width > 0 && i <= |data|
    ensures |Chunks(data, width, i)| == (|data| - i + width - 1) / width
    decreases |data| - i
  {
    CeilDivStep(|data| - i, width);
    if i < |data| && i + width < |data| {
      ChunksCount(data, width, i + width);
    }
  }

  /** Chunk j from offset i on is the one at offset i + j*width. */
  lemma {:induction false} ChunksAt(data: seq<uint8>, width: nat, i: nat, j: nat)
    requires width > 0 && j < |Chunks(data, width, i)|
    ensures var off := i + j * width;
      off < |data| && Chunks(data, width, i)[j] == (off, data[off..Min(off + width, |data|)])
    decreases j
  {
    if j == 0 {
      assert i + j * width == i;
    } else {
      var next := i + width;
      assert Chunks(data, width, i)[j] == Chunks(data, width, next)[j - 1];
      ChunksAt(data, width, next, j - 1);
      assert next + (j - 1) * width == i + j * width by {
        assert (j - 1) * width == j * width - width;
      }
    }
  }

  /** `hexdump` emits ceil(|data| / width) lines, and line j shows the chunk at offset j*width. */
  lemma LinesShape(data: seq<uint8>, width: nat)
    requires width > 0
    ensures |Lines(data, width)| == (|data| + width - 1) / width
    ensures forall j :: 0 <= j < |Lines(data, width)| ==>
      j * width < |data| &&
      Lines(data, width)[j] == Line(j * width, data[j * width..Min(j * width + width, |data|)], width)
  {
    ChunksCount(data, width, 0);
    forall j | 0 <= j < |Lines(data, width)|
      ensures j * width < |data| &&
        Lines(data, width)[j] == Line(j * width, data[j * width..Min(j * width + width, |data|)], width)
    {
      var cs := Chunks(data, width, 0);
      ChunksAt(data, width, 0, j);
      var off, chunk := cs[j].0, cs[j].1;
      assert off == j * width && chunk == data[j * width..Min(j * width + width, |data|)];
      assert Lines(data, width)[j] == Line(off, chunk, width);
    }
  }

  /** Lines joined with newlines. */
  function Join(lines: seq<string>): string
  {
    if lines == [] then ""
    else if |lines| == 1 then lines[0]
    else lines[0] + "\n" + Join(lines[1..])
  }

  /** No line contains a newline: digits, spaces, printable ASCII and '.'. */
  lemma LineHasNoNewline(offset: nat, chunk: seq<uint8>, width: nat)
    ensures '\n' !in Line(offset, chunk, width)
  {
    ZeroPadValue(Hex(offset), 4);
    HexPartContents(chunk);
    var hex := HexPart(chunk);
    var col := PadRight(hex, width * 3);
    assert '\n' !in col by {
      forall i | 0 <= i < |col|
        ensures col[i] != '\n'
      {
        if i < |hex| {
          assert col[i] == col[..|hex|][i] == hex[i];
        } else {
          PadRightFill(hex, width * 3);
        }
      }
    }
    assert '\n' !in ZeroPad(Hex(offset), 4);
    assert '\n' !in AsciiPart(chunk);
  }

  /** Joining lines that hold no newline yields exactly one newline between
      each pair of neighbours. */
  lemma {:induction false} JoinNewlines(lines: seq<string>)
    requires forall k :: 0 <= k < |lines| ==> '\n' !in lines[k]
    ensures multiset(Join(lines))['\n'] == if lines == [] then 0 else |lines| - 1
  {
    if |lines| > 1 {
      JoinNewlines(lines[1..]);
      assert '\n' !in lines[0];
      assert multiset(lines[0] + "\n" + Join(lines[1..])) ==
        multiset(lines[0]) + multiset("\n") + multiset(Join(lines[1..]));
    } else if |lines| == 1 {
      assert '\n' !in lines[0];
    }
  }

  /** The text `hexdump` returns for a positive width has ceil(|data| / width)
      lines: one newline fewer than that, and none for empty data. */
  lemma HexdumpLineCount(data: seq<uint8>, width: int)
    requires width > 0
    ensures Hexdump(data, width).Some? &&
      multiset(Hexdump(data, width).value)['\n'] ==
        if |data| == 0 then 0 else (|data| + width - 1) / width - 1
  {
    var cs := Chunks(data, width, 0);
    var ls := Lines(data, width);
    assert |ls| == |cs| == (|data| + width - 1) / width && (ls == [] <==> |data| == 0) by {
      ChunksCount(data, width, 0);
    }
    assert multiset(Join(ls))['\n'] == if ls == [] then 0 else |ls| - 1 by {
      forall k | 0 <= k < |ls|
        ensures '\n' !in ls[k]
      {
        assert ls[k] == Line(cs[k].0, cs[k].1, width);
        LineHasNoNewline(cs[k].0, cs[k].1, width);
      }
      JoinNewlines(ls);
    }
    assert Hexdump(data, width).value == Join(ls);
  }

  /** `hexdump(data, width)`. A width of 0 makes Python's range() raise,
      modelled as `None`; a negative width gives an empty range. */
  function Hexdump(data: seq<uint8>, width: int): (r: Option<string>)
    ensures r.None? <==> width == 0
    ensures width < 0 || (width > 0 && |data| == 0) ==> r == Some("")
    ensures width > 0 ==> r == Some(Join(Lines(data, width)))
  {
    if width == 0 then None
    else if width < 0 then Some("")
    else Some(Join(Lines(data, width)))
  }
}
