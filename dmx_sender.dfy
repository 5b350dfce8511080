/** The Art-Net sender library: it encodes ArtDmx packets (Art-Net 4, OpCode
    0x5000) from a front/back pair of 512-byte DMX buffers. Winsock, the
    sending thread and its pacing are outside the model; what each of their
    calls reports comes in as a `Platform` value. */
module DmxSender {
  import opened Common

  const ARTNET_PORT: int := 6454
  const ARTDMX_HDR: int := 18
  const MAX_PACKET: int := ARTDMX_HDR + DMX_SLOTS

  type uint32 = x: int | 0 <= x < 0x1_0000_0000

  /** The value the address parser reports for text it cannot parse; it is
      also the bit pattern of the broadcast address 255.255.255.255. */
  const INADDR_NONE: uint32 := 0xFFFF_FFFF
  const INADDR_BROADCAST: uint32 := 0xFFFF_FFFF

  /** The ArtDmx Length field for a requested data length: clamped to
      0..512, then rounded up to an even number. */
  function WireLength(dlen: int): (n: nat)
    ensures n % 2 == 0 && n <= DMX_SLOTS
    ensures dlen <= 0 ==> n == 0
    ensures dlen >= DMX_SLOTS ==> n == DMX_SLOTS
    // inside the range it is the smallest even number not below the request
    ensures 0 <= dlen <= DMX_SLOTS ==> dlen <= n <= dlen + 1
  {
    var d := if dlen < 0 then 0 else if dlen > DMX_SLOTS then DMX_SLOTS else dlen;
    if d % 2 == 1 then d + 1 else d
  }

  /** The 18-byte ArtDmx header for sequence number `sequence`, the 15-bit
      port-address taken from `absUniverse` and data length `dlen`. The C
      shifts and masks are written with Euclidean `/` and `%`, which agree
      with them on two's-complement ints with an arithmetic right shift. */
  function Header(sequence: uint8, absUniverse: int, dlen: int): (h: seq<uint8>)
    ensures |h| == ARTDMX_HDR
  {
    var uni := absUniverse % 16;
    var subSwitch := (absUniverse / 16) % 16;
    var net := (absUniverse / 256) % 128;
    var n := WireLength(dlen);
    ARTNET_ID + [0x00, 0x50, 0x00, 0x0E, sequence, 0x00, subSwitch * 16 + uni, net, n / 256, n % 256]
  }

  /** The SubUni byte is the low eight bits of the port-address. */
  lemma SubUniIsLowByte(u: int)
    ensures ((u / 16) % 16) * 16 + u % 16 == u % 256
    ensures u / 16 / 16 == u / 256
  {
    var a, b := u / 16, u % 16;
    var c, d := a / 16, a % 16;
    assert u == 256 * c + (16 * d + b);
    DivModUnique(u, 256, c, 16 * d + b);
  }

  /** The SubUni and Net bytes together carry the port-address modulo 2^15. */
  lemma PortAddressIsLow15Bits(u: int)
    ensures u % 256 + 256 * ((u / 256) % 128) == u % 0x8000
  {
    var a, b := u / 256, u % 256;
    var c, d := a / 128, a % 128;
    assert u == 0x8000 * c + (256 * d + b);
    DivModUnique(u, 0x8000, c, 256 * d + b);
  }

  /** Field by field, the header says what Art-Net 4 asks of an ArtDmx packet. */
  lemma HeaderFields(sequence: uint8, u: int, dlen: int)
    ensures var h := Header(sequence, u, dlen);
      h[..8] == ARTNET_ID &&
      Be16(h[9], h[8]) == OP_DMX &&                  // OpCode, low byte first
      Be16(h[10], h[11]) == 14 &&                    // ProtVer, high byte first
      h[12] == sequence && h[13] == 0 &&             // Sequence, Physical
      h[14] == u % 256 &&                            // SubUni
      h[15] == (u / 256) % 128 &&                    // Net
      Be16(h[15], h[14]) == u % 0x8000 &&            // the 15-bit port-address
      Be16(h[16], h[17]) == WireLength(dlen)         // Length, high byte first
  {
    var h := Header(sequence, u, dlen);
    SubUniIsLowByte(u);
    PortAddressIsLow15Bits(u);
    var n := WireLength(dlen);
    assert 256 * (n / 256) + n % 256 == n;
  }

  /** A whole ArtDmx packet carrying a full universe. */
  function Frame(sequence: uint8, absUniverse: int, dmx: seq<uint8>): (p: seq<uint8>)
    requires |dmx| == DMX_SLOTS
    ensures |p| == MAX_PACKET
    ensures p[..ARTDMX_HDR] == Header(sequence, absUniverse, DMX_SLOTS)
    ensures p[ARTDMX_HDR..] == dmx
  {
    Header(sequence, absUniverse, DMX_SLOTS) + dmx
  }

  /** The sequence number after `s`, as the byte counter wraps. */
  function NextSequence(s: uint8): (r: uint8)
    ensures r == if s == 255 then 0 else s + 1
  {
    (s + 1) % 256
  }

  /** The frame rate the sender uses for a requested one: 1..44 as given, anything else 40. */
  function FpsSetting(fps: int): (r: int)
    ensures 1 <= r <= 44
    ensures r == fps <==> 1 <= fps <= 44
    ensures !(1 <= fps <= 44) ==> r == 40
  {
    if fps > 0 && fps <= 44 then fps else 40
  }

  /** The nominal time between two frames of the sending thread, in ms. */
  function IntervalMs(fps: int): (ms: int)
    ensures fps > 0 ==> fps * ms <= 1000 < fps * (ms + 1)
    ensures fps <= 0 ==> ms == 25
  {
    if fps > 0 then 1000 / fps else 25
  }

  /** Every frame rate the sender accepts gives an interval of 22 to 1000 ms. */
  lemma {:induction false} IntervalOfAcceptedRates(fps: int)
    ensures 22 <= IntervalMs(FpsSetting(fps)) <= 1000
  {
    var r := FpsSetting(fps);
    var ms := IntervalMs(r);
    if ms < 22 {
      MulLeftMono(r, ms + 1, 22);
      assert false;
    }
    if ms > 1000 {
      MulLeftMono(r, 1, ms);
      assert false;
    }
  }

  /** The destination address for the text `ip` given what the system's
      address parser returned for it: the parser's result when it is valid,
      broadcast for exactly "255.255.255.255", and nothing otherwise. */
  function ResolveAddress(ip: string, parsed: uint32): (r: Option<uint32>)
    ensures r.None? <==> parsed == INADDR_NONE && ip != "255.255.255.255"
    ensures r.Some? ==> r.value == parsed
  {
    if parsed == INADDR_NONE then
      if ip == "255.255.255.255" then Some(INADDR_BROADCAST) else None
    else Some(parsed)
  }

  /** What the foreign calls made by `start_sender` report. */
  datatype Platform = Platform(
    wsaStartupOk: bool,     // WSAStartup returned 0
    socketOk: bool,         // socket() returned a valid handle
    inetAddr: uint32,       // what inet_addr returned for the ip text
    threadOk: bool)         // CreateThread returned a handle

  /** The sender's global state. */
  class Sender {
    var running: bool
    var sockOpen: bool          // the socket handle is not INVALID_SOCKET
    var dest: uint32            // the destination IPv4 address
    var destPort: int           // the destination UDP port
    var universe: int           // the universe handed to the sending thread
    var bufA: array<uint8>
    var bufB: array<uint8>
    var front: int              // 0: bufA is visible, 1: bufB is visible
    var packet: array<uint8>
    var packetLen: int
    var fps: int
    var sequence: uint8

    ghost predicate Valid()
      reads this
    {
      bufA.Length == DMX_SLOTS && bufB.Length == DMX_SLOTS && packet.Length == MAX_PACKET &&
      bufA != bufB && packet != bufA && packet != bufB &&
      (front == 0 || front == 1)
    }

    /** The buffer the sending thread reads. */
    ghost function Visible(): (s: seq<uint8>)
      reads this, bufA, bufB
      requires Valid()
      ensures |s| == DMX_SLOTS
    {
      if front == 0 then bufA[..] else bufB[..]
    }

    /** The buffer the next update writes. */
    ghost function Hidden(): (s: seq<uint8>)
      reads this, bufA, bufB
      requires Valid()
      ensures |s| == DMX_SLOTS
    {
      if front == 0 then bufB[..] else bufA[..]
    }

    /** The state of the library when it is loaded. */
    constructor ()
      ensures Valid() && fresh(bufA) && fresh(bufB) && fresh(packet)
      ensures !running && !sockOpen && front == 0 && fps == 40 && sequence == 1 && packetLen == 0
      ensures dest == 0 && destPort == 0
      ensures bufA[..] == Zeros() && bufB[..] == Zeros()
    {
      running, sockOpen, dest, destPort, universe := false, false, 0, 0, 0;
      bufA := new uint8[DMX_SLOTS](_ => 0);
      bufB := new uint8[DMX_SLOTS](_ => 0);
      packet := new uint8[MAX_PACKET](_ => 0);
      front, packetLen, fps, sequence := 0, 0, 40, 1;
    }

    static function Zeros(): (z: seq<uint8>)
      ensures |z| == DMX_SLOTS && forall i :: 0 <= i < DMX_SLOTS ==> z[i] == 0
    {
      seq(DMX_SLOTS, _ => 0)
    }

    /** `build_artnet_header`: write the header for the current sequence
        number into the first 18 bytes of `pkt`. */
    method BuildArtnetHeader(pkt: array<uint8>, absUniverse: int, dlen: int)
      requires pkt.Length >= ARTDMX_HDR
      modifies pkt
      ensures pkt[..ARTDMX_HDR] == Header(sequence, absUniverse, dlen)
      ensures pkt[ARTDMX_HDR..] == old(pkt[ARTDMX_HDR..])
    {
      ghost var h := Header(sequence, absUniverse, dlen);
      forall i | 0 <= i < 8 {
        pkt[i] := ARTNET_ID[i];
      }
      pkt[8], pkt[9] := 0x00, 0x50;
      pkt[10], pkt[11] := 0x00, 0x0E;
      pkt[12] := sequence;
      pkt[13] := 0x00;

      var uni := absUniverse % 16;
      var subSwitch := (absUniverse / 16) % 16;
      var net := (absUniverse / 256) % 128;
      pkt[14] := subSwitch * 16 + uni;
      pkt[15] := net;

      var d := dlen;
      if d < 0 {
        d := 0;
      }
      if d > DMX_SLOTS {
        d := DMX_SLOTS;
      }
      if d % 2 == 1 {
        d := d + 1;
      }
      assert d == WireLength(dlen);
      pkt[16] := d / 256;
      pkt[17] := d % 256;
      assert forall i :: 0 <= i < ARTDMX_HDR ==> pkt[..ARTDMX_HDR][i] == h[i];
    }

    /** One pass of the sending thread's loop, without its socket call and
        its sleep: when the sender is running, bump the sequence number and
        assemble a full packet from the visible buffer. */
    method SendStep() returns (assembled: bool)
      requires Valid()
      modifies this`sequence, this`packetLen, packet
      ensures assembled == old(running)
      ensures !assembled ==>
        sequence == old(sequence) && packetLen == old(packetLen) && packet[..] == old(packet[..])
      ensures assembled ==>
        sequence == NextSequence(old(sequence)) && packetLen == MAX_PACKET &&
        packet[..] == Frame(sequence, universe, Visible())
    {
      if !running {
        return false;
      }
      var src := if front == 0 then bufA else bufB;
      sequence := (sequence + 1) % 256;
      BuildArtnetHeader(packet, universe, DMX_SLOTS);
      forall i | 0 <= i < DMX_SLOTS {
        packet[ARTDMX_HDR + i] := src[i];
      }
      packetLen := MAX_PACKET;
      assert packet[..ARTDMX_HDR] == Header(sequence, universe, DMX_SLOTS);
      assert packet[ARTDMX_HDR..] == src[..];
      assert packet[..] == packet[..ARTDMX_HDR] + packet[ARTDMX_HDR..];
      return true;
    }

    /** The two memsets of `start_sender`: both buffers become all zeros. */
    method ClearBuffers()
      requires Valid()
      modifies bufA, bufB
      ensures bufA[..] == Zeros() && bufB[..] == Zeros()
    {
      forall i | 0 <= i < DMX_SLOTS {
        bufA[i] := 0;
      }
      forall i | 0 <= i < DMX_SLOTS {
        bufB[i] := 0;
      }
    }

    /** `start_sender(ip, universe, fps)`; the socket, address-parsing and
        thread calls report through `platform`. Returns 1 when already
        running, 0 on success, and -1, -2, -4 or -3 when WSAStartup, the
        socket, the address or the thread fails. */
    method Start(ip: string, univ: int, requestedFps: int, platform: Platform) returns (rc: int)
      requires Valid()
      modifies this, bufA, bufB
      ensures Valid() && bufA == old(bufA) && bufB == old(bufB) && packet == old(packet)
      ensures packetLen == old(packetLen) && unchanged(packet)
      ensures old(running) ==> rc == 1 && unchanged(this) && unchanged(bufA) && unchanged(bufB)
      ensures !old(running) && !platform.wsaStartupOk ==>
        rc == -1 && unchanged(this) && unchanged(bufA) && unchanged(bufB)
      ensures !old(running) && platform.wsaStartupOk && !platform.socketOk ==>
        rc == -2 && !running && !sockOpen && dest == old(dest) && destPort == old(destPort) &&
        universe == old(universe) && front == old(front) &&
        fps == old(fps) && sequence == old(sequence) && unchanged(bufA) && unchanged(bufB)
      ensures (!old(running) && platform.wsaStartupOk && platform.socketOk &&
               ResolveAddress(ip, platform.inetAddr).None?) ==>
        rc == -4 && !running && !sockOpen && dest == 0 && destPort == ARTNET_PORT &&
        universe == old(universe) && front == old(front) &&
        fps == old(fps) && sequence == old(sequence) && unchanged(bufA) && unchanged(bufB)
      ensures (!old(running) && platform.wsaStartupOk && platform.socketOk &&
               ResolveAddress(ip, platform.inetAddr).Some?) ==>
        dest == ResolveAddress(ip, platform.inetAddr).value && destPort == ARTNET_PORT &&
        bufA[..] == Zeros() && bufB[..] == Zeros() && front == 0 &&
        fps == FpsSetting(requestedFps) && sequence == 1 &&
        (platform.threadOk ==> rc == 0 && running && sockOpen && universe == univ) &&
        (!platform.threadOk ==> rc == -3 && !running && !sockOpen && universe == old(universe))
    {
      if running {
        return 1;
      }
      if !platform.wsaStartupOk {
        return -1;
      }
      if !platform.socketOk {
        sockOpen := false;
        return -2;
      }
      sockOpen := true;
      dest, destPort := 0, ARTNET_PORT;
      var addr := ResolveAddress(ip, platform.inetAddr);
      if addr.None? {
        sockOpen := false;
        return -4;
      }
      dest := addr.value;

      ClearBuffers();
      front := 0;

      fps := if requestedFps > 0 && requestedFps <= 44 then requestedFps else 40;
      sequence := 1;

      running := true;
      if !platform.threadOk {
        running := false;
        sockOpen := false;
        return -3;
      }
      universe := univ;
      return 0;
    }

    /** `update_dmx(data, len)`: copy the visible buffer into the hidden
        one, overwrite its first min(len, 512) bytes with `data`, and make it
        visible. A null `data` is `null`. */
    method UpdateDmx(data: array?<uint8>, len: int)
      requires Valid()
      requires data != null ==> data != bufA && data != bufB
      requires data != null && len > 0 ==> Min(len, DMX_SLOTS) <= data.Length
      modifies this`front, bufA, bufB
      ensures Valid()
      ensures !old(running) || data == null || len <= 0 ==>
        front == old(front) && unchanged(bufA) && unchanged(bufB)
      ensures old(running) && data != null && len > 0 ==>
        var n := Min(len, DMX_SLOTS);
        front == 1 - old(front) &&
        Visible() == data[..n] + old(Visible())[n..] &&
        Hidden() == old(Visible())
    {
      if !running {
        return;
      }
      if data == null || len <= 0 {
        return;
      }
      var n := len;
      if n > DMX_SLOTS {
        n := DMX_SLOTS;
      }
      ghost var was := Visible();
      if front == 0 {
        forall i | 0 <= i < DMX_SLOTS {
          bufB[i] := bufA[i];
        }
        forall i | 0 <= i < n {
          bufB[i] := data[i];
        }
        front := 1;
      } else {
        forall i | 0 <= i < DMX_SLOTS {
          bufA[i] := bufB[i];
        }
        forall i | 0 <= i < n {
          bufA[i] := data[i];
        }
        front := 0;
      }
      assert Visible() == data[..n] + was[n..];
    }

    /** `stop_sender`: clear the running flag and close the socket. */
    method Stop()
      requires Valid()
      modifies this`running, this`sockOpen
      ensures !running
      ensures !old(running) ==> sockOpen == old(sockOpen)
      ensures old(running) ==> !sockOpen
    {
      if !running {
        return;
      }
      running := false;
      sockOpen := false;
    }
  }
}
