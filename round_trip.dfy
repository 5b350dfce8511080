/** The sender library and the test receiver meet on the wire: every frame
    the sender assembles is an Art-Net datagram that the receiver decodes
    back into the sequence number, port-address and DMX data it was built from. */
module RoundTrip {
  import opened Common
  import DmxSender
  import TestNode

  /** The bytes after the ID and OpCode of a frame decode to the values it was built from. */
  lemma FrameDecodes(sequence: uint8, u: int, dmx: seq<uint8>)
    requires |dmx| == DMX_SLOTS
    ensures var r := TestNode.ParseArtDmx(DmxSender.Frame(sequence, u, dmx)[10..]);
      r.Ok? &&
      r.value.protVer == (0, 14) &&
      r.value.sequence == sequence &&
      r.value.physical == 0 &&
      r.value.subuniByte == u % 256 &&
      r.value.net == (u / 256) % 128 &&
      r.value.absoluteUniverse == u % 0x8000 &&
      r.value.length == DMX_SLOTS &&
      r.value.data == dmx
  {
    var p := DmxSender.Frame(sequence, u, dmx);
    var h := DmxSender.Header(sequence, u, DMX_SLOTS);
    DmxSender.HeaderFields(sequence, u, DMX_SLOTS);
    assert p[..DmxSender.ARTDMX_HDR] == h;
    var payload := p[10..];
    assert payload[..8] == h[10..];
    assert payload[8..] == dmx;
    var r := TestNode.ParseArtDmx(payload);
    assert Be16(payload[6], payload[7]) == DMX_SLOTS;
    assert r.Ok?;
    assert r.value.absoluteUniverse == Be16(h[15], h[14]);
  }

  /** The receive loop recognises every frame as an ArtDmx packet and shows
      it when no filter is given. */
  lemma FrameIsShown(sequence: uint8, u: int, dmx: seq<uint8>)
    requires |dmx| == DMX_SLOTS
    ensures var p := DmxSender.Frame(sequence, u, dmx);
      TestNode.IsArtNet(p) && TestNode.OpCode(p) == OP_DMX &&
      TestNode.Classify(p, TestNode.NoFilters) == TestNode.Dmx(TestNode.ParseArtDmx(p[10..]).value)
  {
    var p := DmxSender.Frame(sequence, u, dmx);
    DmxSender.HeaderFields(sequence, u, DMX_SLOTS);
    assert p[..8] == DmxSender.Header(sequence, u, DMX_SLOTS)[..8];
    assert p[8] == 0x00 && p[9] == 0x50;
    FrameDecodes(sequence, u, dmx);
  }

  /** A frame passes --filter-abs a exactly when a is the low 15 bits of its universe. */
  lemma FrameAbsoluteFilter(sequence: uint8, u: int, dmx: seq<uint8>, a: int)
    requires |dmx| == DMX_SLOTS
    ensures var p := DmxSender.Frame(sequence, u, dmx);
      TestNode.Classify(p, TestNode.Filters(None, None, Some(a))).Dmx? <==> a == u % 0x8000
  {
    FrameIsShown(sequence, u, dmx);
    FrameDecodes(sequence, u, dmx);
  }
}
