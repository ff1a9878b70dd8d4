/**
 * The header builders of random_udp.py: build_udp_header packs the 8-byte
 * UDP header of RFC 768 and build_ip_header the 20-byte IPv4 header of
 * section 3.1 of RFC 791, both with struct.pack in network (big-endian)
 * order. Each encoder has a decoder beside it, and the two are proved
 * inverse; the builders are then stated through the decoders.
 */
module RandomUdp {
  import opened Common

  type byte = x: int | 0 <= x < 0x100
  type nibble = x: int | 0 <= x < 0x10
  type uint16 = x: int | 0 <= x < 0x1_0000

  /** DEFAULT_SRC_PORT: a source port of 0 stands for "the destination port". */
  const DefaultSrcPort := 0
  /** IP_HEADER_SIZE and UDP_HEADER_SIZE. */
  const IpHeaderSize := 20
  const UdpHeaderSize := 8
  /** socket.IPPROTO_UDP, the protocol number of UDP. */
  const IpProtoUdp: byte := 17

  predicate IsUint16(x: int) {
    0 <= x < 0x1_0000
  }

  /** The value of the big-endian 16-bit field whose bytes are `hi`, `lo`. */
  function Word16(hi: byte, lo: byte): uint16 {
    hi * 0x100 + lo
  }

  /** struct.pack('!H', x): two bytes, most significant first. */
  function Be16(x: uint16): (bs: seq<byte>)
    ensures |bs| == 2 && Word16(bs[0], bs[1]) == x
  {
    [x / 0x100, x % 0x100]
  }

  /** Two bytes are the encoding of the field they spell. */
  lemma Be16OfWord16(hi: byte, lo: byte)
    ensures Be16(Word16(hi, lo)) == [hi, lo]
  {
    var x := Word16(hi, lo);
    assert x / 0x100 == hi && x % 0x100 == lo;
  }

  /** The 16-bit field at byte offset `i`. */
  function Field16(bs: seq<byte>, i: nat): uint16
    requires i + 2 <= |bs|
  {
    Word16(bs[i], bs[i + 1])
  }

  // ---------------------------------------------------------------- UDP

  datatype UdpHeader = UdpHeader(srcPort: uint16, dstPort: uint16, length: uint16, checksum: uint16)

  /** struct.pack('!HHHH', ...): four 16-bit fields in the order of RFC 768. */
  function EncodeUdp(h: UdpHeader): (bs: seq<byte>)
    ensures |bs| == UdpHeaderSize
  {
    Be16(h.srcPort) + Be16(h.dstPort) + Be16(h.length) + Be16(h.checksum)
  }

  /** Reads the four fields of an 8-byte UDP header; anything of another length is not one. */
  function DecodeUdp(bs: seq<byte>): (h: Option<UdpHeader>)
    ensures h.Some? <==> |bs| == UdpHeaderSize
  {
    if |bs| != UdpHeaderSize then None
    else Some(UdpHeader(Field16(bs, 0), Field16(bs, 2), Field16(bs, 4), Field16(bs, 6)))
  }

  /** Every header reads back as itself. */
  lemma DecodeEncodeUdp(h: UdpHeader)
    ensures DecodeUdp(EncodeUdp(h)) == Some(h)
  {
    var bs := EncodeUdp(h);
    var a, b, c, d := Be16(h.srcPort), Be16(h.dstPort), Be16(h.length), Be16(h.checksum);
    assert bs[0] == a[0] && bs[1] == a[1] && bs[2] == b[0] && bs[3] == b[1];
    assert bs[4] == c[0] && bs[5] == c[1] && bs[6] == d[0] && bs[7] == d[1];
  }

  /** Every 8-byte string is the encoding of the header it reads as. */
  lemma EncodeDecodeUdp(bs: seq<byte>)
    requires |bs| == UdpHeaderSize
    ensures DecodeUdp(bs).Some? && EncodeUdp(DecodeUdp(bs).value) == bs
  {
    Be16OfWord16(bs[0], bs[1]);
    Be16OfWord16(bs[2], bs[3]);
    Be16OfWord16(bs[4], bs[5]);
    Be16OfWord16(bs[6], bs[7]);
    assert bs == [bs[0], bs[1]] + [bs[2], bs[3]] + [bs[4], bs[5]] + [bs[6], bs[7]];
  }

  /** The source port build_udp_header writes. */
  function EffectiveSrcPort(srcPort: int, dstPort: int): int {
    if srcPort == DefaultSrcPort then dstPort else srcPort
  }

  /**
   * build_udp_header(src_port, dst_port, length): the header of a datagram
   * carrying `length` bytes of data, with no checksum (all zeros). The pack
   * fails, and so does the model, when a field does not fit 16 bits.
   */
  function BuildUdpHeader(srcPort: int, dstPort: int, length: int): (r: Option<seq<byte>>)
    ensures r.Some? <==>
              IsUint16(EffectiveSrcPort(srcPort, dstPort)) && IsUint16(dstPort) && IsUint16(length + UdpHeaderSize)
    ensures r.Some? ==>
              && DecodeUdp(r.value).Some?
              && var h := DecodeUdp(r.value).value;
              && h.srcPort == (if srcPort == DefaultSrcPort then dstPort else srcPort)
              && h.dstPort == dstPort
              && h.length == length + UdpHeaderSize
              && h.checksum == 0
  {
    var src := EffectiveSrcPort(srcPort, dstPort);
    if IsUint16(src) && IsUint16(dstPort) && IsUint16(length + UdpHeaderSize) then
      var h := UdpHeader(src, dstPort, length + UdpHeaderSize, 0);
      DecodeEncodeUdp(h);
      Some(EncodeUdp(h))
    else
      None
  }

  /**
   * The raw-socket send loop: the ports have passed the option checks, the
   * MTU is a positive 16-bit number and the payload length is drawn from
   * 1 .. MTU - 28. The UDP header is then always built, and IP header, UDP
   * header and payload together fit the MTU.
   */
  lemma RawPacketFits(srcPort: int, dstPort: int, mtu: int, length: int, srcAddr: seq<byte>, dstAddr: seq<byte>)
    requires 0 < dstPort <= 0xFFFF
    requires srcPort == DefaultSrcPort || 0 < srcPort <= 0xFFFF
    requires 0 < mtu <= 0xFFFF
    requires 1 <= length <= mtu - IpHeaderSize - UdpHeaderSize
    requires |srcAddr| == 4 && |dstAddr| == 4
    ensures BuildUdpHeader(srcPort, dstPort, length).Some?
    ensures |BuildIpHeader(srcAddr, dstAddr)| + |BuildUdpHeader(srcPort, dstPort, length).value| + length <= mtu
  {
  }

  // ---------------------------------------------------------------- IPv4

  /** The fields of an option-less IPv4 header; the addresses are inet_aton's 4 bytes. */
  datatype Ipv4Header = Ipv4Header(
    version: nibble, ihl: nibble, tos: byte, totalLength: uint16,
    identification: uint16, fragment: uint16, ttl: byte, protocol: byte,
    checksum: uint16, srcAddr: seq<byte>, dstAddr: seq<byte>)

  predicate HasAddresses(h: Ipv4Header) {
    |h.srcAddr| == 4 && |h.dstAddr| == 4
  }

  /** struct.pack('!BBHHHBBH4s4s', ...), the first byte being (version << 4) | ihl. */
  function EncodeIp(h: Ipv4Header): (bs: seq<byte>)
    requires HasAddresses(h)
    ensures |bs| == IpHeaderSize
  {
    var t, i, f, c := Be16(h.totalLength), Be16(h.identification), Be16(h.fragment), Be16(h.checksum);
    [h.version * 0x10 + h.ihl, h.tos, t[0], t[1], i[0], i[1], f[0], f[1], h.ttl, h.protocol, c[0], c[1]]
      + h.srcAddr + h.dstAddr
  }

  /** Reads the fields of a 20-byte IPv4 header; anything of another length is not one. */
  function DecodeIp(bs: seq<byte>): (h: Option<Ipv4Header>)
    ensures h.Some? <==> |bs| == IpHeaderSize
    ensures h.Some? ==> HasAddresses(h.value)
  {
    if |bs| != IpHeaderSize then None
    else Some(Ipv4Header(bs[0] / 0x10, bs[0] % 0x10, bs[1], Field16(bs, 2), Field16(bs, 4),
                         Field16(bs, 6), bs[8], bs[9], Field16(bs, 10), bs[12..16], bs[16..20]))
  }

  /** Every header reads back as itself. */
  lemma DecodeEncodeIp(h: Ipv4Header)
    requires HasAddresses(h)
    ensures DecodeIp(EncodeIp(h)) == Some(h)
  {
    var bs := EncodeIp(h);
    NibblesOfByte(h.version, h.ihl);
    assert bs[12..16] == h.srcAddr && bs[16..20] == h.dstAddr;
  }

  /** The first byte of the header holds the version in its high and the IHL in its low four bits. */
  lemma NibblesOfByte(hi: nibble, lo: nibble)
    ensures (hi * 0x10 + lo) / 0x10 == hi && (hi * 0x10 + lo) % 0x10 == lo
  {
  }

  /** Every 20-byte string is the encoding of the header it reads as. */
  lemma EncodeDecodeIp(bs: seq<byte>)
    requires |bs| == IpHeaderSize
    ensures DecodeIp(bs).Some? && EncodeIp(DecodeIp(bs).value) == bs
  {
    Be16OfWord16(bs[2], bs[3]);
    Be16OfWord16(bs[4], bs[5]);
    Be16OfWord16(bs[6], bs[7]);
    Be16OfWord16(bs[10], bs[11]);
    assert bs == bs[..12] + bs[12..16] + bs[16..20];
  }

  /**
   * build_ip_header(src_ip, dst_ip): version 4 with a five-word header, type
   * of service 0, total length and checksum 0 (left to the kernel),
   * identification 0xBEEF, no fragmentation, TTL 255, protocol UDP, then
   * the two addresses.
   */
  function BuildIpHeader(srcAddr: seq<byte>, dstAddr: seq<byte>): (bs: seq<byte>)
    requires |srcAddr| == 4 && |dstAddr| == 4
    ensures |bs| == IpHeaderSize && bs[0] == 0x45
    ensures DecodeIp(bs) == Some(Ipv4Header(4, 5, 0, 0, 0xBEEF, 0, 255, IpProtoUdp, 0, srcAddr, dstAddr))
  {
    var h := Ipv4Header(4, 5, 0, 0, 0xBEEF, 0, 255, IpProtoUdp, 0, srcAddr, dstAddr);
    DecodeEncodeIp(h);
    EncodeIp(h)
  }
}
