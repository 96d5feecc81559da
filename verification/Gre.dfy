/** Ethernet and GRE framing (src/net/eth.c, src/net/gre.c); section 2.1 of RFC 2784. */
module Gre {
  import opened Wrappers
  import opened MachineInts
  import opened MaglevTable
  import opened Ipv4

  const ETH_HDR_LEN: nat := 14
  const GRE_HDR_LEN: nat := 4
  const ETH_TYPE_IP: u16 := 0x0800
  const IPPROTO_GRE: u8 := 47
  const ENCAP_LEN: nat := 38

  datatype EthView = EthView(dstMac: Bytes, srcMac: Bytes, ethertype: u16)

  /** `eth_parse` */
  function EthParse(buf: Bytes): (r: Option<EthView>)
    ensures r.Some? <==> |buf| >= ETH_HDR_LEN
  {
    if |buf| < ETH_HDR_LEN then None else Some(EthView(buf[..6], buf[6..12], Word(buf[12], buf[13])))
  }

  /** `gre_parse`: the protocol type of a minimal header. */
  function GreParse(buf: Bytes): (r: Option<u16>) {
    if |buf| < GRE_HDR_LEN || Word(buf[0], buf[1]) != 0 then None else Some(Word(buf[2], buf[3]))
  }

  datatype Encap = Encap(dstMac: Mac, srcMac: Mac, src: u32, dst: u32, ttl: u8)

  function EthBytes(e: Encap): (b: Bytes)
    ensures |b| == ETH_HDR_LEN
  {
    e.dstMac + e.srcMac + [0x08, 0x00]
  }

  /** The outer header; its length field is truncated to 16 bits. */
  function OuterHeader(e: Encap, innerLen: nat): Header {
    Header(e.src, e.dst, IPPROTO_GRE, (HDR_LEN + GRE_HDR_LEN + innerLen) % 0x1_0000, e.ttl)
  }

  function GreBytes(): (b: Bytes)
    ensures |b| == GRE_HDR_LEN
  {
    [0x00, 0x00, 0x08, 0x00]
  }

  /** The frame `gre_encap_build` writes. */
  function Frame(e: Encap, inner: Bytes): (f: Bytes)
    ensures |f| == ENCAP_LEN + |inner|
  {
    EthBytes(e) + HeaderBytes(OuterHeader(e, |inner|)) + GreBytes() + inner
  }

  // ------------------------------------------------------------ writing the buffer

  /** `eth_build` at the start of the buffer. */
  method EthBuild(out: array<u8>, e: Encap)
    requires ETH_HDR_LEN <= out.Length
    modifies out
    ensures out[..] == EthBytes(e) + old(out[ETH_HDR_LEN..])
  {
    for i := 0 to 6
      invariant forall k :: 0 <= k < i ==> out[k] == e.dstMac[k] && out[6 + k] == e.srcMac[k]
      invariant forall k :: ETH_HDR_LEN <= k < out.Length ==> out[k] == old(out[k])
    {
      out[i] := e.dstMac[i];
      out[6 + i] := e.srcMac[i];
    }
    out[12] := 0x08; // ETH_TYPE_IP >> 8
    out[13] := 0x00; // ETH_TYPE_IP & 0xFF
  }

  /** `gre_build` */
  method GreBuild(out: array<u8>, off: nat)
    requires off + GRE_HDR_LEN <= out.Length
    modifies out
    ensures out[..] == old(out[..off]) + GreBytes() + old(out[off + GRE_HDR_LEN..])
  {
    out[off] := 0x00;
    out[off + 1] := 0x00;
    out[off + 2] := 0x08; // ETH_TYPE_IP >> 8
    out[off + 3] := 0x00; // ETH_TYPE_IP & 0xFF
  }

  /** `gre_encap_build`: 0 and nothing written when the frame does not fit, else
      the frame at the start of the buffer and nothing else changed. */
  method EncapBuild(out: array<u8>, e: Encap, inner: Bytes) returns (n: nat)
    modifies out
    ensures n == if ENCAP_LEN + |inner| > out.Length then 0 else ENCAP_LEN + |inner|
    ensures out[..] == if n == 0 then old(out[..]) else Frame(e, inner) + old(out[n..])
  {
    var total := ETH_HDR_LEN + HDR_LEN + GRE_HDR_LEN + |inner|;
    if total > out.Length {
      return 0;
    }
    ghost var before := out[..];
    var h := OuterHeader(e, |inner|);
    EthBuild(out, e);
    ghost var o1 := out[..];
    assert o1[..ETH_HDR_LEN] == EthBytes(e) && o1[ETH_HDR_LEN + HDR_LEN..] == before[ETH_HDR_LEN + HDR_LEN..];
    Build(out, ETH_HDR_LEN, h);
    ghost var o2 := out[..];
    assert o2[..34] == EthBytes(e) + HeaderBytes(h) && o2[38..] == before[38..];
    GreBuild(out, ETH_HDR_LEN + HDR_LEN);
    ghost var o3 := out[..];
    assert o3[..38] == EthBytes(e) + HeaderBytes(h) + GreBytes() && o3[total..] == before[total..];
    Write(out, ENCAP_LEN, inner);
    return total;
  }

  // ------------------------------------------------------------ decapsulation

  datatype Decapped = Decapped(dstMac: Bytes, srcMac: Bytes, src: u32, dst: u32, inner: Bytes)

  /** What a receiver that uses the three parsers recovers. */
  function Decap(frame: Bytes): (r: Option<Decapped>) {
    var eth := EthParse(frame);
    if eth.None? || eth.value.ethertype != ETH_TYPE_IP then None else
      var ip := Parse(frame[ETH_HDR_LEN..]);
      if ip.None? then None else DecapIp(frame, eth.value, ip.value)
  }

  function DecapIp(frame: Bytes, eth: EthView, ip: HdrView): (r: Option<Decapped>)
    requires ip.headerLen <= ip.totalLength <= |frame| - ETH_HDR_LEN
  {
    var greOff, end := ETH_HDR_LEN + ip.headerLen, ETH_HDR_LEN + ip.totalLength;
    if ip.protocol != IPPROTO_GRE || GreParse(frame[greOff..end]) != Some(ETH_TYPE_IP) then None
    else Some(Decapped(eth.dstMac, eth.srcMac, ip.src, ip.dst, frame[greOff + GRE_HDR_LEN..end]))
  }

  lemma MinimalGreParses(g: Bytes)
    requires |g| >= GRE_HDR_LEN && g[..GRE_HDR_LEN] == GreBytes()
    ensures GreParse(g) == Some(ETH_TYPE_IP)
  {
    var b := g[..GRE_HDR_LEN];
    assert g[0] == b[0] && g[1] == b[1] && g[2] == b[2] && g[3] == b[3];
  }

  lemma FrameParts(e: Encap, inner: Bytes)
    ensures var f := Frame(e, inner);
            && EthParse(f) == Some(EthView(e.dstMac, e.srcMac, ETH_TYPE_IP))
            && f[ETH_HDR_LEN..] == HeaderBytes(OuterHeader(e, |inner|)) + (GreBytes() + inner)
            && f[34..38] == GreBytes() && f[38..] == inner
  {
    var f := Frame(e, inner);
    assert f[..6] == e.dstMac && f[6..12] == e.srcMac;
    assert f[ETH_HDR_LEN..] == HeaderBytes(OuterHeader(e, |inner|)) + (GreBytes() + inner);
  }

  /** A 20-byte header and a length that ends the frame. */
  lemma DecapWhole(f: Bytes, eth: EthView, ip: HdrView)
    requires ip.protocol == IPPROTO_GRE && ip.headerLen == HDR_LEN
    requires ETH_HDR_LEN + ip.totalLength == |f| && |f| >= 38 && f[34..38] == GreBytes()
    ensures DecapIp(f, eth, ip) == Some(Decapped(eth.dstMac, eth.srcMac, ip.src, ip.dst, f[38..]))
  {
    assert f[34..|f|][..GRE_HDR_LEN] == f[34..38];
    MinimalGreParses(f[34..|f|]);
    assert f[38..|f|] == f[38..];
  }

  lemma DecapFits(e: Encap, inner: Bytes)
    requires HDR_LEN + GRE_HDR_LEN + |inner| <= 65535
    ensures Decap(Frame(e, inner)) == Some(Decapped(e.dstMac, e.srcMac, e.src, e.dst, inner))
  {
    var h := OuterHeader(e, |inner|);
    FrameParts(e, inner);
    ParseBuilt(h, GreBytes() + inner);
    DecapWhole(Frame(e, inner), EthView(e.dstMac, e.srcMac, ETH_TYPE_IP),
               HdrView(5, h.protocol, h.totalLen, h.src, h.dst, HDR_LEN));
  }

  lemma DecapTooLong(e: Encap, inner: Bytes)
    requires HDR_LEN + GRE_HDR_LEN + |inner| > 65535
    ensures Decap(Frame(e, inner)).Some? ==> |Decap(Frame(e, inner)).value.inner| < |inner|
  {
    var h := OuterHeader(e, |inner|);
    FrameParts(e, inner);
    ParseBuilt(h, GreBytes() + inner);
  }

  /** Decapsulating a built frame gives back the addresses and exactly the inner
      packet, if and only if the outer length fits its 16-bit field. */
  lemma DecapIffFits(e: Encap, inner: Bytes)
    ensures Decap(Frame(e, inner)) == Some(Decapped(e.dstMac, e.srcMac, e.src, e.dst, inner))
            <==> HDR_LEN + GRE_HDR_LEN + |inner| <= 65535
  {
    if HDR_LEN + GRE_HDR_LEN + |inner| <= 65535 {
      DecapFits(e, inner);
    } else {
      DecapTooLong(e, inner);
    }
  }
}
