/** 5-tuple extraction (src/net/flow.c, src/net/tcp_udp.c). */
module Flow {
  import opened MachineInts
  import opened RoutingSnapshot
  import opened ConntrackSpec
  import opened Ipv4
  import opened Gre

  const TCP_MIN_HDR_LEN: nat := 20
  const UDP_HDR_LEN: nat := 8

  datatype Extracted = Flow(key: FlowKey, ipOffset: nat, ipTotalLen: nat) | Truncated | Unsupported

  function L4Min(protocol: u8): nat {
    if protocol == IPPROTO_TCP then TCP_MIN_HDR_LEN else UDP_HDR_LEN
  }

  /** `packet_extract_flow`. The transport header is checked against the received
      frame, not against the IPv4 total length. */
  function ExtractFlow(buf: Bytes): (r: Extracted)
    ensures r.Flow? ==> r.ipOffset == ETH_HDR_LEN && HDR_LEN <= r.ipTotalLen <= |buf| - ETH_HDR_LEN
  {
    var eth := EthParse(buf);
    if eth.None? then Truncated
    else if eth.value.ethertype != ETH_TYPE_IP then Unsupported
    else
      var ip := Parse(buf[ETH_HDR_LEN..]);
      if ip.None? then Truncated
      else if ip.value.protocol != IPPROTO_TCP && ip.value.protocol != IPPROTO_UDP then Unsupported
      else
        var l4 := ETH_HDR_LEN + ip.value.headerLen;
        if |buf| - l4 < L4Min(ip.value.protocol) then Truncated
        else Flow(FlowKey(ip.value.src, ip.value.dst, Value2(buf[l4..l4 + 2]), Value2(buf[l4 + 2..l4 + 4]),
                          ip.value.protocol),
                  ETH_HDR_LEN, ip.value.totalLength)
  }

  /** The IP packet the datapath forwards. */
  function InnerPacket(buf: Bytes): (p: Bytes)
    requires ExtractFlow(buf).Flow?
    ensures |p| == ExtractFlow(buf).ipTotalLen
  {
    buf[ETH_HDR_LEN..ETH_HDR_LEN + ExtractFlow(buf).ipTotalLen]
  }

  /** Trailing bytes after the declared length do not change what the header parser sees. */
  lemma ParseIgnoresPadding(buf: Bytes)
    requires Parse(buf).Some?
    ensures Parse(buf[..Parse(buf).value.totalLength]) == Parse(buf)
  {
    var short := buf[..Parse(buf).value.totalLength];
    assert short[12..16] == buf[12..16] && short[16..20] == buf[16..20];
  }

  /** The backend that decapsulates the forwarded packet sees the same flow exactly
      when the transport header lies within the IPv4 total length; otherwise the
      datapath read the ports from link-layer padding. */
  lemma BackendSeesSameFlow(buf: Bytes, eth: Bytes)
    requires ExtractFlow(buf).Flow? && |eth| == ETH_HDR_LEN && EthParse(eth).value.ethertype == ETH_TYPE_IP
    ensures var ip := Parse(buf[ETH_HDR_LEN..]).value;
            ExtractFlow(eth + InnerPacket(buf)) == ExtractFlow(buf)
            <==> ip.headerLen + L4Min(ip.protocol) <= ip.totalLength
  {
    var outer := eth + InnerPacket(buf);
    var ip := Parse(buf[ETH_HDR_LEN..]).value;
    ParseIgnoresPadding(buf[ETH_HDR_LEN..]);
    assert InnerPacket(buf) == buf[ETH_HDR_LEN..][..ip.totalLength];
    assert outer[ETH_HDR_LEN..] == InnerPacket(buf);
    assert outer[12] == eth[12] && outer[13] == eth[13];
    var l4 := ETH_HDR_LEN + ip.headerLen;
    if ip.headerLen + L4Min(ip.protocol) <= ip.totalLength {
      assert forall k :: ETH_HDR_LEN <= k < |outer| ==> outer[k] == buf[k];
      assert outer[l4..l4 + 2] == buf[l4..l4 + 2];
      assert outer[l4 + 2..l4 + 4] == buf[l4 + 2..l4 + 4];
    }
  }

  /** A packet that is nothing but its IP header, in a frame padded as short Ethernet
      frames are: the datapath takes the ports from the padding, and the packet it
      forwards has none. */
  lemma PaddedFrameLosesPorts(eth: Bytes, h: Header, pad: Bytes)
    requires |eth| == ETH_HDR_LEN && EthParse(eth).value.ethertype == ETH_TYPE_IP
    requires h.protocol == IPPROTO_UDP && h.totalLen == HDR_LEN && |pad| >= UDP_HDR_LEN
    ensures var buf := eth + HeaderBytes(h) + pad;
            && ExtractFlow(buf).Flow?
            && ExtractFlow(buf).key == FlowKey(h.src, h.dst, Value2(pad[..2]), Value2(pad[2..4]), IPPROTO_UDP)
            && ExtractFlow(eth + InnerPacket(buf)) == Truncated
  {
    var buf := eth + HeaderBytes(h) + pad;
    assert buf[12] == eth[12] && buf[13] == eth[13];
    assert buf[ETH_HDR_LEN..] == HeaderBytes(h) + pad;
    ParseBuilt(h, pad);
    assert buf[34..36] == pad[..2] && buf[36..38] == pad[2..4];
    var outer := eth + InnerPacket(buf);
    assert InnerPacket(buf) == HeaderBytes(h) + [];
    assert outer[ETH_HDR_LEN..] == HeaderBytes(h) + [];
    assert outer[12] == eth[12] && outer[13] == eth[13];
    ParseBuilt(h, []);
  }
}
