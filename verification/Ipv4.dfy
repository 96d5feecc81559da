/** IPv4 headers and the Internet checksum (src/net/ipv4.c); section 1 of RFC 1071,
    section 3.1 of RFC 791. */
module Ipv4 {
  import opened Wrappers
  import opened MachineInts

  const HDR_LEN: nat := 20
  const TWO32: int := 0x1_0000_0000

  type Bytes = seq<u8>

  // ------------------------------------------------------------ opaque addresses

  /** The memory of a 32-bit address value, as copied in and out of a header. */
  function Bytes4(ip: u32): (b: Bytes)
    ensures |b| == 4
  {
    [ip % 256, ip / 256 % 256, ip / 256 / 256 % 256, ip / 256 / 256 / 256]
  }

  function Value4(b: Bytes): (ip: u32)
    requires |b| == 4
  {
    var b0: int, b1: int, b2: int, b3: int := b[0], b[1], b[2], b[3];
    b0 + 256 * (b1 + 256 * (b2 + 256 * b3))
  }

  lemma Value4OfBytes4(ip: u32)
    ensures Value4(Bytes4(ip)) == ip
  {
  }

  function Value2(b: Bytes): (v: u16)
    requires |b| == 2
  {
    var b0: int, b1: int := b[0], b[1];
    b0 + 256 * b1
  }

  // ------------------------------------------------------------ checksum

  /** A big-endian 16-bit word. */
  function Word(hi: u8, lo: u8): (w: u16) {
    256 * hi + lo
  }

  /** The sum of the 16-bit words, a last odd byte padded with zero. */
  function WordSum(data: Bytes): (s: nat) {
    if |data| == 0 then 0
    else if |data| == 1 then Word(data[0], 0)
    else Word(data[0], data[1]) + WordSum(data[2..])
  }

  /** End-around carry until the sum fits 16 bits. */
  function Fold(s: nat): (r: u16) {
    if s < 0x1_0000 then s else Fold(s % 0x1_0000 + s / 0x1_0000)
  }

  /** Folding is the residue modulo 65535, with 65535 rather than 0 for non-zero sums. */
  lemma {:induction false} FoldResidue(s: nat)
    ensures Fold(s) == if s == 0 then 0 else (s - 1) % 65535 + 1
  {
    if s < 0x1_0000 {
      if s > 0 {
        DivModUnique(s - 1, 65535, 0, s - 1);
      }
    } else {
      var t := s % 0x1_0000 + s / 0x1_0000;
      FoldResidue(t);
      var q, r := (t - 1) / 65535, (t - 1) % 65535;
      assert s - 1 == 65535 * (s / 0x1_0000 + q) + r;
      DivModUnique(s - 1, 65535, s / 0x1_0000 + q, r);
    }
  }

  /** The one's complement of the folded word sum. */
  function ChecksumSpec(data: Bytes): (c: u16) {
    65535 - Fold(WordSum(data))
  }

  lemma {:induction false} WordSumBound(data: Bytes)
    ensures WordSum(data) <= 65535 * ((|data| + 1) / 2)
  {
    if |data| >= 2 {
      WordSumBound(data[2..]);
    }
  }

  lemma WrapAdd(exact: nat, w: nat)
    ensures (exact % TWO32 + w) % TWO32 == (exact + w) % TWO32
  {
    var q, r := exact / TWO32, exact % TWO32;
    var x := r + w;
    assert exact + w == TWO32 * (q + x / TWO32) + x % TWO32;
    DivModUnique(exact + w, TWO32, q + x / TWO32, x % TWO32);
  }

  /** The accumulation loop; the 32-bit accumulator wraps as it does in C. */
  method SumWords(data: Bytes) returns (sum: u32)
    ensures sum == WordSum(data) % TWO32
  {
    sum := 0;
    var i: nat := 0;
    ghost var exact: nat := 0;
    assert data[0..] == data;
    while i + 1 < |data|
      invariant i <= |data|
      invariant sum == exact % TWO32
      invariant exact + WordSum(data[i..]) == WordSum(data)
      decreases |data| - i
    {
      var word := Word(data[i], data[i + 1]);
      assert data[i..][2..] == data[i + 2..];
      WrapAdd(exact, word);
      exact := exact + word;
      sum := (sum + word) % TWO32;
      i := i + 2;
    }
    if i < |data| {
      var word := Word(data[i], 0);
      WrapAdd(exact, word);
      exact := exact + word;
      sum := (sum + word) % TWO32;
    }
    assert exact == WordSum(data);
  }

  /** The carry loop. */
  method FoldSum(start: u32) returns (sum: u16)
    ensures sum == Fold(start)
  {
    var s: u32 := start;
    while s / 0x1_0000 != 0
      invariant Fold(s) == Fold(start)
      decreases s
    {
      s := s % 0x1_0000 + s / 0x1_0000;
    }
    return s;
  }

  lemma SumFits(data: Bytes)
    ensures |data| <= 131074 ==> WordSum(data) % TWO32 == WordSum(data)
  {
    WordSumBound(data);
    if |data| <= 131074 {
      SmallMod(WordSum(data), TWO32);
    }
  }

  /** `ipv4_checksum` */
  method Checksum(data: Bytes) returns (c: u16)
    ensures c == 65535 - Fold(WordSum(data) % TWO32)
    ensures |data| <= 131074 ==> c == ChecksumSpec(data)
  {
    var sum := SumWords(data);
    var folded := FoldSum(sum);
    SumFits(data);
    return 65535 - folded;
  }

  function Ones(n: nat): (d: Bytes)
    ensures |d| == n
  {
    seq(n, _ => 255)
  }

  lemma {:induction false} OnesSum(n: nat)
    ensures WordSum(Ones(n)) == 65535 * (n / 2) + if n % 2 == 1 then 65280 else 0
  {
    if n >= 2 {
      assert Ones(n)[2..] == Ones(n - 2);
      OnesSum(n - 2);
    }
  }

  /** 131074 bytes is exactly how far the 32-bit accumulator is always exact. */
  lemma AccumulatorExactIff(n: nat)
    ensures (forall data: Bytes :: |data| == n ==> WordSum(data) < TWO32) <==> n <= 131074
  {
    if n <= 131074 {
      forall data: Bytes | |data| == n
        ensures WordSum(data) < TWO32
      {
        WordSumBound(data);
      }
    } else {
      OnesSum(n);
      assert |Ones(n)| == n && WordSum(Ones(n)) >= TWO32;
    }
  }

  /** Replacing word k of the data. */
  lemma {:induction false} WordSumReplace(data: Bytes, k: nat, hi: u8, lo: u8)
    requires 2 * k + 1 < |data|
    ensures WordSum(data[2 * k := hi][2 * k + 1 := lo])
            == WordSum(data) - Word(data[2 * k], data[2 * k + 1]) + Word(hi, lo)
  {
    var data' := data[2 * k := hi][2 * k + 1 := lo];
    if k == 0 {
      assert data'[2..] == data[2..];
    } else {
      assert data'[2..] == data[2..][2 * (k - 1) := hi][2 * (k - 1) + 1 := lo];
      WordSumReplace(data[2..], k - 1, hi, lo);
    }
  }

  /** A region verifies exactly when its word sum is a positive multiple of 65535. */
  lemma VerifiesIff(data: Bytes)
    ensures ChecksumSpec(data) == 0 <==> WordSum(data) > 0 && WordSum(data) % 65535 == 0
  {
    var s := WordSum(data);
    FoldResidue(s);
    if s > 0 {
      SuccDivMod(s - 1, 65535);
    }
  }

  // ------------------------------------------------------------ building a header

  datatype Header = Header(src: u32, dst: u32, protocol: u8, totalLen: u16, ttl: u8)

  function Unsummed(h: Header): (b: Bytes)
    ensures |b| == HDR_LEN
  {
    [0x45, 0x00, h.totalLen / 256, h.totalLen % 256, 0x00, 0x00, 0x40, 0x00, h.ttl, h.protocol, 0x00, 0x00]
    + Bytes4(h.src) + Bytes4(h.dst)
  }

  function HeaderBytes(h: Header): (b: Bytes)
    ensures |b| == HDR_LEN
  {
    var c := ChecksumSpec(Unsummed(h));
    Unsummed(h)[10 := c / 256][11 := c % 256]
  }

  /** Every header that is built verifies, for all field values. */
  lemma BuiltHeaderVerifies(h: Header)
    ensures ChecksumSpec(HeaderBytes(h)) == 0
  {
    var b := Unsummed(h);
    var s, c := WordSum(b), ChecksumSpec(b);
    assert s >= Word(0x45, 0x00);
    WordSumReplace(b, 5, c / 256, c % 256);
    FoldResidue(s);
    var q := (s - 1) / 65535;
    assert s + c == 65535 * (q + 1);
    DivModUnique(s + c, 65535, q + 1, 0);
    VerifiesIff(HeaderBytes(h));
  }

  /** Copies bytes into the buffer at an offset, one by one. */
  method Write(out: array<u8>, off: nat, b: Bytes)
    requires off + |b| <= out.Length
    modifies out
    ensures out[..] == old(out[..off]) + b + old(out[off + |b|..])
  {
    ghost var before := out[..];
    for i := 0 to |b|
      invariant out[..] == before[..off] + b[..i] + before[off + i..]
    {
      out[off + i] := b[i];
    }
  }

  /** `ipv4_build`, writing at an offset of the frame buffer. */
  method Build(out: array<u8>, off: nat, h: Header)
    requires off + HDR_LEN <= out.Length
    modifies out
    ensures out[..] == old(out[..off]) + HeaderBytes(h) + old(out[off + HDR_LEN..])
  {
    ghost var before := out[..];
    var b := Unsummed(h);
    Write(out, off, b);
    assert out[off..off + HDR_LEN] == b;
    var c := Checksum(out[off..off + HDR_LEN]);
    out[off + 10] := c / 256;
    out[off + 11] := c % 256;
  }

  // ------------------------------------------------------------ parsing

  datatype HdrView = HdrView(ihlWords: u8, protocol: u8, totalLength: u16, src: u32, dst: u32, headerLen: nat)

  /** `ipv4_parse` */
  function Parse(buf: Bytes): (r: Option<HdrView>)
    ensures r.Some? ==>
              && HDR_LEN <= r.value.headerLen <= r.value.totalLength <= |buf|
              && r.value.headerLen <= 60
  {
    if |buf| < HDR_LEN then None else
      var version, ihl := buf[0] / 16, buf[0] % 16;
      if version != 4 || ihl < 5 then None else
        var headerLen := ihl * 4;
        if headerLen > |buf| then None else
          var total := Word(buf[2], buf[3]);
          if total < headerLen || total > |buf| then None
          else Some(HdrView(ihl, buf[9], total, Value4(buf[12..16]), Value4(buf[16..20]), headerLen))
  }

  /** Parsing a built header returns its fields, provided the declared length
      covers the header and fits the buffer. */
  lemma ParseBuilt(h: Header, rest: Bytes)
    ensures Parse(HeaderBytes(h) + rest) ==
            if HDR_LEN <= h.totalLen <= HDR_LEN + |rest|
            then Some(HdrView(5, h.protocol, h.totalLen, h.src, h.dst, HDR_LEN)) else None
  {
    var buf := HeaderBytes(h) + rest;
    assert buf[12..16] == Bytes4(h.src);
    assert buf[16..20] == Bytes4(h.dst);
    Value4OfBytes4(h.src);
    Value4OfBytes4(h.dst);
    assert Word(buf[2], buf[3]) == h.totalLen;
  }
}
