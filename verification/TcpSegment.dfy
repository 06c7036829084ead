/** TCP segments built and parsed, and the checksum over the pseudo-header and the segment
    (src/tcp_segment.go:46-130, 175-237). */
module TcpSegment {
  import opened SeqSpace
  import opened Checksum
  import opened Ipv4

  const MAX_HEADER: nat := 60
  const PROTO_TCP: u8 := 6

  /** options holds the OptLen bytes in use. */
  datatype TcpHeader = TcpHeader(srcPort: u16, dstPort: u16, sequence: u32, ack: u32, dataOff: nat, flags: nat,
    window: u16, chksum: u16, urgent: u16, options: seq<u8>)

  datatype TcpParsed = Segment(h: TcpHeader, payload: seq<u8>) | Malformed

  function FixedFields(p: seq<u8>, options: seq<u8>): TcpHeader
    requires |p| >= MIN_HEADER
  {
    TcpHeader(Join(p[0], p[1]), Join(p[2], p[3]), Join4(p[4], p[5], p[6], p[7]), Join4(p[8], p[9], p[10], p[11]),
              p[12] / 16, p[13] % 64, Join(p[14], p[15]), Join(p[16], p[17]), Join(p[18], p[19]), options)
  }

  function ParseSegment(p: seq<u8>): TcpParsed {
    if |p| < MIN_HEADER then Malformed
    else
      var hdrLen: int := p[12] / 16 * 4;
      if hdrLen < 20 || hdrLen > MAX_HEADER || hdrLen > |p| then Malformed
      else Segment(FixedFields(p, p[20..hdrLen]), p[hdrLen..])
  }

  /** Options must be padded to four bytes and at most forty. */
  predicate OptionsOk(options: seq<u8>) {
    |options| % 4 == 0 && |options| <= 40
  }

  function FixedPart(srcPort: u16, dstPort: u16, sequence: u32, ack: u32, flags: u8, window: u16,
      optLen: nat): (b: seq<u8>)
    requires optLen <= 40
    ensures |b| == MIN_HEADER
  {
    Bytes2(srcPort) + Bytes2(dstPort) + Bytes4(sequence) + Bytes4(ack)
    + [(20 + optLen) / 4 * 16, flags % 64] + Bytes2(window) + [0, 0, 0, 0]
  }

  /** The segment with a zero checksum word. */
  function BuildBlank(srcPort: u16, dstPort: u16, sequence: u32, ack: u32, flags: u8, window: u16,
      options: seq<u8>, payload: seq<u8>): (b: seq<u8>)
    requires OptionsOk(options)
    ensures |b| == MIN_HEADER + |options| + |payload|
  {
    FixedPart(srcPort, dstPort, sequence, ack, flags, window, |options|) + options + payload
  }

  // ---- the checksum ----

  function Pseudo(src: u32, dst: u32, len: nat): (b: seq<u8>)
    ensures |b| == 12
  {
    Bytes4(src) + Bytes4(dst) + [0, PROTO_TCP] + Bytes2(len % 0x1_0000)
  }

  function TcpSum(src: u32, dst: u32, p: seq<u8>): nat {
    Sum(Pseudo(src, dst, |p|)) + Sum(p)
  }

  function TcpChecksum(src: u32, dst: u32, p: seq<u8>): u16 {
    FoldMeaning(TcpSum(src, dst, p));
    0xFFFF - Fold(TcpSum(src, dst, p))
  }

  function WithChecksum(src: u32, dst: u32, p: seq<u8>): (p': seq<u8>)
    requires |p| >= MIN_HEADER
    ensures |p'| == |p|
  {
    Put(p, 8, TcpChecksum(src, dst, p))
  }

  predicate Verifies(src: u32, dst: u32, p: seq<u8>) {
    |p| >= MIN_HEADER && TcpChecksum(src, dst, Put(p, 8, 0)) == Join(p[16], p[17])
  }

  // ---- what is built is accepted ----

  lemma FixedBack(srcPort: u16, dstPort: u16, sequence: u32, ack: u32, flags: u8, window: u16, optLen: nat,
      c: u16, rest: seq<u8>, options: seq<u8>)
    requires optLen <= 40 && optLen % 4 == 0
    ensures var p := Put(FixedPart(srcPort, dstPort, sequence, ack, flags, window, optLen) + rest, 8, c);
            FixedFields(p, options) ==
            TcpHeader(srcPort, dstPort, sequence, ack, (20 + optLen) / 4, flags % 64, window, c, 0, options)
  {
    var f := FixedPart(srcPort, dstPort, sequence, ack, flags, window, optLen);
    JoinSplit(srcPort);
    JoinSplit(dstPort);
    JoinSplit(window);
    JoinSplit(c);
    Bytes4Back(sequence);
    Bytes4Back(ack);
    assert f[0..2] == Bytes2(srcPort) && f[2..4] == Bytes2(dstPort) && f[14..16] == Bytes2(window);
    assert f[4..8] == Bytes4(sequence) && f[8..12] == Bytes4(ack);
    hide Bytes4, Join4, FixedPart;
    var p := Put(f + rest, 8, c);
    assert p[4] == Bytes4(sequence)[0] && p[5] == Bytes4(sequence)[1] && p[6] == Bytes4(sequence)[2]
        && p[7] == Bytes4(sequence)[3];
    assert p[8] == Bytes4(ack)[0] && p[9] == Bytes4(ack)[1] && p[10] == Bytes4(ack)[2] && p[11] == Bytes4(ack)[3];
  }

  lemma PutZeroBack(p: seq<u8>, c: u16)
    requires |p| >= MIN_HEADER && p[16] == 0 && p[17] == 0
    ensures Put(Put(p, 8, c), 8, 0) == p && Join(Put(p, 8, c)[16], Put(p, 8, c)[17]) == c
  {
    JoinSplit(c);
  }

  /** tcpParse inverts tcpBuildSegment: every field, the options and the payload come back, and the
      checksum filled in verifies. */
  lemma BuiltSegmentBack(src: u32, dst: u32, srcPort: u16, dstPort: u16, sequence: u32, ack: u32, flags: u8,
      window: u16, options: seq<u8>, payload: seq<u8>)
    requires OptionsOk(options)
    ensures var b := BuildBlank(srcPort, dstPort, sequence, ack, flags, window, options, payload);
            var p := WithChecksum(src, dst, b);
            && Verifies(src, dst, p)
            && ParseSegment(p) ==
               Segment(TcpHeader(srcPort, dstPort, sequence, ack, (20 + |options|) / 4, flags % 64, window,
                                 TcpChecksum(src, dst, b), 0, options), payload)
  {
    var b := BuildBlank(srcPort, dstPort, sequence, ack, flags, window, options, payload);
    var f := FixedPart(srcPort, dstPort, sequence, ack, flags, window, |options|);
    var c := TcpChecksum(src, dst, b);
    assert b == f + (options + payload) && b[16] == 0 && b[17] == 0;
    FixedBack(srcPort, dstPort, sequence, ack, flags, window, |options|, c, options + payload, options);
    hide TcpChecksum, FixedPart, Join4, Bytes4, Bytes2;
    PutZeroBack(b, c);
    var p := WithChecksum(src, dst, b);
    var hdrLen := 20 + |options|;
    HeaderLength(p, |options|);
    assert p[20..hdrLen] == options && p[hdrLen..] == payload;
  }

  lemma HeaderLength(p: seq<u8>, optLen: nat)
    requires |p| >= MIN_HEADER && optLen % 4 == 0 && p[12] / 16 == (20 + optLen) / 4
    ensures p[12] / 16 * 4 == 20 + optLen
  {
  }

  /** Any one aligned word of a verifying segment, other than the checksum itself, can be replaced
      unnoticed only by a word congruent to it modulo 65535. */
  lemma SegmentChangeDetected(src: u32, dst: u32, p: seq<u8>, i: nat, w: u16)
    requires Verifies(src, dst, p) && 2 * i + 1 < |p| && i != 8
    ensures Verifies(src, dst, Put(p, i, w)) <==> w % 0xFFFF == WordAt(p, i) % 0xFFFF
  {
    var z, q := Put(p, 8, 0), Put(p, i, w);
    Commutes(p, i, w);
    TcpSumPut(src, dst, z, i, w);
    hide Put, WordAt, TcpSum, Fold;
    var s, s' := TcpSum(src, dst, z), TcpSum(src, dst, Put(z, i, w));
    SameFold(s, s');
    Shifted(s, WordAt(p, i), w);
  }

  lemma Commutes(p: seq<u8>, i: nat, w: u16)
    requires |p| >= MIN_HEADER && 2 * i + 1 < |p| && i != 8
    ensures Put(Put(p, i, w), 8, 0) == Put(Put(p, 8, 0), i, w)
    ensures WordAt(Put(p, 8, 0), i) == WordAt(p, i)
    ensures Put(p, i, w)[16] == p[16] && Put(p, i, w)[17] == p[17]
  {
  }

  lemma TcpSumPut(src: u32, dst: u32, p: seq<u8>, i: nat, w: u16)
    requires 2 * i + 1 < |p|
    ensures TcpSum(src, dst, Put(p, i, w)) == TcpSum(src, dst, p) - WordAt(p, i) + w
    ensures TcpSum(src, dst, Put(p, i, w)) > 0 && TcpSum(src, dst, p) > 0 && WordAt(p, i) <= TcpSum(src, dst, p)
  {
    SumPut(p, i, w);
    SumPut(p, i, 0);
    PseudoCounts(src, dst, |p|);
    hide Sum, Pseudo, WordAt;
  }

  lemma PseudoCounts(src: u32, dst: u32, len: nat)
    ensures Sum(Pseudo(src, dst, len)) > 0
  {
    var d := Pseudo(src, dst, len);
    assert d[9] == PROTO_TCP;
    var d1 := d[2..];
    var d2 := d1[2..];
    var d3 := d2[2..];
    var d4 := d3[2..];
    assert d4[1] == PROTO_TCP;
    hide Pseudo;
    assert Sum(d4) > 0;
    assert Sum(d3) > 0;
    assert Sum(d2) > 0;
    assert Sum(d1) > 0;
  }

  /** Positive sums fold to the same value exactly when they agree modulo 65535. */
  lemma SameFold(s: nat, s': nat)
    requires s > 0 && s' > 0
    ensures Fold(s) == Fold(s') <==> s % 0xFFFF == s' % 0xFFFF
  {
    FoldMeaning(s);
    FoldMeaning(s');
    hide Fold;
    Residue(Fold(s));
    Residue(Fold(s'));
  }

  lemma Residue(f: nat)
    requires 0 < f <= 0xFFFF
    ensures f % 0xFFFF == if f == 0xFFFF then 0 else f
  {
  }

  lemma Shifted(s: nat, a: nat, b: nat)
    requires a <= s
    ensures (s - a + b) % 0xFFFF == s % 0xFFFF <==> b % 0xFFFF == a % 0xFFFF
  {
    var k, r := s / 0xFFFF, s % 0xFFFF;
    var p, q := a / 0xFFFF, b / 0xFFFF;
    var x := r + b % 0xFFFF - a % 0xFFFF;
    assert s - a + b == 0xFFFF * (k - p + q) + x;
    if x < 0 {
      DropMultiple(k - p + q - 1, x + 0xFFFF);
    } else if x < 0xFFFF {
      DropMultiple(k - p + q, x);
    } else {
      DropMultiple(k - p + q + 1, x - 0xFFFF);
    }
  }

  // ---- the code ----

  /** tcpBuildSegment: total bytes written, or 0 for bad options or too small a buffer. */
  method BuildSegment(out: array<u8>, srcPort: u16, dstPort: u16, sequence: u32, ack: u32, flags: u8, window: u16,
      options: seq<u8>, payload: seq<u8>) returns (total: nat)
    modifies out
    ensures total == 0 <==> !OptionsOk(options) || out.Length < MIN_HEADER + |options| + |payload|
    ensures total == 0 ==> out[..] == old(out[..])
    ensures total > 0 ==>
              total <= out.Length && out[..total] == BuildBlank(srcPort, dstPort, sequence, ack, flags, window,
                  options, payload)
    ensures forall j :: total <= j < out.Length ==> out[j] == old(out[j])
  {
    hide Bytes2, Bytes4;
    var optLen := |options|;
    if optLen % 4 != 0 || optLen > 40 {
      return 0;
    }
    var hdrLen := 20 + optLen;
    total := hdrLen + |payload|;
    if out.Length < total {
      return 0;
    }
    Write(out, 0, Bytes2(srcPort) + Bytes2(dstPort) + Bytes4(sequence) + Bytes4(ack));
    Write(out, 12, [hdrLen / 4 * 16, flags % 64]);
    Write(out, 14, Bytes2(window));
    Write(out, 16, [0, 0, 0, 0]);
    assert out[..20] == FixedPart(srcPort, dstPort, sequence, ack, flags, window, optLen);
    Write(out, 20, options);
    Write(out, hdrLen, payload);
  }

  /** The longest packet whose sum, the pseudo-header's six words included, fits 32 bits. */
  const EXACT_PACKET: nat := 2 * (EXACT_WORDS - 6)

  /** The checksum with the sum taken in 32 bits. */
  function TcpChecksum32(src: u32, dst: u32, p: seq<u8>): u16 {
    FoldMeaning(Wrap(TcpSum(src, dst, p)));
    0xFFFF - Fold(Wrap(TcpSum(src, dst, p)))
  }

  lemma PacketFits(src: u32, dst: u32, p: seq<u8>)
    requires |p| <= EXACT_PACKET
    ensures TcpChecksum32(src, dst, p) == TcpChecksum(src, dst, p)
  {
    SumBound(Pseudo(src, dst, |p|));
    SumFits(p, Sum(Pseudo(src, dst, |p|)), 6);
  }

  /** tcpChecksum. */
  method ComputeChecksum(src: u32, dst: u32, packet: seq<u8>) returns (c: u16)
    ensures c == TcpChecksum32(src, dst, packet)
    ensures |packet| <= EXACT_PACKET ==> c == TcpChecksum(src, dst, packet)
  {
    var pseudo := Pseudo(src, dst, |packet|);
    var sum := AddUp(0, pseudo);
    SumFits(pseudo, 0, 0);
    sum := AddUp(sum, packet);
    if |packet| <= EXACT_PACKET {
      PacketFits(src, dst, packet);
    }
    c := FoldAndInvert(sum);
  }

  /** tcpChecksumVerify, on a scratch copy. */
  method Verify(src: u32, dst: u32, packet: seq<u8>) returns (ok: bool)
    ensures ok <==> |packet| >= MIN_HEADER && TcpChecksum32(src, dst, Put(packet, 8, 0)) == Join(packet[16], packet[17])
    ensures |packet| <= EXACT_PACKET ==> ok == Verifies(src, dst, packet)
  {
    if |packet| < MIN_HEADER {
      return false;
    }
    var wire := Join(packet[16], packet[17]);
    var scratch := packet[16 := 0][17 := 0];
    var c := ComputeChecksum(src, dst, scratch);
    ok := c == wire;
  }

  /** tcpComputeAndSetChecksum. */
  method SetChecksum(src: u32, dst: u32, packet: array<u8>)
    requires MIN_HEADER <= packet.Length
    modifies packet
    ensures packet[..] == Put(old(packet[..]), 8, TcpChecksum32(src, dst, old(packet[..])))
    ensures packet.Length <= EXACT_PACKET ==> packet[..] == WithChecksum(src, dst, old(packet[..]))
  {
    var c := ComputeChecksum(src, dst, packet[..]);
    packet[16], packet[17] := c / 256, c % 256;
  }
}
