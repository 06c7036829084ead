/** The formats byte by byte, as RFC 791 section 3.1 and RFC 793 section 3.1 lay them out, and which
    packets the parsers take (src/ipv4.go:46-150, src/tcp_segment.go:46-130, 175-237). */
module WireFormat {
  import opened SeqSpace
  import opened Checksum
  import opened Ipv4
  import opened TcpSegment

  /** The 16-bit and 32-bit big-endian values at an offset. */
  function Be16(p: seq<u8>, off: nat): nat
    requires off + 2 <= |p|
  {
    256 * p[off] as int + p[off + 1] as int
  }

  function Be32(p: seq<u8>, off: nat): nat
    requires off + 4 <= |p|
  {
    0x100_0000 * p[off] as int + 0x1_0000 * p[off + 1] as int + 0x100 * p[off + 2] as int + p[off + 3] as int
  }

  lemma Bytes4Value(x: u32, p: seq<u8>, off: nat)
    requires off + 4 <= |p| && p[off..off + 4] == Bytes4(x)
    ensures Be32(p, off) == x
  {
    assert p[off..off + 4][0] == p[off] && p[off..off + 4][1] == p[off + 1];
    assert p[off..off + 4][2] == p[off + 2] && p[off..off + 4][3] == p[off + 3];
    assert x == 0x1_0000 * (x / 0x1_0000) + x % 0x1_0000;
  }

  lemma Bytes2Value(x: u16, p: seq<u8>, off: nat)
    requires off + 2 <= |p| && p[off..off + 2] == Bytes2(x)
    ensures Be16(p, off) == x
  {
    assert p[off..off + 2][0] == p[off] && p[off..off + 2][1] == p[off + 1];
  }

  // ---- IPv4 ----

  /** The built header: version 4 and five words, service 0, total length, id, do-not-fragment, a
      time to live of 64, the protocol, the checksum, source, destination. */
  lemma HeaderLayout(proto: u8, src: u32, dst: u32, total: u16, id: u16)
    ensures var b := Build(proto, src, dst, total, id);
            && |b| == 20 && b[0] == 0x45 && b[1] == 0 && Be16(b, 2) == total && Be16(b, 4) == id
            && b[6] == 0x40 && b[7] == 0 && b[8] == 64 && b[9] == proto && Be32(b, 12) == src && Be32(b, 16) == dst
  {
    var b := Build(proto, src, dst, total, id);
    var z := Blank(proto, src, dst, total, id);
    assert z[2..4] == Bytes2(total);
    assert z[4..6] == Bytes2(id);
    assert z[12..16] == Bytes4(src);
    assert z[16..20] == Bytes4(dst);
    hide Of, Bytes2, Bytes4, Be16, Be32;
    assert forall k :: 0 <= k < 20 && k != 10 && k != 11 ==> b[k] == z[k];
    assert b[2..4] == z[2..4] && b[4..6] == z[4..6] && b[12..16] == z[12..16] && b[16..20] == z[16..20];
    Bytes2Value(total, b, 2);
    Bytes2Value(id, b, 4);
    Bytes4Value(src, b, 12);
    Bytes4Value(dst, b, 16);
  }

  /** What a receiver demands of a packet. */
  predicate WellFormed(p: seq<u8>) {
    && |p| >= 20 && p[0] / 16 == 4 && 20 <= 4 * (p[0] % 16) <= Be16(p, 2) <= |p|
    && p[6] % 64 == 0 && p[7] == 0 && p[8] > 0
    && Sum(p[..4 * (p[0] % 16)]) % 0xFFFF == 0
  }

  /** A packet is accepted exactly if it is well formed: version 4, header and total length in bounds,
      no fragment, a live TTL, header words that sum to a multiple of 65535. Its fields are the ones
      at their offsets and its inside is what lies between header and total length. */
  lemma AcceptedExactly(p: seq<u8>)
    ensures Parse(p).Accepted? <==> WellFormed(p)
    ensures WellFormed(p) ==>
              var h, n := Parse(p).h, 4 * (p[0] % 16);
              && Parse(p).inner == p[n..Be16(p, 2)] && h.headerLen == n && h.totalLength == Be16(p, 2)
              && h.id == Be16(p, 4) && h.ttl == p[8] && h.protocol == p[9]
              && h.src == Be32(p, 12) && h.dst == Be32(p, 16)
  {
    if |p| >= 20 {
      NoFragment(p[6], p[7]);
      if p[0] / 16 == 4 && 4 * (p[0] % 16) <= |p| {
        ZeroMeaning(p[..4 * (p[0] % 16)]);
        if p[0] % 16 > 0 {
          FirstWordCounts(p[..4 * (p[0] % 16)]);
        }
      }
    }
    hide Of, Sum;
  }

  /** The two fragment bytes: more-fragments and the offset are the low fourteen bits. */
  lemma NoFragment(a: u8, b: u8)
    ensures Join(a, b) % 0x4000 == 0 <==> a % 64 == 0 && b == 0
  {
    var x: int, y: int := a, b;
    assert 256 * x + y == 0x4000 * (x / 64) + (256 * (x % 64) + y);
    Low14(x / 64, 256 * (x % 64) + y);
  }

  lemma Low14(q: int, r: int)
    requires 0 <= r < 0x4000
    ensures (0x4000 * q + r) % 0x4000 == r
  {
  }

  // ---- the checksum's sum ----

  /** The sum is of 16-bit big-endian words; a last odd byte is the high half of one. */
  lemma {:induction false} SumLast(d: seq<u8>, hi: u8, lo: u8)
    requires |d| % 2 == 0
    ensures Sum(d + [hi, lo]) == Sum(d) + 256 * hi as int + lo as int
    ensures Sum(d + [hi]) == Sum(d) + 256 * hi as int
    decreases |d|
  {
    if d == [] {
      assert d + [hi, lo] == [hi, lo] && d + [hi] == [hi] && [hi, lo][2..] == [];
    } else {
      assert (d + [hi, lo])[2..] == d[2..] + [hi, lo] && (d + [hi])[2..] == d[2..] + [hi];
      SumLast(d[2..], hi, lo);
    }
  }

  // ---- TCP ----

  /** The built segment: ports, sequence and acknowledgement numbers, header length in words in the
      high half of byte 12, six flag bits, window, checksum, urgent pointer 0, options, payload. */
  lemma SegmentLayout(src: u32, dst: u32, srcPort: u16, dstPort: u16, sequence: u32, ack: u32, flags: u8,
      window: u16, options: seq<u8>, payload: seq<u8>)
    requires OptionsOk(options)
    ensures var z := BuildBlank(srcPort, dstPort, sequence, ack, flags, window, options, payload);
            var p := WithChecksum(src, dst, z);
            && |p| == 20 + |options| + |payload| && Be16(p, 0) == srcPort && Be16(p, 2) == dstPort
            && Be32(p, 4) == sequence && Be32(p, 8) == ack && p[12] as int == 16 * (5 + |options| / 4)
            && p[13] == flags % 64 && Be16(p, 14) == window && Be16(p, 18) == 0
            && p[20..20 + |options|] == options && p[20 + |options|..] == payload
  {
    var f := FixedPart(srcPort, dstPort, sequence, ack, flags, window, |options|);
    var z := BuildBlank(srcPort, dstPort, sequence, ack, flags, window, options, payload);
    var p := WithChecksum(src, dst, z);
    assert f[0..2] == Bytes2(srcPort) && f[2..4] == Bytes2(dstPort) && f[14..16] == Bytes2(window);
    assert f[4..8] == Bytes4(sequence) && f[8..12] == Bytes4(ack);
    assert f[12] as int == 16 * (5 + |options| / 4) && f[13] == flags % 64 && f[18] == 0 && f[19] == 0;
    hide TcpChecksum, Bytes2, Bytes4, FixedPart;
    assert forall k :: 0 <= k < |z| && k != 16 && k != 17 ==> p[k] == z[k];
    assert forall k :: 0 <= k < 20 ==> z[k] == f[k];
    assert p[0..2] == f[0..2] && p[2..4] == f[2..4] && p[14..16] == f[14..16];
    assert p[4..8] == f[4..8] && p[8..12] == f[8..12];
    FieldValues(p, srcPort, dstPort, sequence, ack, window);
  }

  lemma FieldValues(p: seq<u8>, srcPort: u16, dstPort: u16, sequence: u32, ack: u32, window: u16)
    requires |p| >= 20 && p[0..2] == Bytes2(srcPort) && p[2..4] == Bytes2(dstPort) && p[14..16] == Bytes2(window)
    requires p[4..8] == Bytes4(sequence) && p[8..12] == Bytes4(ack)
    ensures Be16(p, 0) == srcPort && Be16(p, 2) == dstPort && Be16(p, 14) == window
    ensures Be32(p, 4) == sequence && Be32(p, 8) == ack
  {
    hide Bytes2, Bytes4, Be16, Be32;
    Bytes2Value(srcPort, p, 0);
    Bytes2Value(dstPort, p, 2);
    Bytes2Value(window, p, 14);
    Bytes4Value(sequence, p, 4);
    Bytes4Value(ack, p, 8);
  }

  /** A segment is taken exactly if its header length is at least five words and within the packet;
      its fields are the ones at their offsets. */
  lemma SegmentTakenExactly(p: seq<u8>)
    ensures ParseSegment(p).Segment? <==> |p| >= 20 && 20 <= 4 * (p[12] / 16) <= |p|
    ensures ParseSegment(p).Segment? ==>
              var h, n := ParseSegment(p).h, 4 * (p[12] / 16);
              && h.srcPort == Be16(p, 0) && h.dstPort == Be16(p, 2) && h.sequence == Be32(p, 4) && h.ack == Be32(p, 8)
              && h.flags == p[13] as int % 64 && h.window == Be16(p, 14) && h.urgent == Be16(p, 18)
              && h.options == p[20..n] && ParseSegment(p).payload == p[n..]
  {
  }

  /** The checksum covers source, destination, protocol 6, the length and the segment, and is the
      complement of their sum modulo 65535. */
  lemma ChecksumCovers(src: u32, dst: u32, p: seq<u8>)
    ensures var d := Pseudo(src, dst, |p|);
            && |d| == 12 && Be32(d, 0) == src && Be32(d, 4) == dst && d[8] == 0 && d[9] == 6
            && Be16(d, 10) == |p| % 0x1_0000
            && (TcpChecksum(src, dst, p) as int + Sum(d) + Sum(p)) % 0xFFFF == 0
  {
    var d := Pseudo(src, dst, |p|);
    assert d[0..4] == Bytes4(src) && d[4..8] == Bytes4(dst) && d[10..12] == Bytes2(|p| % 0x1_0000);
    assert d[8] == 0 && d[9] == 6;
    hide Bytes2, Bytes4, Be16, Be32, Pseudo, Sum;
    Bytes4Value(src, d, 0);
    Bytes4Value(dst, d, 4);
    Bytes2Value(|p| % 0x1_0000, d, 10);
    var s := TcpSum(src, dst, p);
    FoldMeaning(s);
    MultipleOf(s, Fold(s));
  }
}
