/** IPv4 headers built and parsed (src/ipv4.go:71-150). */
module Ipv4 {
  import opened SeqSpace
  import opened Checksum

  const MIN_HEADER: nat := 20
  const DEFAULT_TTL: u8 := 64
  const DONT_FRAGMENT: u16 := 0x4000

  datatype Header = Header(versionIhl: u8, tos: u8, totalLength: u16, id: u16, flagsOffset: u16, ttl: u8,
    protocol: u8, checksum: u16, src: u32, dst: u32, headerLen: nat)

  datatype Parsed = Accepted(h: Header, inner: seq<u8>) | Dropped

  function Join4(a: u8, b: u8, c: u8, d: u8): u32 {
    var hi: int, lo: int := Join(a, b), Join(c, d);
    0x1_0000 * hi + lo
  }

  function Bytes2(x: u16): (s: seq<u8>)
    ensures |s| == 2
  {
    [x / 256, x % 256]
  }

  /** Four bytes of a 32-bit value, most significant first. */
  function Bytes4(x: u32): (s: seq<u8>)
    ensures |s| == 4
  {
    Bytes2(x / 0x1_0000) + Bytes2(x % 0x1_0000)
  }

  lemma Bytes4Back(x: u32)
    ensures var s := Bytes4(x); Join4(s[0], s[1], s[2], s[3]) == x
  {
    JoinSplit(x / 0x1_0000);
    JoinSplit(x % 0x1_0000);
  }

  function Fields(p: seq<u8>): Header
    requires |p| >= MIN_HEADER
  {
    Header(p[0], p[1], Join(p[2], p[3]), Join(p[4], p[5]), Join(p[6], p[7]), p[8], p[9], Join(p[10], p[11]),
           Join4(p[12], p[13], p[14], p[15]), Join4(p[16], p[17], p[18], p[19]), p[0] % 16 * 4)
  }

  /** Too short, wrong version or header length, a fragment, a dead TTL, a total length that does
      not fit, or a bad checksum: dropped. */
  function Parse(p: seq<u8>): Parsed {
    if |p| < MIN_HEADER then Dropped
    else
      var h := Fields(p);
      if p[0] / 16 != 4 || p[0] % 16 < 5 || h.headerLen > |p| then Dropped
      else if h.flagsOffset % 0x4000 != 0 then Dropped
      else if h.ttl == 0 then Dropped
      else if h.totalLength > |p| || h.totalLength < h.headerLen then Dropped
      else if Of(p[..h.headerLen]) != 0 then Dropped
      else Accepted(h, p[h.headerLen..h.totalLength])
  }

  /** The header with the checksum word still zero. */
  function Blank(proto: u8, src: u32, dst: u32, total: u16, id: u16): (b: seq<u8>)
    ensures |b| == MIN_HEADER
  {
    [0x45, 0] + Bytes2(total) + Bytes2(id) + [0x40, 0, DEFAULT_TTL, proto, 0, 0] + Bytes4(src) + Bytes4(dst)
  }

  function Build(proto: u8, src: u32, dst: u32, total: u16, id: u16): (b: seq<u8>)
    ensures |b| == MIN_HEADER
  {
    var b := Blank(proto, src, dst, total, id);
    Put(b, 5, Of(b))
  }

  /** A built header always checks to 0. */
  lemma BuiltChecksToZero(proto: u8, src: u32, dst: u32, total: u16, id: u16)
    ensures Of(Build(proto, src, dst, total, id)) == 0
  {
    var b := Blank(proto, src, dst, total, id);
    assert b[0] == 0x45 && b[10] == 0 && b[11] == 0;
    FirstWordCounts(b);
    FilledIsZero(b, 5);
  }

  lemma FirstWordCounts(b: seq<u8>)
    requires |b| >= 2 && b[0] > 0
    ensures Sum(b) > 0
  {
  }

  lemma BuiltFields(proto: u8, src: u32, dst: u32, total: u16, id: u16, rest: seq<u8>)
    ensures var b := Build(proto, src, dst, total, id);
            Fields(b + rest) == Header(0x45, 0, total, id, DONT_FRAGMENT, DEFAULT_TTL, proto, Join(b[10], b[11]),
                src, dst, 20)
  {
    var b := Blank(proto, src, dst, total, id);
    JoinSplit(total);
    JoinSplit(id);
    Bytes4Back(src);
    Bytes4Back(dst);
    assert b[2..4] == Bytes2(total) && b[4..6] == Bytes2(id) && b[12..16] == Bytes4(src) && b[16..20] == Bytes4(dst);
    hide Of, Bytes4, Join4;
    var f := Build(proto, src, dst, total, id);
    assert forall k :: 0 <= k < 20 && k != 10 && k != 11 ==> f[k] == b[k];
    assert f[12] == Bytes4(src)[0] && f[13] == Bytes4(src)[1] && f[14] == Bytes4(src)[2] && f[15] == Bytes4(src)[3];
    assert f[16] == Bytes4(dst)[0] && f[17] == Bytes4(dst)[1] && f[18] == Bytes4(dst)[2] && f[19] == Bytes4(dst)[3];
  }

  /** What is built is accepted: the same fields and exactly the payload come back, whatever
      padding follows it, for every payload whose total length fits 16 bits. */
  lemma BuiltIsAccepted(proto: u8, src: u32, dst: u32, id: u16, payload: seq<u8>, padding: seq<u8>)
    requires MIN_HEADER + |payload| <= 0xFFFF
    ensures var total := MIN_HEADER + |payload|;
            var b := Build(proto, src, dst, total, id);
            Parse(b + (payload + padding)) ==
            Accepted(Header(0x45, 0, total, id, DONT_FRAGMENT, DEFAULT_TTL, proto, Join(b[10], b[11]), src, dst, 20),
                payload)
  {
    var total: u16 := MIN_HEADER + |payload|;
    var b := Build(proto, src, dst, total, id);
    var p := b + (payload + padding);
    BuiltFields(proto, src, dst, total, id, payload + padding);
    BuiltChecksToZero(proto, src, dst, total, id);
    assert p[..20] == b && p[20..total] == payload;
    hide Of, Build, Join4;
  }

  /** The 16-bit total length is what the builder computes, truncation included: the payload comes
      back exactly when header and payload fit in 65535 bytes. */
  lemma PayloadBackIff(proto: u8, src: u32, dst: u32, id: u16, payload: seq<u8>)
    ensures var b := Build(proto, src, dst, (MIN_HEADER + |payload|) % 0x1_0000, id);
            var r := Parse(b + payload);
            (r.Accepted? && r.inner == payload) <==> MIN_HEADER + |payload| <= 0xFFFF
  {
    hide Of, Build, Join4;
    var n := MIN_HEADER + |payload|;
    var total: u16 := n % 0x1_0000;
    var b := Build(proto, src, dst, total, id);
    if n <= 0xFFFF {
      BuiltIsAccepted(proto, src, dst, id, payload, []);
      assert payload + [] == payload;
    } else {
      BuiltFields(proto, src, dst, total, id, payload);
      assert total < n;
    }
  }

  class Sender {
    var ipv4Id: u16

    constructor ()
      ensures ipv4Id == 0
    {
      ipv4Id := 0;
    }

    /** ipv4BuildHeader: writes twenty bytes in place and uses the next packet id. */
    method BuildHeader(buf: array<u8>, proto: u8, src: u32, dst: u32, payloadLen: nat)
      requires buf.Length >= MIN_HEADER
      modifies this, buf
      ensures ipv4Id == (if old(ipv4Id) == 0xFFFF then 0 else old(ipv4Id) + 1)
      ensures buf[..20] == Build(proto, src, dst, (MIN_HEADER + payloadLen) % 0x1_0000, ipv4Id)
      ensures buf[20..] == old(buf[20..])
    {
      hide Of, Sum, Blank;
      var total: u16 := (MIN_HEADER + payloadLen) % 0x1_0000;
      ipv4Id := if ipv4Id == 0xFFFF then 0 else ipv4Id + 1;
      WriteBlank(buf, proto, src, dst, total);
      var csum := Compute(buf[..20]);
      ghost var b := buf[..20];
      buf[10], buf[11] := csum / 256, csum % 256;
      assert buf[..20] == Put(b, 5, csum);
    }

    method WriteBlank(buf: array<u8>, proto: u8, src: u32, dst: u32, total: u16)
      requires buf.Length >= MIN_HEADER
      modifies buf
      ensures buf[..20] == Blank(proto, src, dst, total, ipv4Id)
      ensures buf[20..] == old(buf[20..])
    {
      hide Bytes2, Bytes4;
      var t, i, s, d := Bytes2(total), Bytes2(ipv4Id), Bytes4(src), Bytes4(dst);
      Write(buf, 0, [0x45, 0]);
      Write(buf, 2, t);
      Write(buf, 4, i);
      Write(buf, 6, [0x40, 0, DEFAULT_TTL, proto, 0, 0]);
      Write(buf, 12, s);
      Write(buf, 16, d);
    }
  }

  /** Consecutive byte stores starting at off. */
  method Write(buf: array<u8>, off: nat, bytes: seq<u8>)
    requires off + |bytes| <= buf.Length
    modifies buf
    ensures buf[..off + |bytes|] == old(buf[..off]) + bytes
    ensures forall j :: off + |bytes| <= j < buf.Length ==> buf[j] == old(buf[j])
  {
    var k := 0;
    while k < |bytes|
      modifies buf
      invariant 0 <= k <= |bytes|
      invariant buf[..off + k] == old(buf[..off]) + bytes[..k]
      invariant forall j :: off + k <= j < buf.Length ==> buf[j] == old(buf[j])
    {
      buf[off + k] := bytes[k];
      assert buf[..off + k + 1] == buf[..off + k] + [bytes[k]];
      assert bytes[..k + 1] == bytes[..k] + [bytes[k]];
      k := k + 1;
    }
    assert bytes[..k] == bytes;
  }
}
