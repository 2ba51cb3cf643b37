/**
 The formats byte by byte, as "A Guide To The Kafka Protocol" has them in sections "Protocol
 Primitive Types", "Common Request and Response Structure" and "Message sets": which byte stands
 where in what the encoder writes (proto/serialization.go, proto/messages.go). The round trips
 elsewhere would hold of any format that the decoder shares.
 */
module Formats {
  import opened Arithmetic
  import opened Wire
  import opened Codec
  import opened MessageSet
  import opened Responses
  import opened Frames

  // ---------------------------------------------------------------- integers, strings, byte slices

  /** The number that four bytes are, most significant first. */
  function Number(b: seq<byte>): int
    requires |b| == 4
  {
    0x100_0000 * (b[0] as int) + 0x1_0000 * (b[1] as int) + 0x100 * (b[2] as int) + b[3] as int
  }

  lemma NumberIs(b: seq<byte>)
    requires |b| == 4
    ensures FromBE(b) == Number(b)
  {
    assert b[..3][..2] == b[..2] && b[..2][..1] == b[..1] && b[..1][..0] == [];
    assert FromBE(b[..1]) == b[0];
    assert FromBE(b[..2]) == 256 * FromBE(b[..1]) + b[1];
    assert FromBE(b[..3]) == 256 * FromBE(b[..2]) + b[2];
    assert FromBE(b) == 256 * FromBE(b[..3]) + b[3];
  }

  /** Big-endian, two's complement. */
  lemma IntBytes(v: int32)
    ensures Number(EncInt32(v)) == if v >= 0 then v else v + 0x1_0000_0000
  {
    Powers();
    ModShift(v, 0x1_0000_0000);
    FromBEOfBE(4, ToUnsigned(4, v));
    NumberIs(EncInt32(v));
  }

  lemma UintBytes(v: uint32)
    ensures Number(BE(4, v)) == v
  {
    Powers();
    FromBEOfBE(4, v);
    NumberIs(BE(4, v));
  }

  lemma TwoBytes(v: int, u: nat)
    requires -0x8000 <= v < 0x1_0000 && u == if v >= 0 then v else v + 0x1_0000
    ensures EncInt16(v) == [u / 256, u % 256]
  {
    Powers();
    ModShift(v, 0x1_0000);
    assert BE(1, u / 256) == BE(0, u / 256 / 256) + [u / 256 % 256];
    SmallModulo(u / 256, 256);
  }

  /** The length in two bytes, cut to 16 bits, and then all of the string. */
  lemma StringBytes(s: seq<byte>)
    ensures EncString(s) == [|s| % 0x1_0000 / 256, |s| % 256] + s
  {
    Powers();
    var u := |s| % 0x1_0000;
    assert EncInt16(|s|) == BE(2, u);
    TwoBytes(u, u);
    SmallModulo(u, 0x1_0000);
    assert EncInt16(u) == BE(2, u);
    LowByte(|s|);
  }

  lemma LowByte(n: nat)
    ensures n % 0x1_0000 % 256 == n % 256
  {
  }

  /** A nil slice is the length -1 and nothing more. */
  lemma SliceBytes(s: Slice)
    requires |s.Content()| < 0x8000_0000
    ensures s.Nil? ==> EncBytes(s) == [0xff, 0xff, 0xff, 0xff]
    ensures s.Bytes? ==> Number(EncBytes(s)[..4]) == |s.data| && EncBytes(s)[4..] == s.data
  {
    if s.Nil? {
      IntBytes(-1);
      var b := EncInt32(-1);
      AllOnes(b);
    } else {
      IntBytes(|s.data|);
      assert EncBytes(s)[..4] == EncInt32(|s.data|);
    }
  }

  lemma AllOnes(b: seq<byte>)
    requires |b| == 4 && Number(b) == 0xffff_ffff
    ensures b == [0xff, 0xff, 0xff, 0xff]
  {
  }

  // ---------------------------------------------------------------- message sets

  /**
   An entry: 8 bytes of offset, the number of bytes that follow the size field, the checksum of
   everything behind it, magic byte 0, the attributes, key and value.
   */
  lemma EntryBytes(cx: Codecs, m: Message, attributes: byte)
    requires Sized(m)
    ensures var e := Entry(cx, m, attributes);
            && e[..8] == EncInt64(m.offset)
            && Number(e[8..12]) == |e| - 12
            && Number(e[12..16]) == cx.crc(e[16..])
            && e[16..] == [0, attributes] + EncBytes(m.key) + EncBytes(m.value)
  {
    EntryHeader(cx, m, attributes);
    var e := Entry(cx, m, attributes);
    IntBytes(14 + ContentSize(m));
    UintBytes(cx.crc(Body(m, attributes)));
    assert e[8..12] == EncInt32(14 + ContentSize(m)) && e[..8] == EncInt64(m.offset);
  }

  /**
   A compressed set: one entry with the offset of the last message, attributes 1 for gzip and 2 for
   snappy, no key, and the compressed entries as its value.
   */
  lemma PackedBytes(cx: Codecs, msgs: seq<Message>, c: Compression)
    requires msgs != [] && c != NoCompression && Sized(Wrapper(cx, msgs, c))
    ensures var e, packed := SetBytes(cx, msgs, c), if c == Gzip then cx.gzip(Entries(cx, msgs, 0))
                                                    else cx.snap(Entries(cx, msgs, 0));
            && e[..8] == EncInt64(msgs[|msgs| - 1].offset)
            && e[16..22] == [0, if c == Gzip then 1 else 2, 0xff, 0xff, 0xff, 0xff]
            && Number(e[22..26]) == |packed| && e[26..] == packed
  {
    hide Entries, Entry;
    var w := Wrapper(cx, msgs, c);
    var e := SetBytes(cx, msgs, c);
    EntryBytes(cx, w, c.Code());
    SliceBytes(w.key);
    SliceBytes(w.value);
    WrapperParts(e[16..], c.Code(), w.value.data);
    assert e[16..][..6] == e[16..22] && e[16..][6..10] == e[22..26] && e[16..][10..] == e[26..];
  }

  lemma WrapperParts(b: seq<byte>, attributes: byte, packed: seq<byte>)
    requires b == [0, attributes] + EncBytes(Nil) + EncBytes(Bytes(packed))
    requires EncBytes(Nil) == [0xff, 0xff, 0xff, 0xff] && |packed| < 0x8000_0000
    ensures |b| == 10 + |packed|
    ensures b[..6] == [0, attributes, 0xff, 0xff, 0xff, 0xff] && Number(b[6..10]) == |packed| && b[10..] == packed
  {
    SliceBytes(Bytes(packed));
    var v := EncBytes(Bytes(packed));
    assert |v| == 4 + |packed|;
    assert b == [0, attributes, 0xff, 0xff, 0xff, 0xff] + v;
    assert b[6..10] == v[..4] && b[10..] == v[4..];
  }

  // ---------------------------------------------------------------- partitions, frames, requests

  /** A partition: its ID, in a fetch response the error code and the tip offset, then the size of its set. */
  lemma PartitionBytes(fetch: bool, p: Part<Raw>)
    requires |p.body| < 0x8000_0000
    ensures var b, n, code := PartBytes(fetch, p), if fetch then 14 else 4, if p.err.NoErr? then 0 else p.err.errno;
            && |b| == n + 4 + |p.body|
            && Number(b[..4]) == (if p.id >= 0 then p.id else p.id + 0x1_0000_0000)
            && (fetch ==> b[4..6] == [code % 0x1_0000 / 256, code % 0x1_0000 % 256])
            && (fetch ==> b[6..14] == EncInt64(p.tip))
            && Number(b[n..n + 4]) == |p.body| && b[n + 4..] == p.body
  {
    var b := PartBytes(fetch, p);
    IntBytes(p.id);
    IntBytes(|p.body|);
    var code := if p.err.NoErr? then 0 else p.err.errno;
    ModShift(code, 0x1_0000);
    TwoBytes(code, code % 0x1_0000);
    assert b[..4] == EncInt32(p.id);
    if fetch {
      assert b[4..6] == EncInt16(code) && b[6..14] == EncInt64(p.tip);
      assert b[14..18] == EncInt32(|p.body|) && b[18..] == p.body;
    } else {
      assert b[4..8] == EncInt32(|p.body|) && b[8..] == p.body;
    }
  }

  /** The error codes of the protocol come back as they went; 0 is no error, and any other number is unknown. */
  lemma ErrorCodes(n: int16)
    ensures n == 0 <==> ErrFromNo(n) == NoErr
    ensures n == -1 || (1 <= n <= 30 && n != 13) ==> ErrFromNo(n) == Known(n) && Encodable(Known(n))
    ensures n < -1 || n == 13 || n > 30 ==> ErrFromNo(n) == Unknown(n) && !Encodable(Unknown(n))
    ensures Encodable(ErrFromNo(n)) ==> Errno(ErrFromNo(n)) == n
  {
  }

  /** A frame: the number of bytes that follow, and those. */
  lemma FrameBytes(payload: seq<byte>)
    requires |payload| < 0x8000_0000
    ensures Number(Framed(payload)[..4]) == |payload| && Framed(payload)[4..] == payload
  {
    IntBytes(|payload|);
    assert Framed(payload)[..4] == EncInt32(|payload|);
  }

  /**
   When a frame is not read: its size does not cover the tag or does not fit in 32 bits with the
   size field itself, which is a panic, or the stream ends too early.
   */
  lemma FrameRefused(k: nat, size: int32, rest: seq<byte>)
    requires k <= 4
    ensures var f := ReadFrame(k, EncInt32(size) + rest);
            && (f == Boom <==> |rest| >= k && (size < k || size > 0x7fff_fffb))
            && (f == Short <==> |rest| < k || (k <= size <= 0x7fff_fffb && |rest| < size))
  {
    var s := EncInt32(size) + rest;
    assert s[..4] == EncInt32(size);
    Powers();
    IntRoundTrip(4, size);
  }

  /** A produce request: kind 0, version 0, correlation ID, client ID, acknowledgements, milliseconds, topics. */
  lemma ProduceBytes(r: ProduceReq, ts: seq<Topic<Raw>>)
    requires |r.clientID| <= MaxString && |ts| < 0x8000_0000
    ensures var b, n := ProducePayload(r, ts), 10 + |r.clientID|;
            && |b| >= n + 10
            && b[..4] == [0, 0, 0, 0]
            && b[4..8] == EncInt32(r.correlationID)
            && b[8..n] == EncString(r.clientID)
            && b[n..n + 2] == EncInt16(r.requiredAcks)
            && Number(b[n + 6..n + 10]) == |ts|
            && forall ms: nat :: ms < 0x8000_0000 && r.timeout == 1_000_000 * ms ==> Number(b[n + 2..n + 6]) == ms
  {
    hide TopicsBytes, EncString, Number;
    var b, n := ProducePayload(r, ts), 10 + |r.clientID|;
    StringLength(r.clientID);
    var kind, id, client := EncInt16(0) + EncInt16(0), EncInt32(r.correlationID), EncString(r.clientID);
    var acks, ms, count := EncInt16(r.requiredAcks), EncInt32(Millis(r.timeout)), EncInt32(|ts|);
    SixFields(kind, id, client, acks, ms, count, TopicsBytes(false, ts));
    assert b == kind + id + client + acks + ms + count + TopicsBytes(false, ts);
    KindBytes();
    IntBytes(|ts|);
    forall k: nat | k < 0x8000_0000 && r.timeout == 1_000_000 * k ensures Number(ms) == k {
      WholeMillis(k);
      IntBytes(k);
    }
  }

  lemma StringLength(s: seq<byte>)
    ensures |EncString(s)| == 2 + |s|
  {
  }

  lemma KindBytes()
    ensures EncInt16(0) + EncInt16(0) == [0, 0, 0, 0]
  {
    TwoBytes(0, 0);
  }

  lemma WholeMillis(k: nat)
    ensures Millis(1_000_000 * k) == k
  {
  }

  lemma SixFields(a: seq<byte>, b: seq<byte>, c: seq<byte>, d: seq<byte>, e: seq<byte>, f: seq<byte>, g: seq<byte>)
    requires |a| == 4 && |b| == 4 && |c| >= 2 && |d| == 2 && |e| == 4 && |f| == 4
    ensures var s, n := a + b + c + d + e + f + g, 8 + |c|;
            && s[..4] == a && s[4..8] == b && s[8..n] == c && s[n..n + 2] == d && s[n + 2..n + 6] == e
            && s[n + 6..n + 10] == f
  {
  }

  /** A fetch response: correlation ID, the number of topics, the topics. */
  lemma FetchBytes(id: int32, ts: seq<Topic<Raw>>)
    requires |ts| < 0x8000_0000
    ensures var b := FetchPayload(id, ts);
            |b| >= 8 && b[..4] == EncInt32(id) && Number(b[4..8]) == |ts| && b[8..] == TopicsBytes(true, ts)
  {
    hide TopicsBytes;
    IntBytes(|ts|);
    var b := FetchPayload(id, ts);
    assert b[..4] == EncInt32(id) && b[4..8] == EncInt32(|ts|) && b[8..] == TopicsBytes(true, ts);
  }
}
