/**
 Message sets (proto/messages.go, writeMessageSet and readMessageSet): the bytes a list of
 messages becomes, and what the reader makes of any bytes at all, including a set whose last
 message was cut off, an entry with a wrong checksum, and compressed sets.
 */
module MessageSet {
  import opened Wire
  import opened Codec
  import Snappy

  datatype Message = Message(
    key: Slice,
    value: Slice,
    offset: int64,
    crc: uint32,
    topic: seq<byte>,
    partition: int32,
    tipOffset: int64)

  datatype Compression = NoCompression | Gzip | SnappyCompression {
    function Code(): byte {
      match this
      case NoCompression => 0
      case Gzip => 1
      case SnappyCompression => 2
    }
  }

  // ---------------------------------------------------------------- what is written

  /** The bytes the checksum covers: magic byte, attributes, key, value. */
  function Body(m: Message, attributes: byte): seq<byte> {
    [0, attributes] + EncBytes(m.key) + EncBytes(m.value)
  }

  function ContentSize(m: Message): nat {
    |m.key.Content()| + |m.value.Content()|
  }

  /** One entry: offset, size, checksum, body. */
  function Entry(cx: Codecs, m: Message, attributes: byte): (e: seq<byte>)
    ensures |e| == 26 + ContentSize(m)
  {
    EncInt64(m.offset) + EncInt32(14 + ContentSize(m)) + BE(4, cx.crc(Body(m, attributes))) + Body(m, attributes)
  }

  function Entries(cx: Codecs, msgs: seq<Message>, attributes: byte): seq<byte> {
    if msgs == [] then [] else Entry(cx, msgs[0], attributes) + Entries(cx, msgs[1..], attributes)
  }

  /** The single message that carries a compressed set: it has the offset of the last message. */
  function Wrapper(cx: Codecs, msgs: seq<Message>, c: Compression): Message
    requires msgs != [] && c != NoCompression
  {
    var plain := Entries(cx, msgs, 0);
    var packed := if c == Gzip then cx.gzip(plain) else cx.snap(plain);
    Message(Nil, Bytes(packed), msgs[|msgs| - 1].offset, 0, [], 0, 0)
  }

  function SetBytes(cx: Codecs, msgs: seq<Message>, c: Compression): seq<byte> {
    if msgs == [] then []
    else if c == NoCompression then Entries(cx, msgs, 0)
    else Entry(cx, Wrapper(cx, msgs, c), c.Code())
  }

  // ---------------------------------------------------------------- what is read

  /** `Panic` is a bounds panic in the reader; `TooDeep` is more nesting than was allowed for. */
  datatype SetResult = Msgs(msgs: seq<Message>) | Malformed | BadMethod | Panic | TooDeep

  function Prepend(set0: seq<Message>, r: SetResult): SetResult {
    if r.Msgs? then Msgs(set0 + r.msgs) else r
  }

  /** The reader allocates this much more than an entry needs. */
  const Slack := 10240

  /** One turn of the loop up to the checksum test; `buf` is the length of the reused buffer. */
  datatype Head =
    | Drained
    | BadCrc(rest: seq<byte>)
    | Crash
    | Payload(offset: int64, crc: uint32, body: seq<byte>, rest: seq<byte>, buf: nat)

  lemma DecIntRange(s: seq<byte>)
    ensures |s| == 4 ==> -0x8000_0000 <= DecInt(s) < 0x8000_0000
    ensures |s| == 8 ==> -0x8000_0000_0000_0000 <= DecInt(s) < 0x8000_0000_0000_0000
  {
    Powers();
  }

  function Grown(size: int32, buf: nat): int {
    if size > buf then WrapInt32(size + Slack) else buf
  }

  /** A turn that goes on has used up at least 16 bytes, which is why the loop ends. */
  function Split(cx: Codecs, w: seq<byte>, buf: nat): (h: Head)
    ensures h.Payload? ==> |h.rest| + 16 <= |w|
  {
    if |w| < 12 then Drained
    else
      DecIntRange(w[..8]);
      DecIntRange(w[8..12]);
      Powers();
      var size: int32 := DecInt(w[8..12]);
      if Grown(size, buf) < 0 || size < 0 then Crash
      else if |w| < 12 + size then Drained
      else if size < 4 then Crash
      else
        var payload, rest := w[12..12 + size], w[12 + size..];
        if FromBE(payload[..4]) != cx.crc(payload[4..]) then BadCrc(rest)
        else Payload(DecInt(w[..8]), FromBE(payload[..4]), payload[4..], rest, Grown(size, buf))
  }

  /** The compression method, key, value and decoder error of a message body. */
  datatype Fields = Fields(method_: int, key: Slice, value: Slice, ok: bool)

  function GetFields(body: seq<byte>): Fields {
    var (magic, c1) := GetInt(Cursor(body, NoError), 1);
    var (attributes, c2) := GetInt(c1, 1);
    var (key, c3) := GetBytes(c2);
    var (value, c4) := GetBytes(c3);
    Fields(attributes % 4, key, value, c4.err == NoError)
  }

  function Unpack(cx: Codecs, method_: int, packed: seq<byte>): Snappy.Decoded {
    if method_ == 1 then
      var d := cx.gunzip(packed);
      if d.Some? then Snappy.Plain(d.value) else Snappy.Corrupt
    else Snappy.Decode(cx, packed)
  }

  /**
   readMessageSet on the bytes `w` that its limit lets through: the result, and the bytes of
   `w` it leaves unread. `depth` bounds the nesting of compressed sets.
   */
  function ReadSet(cx: Codecs, depth: nat, w: seq<byte>, buf: nat): (SetResult, seq<byte>)
    decreases depth, |w|
  {
    match Split(cx, w, buf)
    case Drained => (Msgs([]), [])
    case BadCrc(rest) => (Msgs([]), rest)
    case Crash => (Panic, [])
    case Payload(offset, crc, body, rest, buf') =>
      var f := GetFields(body);
      if f.method_ == 3 then (BadMethod, rest)
      else if !f.ok then (Malformed, rest)
      else if f.method_ == 0 then
        var (r, rest') := ReadSet(cx, depth, rest, buf');
        (Prepend([Message(f.key, f.value, offset, crc, [], 0, 0)], r), rest')
      else
        var inner := ReadPacked(cx, depth, Unpack(cx, f.method_, f.value.Content()));
        if !inner.Msgs? then (inner, rest)
        else
          var (r, rest') := ReadSet(cx, depth, rest, buf');
          (Prepend(inner.msgs, r), rest')
  }

  function ReadPacked(cx: Codecs, depth: nat, d: Snappy.Decoded): SetResult
    decreases depth, 0, 0
  {
    match d
    case Plain(data) =>
      if depth == 0 then TooDeep
      else ReadSet(cx, depth - 1, Window(data, WrapInt32(|data|)), 0).0
    case Crash => Panic
    case _ => Malformed
  }

  // ---------------------------------------------------------------- one entry

  /** The entry size plus the slack is a 32-bit size. */
  predicate Sized(m: Message) {
    14 + ContentSize(m) + Slack < 0x8000_0000
  }

  ghost predicate AllSized(msgs: seq<Message>) {
    forall i :: 0 <= i < |msgs| ==> Sized(msgs[i])
  }

  lemma SizedParts(msgs: seq<Message>)
    requires AllSized(msgs) && msgs != []
    ensures Sized(msgs[0]) && AllSized(msgs[1..])
  {
  }

  /** The buffer length after an entry for `m`. */
  function NextBuf(m: Message, buf: nat): nat
    requires Sized(m)
  {
    Grown(14 + ContentSize(m), buf)
  }

  /** A message as it arrives: no stamps yet, empty slices nil, the checksum recomputed. */
  function Received(cx: Codecs, m: Message): Message {
    Message(Normal(m.key), Normal(m.value), m.offset, cx.crc(Body(m, 0)), [], 0, 0)
  }

  function ReceivedAll(cx: Codecs, msgs: seq<Message>): (r: seq<Message>)
    ensures |r| == |msgs|
    ensures forall i :: 0 <= i < |msgs| ==> r[i] == Received(cx, msgs[i])
  {
    seq(|msgs|, i requires 0 <= i < |msgs| => Received(cx, msgs[i]))
  }

  /** The header of an entry holds the message's offset and the size of what follows. */
  lemma EntryHeader(cx: Codecs, m: Message, attributes: byte)
    requires Sized(m)
    ensures var e := Entry(cx, m, attributes);
            && DecInt(e[..8]) == m.offset
            && DecInt(e[8..12]) == 14 + ContentSize(m)
            && e[12..16] == BE(4, cx.crc(Body(m, attributes)))
            && e[16..] == Body(m, attributes)
  {
    var e := Entry(cx, m, attributes);
    Powers();
    assert e[..8] == EncInt64(m.offset);
    assert e[8..12] == EncInt32(14 + ContentSize(m));
    IntRoundTrip(8, m.offset);
    IntRoundTrip(4, 14 + ContentSize(m));
  }

  lemma SplitEntry(cx: Codecs, m: Message, attributes: byte, rest: seq<byte>, buf: nat)
    requires Sized(m)
    ensures Split(cx, Entry(cx, m, attributes) + rest, buf) ==
            Payload(m.offset, cx.crc(Body(m, attributes)), Body(m, attributes), rest, NextBuf(m, buf))
  {
    var e := Entry(cx, m, attributes);
    var w := e + rest;
    EntryHeader(cx, m, attributes);
    assert w[..8] == e[..8] && w[8..12] == e[8..12];
    var payload := w[12..|e|];
    assert payload[..4] == e[12..16] && payload[4..] == e[16..];
    assert w[|e|..] == rest;
    Powers();
    FromBEOfBE(4, cx.crc(Body(m, attributes)));
  }

  /** A cut anywhere inside an entry is seen as the end of the data. */
  lemma SplitCutEntry(cx: Codecs, m: Message, attributes: byte, k: nat, buf: nat)
    requires Sized(m)
    requires k < |Entry(cx, m, attributes)|
    ensures Split(cx, Entry(cx, m, attributes)[..k], buf) == Drained
  {
    var e := Entry(cx, m, attributes);
    if k >= 12 {
      EntryHeader(cx, m, attributes);
      assert e[..k][8..12] == e[8..12];
    }
  }

  lemma FieldsOfBody(m: Message, attributes: byte)
    requires Sized(m) && attributes < 4
    ensures GetFields(Body(m, attributes)) == Fields(attributes, Normal(m.key), Normal(m.value), true)
  {
    var tail := EncBytes(m.key) + EncBytes(m.value);
    BodyParts(m, attributes);
    hide *;
    GetByte(0, EncInt(1, attributes) + tail);
    GetByte(attributes, tail);
    GetBytesOfEnc(m.key, EncBytes(m.value));
    GetLastBytes(m.value);
    FieldsInOrder(Body(m, attributes));
  }

  lemma FieldsInOrder(body: seq<byte>)
    ensures var (magic, c1) := GetInt(Cursor(body, NoError), 1);
            var (attributes, c2) := GetInt(c1, 1);
            var (key, c3) := GetBytes(c2);
            var (value, c4) := GetBytes(c3);
            GetFields(body) == Fields(attributes % 4, key, value, c4.err == NoError)
  {
  }

  lemma BodyParts(m: Message, attributes: byte)
    ensures Body(m, attributes) == EncInt(1, 0) + (EncInt(1, attributes) + (EncBytes(m.key) + EncBytes(m.value)))
    ensures Sized(m) ==> |m.key.Content()| < 0x8000_0000 && |m.value.Content()| < 0x8000_0000
  {
    OneByte(0);
    OneByte(attributes);
  }

  lemma GetByte(b: byte, tail: seq<byte>)
    requires b < 4
    ensures GetInt(Cursor(EncInt(1, b) + tail, NoError), 1) == (b, Cursor(tail, NoError))
  {
    Powers();
    GetIntOfEnc(1, b, tail);
  }

  lemma GetLastBytes(s: Slice)
    requires |s.Content()| < 0x8000_0000
    ensures GetBytes(Cursor(EncBytes(s), NoError)) == (Normal(s), Cursor([], NoError))
  {
    GetBytesOfEnc(s, []);
    assert EncBytes(s) + [] == EncBytes(s);
  }

  lemma OneByte(b: byte)
    ensures EncInt(1, b) == [b]
  {
    Powers();
    assert BE(1, b) == BE(0, b / 256) + [b % 256];
  }

  // ---------------------------------------------------------------- cut sets

  /** How many leading messages lie wholly inside the first `k` bytes. */
  function Whole(msgs: seq<Message>, k: nat): (n: nat)
    ensures n <= |msgs|
  {
    if msgs == [] || k < 26 + ContentSize(msgs[0]) then 0
    else 1 + Whole(msgs[1..], k - 26 - ContentSize(msgs[0]))
  }

  /** `Whole` is the longest prefix that fits. */
  lemma {:induction false} WholeIsLongest(cx: Codecs, msgs: seq<Message>, k: nat, n: nat)
    requires n <= |msgs|
    ensures |Entries(cx, msgs[..n], 0)| <= k <==> n <= Whole(msgs, k)
  {
    if n > 0 {
      var size := 26 + ContentSize(msgs[0]);
      assert msgs[..n][0] == msgs[0] && msgs[..n][1..] == msgs[1..][..n - 1];
      if size <= k {
        WholeIsLongest(cx, msgs[1..], k - size, n - 1);
      }
    }
  }

  /**
   Reading the first `k` bytes of an uncompressed set returns, without error, exactly the
   messages that lie wholly inside those bytes, and leaves none of the `k` bytes unread.
   */
  lemma {:induction false} ReadCutSet(cx: Codecs, depth: nat, msgs: seq<Message>, k: nat, buf: nat)
    requires AllSized(msgs)
    requires k <= |Entries(cx, msgs, 0)|
    ensures ReadSet(cx, depth, Entries(cx, msgs, 0)[..k], buf) ==
            (Msgs(ReceivedAll(cx, msgs[..Whole(msgs, k)])), [])
    decreases |msgs|
  {
    hide *;
    if msgs != [] {
      SizedParts(msgs);
    }
    if msgs == [] {
      ReadNothing(cx, depth, msgs, k, buf);
    } else if k < 26 + ContentSize(msgs[0]) {
      CutInsideFirst(cx, depth, msgs, k, buf);
    } else {
      var m, k' := msgs[0], k - 26 - ContentSize(msgs[0]);
      CutBehindFirst(cx, msgs, k);
      ReadOneEntry(cx, depth, m, Entries(cx, msgs[1..], 0)[..k'], buf);
      ReadCutSet(cx, depth, msgs[1..], k', NextBuf(m, buf));
      PrependReceived(cx, msgs, Whole(msgs, k));
    }
  }

  lemma ReadNothing(cx: Codecs, depth: nat, msgs: seq<Message>, k: nat, buf: nat)
    requires msgs == [] && k <= |Entries(cx, msgs, 0)|
    ensures ReadSet(cx, depth, Entries(cx, msgs, 0)[..k], buf) == (Msgs(ReceivedAll(cx, msgs[..Whole(msgs, k)])), [])
  {
  }

  lemma CutInsideFirst(cx: Codecs, depth: nat, msgs: seq<Message>, k: nat, buf: nat)
    requires msgs != [] && Sized(msgs[0]) && k < 26 + ContentSize(msgs[0])
    ensures k <= |Entries(cx, msgs, 0)|
    ensures ReadSet(cx, depth, Entries(cx, msgs, 0)[..k], buf) == (Msgs([]), [])
    ensures Whole(msgs, k) == 0 && ReceivedAll(cx, msgs[..Whole(msgs, k)]) == []
  {
    assert Entries(cx, msgs, 0)[..k] == Entry(cx, msgs[0], 0)[..k];
    SplitCutEntry(cx, msgs[0], 0, k, buf);
  }

  lemma CutBehindFirst(cx: Codecs, msgs: seq<Message>, k: nat)
    requires msgs != [] && 26 + ContentSize(msgs[0]) <= k <= |Entries(cx, msgs, 0)|
    ensures var k' := k - 26 - ContentSize(msgs[0]);
            && k' <= |Entries(cx, msgs[1..], 0)|
            && Entries(cx, msgs, 0)[..k] == Entry(cx, msgs[0], 0) + Entries(cx, msgs[1..], 0)[..k']
            && Whole(msgs, k) == 1 + Whole(msgs[1..], k')
  {
  }

  lemma PrependReceived(cx: Codecs, msgs: seq<Message>, n: nat)
    requires 0 < n <= |msgs|
    ensures Prepend([Received(cx, msgs[0])], Msgs(ReceivedAll(cx, msgs[1..][..n - 1]))) ==
        Msgs(ReceivedAll(cx, msgs[..n]))
  {
    assert [Received(cx, msgs[0])] + ReceivedAll(cx, msgs[1..][..n - 1]) == ReceivedAll(cx, msgs[..n]);
  }

  /** A complete uncompressed entry at the front is delivered, and reading goes on behind it. */
  lemma ReadOneEntry(cx: Codecs, depth: nat, m: Message, rest: seq<byte>, buf: nat)
    requires Sized(m)
    ensures var (r, left) := ReadSet(cx, depth, rest, NextBuf(m, buf));
            ReadSet(cx, depth, Entry(cx, m, 0) + rest, buf) == (Prepend([Received(cx, m)], r), left)
  {
    SplitEntry(cx, m, 0, rest, buf);
    FieldsOfBody(m, 0);
  }

  /** The whole set comes back. */
  lemma ReadWholeSet(cx: Codecs, depth: nat, msgs: seq<Message>, buf: nat)
    requires AllSized(msgs)
    ensures ReadSet(cx, depth, Entries(cx, msgs, 0), buf) == (Msgs(ReceivedAll(cx, msgs)), [])
  {
    hide *;
    var all := Entries(cx, msgs, 0);
    assert all[..|all|] == all && msgs[..|msgs|] == msgs;
    WholeIsLongest(cx, msgs, |all|, |msgs|);
    ReadCutSet(cx, depth, msgs, |all|, buf);
  }

  // ---------------------------------------------------------------- checksum mismatch

  /** An entry with any payload and any checksum field. */
  function RawEntry(offset: int64, crc: uint32, body: seq<byte>): seq<byte> {
    EncInt64(offset) + EncInt32(4 + |body|) + BE(4, crc) + body
  }

  lemma SplitRawEntry(cx: Codecs, offset: int64, crc: uint32, body: seq<byte>, rest: seq<byte>, buf: nat)
    requires 4 + |body| + Slack < 0x8000_0000
    ensures Split(cx, RawEntry(offset, crc, body) + rest, buf) ==
            if crc == cx.crc(body) then Payload(offset, crc, body, rest, Grown(4 + |body|, buf)) else BadCrc(rest)
  {
    var e := RawEntry(offset, crc, body);
    var w := e + rest;
    Powers();
    IntRoundTrip(8, offset);
    IntRoundTrip(4, 4 + |body|);
    FromBEOfBE(4, crc);
    assert w[..8] == EncInt64(offset) && w[8..12] == EncInt32(4 + |body|);
    var payload := w[12..|e|];
    assert payload[..4] == BE(4, crc) && payload[4..] == body && w[|e|..] == rest;
  }

  /** The entry with the wrong checksum ends the reading, and what follows it stays unread. */
  lemma ReadBadEntry(cx: Codecs, depth: nat, offset: int64, crc: uint32, body: seq<byte>, junk: seq<byte>, buf: nat)
    requires 4 + |body| + Slack < 0x8000_0000 && crc != cx.crc(body)
    ensures ReadSet(cx, depth, RawEntry(offset, crc, body) + junk, buf) == (Msgs([]), junk)
  {
    SplitRawEntry(cx, offset, crc, body, junk, buf);
  }

  /** The sizes on which the reader panics: the slice of the buffer or its allocation is out of range. */
  lemma SizePanicsIff(cx: Codecs, offset: int64, size: int32, tail: seq<byte>)
    ensures Split(cx, EncInt64(offset) + EncInt32(size) + tail, 0) == Crash <==>
            size < 0 || size + 10240 > 0x7fff_ffff || (size < 4 && |tail| >= size)
  {
    var w := EncInt64(offset) + EncInt32(size) + tail;
    Powers();
    IntRoundTrip(8, offset);
    IntRoundTrip(4, size);
    assert w[..8] == EncInt64(offset) && w[8..12] == EncInt32(size);
  }

  // ---------------------------------------------------------------- compressed sets

  /** The set that a compressed entry unpacks to is itself a 32-bit size. */
  ghost predicate Packable(cx: Codecs, msgs: seq<Message>, c: Compression) {
    && AllSized(msgs)
    && (msgs != [] && c != NoCompression ==> Sized(Wrapper(cx, msgs, c)) && |Entries(cx, msgs, 0)| < 0x8000_0000)
  }

  lemma UnpackWrapper(cx: Codecs, msgs: seq<Message>, c: Compression)
    requires Lawful(cx) && msgs != [] && c != NoCompression
    ensures Unpack(cx, c.Code(), Normal(Wrapper(cx, msgs, c).value).Content()) == Snappy.Plain(Entries(cx, msgs, 0))
  {
    if c == SnappyCompression {
      Snappy.DecodePlain(cx, Entries(cx, msgs, 0));
    }
  }

  /**
   Under every compression mode, reading a written set gives back the messages with their own
   offsets, and consumes the set; one level of nesting is enough.
   */
  lemma ReadPackedSet(cx: Codecs, depth: nat, msgs: seq<Message>, c: Compression, buf: nat)
    requires Lawful(cx) && Packable(cx, msgs, c)
    requires c != NoCompression ==> depth > 0
    ensures ReadSet(cx, depth, SetBytes(cx, msgs, c), buf) == (Msgs(ReceivedAll(cx, msgs)), [])
  {
    if msgs == [] || c == NoCompression {
      assert SetBytes(cx, msgs, c) == Entries(cx, msgs, 0);
      hide *;
      ReadWholeSet(cx, depth, msgs, buf);
    } else {
      var set_ := SetBytes(cx, msgs, c);
      assert set_ + [] == set_ && ReceivedAll(cx, msgs) + [] == ReceivedAll(cx, msgs);
      hide *;
      ReadOneWrapper(cx, depth, msgs, c, [], buf);
      ReadEmpty(cx, depth, NextBuf(Wrapper(cx, msgs, c), buf));
      PrependNothing(ReceivedAll(cx, msgs));
    }
  }

  lemma ReadEmpty(cx: Codecs, depth: nat, buf: nat)
    ensures ReadSet(cx, depth, [], buf) == (Msgs([]), [])
  {
  }

  lemma PrependNothing(ms: seq<Message>)
    ensures Prepend(ms, Msgs([])) == Msgs(ms)
  {
    assert ms + [] == ms;
  }

  /** A complete compressed entry at the front is unpacked, and reading goes on behind it. */
  lemma ReadOneWrapper(cx: Codecs, depth: nat, msgs: seq<Message>, c: Compression, rest: seq<byte>, buf: nat)
    requires Lawful(cx) && Packable(cx, msgs, c) && msgs != [] && c != NoCompression && depth > 0
    ensures Sized(Wrapper(cx, msgs, c))
    ensures var (r, left) := ReadSet(cx, depth, rest, NextBuf(Wrapper(cx, msgs, c), buf));
            ReadSet(cx, depth, SetBytes(cx, msgs, c) + rest, buf) == (Prepend(ReceivedAll(cx, msgs), r), left)
  {
    PackableMeans(cx, msgs, c);
    hide *;
    SplitWrapper(cx, msgs, c, rest, buf);
    UnpackWrapper(cx, msgs, c);
    ReadInner(cx, depth, msgs);
    ReadWrapper(cx, depth, SetBytes(cx, msgs, c) + rest, buf);
  }

  lemma PackableMeans(cx: Codecs, msgs: seq<Message>, c: Compression)
    requires Packable(cx, msgs, c) && msgs != [] && c != NoCompression
    ensures AllSized(msgs) && Sized(Wrapper(cx, msgs, c)) && |Entries(cx, msgs, 0)| < 0x8000_0000
    ensures c.Code() in {1, 2}
  {
  }

  lemma SplitWrapper(cx: Codecs, msgs: seq<Message>, c: Compression, rest: seq<byte>, buf: nat)
    requires Lawful(cx) && Packable(cx, msgs, c) && msgs != [] && c != NoCompression
    ensures var h := Split(cx, SetBytes(cx, msgs, c) + rest, buf);
            && h.Payload? && h.rest == rest && h.buf == NextBuf(Wrapper(cx, msgs, c), buf)
            && GetFields(h.body) == Fields(c.Code(), Nil, Normal(Wrapper(cx, msgs, c).value), true)
  {
    var wrapper := Wrapper(cx, msgs, c);
    assert SetBytes(cx, msgs, c) == Entry(cx, wrapper, c.Code());
    hide Split, GetFields, Entry, Entries, Body;
    SplitEntry(cx, wrapper, c.Code(), rest, buf);
    FieldsOfBody(wrapper, c.Code());
  }

  lemma ReadInner(cx: Codecs, depth: nat, msgs: seq<Message>)
    requires depth > 0 && AllSized(msgs) && |Entries(cx, msgs, 0)| < 0x8000_0000
    ensures ReadPacked(cx, depth, Snappy.Plain(Entries(cx, msgs, 0))) == Msgs(ReceivedAll(cx, msgs))
  {
    hide *;
    var plain := Entries(cx, msgs, 0);
    WholeWindow(plain);
    ReadWholeSet(cx, depth - 1, msgs, 0);
    ReadPlain(cx, depth, plain);
  }

  lemma WholeWindow(data: seq<byte>)
    requires |data| < 0x8000_0000
    ensures Window(data, WrapInt32(|data|)) == data
  {
  }

  lemma ReadPlain(cx: Codecs, depth: nat, data: seq<byte>)
    requires depth > 0
    ensures ReadPacked(cx, depth, Snappy.Plain(data)) == ReadSet(cx, depth - 1, Window(data, WrapInt32(|data|)), 0).0
  {
    hide Split, GetFields, Unpack, Window, WrapInt32;
  }

  /** A compressed entry in front stands for the set inside it. */
  lemma ReadWrapper(cx: Codecs, depth: nat, w: seq<byte>, buf: nat)
    requires Split(cx, w, buf).Payload?
    requires var f := GetFields(Split(cx, w, buf).body);
             f.ok && f.method_ in {1, 2} && ReadPacked(cx, depth, Unpack(cx, f.method_, f.value.Content())).Msgs?
    ensures var h := Split(cx, w, buf);
            var f := GetFields(h.body);
            var inner := ReadPacked(cx, depth, Unpack(cx, f.method_, f.value.Content()));
            var (r, left) := ReadSet(cx, depth, h.rest, h.buf);
            ReadSet(cx, depth, w, buf) == (Prepend(inner.msgs, r), left)
  {
    hide Split, GetFields, ReadPacked, Unpack;
  }

  /** A compressed set that was cut anywhere before its end yields nothing, and no error. */
  lemma ReadCutPackedSet(cx: Codecs, depth: nat, msgs: seq<Message>, c: Compression, k: nat, buf: nat)
    requires Packable(cx, msgs, c) && c != NoCompression
    requires k < |SetBytes(cx, msgs, c)|
    ensures ReadSet(cx, depth, SetBytes(cx, msgs, c)[..k], buf) == (Msgs([]), [])
  {
    SplitCutEntry(cx, Wrapper(cx, msgs, c), c.Code(), k, buf);
  }

  // ---------------------------------------------------------------- the nesting bound

  /** The bound only matters when it is hit: any larger bound gives the same result. */
  lemma {:induction false} DepthIrrelevant(cx: Codecs, depth: nat, more: nat, w: seq<byte>, buf: nat)
    requires depth <= more
    requires ReadSet(cx, depth, w, buf).0 != TooDeep
    ensures ReadSet(cx, more, w, buf) == ReadSet(cx, depth, w, buf)
    decreases depth, |w|
  {
    hide Split, GetFields, Unpack, Window, WrapInt32;
    var h := Split(cx, w, buf);
    if h.Payload? {
      var f := GetFields(h.body);
      if f.method_ != 3 && f.ok {
        if f.method_ == 0 {
          DepthIrrelevant(cx, depth, more, h.rest, h.buf);
        } else {
          var d := Unpack(cx, f.method_, f.value.Content());
          if d.Plain? && depth > 0 {
            DepthIrrelevant(cx, depth - 1, more - 1, Window(d.data, WrapInt32(|d.data|)), 0);
          }
          if ReadPacked(cx, depth, d).Msgs? {
            DepthIrrelevant(cx, depth, more, h.rest, h.buf);
          }
        }
      }
    }
  }
}
