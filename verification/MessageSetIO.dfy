/**
 The two loops of proto/messages.go that write and read message sets, with the buffers they
 reuse: the slice writer whose checksum field is patched in place, and the read buffer that
 only ever grows. Both are proved to compute the functions of module MessageSet, in which
 there is no buffer; so no byte of an earlier message shows up in a later one.
 */
module MessageSetIO {
  import opened Wire
  import opened Codec
  import Snappy
  import opened MessageSet

  // ---------------------------------------------------------------- writing

  /** A writer into a reused buffer (slicewriter). */
  class SliceWriter {
    var buf: array<byte>
    var pos: nat
    var size: nat

    ghost predicate Valid()
      reads this
    {
      pos <= buf.Length
    }

    ghost function Written(): seq<byte>
      requires Valid()
      reads this, buf
    {
      buf[..pos]
    }

    constructor (n: nat)
      ensures Valid() && fresh(buf) && pos == 0
    {
      buf, pos, size := new byte[n](_ => 0), 0, 0;
    }

    method Write(p: seq<byte>) returns (ok: bool)
      requires Valid()
      modifies this`pos, buf
      ensures Valid() && ok == (old(pos) + |p| <= buf.Length)
      ensures Written() == if ok then old(Written()) + p else old(Written())
    {
      if buf.Length < pos + |p| {
        return false;
      }
      forall i | 0 <= i < |p| {
        buf[pos + i] := p[i];
      }
      pos := pos + |p|;
      assert buf[..pos] == old(buf[..pos]) + p;
      return true;
    }

    /** Starts over; the old contents stay in the buffer. */
    method Reset(n: nat)
      modifies this
      ensures Valid() && Written() == [] && n <= buf.Length && size == n
      ensures buf == old(buf) || fresh(buf)
    {
      if n > buf.Length {
        buf := new byte[n + 1000](_ => 0);
      }
      size, pos := n, 0;
    }

    /** binary.BigEndian.PutUint32(buf[i:i+4], v) */
    method Patch(i: nat, v: uint32)
      requires Valid() && i + 4 <= pos
      modifies buf
      ensures Written() == old(Written())[..i] + BE(4, v) + old(Written())[i + 4..]
    {
      var b := BE(4, v);
      buf[i], buf[i + 1], buf[i + 2], buf[i + 3] := b[0], b[1], b[2], b[3];
      assert buf[..pos] == old(buf[..pos])[..i] + b + old(buf[..pos])[i + 4..];
    }
  }

  /** An encoder with its sticky error. */
  class Encoder {
    const w: SliceWriter
    var failed: bool

    ghost predicate Valid()
      reads this, w
    {
      w.Valid()
    }

    constructor (w: SliceWriter)
      requires w.Valid()
      ensures this.w == w && !failed && Valid()
    {
      this.w, failed := w, false;
    }

    /** One write of one field. */
    method Put(p: seq<byte>)
      requires Valid()
      modifies this`failed, w`pos, w.buf
      ensures Valid() && failed == (old(failed) || old(w.pos) + |p| > w.buf.Length)
      ensures w.Written() == if failed then old(w.Written()) else old(w.Written()) + p
    {
      if failed {
        return;
      }
      var ok := w.Write(p);
      failed := !ok;
    }

    method EncodeBytes(s: Slice)
      requires Valid() && !failed && w.pos + 4 + |s.Content()| <= w.buf.Length
      modifies this`failed, w`pos, w.buf
      ensures Valid() && !failed && w.Written() == old(w.Written()) + EncBytes(s)
    {
      if s.Nil? {
        Put(EncInt32(-1));
        return;
      }
      Put(EncInt32(|s.data|));
      if !failed {
        Put(s.data);
        assert w.Written() == old(w.Written()) + EncBytes(s);
      }
    }
  }

  /** Offset, size, and a zero where the checksum will go. */
  function Header(m: Message): (h: seq<byte>)
    ensures |h| == 16
  {
    EncInt64(m.offset) + EncInt32(14 + ContentSize(m)) + BE(4, 0)
  }

  method EncodeHeader(enc: Encoder, m: Message)
    requires enc.Valid() && !enc.failed && enc.w.pos == 0 && 16 <= enc.w.buf.Length
    modifies enc`failed, enc.w`pos, enc.w.buf
    ensures enc.Valid() && !enc.failed && enc.w.Written() == Header(m)
  {
    EncodeWrapped(14 + ContentSize(m));
    var a, b, c := EncInt64(m.offset), EncInt32(WrapInt32(14 + ContentSize(m))), BE(4, 0);
    assert Header(m) == [] + a + b + c && |a| == 8 && |b| == 4 && |c| == 4;
    hide *;
    enc.Put(a);
    enc.Put(b);
    enc.Put(c);
  }

  method EncodeBody(enc: Encoder, m: Message, attributes: byte)
    requires enc.Valid() && !enc.failed && enc.w.pos + 10 + ContentSize(m) <= enc.w.buf.Length
    modifies enc`failed, enc.w`pos, enc.w.buf
    ensures enc.Valid() && !enc.failed && enc.w.Written() == old(enc.w.Written()) + Body(m, attributes)
  {
    ghost var before := enc.w.Written();
    BodyConcat(before, m, attributes);
    hide Body, EncBytes;
    enc.Put([0]);
    enc.Put([attributes]);
    enc.EncodeBytes(m.key);
    enc.EncodeBytes(m.value);
  }

  lemma BodyConcat(before: seq<byte>, m: Message, attributes: byte)
    ensures before + Body(m, attributes) == before + [0] + [attributes] + EncBytes(m.key) + EncBytes(m.value)
    ensures |EncBytes(m.key)| == 4 + |m.key.Content()|
  {
  }

  /** The fields of one entry, before its checksum is known. */
  method EncodeFields(b: SliceWriter, m: Message, attributes: byte)
    requires b.Valid() && b.pos == 0 && 26 + ContentSize(m) <= b.buf.Length
    modifies b`pos, b.buf
    ensures b.Valid() && b.Written() == Header(m) + Body(m, attributes)
  {
    hide Header, Body;
    var enc := new Encoder(b);
    EncodeHeader(enc, m);
    assert |enc.w.Written()| == 16;
    EncodeBody(enc, m, attributes);
  }

  /** One turn of the write loop. */
  method WriteEntry(cx: Codecs, b: SliceWriter, m: Message, attributes: byte)
    requires b.Valid()
    modifies b, b.buf
    ensures b.Valid() && b.Written() == Entry(cx, m, attributes)
    ensures b.buf == old(b.buf) || fresh(b.buf)
  {
    b.Reset(26 + ContentSize(m));
    EncodeFields(b, m, attributes);
    PatchedEntry(cx, m, attributes);
    hide *;
    var covered := b.buf[16..b.pos];
    assert covered == b.Written()[16..];
    b.Patch(12, cx.crc(covered));
  }

  /** Filling in the checksum of everything behind it turns the fields into the entry. */
  lemma PatchedEntry(cx: Codecs, m: Message, attributes: byte)
    ensures var fields := Header(m) + Body(m, attributes);
            && fields[16..] == Body(m, attributes)
            && Entry(cx, m, attributes) == fields[..12] + BE(4, cx.crc(Body(m, attributes))) + fields[16..]
  {
    var fields := Header(m) + Body(m, attributes);
    assert fields[..12] == EncInt64(m.offset) + EncInt32(14 + ContentSize(m));
    assert fields[16..] == Body(m, attributes);
  }

  /** writeMessageSet: `w` is what the destination held before, `n` the count of bytes written. */
  method WriteMessageSet(cx: Codecs, w: seq<byte>, messages: seq<Message>, c: Compression)
    returns (w': seq<byte>, n: nat)
    ensures w' == w + SetBytes(cx, messages, c)
    ensures n == |SetBytes(cx, messages, c)|
    decreases c != NoCompression
  {
    if messages == [] {
      return w, 0;
    }
    var set_ := messages;
    if c != NoCompression {
      var plain, _ := WriteMessageSet(cx, [], messages, NoCompression);
      assert plain == Entries(cx, messages, 0);
      var packed := if c == Gzip then cx.gzip(plain) else cx.snap(plain);
      set_ := [Message(Nil, Bytes(packed), messages[|messages| - 1].offset, 0, [], 0, 0)];
    }
    SetIsEntries(cx, messages, c, set_);
    w', n := WriteEntries(cx, w, set_, c.Code());
  }

  lemma SetIsEntries(cx: Codecs, messages: seq<Message>, c: Compression, set_: seq<Message>)
    requires messages != []
    requires set_ == if c == NoCompression then messages else [Wrapper(cx, messages, c)]
    ensures Entries(cx, set_, c.Code()) == SetBytes(cx, messages, c)
  {
    if c != NoCompression {
      assert Entries(cx, set_[1..], c.Code()) == [];
    }
  }

  method WriteEntries(cx: Codecs, w: seq<byte>, set_: seq<Message>, attributes: byte)
    returns (w': seq<byte>, totalSize: nat)
    ensures w' == w + Entries(cx, set_, attributes)
    ensures totalSize == |Entries(cx, set_, attributes)|
  {
    hide Entries, Entry;
    var b := new SliceWriter(0);
    w', totalSize := w, 0;
    NoEntries(cx, set_, attributes);
    for i := 0 to |set_|
      invariant b.Valid() && fresh(b) && fresh(b.buf)
      invariant w' == w + Entries(cx, set_[..i], attributes)
      invariant totalSize == |Entries(cx, set_[..i], attributes)|
    {
      WriteEntry(cx, b, set_[i], attributes);
      LastEntry(cx, set_, i, attributes);
      assert b.Written() == b.buf[..b.pos];
      w' := w' + b.buf[..b.pos];
      totalSize := totalSize + b.pos;
      assert w' == w + (Entries(cx, set_[..i], attributes) + Entry(cx, set_[i], attributes));
    }
    assert set_[..|set_|] == set_;
  }

  lemma NoEntries(cx: Codecs, set_: seq<Message>, attributes: byte)
    ensures Entries(cx, set_[..0], attributes) == []
  {
  }

  lemma {:induction false} LastEntry(cx: Codecs, set_: seq<Message>, i: nat, attributes: byte)
    requires i < |set_|
    ensures Entries(cx, set_[..i + 1], attributes) ==
        Entries(cx, set_[..i], attributes) + Entry(cx, set_[i], attributes)
    decreases i
  {
    hide *;
    SplitEntries(cx, set_, i + 1, attributes);
    if i > 0 {
      SplitEntries(cx, set_, i, attributes);
      LastEntry(cx, set_[1..], i - 1, attributes);
    } else {
      NoEntries(cx, set_, attributes);
      NoEntries(cx, set_[1..], attributes);
    }
  }

  lemma SplitEntries(cx: Codecs, set_: seq<Message>, i: nat, attributes: byte)
    requires 0 < i <= |set_|
    ensures Entries(cx, set_[..i], attributes) ==
        Entry(cx, set_[0], attributes) + Entries(cx, set_[1..][..i - 1], attributes)
  {
    assert set_[..i][0] == set_[0] && set_[..i][1..] == set_[1..][..i - 1];
  }

  // ---------------------------------------------------------------- reading

  datatype Status = End | Stop | Boom | Got

  /** The offset and size fields of an entry. */
  method ReadSizes(dec: Decoder) returns (ok: bool, offset: int64, size: int32)
    requires dec.err == NoError
    modifies dec, dec.src
    ensures dec.Rest() == old(dec.Rest())
    ensures ok == (|old(dec.Value().rest)| >= 12)
    ensures if ok then
              && dec.err == NoError
              && old(dec.Value().rest) == old(dec.Value().rest)[..12] + dec.Value().rest
              && offset == DecInt(old(dec.Value().rest)[..8])
              && size == DecInt(old(dec.Value().rest)[8..12])
            else dec.Value().rest == []
  {
    ghost var w := dec.Value().rest;
    var off := dec.DecodeInt(8);
    if dec.err != NoError {
      return false, 0, 0;
    }
    var sz := dec.DecodeInt(4);
    if dec.err != NoError {
      return false, 0, 0;
    }
    assert w[8..][..4] == w[8..12] && w[8..][4..] == w[12..];
    DecIntRange(w[..8]);
    DecIntRange(w[8..12]);
    return true, off, sz;
  }

  /** Makes room for `size` bytes, as the reader does, unless that panics. */
  method Grow(buf: array<byte>, size: int32) returns (ok: bool, buf': array<byte>)
    ensures ok == (Grown(size, buf.Length) >= 0 && size >= 0)
    ensures ok ==> buf'.Length == Grown(size, buf.Length) && size <= buf'.Length
    ensures buf' == buf || fresh(buf')
  {
    buf' := buf;
    if size > buf.Length {
      if WrapInt32(size + Slack) < 0 {
        return false, buf';
      }
      buf' := new byte[WrapInt32(size + Slack)](_ => 0);
    }
    ok := size >= 0;
  }

  /** One turn of the read loop up to the checksum test. */
  method ReadHead(cx: Codecs, dec: Decoder, buf: array<byte>)
    returns (status: Status, offset: int64, crc: uint32, body: seq<byte>, buf': array<byte>)
    requires dec.err == NoError
    modifies dec, dec.src, buf
    ensures dec.Rest() == old(dec.Rest())
    ensures buf' == buf || fresh(buf')
    ensures var h := Split(cx, old(dec.Value().rest), buf.Length);
            match status
            case End => h == Drained && dec.Value().rest == []
            case Stop => h == BadCrc(dec.Value().rest)
            case Boom => h == Crash
            case Got => h == Payload(offset, crc, body, dec.Value().rest, buf'.Length) && dec.err == NoError
  {
    hide DecInt, FromBE, WrapInt32, Grown;
    ghost var w := dec.Value().rest;
    var ok, size;
    crc, body, buf' := 0, [], buf;
    ok, offset, size := ReadSizes(dec);
    if !ok {
      return End, offset, crc, body, buf';
    }
    ok, buf' := Grow(buf, size);
    if !ok {
      return Boom, offset, crc, body, buf';
    }
    var b := dec.Read(size);
    if b.None? {
      return End, offset, crc, body, buf';
    }
    assert b.value == w[12..12 + size] && dec.Value().rest == w[12 + size..];
    if size < 4 {
      return Boom, offset, crc, body, buf';
    }
    forall i | 0 <= i < size {
      buf'[i] := b.value[i];
    }
    var msgbuf := buf'[..size];
    assert msgbuf == w[12..12 + size];
    var src := new Source(msgbuf);
    var msgdec := new Decoder(src, size);
    assert msgdec.Value() == Cursor(msgbuf, NoError);
    crc := msgdec.DecodeUint32();
    body := msgbuf[4..];
    status := if crc != cx.crc(body) then Stop else Got;
  }

  /** ReadSet, one turn at a time. */
  lemma ReadTurn(cx: Codecs, depth: nat, w: seq<byte>, buf: nat)
    ensures var h := Split(cx, w, buf);
            && (h.Drained? ==> ReadSet(cx, depth, w, buf) == (Msgs([]), []))
            && (h.BadCrc? ==> ReadSet(cx, depth, w, buf) == (Msgs([]), h.rest))
            && (h.Crash? ==> ReadSet(cx, depth, w, buf).0 == Panic)
            && (h.Payload? ==>
                  var f := GetFields(h.body);
                  var (r, rest) := ReadSet(cx, depth, h.rest, h.buf);
                  var inner := ReadPacked(cx, depth, Unpack(cx, f.method_, f.value.Content()));
                  ReadSet(cx, depth, w, buf) ==
                    if f.method_ == 3 then (BadMethod, h.rest)
                    else if !f.ok then (Malformed, h.rest)
                    else if f.method_ == 0 then
                      (Prepend([Message(f.key, f.value, h.offset, h.crc, [], 0, 0)], r), rest)
                    else if !inner.Msgs? then (inner, h.rest)
                    else (Prepend(inner.msgs, r), rest))
  {
    hide Split, GetFields, Unpack, ReadPacked, Prepend;
  }

  lemma PrependTwice(a: seq<Message>, b: seq<Message>, r: SetResult)
    ensures Prepend(a, Prepend(b, r)) == Prepend(a + b, r)
    ensures Prepend([], r) == r
    ensures Prepend(a, Msgs([])) == Msgs(a)
    ensures !r.Msgs? ==> Prepend(a, r) == r
  {
    assert r.Msgs? ==> a + (b + r.msgs) == a + b + r.msgs && [] + r.msgs == r.msgs;
    assert a + [] == a;
  }

  /** The key, value and compression method of a message, decoded from the read buffer. */
  method DecodeBody(body: seq<byte>) returns (f: Fields)
    ensures f == GetFields(body)
  {
    var src := new Source(body);
    var dec := new Decoder(src, |body|);
    assert Window(body, |body|) == body;
    var _ := dec.DecodeInt(1);
    var attributes := dec.DecodeInt(1);
    var key := dec.DecodeBytes();
    var value := dec.DecodeBytes();
    f := Fields(attributes % 4, key, value, dec.err == NoError);
  }

  method UnpackValue(cx: Codecs, method_: int, packed: seq<byte>) returns (d: Snappy.Decoded)
    ensures d == Unpack(cx, method_, packed)
  {
    if method_ == 1 {
      var g := cx.gunzip(packed);
      d := if g.Some? then Snappy.Plain(g.value) else Snappy.Corrupt;
    } else {
      d := Snappy.SnappyDecode(cx, packed);
    }
  }

  /** readMessageSet: reads at most `size` bytes of `r`. */
  method ReadMessageSet(cx: Codecs, depth: nat, r: Source, size: int) returns (res: SetResult)
    modifies r
    ensures res == ReadSet(cx, depth, Window(old(r.unread), size), 0).0
    ensures res.Msgs? ==>
              r.unread == ReadSet(cx, depth, Window(old(r.unread), size), 0).1 + Beyond(old(r.unread), size)
    decreases depth, 1
  {
    hide *;
    var dec := new Decoder(r, size);
    ghost var w, beyond := Window(r.unread, size), Beyond(r.unread, size);
    DecoderStart(dec);
    var messages: seq<Message> := [];
    var buf := new byte[0](_ => 0);
    PrependTwice([], [], ReadSet(cx, depth, w, 0).0);
    while true
      invariant fresh(dec) && fresh(buf) && dec.src == r && dec.err == NoError
      invariant dec.Rest() == beyond
      invariant ReadSet(cx, depth, w, 0).0 == Prepend(messages, ReadSet(cx, depth, dec.Value().rest, buf.Length).0)
      invariant ReadSet(cx, depth, w, 0).0.Msgs? ==>
                  ReadSet(cx, depth, w, 0).1 == ReadSet(cx, depth, dec.Value().rest, buf.Length).1
      decreases |dec.Value().rest|
    {
      ghost var v, len := dec.Value().rest, buf.Length;
      ReadTurn(cx, depth, v, len);
      ghost var whole := ReadSet(cx, depth, v, len).0;
      PrependTwice(messages, [], whole);
      var status, offset, crc, body;
      status, offset, crc, body, buf := ReadHead(cx, dec, buf);
      DecoderParts(dec);
      if status == End || status == Stop {
        return Msgs(messages);
      } else if status == Boom {
        return Panic;
      }
      ghost var rest := ReadSet(cx, depth, dec.Value().rest, buf.Length).0;
      var f := DecodeBody(body);
      if f.method_ == 3 {
        return BadMethod;
      } else if !f.ok {
        return Malformed;
      } else if f.method_ == 0 {
        var m := Message(f.key, f.value, offset, crc, [], 0, 0);
        PrependTwice(messages, [m], rest);
        messages := messages + [m];
      } else {
        var inner := ReadInside(cx, depth, f);
        if !inner.Msgs? {
          return inner;
        }
        PrependTwice(messages, inner.msgs, rest);
        messages := messages + inner.msgs;
      }
    }
  }

  /** The set inside a compressed entry. */
  method ReadInside(cx: Codecs, depth: nat, f: Fields) returns (inner: SetResult)
    ensures inner == ReadPacked(cx, depth, Unpack(cx, f.method_, f.value.Content()))
    decreases depth, 0
  {
    var d := UnpackValue(cx, f.method_, f.value.Content());
    hide Unpack, ReadSet;
    match d
    case Plain(data) =>
      if depth == 0 {
        return TooDeep;
      }
      var src := new Source(data);
      inner := ReadMessageSet(cx, depth - 1, src, WrapInt32(|data|));
    case Crash =>
      inner := Panic;
    case _ =>
      inner := Malformed;
  }

  /** A fresh decoder sees the window and nothing behind it. */
  lemma DecoderStart(dec: Decoder)
    ensures dec.Value() == Cursor(Window(dec.src.unread, dec.left), dec.err)
    ensures dec.Rest() == Beyond(dec.src.unread, dec.left)
  {
  }

  /** The source is what the decoder may still read and what lies behind its limit. */
  lemma DecoderParts(dec: Decoder)
    ensures dec.src.unread == dec.Value().rest + dec.Rest()
  {
  }
}
