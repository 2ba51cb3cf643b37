/**
 The loops that print and parse fetch responses and produce requests (proto/messages.go): the
 growing buffer with its size placeholders, patched once the set behind them is written, and
 the parser whose decoder and message-set reader take turns on one stream.
 */
module ResponsesIO {
  import opened Wire
  import opened Codec
  import opened MessageSet
  import opened MixedSets
  import opened MessageSetIO
  import opened Responses
  import opened Frames
  import opened Cuts

  // ---------------------------------------------------------------- printing

  function RawPart(cx: Codecs, c: Compression, p: Part<Msglist>): Part<Raw> {
    Part(p.id, p.err, p.tip, SetBytes(cx, p.body, c))
  }

  function RawParts(cx: Codecs, c: Compression, ps: seq<Part<Msglist>>): seq<Part<Raw>> {
    seq(|ps|, i requires 0 <= i < |ps| => RawPart(cx, c, ps[i]))
  }

  lemma RawTopicsAre(cx: Codecs, c: Compression, ts: seq<Topic<Msglist>>)
    ensures |RawTopics(cx, c, ts)| == |ts|
    ensures forall i :: 0 <= i < |ts| ==> RawTopics(cx, c, ts)[i] == Topic(ts[i].name, RawParts(cx, c, ts[i].parts))
  {
    hide SetBytes, Written, ItemsBytes;
    forall i | 0 <= i < |ts|
      ensures RawTopics(cx, c, ts)[i] == Topic(ts[i].name, RawParts(cx, c, ts[i].parts))
    {
      var t := ts[i];
      forall j | 0 <= j < |t.parts|
        ensures SentPart(cx, WholePart(cx, c, t.parts[j])) == RawPart(cx, c, t.parts[j])
      {
        var b := SetBytes(cx, t.parts[j].body, c);
        WrittenIs(cx, t.parts[j].body, c);
        assert b[..|b|] == b;
      }
      assert SentTopic(cx, WholeTopic(cx, c, t)).parts == RawParts(cx, c, t.parts);
    }
  }

  lemma {:induction false} PartsSnoc(fetch: bool, ps: seq<Part<Raw>>, i: nat)
    requires i < |ps|
    ensures PartsBytes(fetch, ps[..i + 1]) == PartsBytes(fetch, ps[..i]) + PartBytes(fetch, ps[i])
    decreases i
  {
    hide PartBytes;
    assert ps[..i + 1][1..] == ps[1..][..i];
    if i > 0 {
      assert ps[..i][1..] == ps[1..][..i - 1];
      PartsSnoc(fetch, ps[1..], i - 1);
    }
  }

  lemma {:induction false} TopicsSnoc(fetch: bool, ts: seq<Topic<Raw>>, i: nat)
    requires i < |ts|
    ensures TopicsBytes(fetch, ts[..i + 1]) == TopicsBytes(fetch, ts[..i]) + TopicBytes(fetch, ts[i])
    decreases i
  {
    hide TopicBytes;
    assert ts[..i + 1][1..] == ts[1..][..i];
    if i > 0 {
      assert ts[..i][1..] == ts[1..][..i - 1];
      TopicsSnoc(fetch, ts[1..], i - 1);
    }
  }

  /** Encoding an error that is not a KafkaError panics. */
  predicate Unprintable(fetch: bool, p: Part<Msglist>) {
    fetch && p.err.Unknown?
  }

  /** One partition: the set size is a placeholder until the set is there. */
  method WritePart(cx: Codecs, fetch: bool, c: Compression, buf: seq<byte>, p: Part<Msglist>)
    returns (out: Option<seq<byte>>)
    ensures out.None? <==> Unprintable(fetch, p)
    ensures out.Some? ==> out.value == buf + PartBytes(fetch, RawPart(cx, c, p))
  {
    if Unprintable(fetch, p) {
      return None;
    }
    var head := PartHead(fetch, p);
    ghost var raw := SetBytes(cx, p.body, c);
    Placeholder(buf + head, raw);
    PrintedPart(cx, fetch, c, p, buf);
    hide *;
    var b := buf + head;
    var i := |b|;
    b := b + BE(4, 0);
    var n;
    b, n := WriteMessageSet(cx, b, p.body, c);
    b := b[..i] + EncInt32(n) + b[i + 4..];
    out := Some(b);
  }

  /** Patching the placeholder in front of what was written puts the size there. */
  lemma Placeholder(b: seq<byte>, raw: seq<byte>)
    ensures var c := b + BE(4, 0) + raw;
            && |c| == |b| + 4 + |raw|
            && c[..|b|] + EncInt32(|raw|) + c[|b| + 4..] == b + EncInt32(|raw|) + raw
  {
    var c := b + BE(4, 0) + raw;
    assert c[..|b|] == b && c[|b| + 4..] == raw;
  }

  lemma PrintedPart(cx: Codecs, fetch: bool, c: Compression, p: Part<Msglist>, buf: seq<byte>)
    ensures var raw := SetBytes(cx, p.body, c);
            buf + PartBytes(fetch, RawPart(cx, c, p)) == buf + PartHead(fetch, p) + EncInt32(|raw|) + raw
  {
    hide SetBytes, EncInt32;
    assert PartHead(fetch, RawPart(cx, c, p)) == PartHead(fetch, p);
  }

  method WriteParts(cx: Codecs, fetch: bool, c: Compression, buf: seq<byte>, ps: seq<Part<Msglist>>)
    returns (out: Option<seq<byte>>)
    ensures out.None? <==> exists i :: 0 <= i < |ps| && Unprintable(fetch, ps[i])
    ensures out.Some? ==> out.value == buf + PartsBytes(fetch, RawParts(cx, c, ps))
  {
    hide PartBytes, RawPart;
    var b := buf;
    ghost var raw := RawParts(cx, c, ps);
    for i := 0 to |ps|
      invariant forall j :: 0 <= j < i ==> !Unprintable(fetch, ps[j])
      invariant b == buf + PartsBytes(fetch, raw[..i])
    {
      var o := WritePart(cx, fetch, c, b, ps[i]);
      if o.None? {
        return None;
      }
      PartsSnoc(fetch, raw, i);
      assert o.value == buf + (PartsBytes(fetch, raw[..i]) + PartBytes(fetch, raw[i]));
      b := o.value;
    }
    assert raw[..|ps|] == raw;
    out := Some(b);
  }

  method WriteTopics(cx: Codecs, fetch: bool, c: Compression, buf: seq<byte>, ts: seq<Topic<Msglist>>)
    returns (out: Option<seq<byte>>)
    ensures out.None? <==> exists i, j :: 0 <= i < |ts| && 0 <= j < |ts[i].parts| && Unprintable(fetch, ts[i].parts[j])
    ensures out.Some? ==> out.value == buf + TopicsBytes(fetch, RawTopics(cx, c, ts))
  {
    RawTopicsAre(cx, c, ts);
    hide TopicBytes, RawTopics, EncString, EncInt32, PartsBytes, RawParts;
    var b := buf;
    ghost var raw := RawTopics(cx, c, ts);
    for i := 0 to |ts|
      invariant forall k, j :: 0 <= k < i && 0 <= j < |ts[k].parts| ==> !Unprintable(fetch, ts[k].parts[j])
      invariant b == buf + TopicsBytes(fetch, raw[..i])
    {
      var t := ts[i];
      var o := WriteParts(cx, fetch, c, b + EncString(t.name) + EncInt32(|t.parts|), t.parts);
      if o.None? {
        return None;
      }
      TopicsSnoc(fetch, raw, i);
      TopicLayout(fetch, raw[i], t.name, RawParts(cx, c, t.parts));
      RawPartsCount(cx, c, t.parts);
      assert o.value == buf + (TopicsBytes(fetch, raw[..i]) + TopicBytes(fetch, raw[i]));
      b := o.value;
    }
    assert raw[..|ts|] == raw;
    out := Some(b);
  }

  lemma TopicLayout(fetch: bool, t: Topic<Raw>, name: seq<byte>, parts: seq<Part<Raw>>)
    requires t == Topic(name, parts)
    ensures TopicBytes(fetch, t) == EncString(name) + EncInt32(|parts|) + PartsBytes(fetch, parts)
  {
  }

  lemma RawPartsCount(cx: Codecs, c: Compression, ps: seq<Part<Msglist>>)
    ensures |RawParts(cx, c, ps)| == |ps|
  {
  }

  /** Every error of the response can be encoded. */
  ghost predicate Printable(r: FetchResp) {
    forall i, j :: 0 <= i < |r.topics| && 0 <= j < |r.topics[i].parts| ==> !Unprintable(true, r.topics[i].parts[j])
  }

  /** FetchResp.Bytes; `None` is the panic in EncodeError. */
  method FetchRespBytes(cx: Codecs, r: FetchResp) returns (out: Option<seq<byte>>)
    ensures out.Some? <==> Printable(r)
    ensures out.Some? ==> out.value == Framed(FetchPayload(r.correlationID, RawTopics(cx, NoCompression, r.topics)))
  {
    RawTopicsAre(cx, NoCompression, r.topics);
    hide EncInt32, BE, TopicsBytes, RawTopics;
    var head := BE(4, 0) + EncInt32(r.correlationID) + EncInt32(|r.topics|);
    var b := WriteTopics(cx, true, NoCompression, head, r.topics);
    if b.None? {
      return None;
    }
    var all := b.value;
    ghost var payload := FetchPayload(r.correlationID, RawTopics(cx, NoCompression, r.topics));
    assert all == BE(4, 0) + payload;
    assert all[4..] == payload;
    out := Some(EncInt32(|all| - 4) + all[4..]);
  }

  /** ProduceReq.Bytes; it has no errors to encode. */
  method ProduceReqBytes(cx: Codecs, r: ProduceReq, c: Compression) returns (out: seq<byte>)
    ensures out == Framed(ProducePayload(r, RawTopics(cx, c, r.topics)))
  {
    RawTopicsAre(cx, c, r.topics);
    hide EncInt32, EncInt16, EncString, BE, TopicsBytes, RawTopics, Millis;
    var head := EncInt16(0) + EncInt16(0) + EncInt32(r.correlationID) + EncString(r.clientID)
      + EncInt16(r.requiredAcks) + EncInt32(Millis(r.timeout)) + EncInt32(|r.topics|);
    var b := WriteTopics(cx, false, c, BE(4, 0) + head, r.topics);
    var all := b.value;
    ghost var payload := ProducePayload(r, RawTopics(cx, c, r.topics));
    assert payload == head + TopicsBytes(false, RawTopics(cx, c, r.topics));
    assert all == BE(4, 0) + payload;
    assert all[4..] == payload;
    out := EncInt32(|all| - 4) + all[4..];
  }

  // ---------------------------------------------------------------- parsing

  datatype Outcome<+T> = Ok(value: T) | Err(why: Failure)

  /** The outcome of a parser that has left the rest of the stream to `rest`. */
  ghost predicate Agrees<T>(p: Parsed<T>, o: Outcome<T>, rest: Cursor) {
    if o.Ok? then p == Good(o.value, rest) else p == Bad(o.why)
  }

  /** A decoder that no limit holds back. */
  ghost predicate Unlimited(dec: Decoder)
    reads dec, dec.src
  {
    Max(dec.left, 0) >= |dec.src.unread|
  }

  lemma UnlimitedValue(dec: Decoder)
    requires Unlimited(dec)
    ensures dec.Value() == Cursor(dec.src.unread, dec.err) && dec.Rest() == []
  {
  }

  lemma LimitReached(dec: Decoder)
    requires dec.Rest() == []
    ensures Unlimited(dec)
  {
  }

  /** The message-set reader never gives back more than it was given. */
  lemma {:induction false} ReadSetShrinks(cx: Codecs, depth: nat, w: seq<byte>, buf: nat)
    ensures |ReadSet(cx, depth, w, buf).1| <= |w|
    decreases |w|
  {
    hide Split, GetFields, Unpack, ReadPacked;
    SplitShrinks(cx, w, buf);
    var h := Split(cx, w, buf);
    if h.Payload? {
      ReadSetShrinks(cx, depth, h.rest, h.buf);
    }
  }

  lemma SplitShrinks(cx: Codecs, w: seq<byte>, buf: nat)
    ensures Split(cx, w, buf).BadCrc? ==> |Split(cx, w, buf).rest| <= |w|
  {
  }

  method ReadHeadFields(dec: Decoder, fetch: bool) returns (id: int32, err: KafkaErr, tip: int64)
    requires Unlimited(dec)
    modifies dec, dec.src
    ensures ((id, err, tip), dec.Value()) == old(GetHead(fetch, dec.Value())) && Unlimited(dec)
  {
    hide GetInt;
    UnlimitedValue(dec);
    GetIntRange(dec.Value(), 4);
    id := dec.DecodeInt(4);
    err, tip := NoErr, 0;
    if fetch {
      GetIntRange(dec.Value(), 2);
      var errno := dec.DecodeInt(2);
      err := ErrFromNo(errno);
      GetIntRange(dec.Value(), 8);
      tip := dec.DecodeInt(8);
    }
    LimitReached(dec);
  }

  method ReadInt32(dec: Decoder) returns (v: int32)
    requires Unlimited(dec)
    modifies dec, dec.src
    ensures (v, dec.Value()) == old(GetInt32(dec.Value())) && Unlimited(dec)
  {
    hide GetInt;
    UnlimitedValue(dec);
    GetIntRange(dec.Value(), 4);
    v := dec.DecodeInt(4);
    LimitReached(dec);
  }

  /** One partition: its fields through the decoder, its set straight from the stream. */
  method ReadPartFrom(cx: Codecs, depth: nat, dec: Decoder, fetch: bool, name: seq<byte>)
    returns (o: Outcome<Part<Msglist>>)
    requires Unlimited(dec)
    modifies dec, dec.src
    ensures Agrees(old(ReadPart(cx, depth, fetch, name, dec.Value())), o, dec.Value())
    ensures Unlimited(dec)
  {
    hide GetHead, GetInt32, ReadSet, StampAll, Window, Beyond;
    var id, err, tip := ReadHeadFields(dec, fetch);
    var bad := dec.err != NoError;
    var size := ReadInt32(dec);
    if bad || dec.err != NoError {
      return Err(DecodeFailed);
    }
    UnlimitedValue(dec);
    ghost var rest := dec.src.unread;
    ReadSetShrinks(cx, depth, Window(rest, size), 0);
    WindowAndBeyond(rest, size);
    StreamLengths(dec, rest, size);
    var r := ReadMessageSet(cx, depth, dec.src, size);
    if !r.Msgs? {
      dec.left := |dec.src.unread|;
      return Err(SetFailed(r));
    }
    UnlimitedValue(dec);
    var messages := StampAll(fetch, name, id, tip, r.msgs);
    o := Ok(Part(id, err, tip, messages));
  }

  lemma WindowAndBeyond(s: seq<byte>, limit: int)
    ensures s == Window(s, limit) + Beyond(s, limit)
  {
  }

  lemma StreamLengths(dec: Decoder, rest: seq<byte>, size: int)
    requires Unlimited(dec) && rest == dec.src.unread
    ensures |Window(rest, size)| + |Beyond(rest, size)| == |rest| <= Max(dec.left, 0)
  {
  }

  function Join<T>(done: seq<T>, p: Parsed<seq<T>>): Parsed<seq<T>> {
    if p.Bad? then p else Good(done + p.value, p.rest)
  }

  lemma JoinStep<T>(done: seq<T>, v: T, p: Parsed<seq<T>>)
    ensures Join(done, Join([v], p)) == Join(done + [v], p)
    ensures Join([], p) == p
  {
    if p.Good? {
      assert done + ([v] + p.value) == done + [v] + p.value && [] + p.value == p.value;
    }
  }

  lemma ReadPartsTurn(cx: Codecs, depth: nat, fetch: bool, name: seq<byte>, n: nat, c: Cursor)
    ensures ReadParts(cx, depth, fetch, name, 0, c) == Good([], c)
    ensures n > 0 ==>
              var p := ReadPart(cx, depth, fetch, name, c);
              ReadParts(cx, depth, fetch, name, n, c) ==
                if p.Bad? then Bad(p.why) else Join([p.value], ReadParts(cx, depth, fetch, name, n - 1, p.rest))
  {
    hide ReadPart;
  }

  method ReadPartsFrom(cx: Codecs, depth: nat, dec: Decoder, fetch: bool, name: seq<byte>, n: nat)
    returns (o: Outcome<seq<Part<Msglist>>>)
    requires Unlimited(dec)
    modifies dec, dec.src
    ensures Agrees(old(ReadParts(cx, depth, fetch, name, n, dec.Value())), o, dec.Value())
    ensures Unlimited(dec)
  {
    hide ReadParts, ReadPart, Unlimited;
    var done: seq<Part<Msglist>> := [];
    ghost var whole := ReadParts(cx, depth, fetch, name, n, dec.Value());
    if n == 0 {
      ReadPartsTurn(cx, depth, fetch, name, n, dec.Value());
      return Ok([]);
    }
    var i := 0;
    ghost var p0: Part<Msglist> := Part(0, NoErr, 0, []);
    JoinStep([], p0, whole);
    while i < n
      invariant 0 <= i <= n && Unlimited(dec)
      invariant whole == Join(done, ReadParts(cx, depth, fetch, name, n - i, dec.Value()))
    {
      ReadPartsTurn(cx, depth, fetch, name, n - i, dec.Value());
      var p := ReadPartFrom(cx, depth, dec, fetch, name);
      if p.Err? {
        return Err(p.why);
      }
      JoinStep(done, p.value, ReadParts(cx, depth, fetch, name, n - i - 1, dec.Value()));
      done := done + [p.value];
      i := i + 1;
    }
    ReadPartsTurn(cx, depth, fetch, name, 0, dec.Value());
    assert done + [] == done;
    o := Ok(done);
  }

  method ReadTopicFrom(cx: Codecs, depth: nat, dec: Decoder, fetch: bool) returns (o: Outcome<Topic<Msglist>>)
    requires Unlimited(dec)
    modifies dec, dec.src
    ensures Agrees(old(ReadTopic(cx, depth, fetch, dec.Value())), o, dec.Value())
    ensures Unlimited(dec)
  {
    hide GetString, GetInt32, ReadParts;
    UnlimitedValue(dec);
    var name := dec.DecodeString();
    LimitReached(dec);
    var n := ReadInt32(dec);
    if n < 0 {
      return Err(NegativeLength);
    }
    var ps := ReadPartsFrom(cx, depth, dec, fetch, name, n);
    o := if ps.Err? then Err(ps.why) else Ok(Topic(name, ps.value));
  }

  lemma ReadTopicsTurn(cx: Codecs, depth: nat, fetch: bool, n: nat, c: Cursor)
    ensures ReadTopics(cx, depth, fetch, 0, c) == Good([], c)
    ensures n > 0 ==>
              var t := ReadTopic(cx, depth, fetch, c);
              ReadTopics(cx, depth, fetch, n, c) ==
                if t.Bad? then Bad(t.why) else Join([t.value], ReadTopics(cx, depth, fetch, n - 1, t.rest))
  {
    hide ReadTopic;
  }

  method ReadTopicsFrom(cx: Codecs, depth: nat, dec: Decoder, fetch: bool, n: nat)
    returns (o: Outcome<seq<Topic<Msglist>>>)
    requires Unlimited(dec)
    modifies dec, dec.src
    ensures Agrees(old(ReadTopics(cx, depth, fetch, n, dec.Value())), o, dec.Value())
    ensures Unlimited(dec)
  {
    hide ReadTopics, ReadTopic, Unlimited;
    var done: seq<Topic<Msglist>> := [];
    ghost var whole := ReadTopics(cx, depth, fetch, n, dec.Value());
    var i := 0;
    ghost var t0: Topic<Msglist> := Topic([], []);
    JoinStep([], t0, whole);
    while i < n
      invariant 0 <= i <= n && Unlimited(dec)
      invariant whole == Join(done, ReadTopics(cx, depth, fetch, n - i, dec.Value()))
    {
      ReadTopicsTurn(cx, depth, fetch, n - i, dec.Value());
      var t := ReadTopicFrom(cx, depth, dec, fetch);
      if t.Err? {
        return Err(t.why);
      }
      JoinStep(done, t.value, ReadTopics(cx, depth, fetch, n - i - 1, dec.Value()));
      done := done + [t.value];
      i := i + 1;
    }
    ReadTopicsTurn(cx, depth, fetch, 0, dec.Value());
    assert done + [] == done;
    o := Ok(done);
  }

  /** ReadFetchResp. */
  method ReadFetchResp(cx: Codecs, depth: nat, b: seq<byte>) returns (o: Outcome<FetchResp>)
    ensures var p := ParseFetchResp(cx, depth, b);
            if o.Ok? then p.Good? && p.value == o.value else p == Bad(o.why)
  {
    hide GetInt32, ReadTopics;
    var src := new Source(b);
    var dec := new Decoder(src, |b|);
    UnlimitedValue(dec);
    var _ := ReadInt32(dec);
    var id := ReadInt32(dec);
    var n := ReadInt32(dec);
    if n < 0 {
      return Err(NegativeLength);
    }
    var ts := ReadTopicsFrom(cx, depth, dec, true, n);
    if ts.Err? {
      return Err(ts.why);
    }
    o := if dec.err != NoError then Err(DecodeFailed) else Ok(FetchResp(id, ts.value));
  }

  /** ReadProduceReq. */
  method ReadProduceReq(cx: Codecs, depth: nat, b: seq<byte>) returns (o: Outcome<ProduceReq>)
    ensures var p := ParseProduceReq(cx, depth, b);
            if o.Ok? then p.Good? && p.value == o.value else p == Bad(o.why)
  {
    hide GetInt32, GetInt, GetString, ReadTopics;
    var src := new Source(b);
    var dec := new Decoder(src, |b|);
    UnlimitedValue(dec);
    var _ := ReadInt32(dec);
    var _ := ReadInt32(dec);
    var id := ReadInt32(dec);
    UnlimitedValue(dec);
    var client := dec.DecodeString();
    GetIntRange(dec.Value(), 2);
    var acks := dec.DecodeInt(2);
    LimitReached(dec);
    var ms := ReadInt32(dec);
    var n := ReadInt32(dec);
    if n < 0 {
      return Err(NegativeLength);
    }
    var ts := ReadTopicsFrom(cx, depth, dec, false, n);
    if ts.Err? {
      return Err(ts.why);
    }
    o := if dec.err != NoError then Err(DecodeFailed)
         else Ok(ProduceReq(id, client, acks, ms * Millisecond, ts.value));
  }

  // ---------------------------------------------------------------- frames

  /** ReadReq (`k == 2`) and ReadResp (`k == 4`): size and tag are decoded, then put back. */
  method ReadFrameFrom(k: nat, r: Source) returns (f: Option<(int, seq<byte>)>, boom: bool)
    requires k in {2, 4}
    modifies r
    ensures match ReadFrame(k, old(r.unread))
            case Frame(tag, bytes, rest) => f == Some((tag, bytes)) && r.unread == rest && !boom
            case Short => f == None && !boom
            case Boom => f == None && boom
  {
    ghost var s := r.unread;
    var dec := new Decoder(r, |r.unread|);
    UnlimitedValue(dec);
    hide GetInt, DecInt, EncInt, WrapInt32, BE;
    var size := dec.DecodeInt(4);
    var tag := dec.DecodeInt(k);
    TwoFields(k, s);
    if dec.err != NoError {
      return None, false;
    }
    LimitReached(dec);
    UnlimitedValue(dec);
    hide GetInt, DecInt, EncInt, WrapInt32;
    var n := WrapInt32(size + 4);
    if n < 4 + k {
      return None, true;
    }
    var b := ReadExactly(dec, n - 4 - k);
    if b.None? {
      return None, false;
    }
    FrameParts(k, n, s);
    return Some((tag, EncInt(4, size) + EncInt(k, tag) + b.value)), false;
  }

  lemma FrameParts(k: nat, n: nat, s: seq<byte>)
    requires 4 + k <= n <= |s|
    ensures s[..4] + s[4..4 + k] + s[4 + k..][..n - 4 - k] == s[..n]
    ensures s[4 + k..][n - 4 - k..] == s[n..]
  {
  }

  method ReadExactly(dec: Decoder, n: nat) returns (b: Option<seq<byte>>)
    requires Unlimited(dec) && dec.err == NoError
    modifies dec, dec.src
    ensures b.Some? <==> n <= |old(dec.src.unread)|
    ensures b.Some? ==> b.value == old(dec.src.unread)[..n] && dec.src.unread == old(dec.src.unread)[n..]
  {
    UnlimitedValue(dec);
    b := dec.Read(n);
    LimitReached(dec);
    UnlimitedValue(dec);
  }

  /** The size and tag fields of a stream, if it is long enough for both. */
  lemma TwoFields(k: nat, s: seq<byte>)
    requires k in {2, 4}
    ensures var (size, c1) := GetInt(Cursor(s, NoError), 4);
            var (tag, c2) := GetInt(c1, k);
            if |s| < 4 + k then c2.err != NoError
            else
              && c2 == Cursor(s[4 + k..], NoError)
              && size == DecInt(s[..4]) && tag == DecInt(s[4..4 + k])
              && EncInt(4, size) == s[..4] && EncInt(k, tag) == s[4..4 + k]
  {
    hide DecInt, EncInt;
    if |s| >= 4 + k {
      FrameHeader(k, s);
      assert s[4..][k..] == s[4 + k..];
    }
  }

  /** Decoding the two header fields and encoding them again gives the same bytes. */
  lemma FrameHeader(k: nat, s: seq<byte>)
    requires 4 + k <= |s| && k in {2, 4}
    ensures s[4..][..k] == s[4..4 + k]
    ensures EncInt(4, DecInt(s[..4])) == s[..4] && EncInt(k, DecInt(s[4..4 + k])) == s[4..4 + k]
  {
    EncOfDec(s[..4]);
    EncOfDec(s[4..4 + k]);
  }

  lemma EncOfDec(s: seq<byte>)
    ensures EncInt(|s|, DecInt(s)) == s
  {
    var p: int := Pow256(|s|);
    var u: int := FromBE(s);
    BEOfFromBE(s);
    hide Pow256, FromBE, BE;
    if 2 * u < p {
      ModShift(u, p);
    } else {
      ModShift(u - p, p);
    }
  }
}
