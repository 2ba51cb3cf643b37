/**
 Whole requests and responses on a stream (proto/messages.go): the size field in front of
 every frame, ReadReq and ReadResp, and the fetch response and the produce request from the
 first byte to the last.
 */
module Frames {
  import opened Arithmetic
  import opened Wire
  import opened Codec
  import opened MessageSet
  import opened Responses

  // ---------------------------------------------------------------- frames on a stream

  /** Every serialised request and response: its length, then its content. */
  function Framed(payload: seq<byte>): seq<byte> {
    EncInt32(|payload|) + payload
  }

  /** `Short` is an error of the underlying reader, `Boom` a panic on a nonsensical size. */
  datatype Frame = Frame(tag: int, bytes: seq<byte>, rest: seq<byte>) | Short | Boom

  /**
   ReadReq with `k == 2` and ReadResp with `k == 4`: the tag is the request kind or the
   correlation ID, the bytes are the whole frame, size field included.
   */
  function ReadFrame(k: nat, s: seq<byte>): Frame {
    if |s| < 4 + k then Short
    else
      var size := DecInt(s[..4]);
      var n := WrapInt32(size + 4);
      if n < 4 + k then Boom
      else if |s| < n then Short
      else Frame(DecInt(s[4..4 + k]), s[..n], s[n..])
  }

  /** The stream read frame by frame until it is empty; `None` if that fails. */
  function ReadAll(k: nat, s: seq<byte>): Option<seq<Frame>>
    decreases |s|
  {
    if s == [] then Some([])
    else
      var f := ReadFrame(k, s);
      if !f.Frame? || |f.rest| >= |s| then None
      else
        var fs := ReadAll(k, f.rest);
        if fs.None? then None else Some([f] + fs.value)
  }

  function Stream(payloads: seq<seq<byte>>): seq<byte> {
    if payloads == [] then [] else Framed(payloads[0]) + Stream(payloads[1..])
  }

  predicate Frameable(k: nat, payload: seq<byte>) {
    k <= |payload| && |payload| + 4 < 0x8000_0000
  }

  lemma ReadFrameOfFramed(k: nat, payload: seq<byte>, tail: seq<byte>)
    requires Frameable(k, payload)
    ensures ReadFrame(k, Framed(payload) + tail) == Frame(DecInt(payload[..k]), Framed(payload), tail)
  {
    var s := Framed(payload) + tail;
    Powers();
    IntRoundTrip(4, |payload|);
    assert s[..4] == EncInt32(|payload|) && s[4..4 + k] == payload[..k];
    assert s[..|payload| + 4] == Framed(payload) && s[|payload| + 4..] == tail;
  }

  /** The frames of a stream: tag, bytes, and what comes behind. */
  function FramesOf(k: nat, payloads: seq<seq<byte>>): seq<Frame> {
    if payloads == [] then []
    else [Frame(Tag(k, payloads[0]), Framed(payloads[0]), Stream(payloads[1..]))] + FramesOf(k, payloads[1..])
  }

  /** The request kind, or the correlation ID, at the front of a payload. */
  function Tag(k: nat, payload: seq<byte>): int {
    if k <= |payload| then DecInt(payload[..k]) else 0
  }

  /**
   Any concatenation of frames is split back into exactly those frames, in order, each with
   its own tag.
   */
  lemma {:induction false} StreamSplits(k: nat, payloads: seq<seq<byte>>)
    requires forall i :: 0 <= i < |payloads| ==> Frameable(k, payloads[i])
    ensures ReadAll(k, Stream(payloads)) == Some(FramesOf(k, payloads))
    decreases |payloads|
  {
    if payloads != [] {
      hide ReadFrame, Framed, DecInt;
      ReadFrameOfFramed(k, payloads[0], Stream(payloads[1..]));
      FramedLength(payloads[0]);
      StreamSplits(k, payloads[1..]);
    }
  }

  lemma FramedLength(p: seq<byte>)
    ensures |Framed(p)| == 4 + |p|
  {
  }

  // ---------------------------------------------------------------- fetch response

  datatype FetchResp = FetchResp(correlationID: int32, topics: seq<Topic<Msglist>>)

  function FetchPayload(correlationID: int32, ts: seq<Topic<Raw>>): seq<byte> {
    EncInt32(correlationID) + EncInt32(|ts|) + TopicsBytes(true, ts)
  }

  /** ReadFetchResp. */
  function ParseFetchResp(cx: Codecs, depth: nat, b: seq<byte>): Parsed<FetchResp> {
    var (_, c1) := GetInt32(Cursor(b, NoError));
    var (id, c2) := GetInt32(c1);
    var (n, c3) := GetInt32(c2);
    if n < 0 then Bad(NegativeLength)
    else
      var ts := ReadTopics(cx, depth, true, n, c3);
      if ts.Bad? then Bad(ts.why)
      else if ts.rest.err != NoError then Bad(DecodeFailed)
      else Good(FetchResp(id, ts.value), ts.rest)
  }

  lemma ParseFetchOfBytes(cx: Codecs, depth: nat, id: int32, ts: seq<Topic<Raw>>)
    requires CleanTopics(cx, depth, true, ts) && |ts| < 0x8000_0000
    requires |FetchPayload(id, ts)| < 0x8000_0000
    ensures ParseFetchResp(cx, depth, Framed(FetchPayload(id, ts))) ==
            Good(FetchResp(id, TopicsArrive(cx, depth, true, ts)), Cursor([], NoError))
  {
    hide EncInt32, GetInt, ReadTopics, TopicsBytes, TopicsArrive, CleanTopics, Framed, FetchPayload;
    var body := TopicsBytes(true, ts) + [];
    var size := |FetchPayload(id, ts)|;
    FetchLayout(id, ts);
    GetInt32OfEnc(size, EncInt32(id) + (EncInt32(|ts|) + body));
    GetInt32OfEnc(id, EncInt32(|ts|) + body);
    GetInt32OfEnc(|ts|, body);
    ReadTopicsOfBytes(cx, depth, true, ts, []);
  }

  lemma FetchLayout(id: int32, ts: seq<Topic<Raw>>)
    ensures Framed(FetchPayload(id, ts)) ==
            EncInt32(|FetchPayload(id, ts)|) + (EncInt32(id) + (EncInt32(|ts|) + (TopicsBytes(true, ts) + [])))
  {
    hide EncInt32, TopicsBytes;
  }

  /**
   One partition that is refused, because the bytes end inside its fields or because its set is
   refused, fails the whole response, whatever clean topics and partitions stand in front of it.
   */
  lemma RefusedFetch(cx: Codecs, depth: nat, size: int32, id: int32, m: int32, ts: seq<Topic<Raw>>, name: seq<byte>,
      n: int32, ps: seq<Part<Raw>>, b: seq<byte>, why: Failure)
    requires CleanTopics(cx, depth, true, ts) && |ts| < m && |name| <= MaxString
    requires (forall i :: 0 <= i < |ps| ==> CleanPart(cx, depth, true, ps[i])) && |ps| < n
    requires RefusedPart(cx, depth, true, b, why)
    ensures var topic := EncString(name) + (EncInt32(n) + (PartsBytes(true, ps) + b));
            ParseFetchResp(cx, depth, EncInt32(size) + (EncInt32(id) + (EncInt32(m) + (TopicsBytes(true, ts) + topic))))
            == Bad(why)
  {
    var topic := EncString(name) + (EncInt32(n) + (PartsBytes(true, ps) + b));
    var rest := TopicsBytes(true, ts) + topic;
    hide EncString, EncInt32, GetInt, ReadTopics, ReadTopic, TopicsBytes, PartsBytes, CleanTopics, CleanPart,
        RefusedPart;
    ReadRefusedTopic(cx, depth, true, name, ps, n, b, why);
    ReadRefusedTopics(cx, depth, true, ts, m, topic, why);
    GetInt32OfEnc(size, EncInt32(id) + (EncInt32(m) + rest));
    GetInt32OfEnc(id, EncInt32(m) + rest);
    GetInt32OfEnc(m, rest);
  }

  /** A negative number of topics, or of partitions in the first topic, is a panic. */
  lemma NegativeFetch(cx: Codecs, depth: nat, size: int32, id: int32, m: int32, name: seq<byte>, n: int32,
      rest: seq<byte>)
    requires |name| <= MaxString
    ensures m < 0 ==>
      ParseFetchResp(cx, depth, EncInt32(size) + (EncInt32(id) + (EncInt32(m) + rest))) == Bad(NegativeLength)
    ensures m > 0 && n < 0 && rest == EncString(name) + EncInt32(n) ==>
      ParseFetchResp(cx, depth, EncInt32(size) + (EncInt32(id) + (EncInt32(m) + rest))) == Bad(NegativeLength)
  {
    GetInt32OfEnc(size, EncInt32(id) + (EncInt32(m) + rest));
    GetInt32OfEnc(id, EncInt32(m) + rest);
    GetInt32OfEnc(m, rest);
    hide EncString, EncInt32, GetInt, GetString;
    if m > 0 && n < 0 && rest == EncString(name) + EncInt32(n) {
      GetStringOfEnc(name, EncInt32(n));
      assert EncInt32(n) + [] == EncInt32(n);
      GetInt32OfEnc(n, []);
    }
  }

  // ---------------------------------------------------------------- produce request

  /** `timeout` is in nanoseconds. */
  datatype ProduceReq = ProduceReq(correlationID: int32, clientID: seq<byte>, requiredAcks: int16,
    timeout: int, topics: seq<Topic<Msglist>>)

  const Millisecond := 1_000_000

  /** Go's integer division truncates toward zero. */
  function Millis(t: int): int {
    if t >= 0 then t / Millisecond else -(-t / Millisecond)
  }

  /** A timeout as its 32-bit millisecond field has it. */
  function Truncated(t: int): int {
    WrapInt32(Millis(t)) * Millisecond
  }

  /** A timeout comes back as it was if and only if it is a whole number of milliseconds in 32 bits. */
  lemma TimeoutSurvivesIff(t: int)
    ensures Truncated(t) == t <==> (t % 1_000_000 == 0 && -0x8000_0000 * 1_000_000 <= t < 0x8000_0000 * 1_000_000)
  {
    if Truncated(t) == t {
      assert t == WrapInt32(Millis(t)) * Millisecond;
      Remainder(t, Millisecond, WrapInt32(Millis(t)), 0);
    }
    if t % Millisecond == 0 {
      assert t == (t / Millisecond) * Millisecond;
      assert Millis(t) == t / Millisecond by {
        if t < 0 {
          Remainder(-t, Millisecond, -(t / Millisecond), 0);
        }
      }
    }
  }

  /** Part of a millisecond is dropped, toward zero for negative timeouts too. */
  lemma MillisTruncates(t: int)
    ensures t >= 0 ==> 1_000_000 * Millis(t) <= t < 1_000_000 * Millis(t) + 1_000_000
    ensures t <= 0 ==> 1_000_000 * Millis(t) - 1_000_000 < t <= 1_000_000 * Millis(t)
  {
  }

  function ProducePayload(r: ProduceReq, ts: seq<Topic<Raw>>): seq<byte> {
    EncInt16(0) + EncInt16(0) + EncInt32(r.correlationID) + EncString(r.clientID)
    + EncInt16(r.requiredAcks) + EncInt32(Millis(r.timeout)) + EncInt32(|ts|) + TopicsBytes(false, ts)
  }

  /** ReadProduceReq: the API key and version are skipped as one 32-bit field. */
  function ParseProduceReq(cx: Codecs, depth: nat, b: seq<byte>): Parsed<ProduceReq> {
    var (_, c1) := GetInt32(Cursor(b, NoError));
    var (_, c2) := GetInt32(c1);
    var (id, c3) := GetInt32(c2);
    var (client, c4) := GetString(c3);
    var (acks, c5) := GetInt(c4, 2);
    GetIntRange(c4, 2);
    var (ms, c6) := GetInt32(c5);
    var (n, c7) := GetInt32(c6);
    if n < 0 then Bad(NegativeLength)
    else
      var ts := ReadTopics(cx, depth, false, n, c7);
      if ts.Bad? then Bad(ts.why)
      else if ts.rest.err != NoError then Bad(DecodeFailed)
      else Good(ProduceReq(id, client, acks, ms * Millisecond, ts.value), ts.rest)
  }

  lemma KindAndVersion()
    ensures EncInt16(0) + EncInt16(0) == EncInt32(0)
  {
    assert BE(1, 0) == [0];
    assert BE(2, 0) == [0, 0];
    assert BE(3, 0) == [0, 0, 0];
    assert BE(4, 0) == [0, 0, 0, 0];
  }

  /** The fields of a produce request in front of its topics. */
  lemma ProduceFields(r: ProduceReq, n: nat, size: int32, body: seq<byte>)
    requires n < 0x8000_0000 && |r.clientID| <= MaxString
    ensures var b := EncInt32(size) + (EncInt32(0) + (EncInt32(r.correlationID) + (EncString(r.clientID)
              + (EncInt16(r.requiredAcks) + (EncInt32(Millis(r.timeout)) + (EncInt32(n) + body))))));
            var (_, c1) := GetInt32(Cursor(b, NoError));
            var (_, c2) := GetInt32(c1);
            var (id, c3) := GetInt32(c2);
            var (client, c4) := GetString(c3);
            var (acks, c5) := GetInt(c4, 2);
            var (ms, c6) := GetInt32(c5);
            (id, client, acks, ms) == (r.correlationID, r.clientID, r.requiredAcks, WrapInt32(Millis(r.timeout)))
            && GetInt32(c6) == (n, Cursor(body, NoError))
  {
    hide EncInt32, EncInt16, EncString, GetInt, GetString, Millis, WrapInt32;
    var f := EncInt32(n) + body;
    var e := EncInt32(Millis(r.timeout)) + f;
    var d := EncInt16(r.requiredAcks) + e;
    var c := EncString(r.clientID) + d;
    var a := EncInt32(r.correlationID) + c;
    GetInt32OfEnc(size, EncInt32(0) + a);
    GetInt32OfEnc(0, a);
    GetInt32OfEnc(r.correlationID, c);
    GetStringOfEnc(r.clientID, d);
    GetInt16OfEnc(r.requiredAcks, e);
    EncodeWrapped(Millis(r.timeout));
    GetInt32OfEnc(WrapInt32(Millis(r.timeout)), f);
    GetInt32OfEnc(n, body);
  }

  lemma ProduceLayout(r: ProduceReq, ts: seq<Topic<Raw>>)
    ensures Framed(ProducePayload(r, ts)) == EncInt32(|ProducePayload(r, ts)|) + (EncInt32(0)
              + (EncInt32(r.correlationID) + (EncString(r.clientID) + (EncInt16(r.requiredAcks)
              + (EncInt32(Millis(r.timeout)) + (EncInt32(|ts|) + (TopicsBytes(false, ts) + [])))))))
  {
    KindAndVersion();
    hide EncInt32, EncInt16, EncString, Millis, TopicsBytes;
  }

  lemma ParseProduceOfBytes(cx: Codecs, depth: nat, r: ProduceReq, ts: seq<Topic<Raw>>)
    requires CleanTopics(cx, depth, false, ts) && |ts| < 0x8000_0000
    requires |r.clientID| <= MaxString
    requires |ProducePayload(r, ts)| < 0x8000_0000
    ensures ParseProduceReq(cx, depth, Framed(ProducePayload(r, ts))) ==
            Good(r.(timeout := Truncated(r.timeout), topics := TopicsArrive(cx, depth, false, ts)), Cursor([], NoError))
  {
    hide EncInt32, EncInt16, EncString, GetInt, GetString, ReadTopics, TopicsBytes, TopicsArrive, CleanTopics, Framed,
        ProducePayload, WrapInt32, Millis;
    ProduceLayout(r, ts);
    ProduceFields(r, |ts|, |ProducePayload(r, ts)|, TopicsBytes(false, ts) + []);
    ReadTopicsOfBytes(cx, depth, false, ts, []);
  }

  // ---------------------------------------------------------------- tags

  /** ReadReq finds kind 0, a produce request, at the front of one. */
  lemma ProduceTag(r: ProduceReq, ts: seq<Topic<Raw>>)
    ensures Frameable(2, ProducePayload(r, ts)) <==> |ProducePayload(r, ts)| + 4 < 0x8000_0000
    ensures Tag(2, ProducePayload(r, ts)) == 0
  {
    var p := ProducePayload(r, ts);
    hide EncInt32, EncInt16, EncString, TopicsBytes;
    var rest := EncInt16(0) + EncInt32(r.correlationID) + EncString(r.clientID) + EncInt16(r.requiredAcks)
      + EncInt32(Millis(r.timeout)) + EncInt32(|ts|) + TopicsBytes(false, ts);
    assert p == EncInt16(0) + rest;
    FrontInt16(0, rest);
  }

  lemma FrontInt16(v: int16, rest: seq<byte>)
    ensures |EncInt16(v) + rest| >= 2 && DecInt((EncInt16(v) + rest)[..2]) == v
  {
    Powers();
    assert (EncInt16(v) + rest)[..2] == EncInt16(v);
    IntRoundTrip(2, v);
  }

  /** ReadResp finds the correlation ID at the front of a fetch response. */
  lemma FetchTag(id: int32, ts: seq<Topic<Raw>>)
    ensures Frameable(4, FetchPayload(id, ts)) <==> |FetchPayload(id, ts)| + 4 < 0x8000_0000
    ensures Tag(4, FetchPayload(id, ts)) == id
  {
    Powers();
    var p := FetchPayload(id, ts);
    hide TopicsBytes;
    assert p[..4] == EncInt32(id);
    IntRoundTrip(4, id);
  }
}
