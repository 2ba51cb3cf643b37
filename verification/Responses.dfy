/**
 Fetch responses and produce requests (proto/messages.go): a list of topics, each a list of
 partitions, each with a message set whose size goes in front of it.

 The two formats differ in the fields of a partition (a fetch response adds an error code and
 the tip offset) and in that only a fetch response stamps its messages, so one parser and one
 printer with a `fetch` flag serve both.
 */
module Responses {
  import opened Wire
  import opened Codec
  import opened MessageSet

  // ---------------------------------------------------------------- error codes

  /** nil, a KafkaError of the table in proto/errors.go, or the generic error for other numbers. */
  datatype KafkaErr = NoErr | Known(errno: int16) | Unknown(errno: int16)

  predicate InTable(n: int) {
    n == -1 || 1 <= n <= 12 || 14 <= n <= 30
  }

  function ErrFromNo(n: int16): KafkaErr {
    if n == 0 then NoErr else if InTable(n) then Known(n) else Unknown(n)
  }

  /** Errors that come off the wire as they went on; encoding an `Unknown` one panics. */
  predicate Encodable(e: KafkaErr) {
    e.NoErr? || (e.Known? && InTable(e.errno))
  }

  function Errno(e: KafkaErr): int16 {
    if e.NoErr? then 0 else e.errno
  }

  // ---------------------------------------------------------------- the shape

  /** A partition; its set is raw bytes on the wire and a list of messages once read. */
  datatype Part<M> = Part(id: int32, err: KafkaErr, tip: int64, body: M)

  datatype Topic<M> = Topic(name: seq<byte>, parts: seq<Part<M>>)

  type Raw = seq<byte>
  type Msglist = seq<Message>

  function PartHead<M>(fetch: bool, p: Part<M>): seq<byte> {
    EncInt32(p.id) + if fetch then EncInt16(Errno(p.err)) + EncInt64(p.tip) else []
  }

  function PartBytes(fetch: bool, p: Part<Raw>): seq<byte> {
    PartHead(fetch, p) + EncInt32(|p.body|) + p.body
  }

  function PartsBytes(fetch: bool, ps: seq<Part<Raw>>): seq<byte> {
    if ps == [] then [] else PartBytes(fetch, ps[0]) + PartsBytes(fetch, ps[1..])
  }

  function TopicBytes(fetch: bool, t: Topic<Raw>): seq<byte> {
    EncString(t.name) + EncInt32(|t.parts|) + PartsBytes(fetch, t.parts)
  }

  function TopicsBytes(fetch: bool, ts: seq<Topic<Raw>>): seq<byte> {
    if ts == [] then [] else TopicBytes(fetch, ts[0]) + TopicsBytes(fetch, ts[1..])
  }

  // ---------------------------------------------------------------- reading

  datatype Failure = DecodeFailed | SetFailed(why: SetResult) | NegativeLength

  datatype Parsed<+T> = Good(value: T, rest: Cursor) | Bad(why: Failure)

  function Stamp(fetch: bool, name: seq<byte>, id: int32, tip: int64, m: Message): Message {
    if fetch then m.(topic := name, partition := id, tipOffset := tip) else m
  }

  function StampAll(fetch: bool, name: seq<byte>, id: int32, tip: int64, ms: Msglist): Msglist {
    seq(|ms|, i requires 0 <= i < |ms| => Stamp(fetch, name, id, tip, ms[i]))
  }

  function GetInt32(c: Cursor): (int32, Cursor) {
    var (v, c') := GetInt(c, 4);
    GetIntRange(c, 4);
    (v, c')
  }

  lemma GetIntRange(c: Cursor, k: nat)
    ensures k == 4 ==> -0x8000_0000 <= GetInt(c, k).0 < 0x8000_0000
    ensures k == 2 ==> -0x8000 <= GetInt(c, k).0 < 0x8000
    ensures k == 8 ==> -0x8000_0000_0000_0000 <= GetInt(c, k).0 < 0x8000_0000_0000_0000
  {
    Powers();
  }

  /** The fields of a partition in front of its set size. */
  function GetHead(fetch: bool, c: Cursor): ((int32, KafkaErr, int64), Cursor) {
    var (id, c1) := GetInt32(c);
    if !fetch then ((id, NoErr, 0), c1)
    else
      var (errno, c2) := GetInt(c1, 2);
      var (tip, c3) := GetInt(c2, 8);
      GetIntRange(c1, 2);
      GetIntRange(c2, 8);
      ((id, ErrFromNo(errno), tip), c3)
  }

  function ReadPart(cx: Codecs, depth: nat, fetch: bool, name: seq<byte>, c: Cursor): Parsed<Part<Msglist>> {
    var (head, c1) := GetHead(fetch, c);
    var (size, c2) := GetInt32(c1);
    if c1.err != NoError || c2.err != NoError then Bad(DecodeFailed)
    else
      var (r, left) := ReadSet(cx, depth, Window(c2.rest, size), 0);
      if !r.Msgs? then Bad(SetFailed(r))
      else Good(Part(head.0, head.1, head.2, StampAll(fetch, name, head.0, head.2, r.msgs)),
                Cursor(left + Beyond(c2.rest, size), NoError))
  }

  function ReadParts(cx: Codecs, depth: nat, fetch: bool, name: seq<byte>, n: nat,
      c: Cursor): Parsed<seq<Part<Msglist>>> {
    if n == 0 then Good([], c)
    else
      var p := ReadPart(cx, depth, fetch, name, c);
      if p.Bad? then Bad(p.why)
      else
        var ps := ReadParts(cx, depth, fetch, name, n - 1, p.rest);
        if ps.Bad? then ps else Good([p.value] + ps.value, ps.rest)
  }

  function ReadTopic(cx: Codecs, depth: nat, fetch: bool, c: Cursor): Parsed<Topic<Msglist>> {
    var (name, c1) := GetString(c);
    var (n, c2) := GetInt32(c1);
    if n < 0 then Bad(NegativeLength)
    else
      var ps := ReadParts(cx, depth, fetch, name, n, c2);
      if ps.Bad? then Bad(ps.why) else Good(Topic(name, ps.value), ps.rest)
  }

  function ReadTopics(cx: Codecs, depth: nat, fetch: bool, n: nat, c: Cursor): Parsed<seq<Topic<Msglist>>> {
    if n == 0 then Good([], c)
    else
      var t := ReadTopic(cx, depth, fetch, c);
      if t.Bad? then Bad(t.why)
      else
        var ts := ReadTopics(cx, depth, fetch, n - 1, t.rest);
        if ts.Bad? then ts else Good([t.value] + ts.value, ts.rest)
  }

  // ---------------------------------------------------------------- what arrives

  /** The set is read without error to its last byte. */
  predicate Clean(cx: Codecs, depth: nat, raw: Raw) {
    && |raw| < 0x8000_0000
    && ReadSet(cx, depth, raw, 0).0.Msgs?
    && ReadSet(cx, depth, raw, 0).1 == []
  }

  ghost predicate CleanPart(cx: Codecs, depth: nat, fetch: bool, p: Part<Raw>) {
    && Clean(cx, depth, p.body)
    && (if fetch then Encodable(p.err) else p.err == NoErr && p.tip == 0)
  }

  ghost predicate CleanTopic(cx: Codecs, depth: nat, fetch: bool, t: Topic<Raw>) {
    && |t.name| <= MaxString
    && |t.parts| < 0x8000_0000
    && forall i :: 0 <= i < |t.parts| ==> CleanPart(cx, depth, fetch, t.parts[i])
  }

  ghost predicate CleanTopics(cx: Codecs, depth: nat, fetch: bool, ts: seq<Topic<Raw>>) {
    forall i :: 0 <= i < |ts| ==> CleanTopic(cx, depth, fetch, ts[i])
  }

  function Arrives(cx: Codecs, depth: nat, fetch: bool, name: seq<byte>, p: Part<Raw>): Part<Msglist> {
    var r := ReadSet(cx, depth, p.body, 0).0;
    Part(p.id, p.err, p.tip, StampAll(fetch, name, p.id, p.tip, if r.Msgs? then r.msgs else []))
  }

  function PartsArrive(cx: Codecs, depth: nat, fetch: bool, name: seq<byte>,
      ps: seq<Part<Raw>>): (r: seq<Part<Msglist>>)
    ensures |r| == |ps|
    ensures forall i :: 0 <= i < |ps| ==> r[i] == Arrives(cx, depth, fetch, name, ps[i])
  {
    if ps == [] then [] else [Arrives(cx, depth, fetch, name, ps[0])] + PartsArrive(cx, depth, fetch, name, ps[1..])
  }

  function TopicArrives(cx: Codecs, depth: nat, fetch: bool, t: Topic<Raw>): Topic<Msglist> {
    Topic(t.name, PartsArrive(cx, depth, fetch, t.name, t.parts))
  }

  function TopicsArrive(cx: Codecs, depth: nat, fetch: bool, ts: seq<Topic<Raw>>): (r: seq<Topic<Msglist>>)
    ensures |r| == |ts|
    ensures forall i :: 0 <= i < |ts| ==> r[i] == TopicArrives(cx, depth, fetch, ts[i])
  {
    if ts == [] then [] else [TopicArrives(cx, depth, fetch, ts[0])] + TopicsArrive(cx, depth, fetch, ts[1..])
  }

  // ---------------------------------------------------------------- reading what was written

  lemma HeadRoundTrip<M>(fetch: bool, p: Part<M>, tail: seq<byte>)
    requires if fetch then Encodable(p.err) else p.err == NoErr && p.tip == 0
    ensures GetHead(fetch, Cursor(PartHead(fetch, p) + tail, NoError)) == ((p.id, p.err, p.tip), Cursor(tail, NoError))
  {
    if fetch {
      var a, b, c := EncInt32(p.id), EncInt16(Errno(p.err)), EncInt64(p.tip);
      assert PartHead(fetch, p) + tail == a + (b + (c + tail));
      hide EncInt32, EncInt16, EncInt64, GetInt;
      GetInt32OfEnc(p.id, b + (c + tail));
      GetInt16OfEnc(Errno(p.err), c + tail);
      GetInt64OfEnc(p.tip, tail);
    } else {
      assert PartHead(fetch, p) + tail == EncInt32(p.id) + tail;
      hide EncInt32, GetInt;
      GetInt32OfEnc(p.id, tail);
    }
  }

  lemma WindowOfPrefix(raw: Raw, tail: seq<byte>)
    ensures Window(raw + tail, |raw|) == raw && Beyond(raw + tail, |raw|) == tail
  {
  }

  /** One partition, whatever its set: reading goes on at what the set reader left over. */
  lemma ReadAnyPart(cx: Codecs, depth: nat, fetch: bool, name: seq<byte>, p: Part<Raw>, tail: seq<byte>)
    requires |p.body| < 0x8000_0000 && ReadSet(cx, depth, p.body, 0).0.Msgs?
    requires if fetch then Encodable(p.err) else p.err == NoErr && p.tip == 0
    ensures ReadPart(cx, depth, fetch, name, Cursor(PartBytes(fetch, p) + tail, NoError)) ==
            Good(Arrives(cx, depth, fetch, name, p), Cursor(ReadSet(cx, depth, p.body, 0).1 + tail, NoError))
  {
    PartLayout(fetch, p, tail);
    hide PartHead, PartBytes, GetHead, EncInt32, GetInt, ReadSet, StampAll, Window, Beyond;
    HeadRoundTrip(fetch, p, EncInt32(|p.body|) + (p.body + tail));
    GetInt32OfEnc(|p.body|, p.body + tail);
    WindowOfPrefix(p.body, tail);
  }

  lemma PartLayout(fetch: bool, p: Part<Raw>, tail: seq<byte>)
    ensures PartBytes(fetch, p) + tail == PartHead(fetch, p) + (EncInt32(|p.body|) + (p.body + tail))
  {
  }

  /** The next partition starts where it should. */
  lemma ReadPartOfBytes(cx: Codecs, depth: nat, fetch: bool, name: seq<byte>, p: Part<Raw>, tail: seq<byte>)
    requires CleanPart(cx, depth, fetch, p)
    ensures ReadPart(cx, depth, fetch, name, Cursor(PartBytes(fetch, p) + tail, NoError)) ==
            Good(Arrives(cx, depth, fetch, name, p), Cursor(tail, NoError))
  {
    hide ReadPart, PartBytes, Arrives, ReadSet;
    ReadAnyPart(cx, depth, fetch, name, p, tail);
    assert [] + tail == tail;
  }

  lemma {:induction false} ReadPartsOfBytes(cx: Codecs, depth: nat, fetch: bool, name: seq<byte>, ps: seq<Part<Raw>>,
      tail: seq<byte>)
    requires forall i :: 0 <= i < |ps| ==> CleanPart(cx, depth, fetch, ps[i])
    ensures ReadParts(cx, depth, fetch, name, |ps|, Cursor(PartsBytes(fetch, ps) + tail, NoError)) ==
            Good(PartsArrive(cx, depth, fetch, name, ps), Cursor(tail, NoError))
    decreases |ps|
  {
    hide ReadPart, PartBytes, Arrives, CleanPart;
    if ps == [] {
      assert PartsBytes(fetch, ps) + tail == tail;
    } else {
      var more := PartsBytes(fetch, ps[1..]) + tail;
      assert PartsBytes(fetch, ps) + tail == PartBytes(fetch, ps[0]) + more;
      ReadPartOfBytes(cx, depth, fetch, name, ps[0], more);
      ReadPartsOfBytes(cx, depth, fetch, name, ps[1..], tail);
    }
  }

  lemma ReadTopicOfBytes(cx: Codecs, depth: nat, fetch: bool, t: Topic<Raw>, tail: seq<byte>)
    requires CleanTopic(cx, depth, fetch, t)
    ensures ReadTopic(cx, depth, fetch, Cursor(TopicBytes(fetch, t) + tail, NoError)) ==
            Good(TopicArrives(cx, depth, fetch, t), Cursor(tail, NoError))
  {
    var parts := PartsBytes(fetch, t.parts) + tail;
    assert TopicBytes(fetch, t) + tail == EncString(t.name) + (EncInt32(|t.parts|) + parts);
    hide EncString, EncInt32, GetString, GetInt, ReadParts, PartsBytes, PartsArrive, CleanPart;
    GetStringOfEnc(t.name, EncInt32(|t.parts|) + parts);
    GetInt32OfEnc(|t.parts|, parts);
    ReadPartsOfBytes(cx, depth, fetch, t.name, t.parts, tail);
  }

  lemma {:induction false} ReadTopicsOfBytes(cx: Codecs, depth: nat, fetch: bool, ts: seq<Topic<Raw>>, tail: seq<byte>)
    requires CleanTopics(cx, depth, fetch, ts)
    ensures ReadTopics(cx, depth, fetch, |ts|, Cursor(TopicsBytes(fetch, ts) + tail, NoError)) ==
            Good(TopicsArrive(cx, depth, fetch, ts), Cursor(tail, NoError))
    decreases |ts|
  {
    hide ReadTopic, TopicBytes, TopicArrives, CleanTopic;
    if ts == [] {
      assert TopicsBytes(fetch, ts) + tail == tail;
    } else {
      var more := TopicsBytes(fetch, ts[1..]) + tail;
      assert TopicsBytes(fetch, ts) + tail == TopicBytes(fetch, ts[0]) + more;
      ReadTopicOfBytes(cx, depth, fetch, ts[0], more);
      ReadTopicsOfBytes(cx, depth, fetch, ts[1..], tail);
    }
  }

  // ---------------------------------------------------------------- what is refused

  /** A partition that ends inside its fields, or whose set is refused. */
  ghost predicate RefusedPart(cx: Codecs, depth: nat, fetch: bool, b: seq<byte>, why: Failure) {
    || (|b| < (if fetch then 18 else 8) && why == DecodeFailed)
    || (exists p: Part<Raw>, tail, r ::
         && b == PartBytes(fetch, p) + tail && |p.body| < 0x8000_0000
         && (if fetch then Encodable(p.err) else p.err == NoErr && p.tip == 0)
         && ReadSet(cx, depth, p.body, 0).0 == r && !r.Msgs? && why == SetFailed(r))
  }

  lemma ReadRefusedPart(cx: Codecs, depth: nat, fetch: bool, name: seq<byte>, b: seq<byte>, why: Failure)
    requires RefusedPart(cx, depth, fetch, b, why)
    ensures ReadPart(cx, depth, fetch, name, Cursor(b, NoError)) == Bad(why)
  {
    if |b| < (if fetch then 18 else 8) && why == DecodeFailed {
      ShortHead(fetch, b);
      hide GetHead, ReadSet;
    } else {
      var p: Part<Raw>, tail, r :|
        && b == PartBytes(fetch, p) + tail && |p.body| < 0x8000_0000
        && (if fetch then Encodable(p.err) else p.err == NoErr && p.tip == 0)
        && ReadSet(cx, depth, p.body, 0).0 == r && !r.Msgs? && why == SetFailed(r);
      PartLayout(fetch, p, tail);
      hide PartHead, PartBytes, GetHead, EncInt32, GetInt, ReadSet, StampAll, Window, Beyond;
      HeadRoundTrip(fetch, p, EncInt32(|p.body|) + (p.body + tail));
      GetInt32OfEnc(|p.body|, p.body + tail);
      WindowOfPrefix(p.body, tail);
    }
  }

  /** Reading an integer without an error uses up its bytes. */
  lemma IntNeedsBytes(c: Cursor, k: nat)
    ensures GetInt(c, k).1.err == NoError ==> c.err == NoError && |c.rest| == k + |GetInt(c, k).1.rest|
  {
  }

  lemma ShortHead(fetch: bool, b: seq<byte>)
    requires |b| < if fetch then 18 else 8
    ensures var c1 := GetHead(fetch, Cursor(b, NoError)).1;
            c1.err != NoError || GetInt32(c1).1.err != NoError
  {
    var c1 := GetHead(fetch, Cursor(b, NoError)).1;
    var a := GetInt32(Cursor(b, NoError)).1;
    IntNeedsBytes(Cursor(b, NoError), 4);
    IntNeedsBytes(a, 2);
    IntNeedsBytes(GetInt(a, 2).1, 8);
    IntNeedsBytes(c1, 4);
    hide GetInt;
  }

  /** A refused partition behind clean ones fails the list. */
  lemma {:induction false} ReadRefusedParts(cx: Codecs, depth: nat, fetch: bool, name: seq<byte>, ps: seq<Part<Raw>>,
      n: nat, b: seq<byte>, why: Failure)
    requires forall i :: 0 <= i < |ps| ==> CleanPart(cx, depth, fetch, ps[i])
    requires |ps| < n && RefusedPart(cx, depth, fetch, b, why)
    ensures ReadParts(cx, depth, fetch, name, n, Cursor(PartsBytes(fetch, ps) + b, NoError)) == Bad(why)
    decreases |ps|
  {
    hide ReadPart, PartBytes, Arrives, CleanPart, RefusedPart;
    if ps == [] {
      assert PartsBytes(fetch, ps) + b == b;
      ReadRefusedPart(cx, depth, fetch, name, b, why);
    } else {
      var more := PartsBytes(fetch, ps[1..]) + b;
      assert PartsBytes(fetch, ps) + b == PartBytes(fetch, ps[0]) + more;
      ReadPartOfBytes(cx, depth, fetch, name, ps[0], more);
      ReadRefusedParts(cx, depth, fetch, name, ps[1..], n - 1, b, why);
    }
  }

  /** A topic with `n` partitions, of which those in `ps` are clean and the next one is refused. */
  lemma ReadRefusedTopic(cx: Codecs, depth: nat, fetch: bool, name: seq<byte>, ps: seq<Part<Raw>>, n: int32,
      b: seq<byte>, why: Failure)
    requires |name| <= MaxString && forall i :: 0 <= i < |ps| ==> CleanPart(cx, depth, fetch, ps[i])
    requires |ps| < n && RefusedPart(cx, depth, fetch, b, why)
    ensures ReadTopic(cx, depth, fetch, Cursor(EncString(name) + (EncInt32(n) + (PartsBytes(fetch, ps) + b)), NoError))
         == Bad(why)
  {
    hide EncString, EncInt32, GetString, GetInt, ReadParts, PartsBytes, CleanPart, RefusedPart;
    GetStringOfEnc(name, EncInt32(n) + (PartsBytes(fetch, ps) + b));
    GetInt32OfEnc(n, PartsBytes(fetch, ps) + b);
    ReadRefusedParts(cx, depth, fetch, name, ps, n, b, why);
  }

  /** A refused topic behind clean ones fails the list. */
  lemma {:induction false} ReadRefusedTopics(cx: Codecs, depth: nat, fetch: bool, ts: seq<Topic<Raw>>, n: nat,
      b: seq<byte>, why: Failure)
    requires CleanTopics(cx, depth, fetch, ts) && |ts| < n
    requires ReadTopic(cx, depth, fetch, Cursor(b, NoError)) == Bad(why)
    ensures ReadTopics(cx, depth, fetch, n, Cursor(TopicsBytes(fetch, ts) + b, NoError)) == Bad(why)
    decreases |ts|
  {
    hide ReadTopic, TopicBytes, TopicArrives, CleanTopic;
    if ts == [] {
      assert TopicsBytes(fetch, ts) + b == b;
    } else {
      var more := TopicsBytes(fetch, ts[1..]) + b;
      assert TopicsBytes(fetch, ts) + b == TopicBytes(fetch, ts[0]) + more;
      ReadTopicOfBytes(cx, depth, fetch, ts[0], more);
      ReadRefusedTopics(cx, depth, fetch, ts[1..], n - 1, b, why);
    }
  }
}
