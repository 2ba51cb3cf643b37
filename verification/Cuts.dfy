/**
 Fetch responses and produce requests whose message sets were cut off at arbitrary points,
 and the round trips of whole ones.
 */
module Cuts {
  import opened Wire
  import opened Codec
  import opened MessageSet
  import opened MixedSets
  import opened Responses
  import opened Frames

  /** A message set, plain and compressed entries in any order, of which only the first `keep` bytes were sent. */
  datatype CutSet = CutSet(items: seq<Item>, keep: nat)

  function CutBytes(cx: Codecs, s: CutSet): Raw {
    var b := ItemsBytes(cx, s.items);
    b[..Min(s.keep, |b|)]
  }

  /** The contents of the entries that are complete in a cut set. */
  function Survivors(cx: Codecs, s: CutSet): Msglist {
    Contents(s.items[..WholeItems(cx, s.items, s.keep)])
  }

  ghost predicate SendableSet(cx: Codecs, s: CutSet) {
    AllSendable(cx, s.items) && |CutBytes(cx, s)| < 0x8000_0000
  }

  /** A cut behind the end leaves everything. */
  lemma WholeOfMore(cx: Codecs, items: seq<Item>, k: nat)
    requires k >= |ItemsBytes(cx, items)|
    ensures WholeItems(cx, items, k) == |items|
  {
    assert items[..|items|] == items;
    hide ItemsBytes, WholeItems;
    WholeItemsIsLongest(cx, items, k, |items|);
  }

  /** A cut set is read cleanly, and what is read is what survived. */
  lemma CutSetArrives(cx: Codecs, depth: nat, s: CutSet)
    requires Lawful(cx) && SendableSet(cx, s) && depth > 0
    ensures ReadSet(cx, depth, CutBytes(cx, s), 0) == (Msgs(ReceivedAll(cx, Survivors(cx, s))), [])
  {
    hide ReadSet, ItemsBytes, WholeItems, Contents, ReceivedAll, AllSendable, Lawful;
    var b := ItemsBytes(cx, s.items);
    var k := Min(s.keep, |b|);
    if k < s.keep {
      WholeOfMore(cx, s.items, s.keep);
      WholeOfMore(cx, s.items, k);
    }
    ReadCutItems(cx, depth, s.items, k, 0);
  }

  // ---------------------------------------------------------------- topics of cut sets

  function SentPart(cx: Codecs, p: Part<CutSet>): Part<Raw> {
    Part(p.id, p.err, p.tip, CutBytes(cx, p.body))
  }

  function SentTopic(cx: Codecs, t: Topic<CutSet>): Topic<Raw> {
    Topic(t.name, seq(|t.parts|, i requires 0 <= i < |t.parts| => SentPart(cx, t.parts[i])))
  }

  function SentTopics(cx: Codecs, ts: seq<Topic<CutSet>>): seq<Topic<Raw>> {
    seq(|ts|, i requires 0 <= i < |ts| => SentTopic(cx, ts[i]))
  }

  function ReadBackPart(cx: Codecs, fetch: bool, name: seq<byte>, p: Part<CutSet>): Part<Msglist> {
    Part(p.id, p.err, p.tip, StampAll(fetch, name, p.id, p.tip, ReceivedAll(cx, Survivors(cx, p.body))))
  }

  function ReadBackTopic(cx: Codecs, fetch: bool, t: Topic<CutSet>): Topic<Msglist> {
    Topic(t.name, seq(|t.parts|, i requires 0 <= i < |t.parts| => ReadBackPart(cx, fetch, t.name, t.parts[i])))
  }

  function ReadBackTopics(cx: Codecs, fetch: bool, ts: seq<Topic<CutSet>>): seq<Topic<Msglist>> {
    seq(|ts|, i requires 0 <= i < |ts| => ReadBackTopic(cx, fetch, ts[i]))
  }

  ghost predicate SendablePart(cx: Codecs, fetch: bool, p: Part<CutSet>) {
    && SendableSet(cx, p.body)
    && (if fetch then Encodable(p.err) else p.err == NoErr && p.tip == 0)
  }

  ghost predicate SendableTopic(cx: Codecs, fetch: bool, t: Topic<CutSet>) {
    && |t.name| <= MaxString && |t.parts| < 0x8000_0000
    && forall i :: 0 <= i < |t.parts| ==> SendablePart(cx, fetch, t.parts[i])
  }

  ghost predicate SendableTopics(cx: Codecs, fetch: bool, ts: seq<Topic<CutSet>>) {
    |ts| < 0x8000_0000 && forall i :: 0 <= i < |ts| ==> SendableTopic(cx, fetch, ts[i])
  }

  lemma PartSurvives(cx: Codecs, depth: nat, fetch: bool, name: seq<byte>, p: Part<CutSet>)
    requires Lawful(cx) && SendablePart(cx, fetch, p) && depth > 0
    ensures CleanPart(cx, depth, fetch, SentPart(cx, p))
    ensures Arrives(cx, depth, fetch, name, SentPart(cx, p)) == ReadBackPart(cx, fetch, name, p)
  {
    hide ReadSet, CutBytes, Survivors, StampAll, ReceivedAll, AllSendable;
    CutSetArrives(cx, depth, p.body);
  }

  lemma TopicSurvives(cx: Codecs, depth: nat, fetch: bool, t: Topic<CutSet>)
    requires Lawful(cx) && SendableTopic(cx, fetch, t) && depth > 0
    ensures CleanTopic(cx, depth, fetch, SentTopic(cx, t))
    ensures TopicArrives(cx, depth, fetch, SentTopic(cx, t)) == ReadBackTopic(cx, fetch, t)
  {
    var sent := SentTopic(cx, t);
    hide CleanPart, SendablePart, SentPart, Arrives, ReadBackPart, PartsArrive;
    forall i | 0 <= i < |t.parts|
      ensures CleanPart(cx, depth, fetch, sent.parts[i])
      ensures PartsArrive(cx, depth, fetch, t.name, sent.parts)[i] == ReadBackPart(cx, fetch, t.name, t.parts[i])
    {
      PartSurvives(cx, depth, fetch, t.name, t.parts[i]);
    }
    assert PartsArrive(cx, depth, fetch, t.name, sent.parts) == ReadBackTopic(cx, fetch, t).parts;
  }

  lemma TopicsSurvive(cx: Codecs, depth: nat, fetch: bool, ts: seq<Topic<CutSet>>)
    requires Lawful(cx) && SendableTopics(cx, fetch, ts) && depth > 0
    ensures CleanTopics(cx, depth, fetch, SentTopics(cx, ts))
    ensures TopicsArrive(cx, depth, fetch, SentTopics(cx, ts)) == ReadBackTopics(cx, fetch, ts)
  {
    var sent := SentTopics(cx, ts);
    hide CleanTopic, SendableTopic, SentTopic, TopicArrives, ReadBackTopic, TopicsArrive;
    forall i | 0 <= i < |ts|
      ensures CleanTopic(cx, depth, fetch, sent[i])
      ensures TopicsArrive(cx, depth, fetch, sent)[i] == ReadBackTopic(cx, fetch, ts[i])
    {
      TopicSurvives(cx, depth, fetch, ts[i]);
    }
    assert TopicsArrive(cx, depth, fetch, sent) == ReadBackTopics(cx, fetch, ts);
  }

  // ---------------------------------------------------------------- field by field

  /** A byte slice as it arrives: the same bytes, with nil for an empty one. */
  predicate SameBytes(got: Slice, sent: Slice) {
    got.Content() == sent.Content() && (got.Nil? <==> sent.Content() == [])
  }

  /** The offset, key and value that were sent, and the checksum of the entry they were sent in. */
  predicate SameMessage(cx: Codecs, got: Message, sent: Message) {
    && got.offset == sent.offset && SameBytes(got.key, sent.key) && SameBytes(got.value, sent.value)
    && got.crc == cx.crc([0, 0] + EncBytes(sent.key) + EncBytes(sent.value))
  }

  /**
   Every topic, partition and message is the one that was sent. In a fetch response each message
   has its topic's name, its partition's ID and its partition's tip offset; in a produce request
   these are unset.
   */
  ghost predicate FieldByField(cx: Codecs, fetch: bool, got: seq<Topic<Msglist>>, sent: seq<Topic<Msglist>>) {
    && |got| == |sent|
    && (forall i :: 0 <= i < |got| ==> got[i].name == sent[i].name && |got[i].parts| == |sent[i].parts|)
    && (forall i, j :: 0 <= i < |got| && 0 <= j < |got[i].parts| ==>
         SamePart(cx, fetch, sent[i].name, got[i].parts[j], sent[i].parts[j]))
  }

  ghost predicate SamePart(cx: Codecs, fetch: bool, name: seq<byte>, got: Part<Msglist>, sent: Part<Msglist>) {
    && got.id == sent.id && got.err == sent.err && got.tip == sent.tip && |got.body| == |sent.body|
    && (forall k :: 0 <= k < |got.body| ==> SameMessage(cx, got.body[k], sent.body[k]))
    && (forall k :: 0 <= k < |got.body| ==>
         var m := got.body[k];
         if fetch then m.topic == name && m.partition == sent.id && m.tipOffset == sent.tip
         else m.topic == [] && m.partition == 0 && m.tipOffset == 0)
  }

  /** What the cuts leave of each partition. */
  function LeftTopic(cx: Codecs, t: Topic<CutSet>): Topic<Msglist> {
    Topic(t.name, seq(|t.parts|, i requires 0 <= i < |t.parts| =>
      Part(t.parts[i].id, t.parts[i].err, t.parts[i].tip, Survivors(cx, t.parts[i].body))))
  }

  function LeftTopics(cx: Codecs, ts: seq<Topic<CutSet>>): seq<Topic<Msglist>> {
    seq(|ts|, i requires 0 <= i < |ts| => LeftTopic(cx, ts[i]))
  }

  lemma StampedFields(cx: Codecs, fetch: bool, name: seq<byte>, p: Part<Msglist>)
    ensures SamePart(cx, fetch, name, ReadWholePart(cx, fetch, name, p), p)
  {
    forall k | 0 <= k < |p.body|
      ensures SameMessage(cx, ReadWholePart(cx, fetch, name, p).body[k], p.body[k])
    {
      SlicesArrive(p.body[k].key);
      SlicesArrive(p.body[k].value);
    }
  }

  lemma SlicesArrive(s: Slice)
    ensures SameBytes(Normal(s), s)
  {
  }

  lemma ReadWholeFields(cx: Codecs, fetch: bool, ts: seq<Topic<Msglist>>)
    ensures FieldByField(cx, fetch, ReadWholeTopics(cx, fetch, ts), ts)
  {
    hide SamePart, ReadWholePart;
    var got := ReadWholeTopics(cx, fetch, ts);
    forall i, j | 0 <= i < |got| && 0 <= j < |got[i].parts|
      ensures SamePart(cx, fetch, ts[i].name, got[i].parts[j], ts[i].parts[j])
    {
      StampedFields(cx, fetch, ts[i].name, ts[i].parts[j]);
    }
  }

  lemma ReadBackIsWhole(cx: Codecs, fetch: bool, ts: seq<Topic<CutSet>>)
    ensures ReadBackTopics(cx, fetch, ts) == ReadWholeTopics(cx, fetch, LeftTopics(cx, ts))
  {
    hide Survivors, StampAll, ReceivedAll;
    forall i | 0 <= i < |ts|
      ensures ReadBackTopic(cx, fetch, ts[i]) == ReadWholeTopic(cx, fetch, LeftTopic(cx, ts[i]))
    {
      assert ReadBackTopic(cx, fetch, ts[i]).parts == ReadWholeTopic(cx, fetch, LeftTopic(cx, ts[i])).parts;
    }
  }

  // ---------------------------------------------------------------- main results

  /**
   A fetch response whose partitions were cut independently, at any points: every partition's
   ID, error and tip offset comes back, with exactly the complete messages of its own set.
   */
  lemma CutFetchResponse(cx: Codecs, depth: nat, id: int32, ts: seq<Topic<CutSet>>)
    requires Lawful(cx) && SendableTopics(cx, true, ts) && depth > 0
    requires |FetchPayload(id, SentTopics(cx, ts))| < 0x8000_0000
    ensures ParseFetchResp(cx, depth, Framed(FetchPayload(id, SentTopics(cx, ts)))) ==
            Good(FetchResp(id, ReadBackTopics(cx, true, ts)), Cursor([], NoError))
    ensures FieldByField(cx, true, ReadBackTopics(cx, true, ts), LeftTopics(cx, ts))
  {
    assert |SentTopics(cx, ts)| == |ts|;
    hide *;
    ReadBackIsWhole(cx, true, ts);
    ReadWholeFields(cx, true, LeftTopics(cx, ts));
    SendableCount(cx, true, ts);
    TopicsSurvive(cx, depth, true, ts);
    ParseFetchOfBytes(cx, depth, id, SentTopics(cx, ts));
  }

  lemma SendableCount(cx: Codecs, fetch: bool, ts: seq<Topic<CutSet>>)
    requires SendableTopics(cx, fetch, ts)
    ensures |ts| < 0x8000_0000
  {
  }

  /** The same for a produce request, under any mix of compression modes. */
  lemma CutProduceRequest(cx: Codecs, depth: nat, r: ProduceReq, ts: seq<Topic<CutSet>>)
    requires Lawful(cx) && SendableTopics(cx, false, ts) && depth > 0
    requires |r.clientID| <= MaxString
    requires |ProducePayload(r, SentTopics(cx, ts))| < 0x8000_0000
    ensures ParseProduceReq(cx, depth, Framed(ProducePayload(r, SentTopics(cx, ts)))) ==
            Good(r.(timeout := Truncated(r.timeout), topics := ReadBackTopics(cx, false, ts)), Cursor([], NoError))
    ensures FieldByField(cx, false, ReadBackTopics(cx, false, ts), LeftTopics(cx, ts))
  {
    assert |SentTopics(cx, ts)| == |ts|;
    hide *;
    ReadBackIsWhole(cx, false, ts);
    ReadWholeFields(cx, false, LeftTopics(cx, ts));
    SendableCount(cx, false, ts);
    TopicsSurvive(cx, depth, false, ts);
    ParseProduceOfBytes(cx, depth, r, SentTopics(cx, ts));
  }

  /** Whole sets, all compressed the same way. */
  function WholePart(cx: Codecs, c: Compression, p: Part<Msglist>): Part<CutSet> {
    Part(p.id, p.err, p.tip, CutSet(Written(p.body, c), |SetBytes(cx, p.body, c)|))
  }

  function WholeTopic(cx: Codecs, c: Compression, t: Topic<Msglist>): Topic<CutSet> {
    Topic(t.name, seq(|t.parts|, i requires 0 <= i < |t.parts| => WholePart(cx, c, t.parts[i])))
  }

  function WholeTopics(cx: Codecs, c: Compression, ts: seq<Topic<Msglist>>): seq<Topic<CutSet>> {
    seq(|ts|, i requires 0 <= i < |ts| => WholeTopic(cx, c, ts[i]))
  }

  /** What FetchResp.Bytes and ProduceReq.Bytes put behind their headers. */
  function RawTopics(cx: Codecs, c: Compression, ts: seq<Topic<Msglist>>): seq<Topic<Raw>> {
    SentTopics(cx, WholeTopics(cx, c, ts))
  }

  /** The messages of a partition as its reader has them. */
  function ReadWholePart(cx: Codecs, fetch: bool, name: seq<byte>, p: Part<Msglist>): Part<Msglist> {
    Part(p.id, p.err, p.tip, StampAll(fetch, name, p.id, p.tip, ReceivedAll(cx, p.body)))
  }

  function ReadWholeTopic(cx: Codecs, fetch: bool, t: Topic<Msglist>): Topic<Msglist> {
    Topic(t.name, seq(|t.parts|, i requires 0 <= i < |t.parts| => ReadWholePart(cx, fetch, t.name, t.parts[i])))
  }

  function ReadWholeTopics(cx: Codecs, fetch: bool, ts: seq<Topic<Msglist>>): seq<Topic<Msglist>> {
    seq(|ts|, i requires 0 <= i < |ts| => ReadWholeTopic(cx, fetch, ts[i]))
  }

  lemma WholeSurvives(cx: Codecs, fetch: bool, name: seq<byte>, c: Compression, p: Part<Msglist>)
    ensures ReadBackPart(cx, fetch, name, WholePart(cx, c, p)) == ReadWholePart(cx, fetch, name, p)
  {
    var s := WholePart(cx, c, p).body;
    WrittenIs(cx, p.body, c);
    hide SetBytes, ItemsBytes, WholeItems, Contents, Written;
    WholeOfMore(cx, s.items, s.keep);
    assert s.items[..|s.items|] == s.items;
  }

  lemma WholeTopicsSurvive(cx: Codecs, fetch: bool, c: Compression, ts: seq<Topic<Msglist>>)
    ensures ReadBackTopics(cx, fetch, WholeTopics(cx, c, ts)) == ReadWholeTopics(cx, fetch, ts)
  {
    hide WholePart, ReadBackPart, ReadWholePart;
    forall i | 0 <= i < |ts|
      ensures ReadBackTopic(cx, fetch, WholeTopic(cx, c, ts[i])) == ReadWholeTopic(cx, fetch, ts[i])
    {
      var t := ts[i];
      forall j | 0 <= j < |t.parts|
        ensures ReadBackPart(cx, fetch, t.name, WholePart(cx, c, t.parts[j])) ==
            ReadWholePart(cx, fetch, t.name, t.parts[j])
      {
        WholeSurvives(cx, fetch, t.name, c, t.parts[j]);
      }
      assert ReadBackTopic(cx, fetch, WholeTopic(cx, c, t)).parts == ReadWholeTopic(cx, fetch, t).parts;
    }
    assert ReadBackTopics(cx, fetch, WholeTopics(cx, c, ts)) == ReadWholeTopics(cx, fetch, ts);
  }

  /** ReadFetchResp undoes FetchResp.Bytes, up to the stamps and the checksums it adds. */
  lemma FetchRespRoundTrip(cx: Codecs, depth: nat, r: FetchResp)
    requires Lawful(cx) && depth > 0
    requires SendableTopics(cx, true, WholeTopics(cx, NoCompression, r.topics))
    requires |FetchPayload(r.correlationID, RawTopics(cx, NoCompression, r.topics))| < 0x8000_0000
    ensures ParseFetchResp(cx, depth, Framed(FetchPayload(r.correlationID, RawTopics(cx, NoCompression, r.topics)))) ==
            Good(FetchResp(r.correlationID, ReadWholeTopics(cx, true, r.topics)), Cursor([], NoError))
    ensures FieldByField(cx, true, ReadWholeTopics(cx, true, r.topics), r.topics)
  {
    var ts := WholeTopics(cx, NoCompression, r.topics);
    assert RawTopics(cx, NoCompression, r.topics) == SentTopics(cx, ts);
    hide *;
    CutFetchResponse(cx, depth, r.correlationID, ts);
    WholeTopicsSurvive(cx, true, NoCompression, r.topics);
    ReadWholeFields(cx, true, r.topics);
  }

  /** ReadProduceReq undoes ProduceReq.Bytes under each of the three compression modes. */
  lemma ProduceReqRoundTrip(cx: Codecs, depth: nat, r: ProduceReq, c: Compression)
    requires Lawful(cx) && depth > 0
    requires |r.clientID| <= MaxString
    requires SendableTopics(cx, false, WholeTopics(cx, c, r.topics))
    requires |ProducePayload(r, RawTopics(cx, c, r.topics))| < 0x8000_0000
    ensures ParseProduceReq(cx, depth, Framed(ProducePayload(r, RawTopics(cx, c, r.topics)))) ==
            Good(r.(timeout := Truncated(r.timeout), topics := ReadWholeTopics(cx, false, r.topics)),
                Cursor([], NoError))
    ensures FieldByField(cx, false, ReadWholeTopics(cx, false, r.topics), r.topics)
  {
    var ts := WholeTopics(cx, c, r.topics);
    assert RawTopics(cx, c, r.topics) == SentTopics(cx, ts);
    hide *;
    CutProduceRequest(cx, depth, r, ts);
    WholeTopicsSurvive(cx, false, c, r.topics);
    ReadWholeFields(cx, false, r.topics);
  }

  // ---------------------------------------------------------------- a bad checksum is different

  /**
   Behind an entry with a wrong checksum the reader does not drain the set, whatever mix of plain
   and compressed entries stands in front of it: the next partition is read from where it starts
   exactly when nothing follows the bad entry in its own set.
   */
  lemma BadCrcKeepsInStepIff(cx: Codecs, depth: nat, fetch: bool, name: seq<byte>, p: Part<Raw>, items: seq<Item>,
      offset: int64, crc: uint32, body: seq<byte>, junk: seq<byte>, tail: seq<byte>)
    requires AllSendable(cx, items) && forall i :: 0 <= i < |items| ==> Openable(cx, depth, items[i])
    requires 4 + |body| + Slack < 0x8000_0000 && crc != cx.crc(body)
    requires p.body == ItemsBytes(cx, items) + RawEntry(offset, crc, body) + junk && |p.body| < 0x8000_0000
    requires if fetch then Encodable(p.err) else p.err == NoErr && p.tip == 0
    ensures var r := ReadPart(cx, depth, fetch, name, Cursor(PartBytes(fetch, p) + tail, NoError));
            && r.Good?
            && r.value.body == StampAll(fetch, name, p.id, p.tip, ReceivedAll(cx, Contents(items)))
            && r.rest == Cursor(junk + tail, NoError)
            && (r.rest == Cursor(tail, NoError) <==> junk == [])
  {
    hide ReadPart, PartBytes, ReadSet, StampAll, ItemsBytes, Contents, RawEntry, ReceivedAll, AllSendable, Openable;
    StopAtBadCrc(cx, depth, items, offset, crc, body, junk, 0);
    ReadAnyPart(cx, depth, fetch, name, p, tail);
    LeftOver(junk, tail);
  }

  lemma LeftOver(junk: seq<byte>, tail: seq<byte>)
    ensures junk + tail == tail <==> junk == []
  {
    assert |junk + tail| == |junk| + |tail|;
    assert [] + tail == tail;
  }
}
