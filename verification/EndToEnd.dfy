/**
 From the server's log to the consumer: a fetch is answered from the log, written with
 FetchResp.Bytes, perhaps compressed and perhaps cut off by a size limit, read back with
 ReadFetchResp and trimmed; and what the consumer hands out is that log.
 */
module EndToEnd {
  import opened Wire
  import opened Codec
  import opened MessageSet
  import opened MixedSets
  import opened Responses
  import opened Frames
  import opened Cuts
  import opened Exchange
  import opened Consumers
  import opened Delivery
  import opened LogServer

  // ---------------------------------------------------------------- stretches survive the wire

  lemma RecordsArrive(cx: Codecs, name: seq<byte>, id: int32, tip: int64, ms: Msglist)
    ensures Records(StampAll(true, name, id, tip, ReceivedAll(cx, ms))) == Records(ms)
  {
    forall i | 0 <= i < |ms|
      ensures RecordOf(Stamp(true, name, id, tip, Received(cx, ms[i]))) == RecordOf(ms[i])
    {
    }
  }

  lemma SameStretch(a: Msglist, b: Msglist, log: Log, o: int64)
    requires Records(a) == Records(b) && Stretch(b, log, o)
    ensures Stretch(a, log, o)
  {
    if a != [] {
      assert |Records(a)| == |a| && |Records(b)| == |b|;
      assert Records(a)[0] == Records(b)[0];
    }
  }

  lemma PrefixStretch(ms: Msglist, k: nat, log: Log, o: int64)
    requires k <= |ms| && Stretch(ms, log, o)
    ensures Stretch(ms[..k], log, o)
  {
    if k > 0 {
      var f := ms[0].offset;
      assert Records(ms[..k]) == Records(ms)[..k] == log[f..f + |ms|][..k] == log[f..f + k];
    }
  }

  /** Of a stretch of the log, compressed and cut in any way, a stretch of the log is left. */
  lemma SurvivorsStretch(cx: Codecs, s: CutSet, log: Log, o: int64)
    requires Stretch(Contents(s.items), log, o)
    ensures Stretch(Survivors(cx, s), log, o)
  {
    var left, all := Survivors(cx, s), Contents(s.items);
    ContentsPrefix(s.items, WholeItems(cx, s.items, s.keep));
    hide Stretch, Contents, WholeItems, Survivors;
    assert left == all[..|left|];
    PrefixStretch(all, |left|, log, o);
  }

  lemma PartStretch(cx: Codecs, name: seq<byte>, p: Part<CutSet>, log: Log, o: int64)
    requires Stretch(Contents(p.body.items), log, o)
    ensures Stretch(ReadBackPart(cx, true, name, p).body, log, o)
  {
    var left := Survivors(cx, p.body);
    hide Stretch, Survivors, StampAll, ReceivedAll, Records;
    SurvivorsStretch(cx, p.body, log, o);
    RecordsArrive(cx, name, p.id, p.tip, left);
    SameStretch(StampAll(true, name, p.id, p.tip, ReceivedAll(cx, left)), left, log, o);
  }

  /** Every set for the consumer's partition is a stretch of the log that suits offset `o`. */
  ghost predicate HonestSets(ts: seq<Topic<CutSet>>, log: Log, conf: Conf, o: int64) {
    forall i, j ::
      && 0 <= i < |ts| && 0 <= j < |ts[i].parts|
      && ts[i].name == conf.me.topic && ts[i].parts[j].id == conf.me.partition ==>
      Stretch(Contents(ts[i].parts[j].body.items), log, o)
  }

  lemma HonestReadBack(cx: Codecs, ts: seq<Topic<CutSet>>, log: Log, conf: Conf, o: int64)
    requires HonestSets(ts, log, conf, o)
    ensures HonestTopics(ReadBackTopics(cx, true, ts), log, conf, o)
  {
    var back := ReadBackTopics(cx, true, ts);
    hide Stretch;
    forall i, j | 0 <= i < |back| && 0 <= j < |back[i].parts|
        && back[i].name == conf.me.topic && back[i].parts[j].id == conf.me.partition
      ensures Stretch(back[i].parts[j].body, log, o)
    {
      PartStretch(cx, ts[i].name, ts[i].parts[j], log, o);
    }
  }

  /** An honest response, cut independently in every partition, is read back as an honest one. */
  lemma HonestArrives(cx: Codecs, depth: nat, id: int32, ts: seq<Topic<CutSet>>, log: Log, conf: Conf, o: int64)
    requires Lawful(cx) && SendableTopics(cx, true, ts) && depth > 0
    requires |FetchPayload(id, SentTopics(cx, ts))| < 0x8000_0000
    requires HonestSets(ts, log, conf, o)
    ensures var r := ParseFetchResp(cx, depth, Framed(FetchPayload(id, SentTopics(cx, ts))));
            r.Good? && HonestTopics(r.value.topics, log, conf, o)
  {
    hide *;
    CutFetchResponse(cx, depth, id, ts);
    HonestReadBack(cx, ts, log, conf, o);
  }

  // ---------------------------------------------------------------- the server as a broker

  /** The answer to a consumer's fetch, with this set in place of the messages, cut after `keep` bytes. */
  function Sending(part: Part<Msglist>, conf: Conf, items: seq<Item>, keep: nat): seq<Topic<CutSet>> {
    [Topic(conf.me.topic, [Part(part.id, part.err, part.tip, CutSet(items, keep))])]
  }

  /**
   `items` hold the log from `from` on, which is at or below the requested offset: brokers keep
   compressed batches as they got them, and the batch with the requested message may begin
   earlier. An answer with an error has no messages.
   */
  ghost predicate Holding(topics: Topics, conf: Conf, o: int64, part: Part<Msglist>, items: seq<Item>, from: nat) {
    if part.err == NoErr then
      from <= o && o <= |LogOf(topics, conf.me.topic, conf.me.partition)|
      && Contents(items) == LogOf(topics, conf.me.topic, conf.me.partition)[from..]
    else items == []
  }

  /** `read` is what the consumer makes of the server's answer. */
  ghost predicate Sends(cx: Codecs, depth: nat, topics: Topics, conf: Conf, o: int64, id: int32, items: seq<Item>,
      from: nat, keep: nat, read: seq<Topic<Msglist>>)
  {
    var part := ServePart(topics, conf.me.topic, Wanted(conf.me.partition, o));
    && part.Some?
    && Holding(topics, conf, o, part.value, items, from)
    && var ts := Sending(part.value, conf, items, keep);
       && SendableTopics(cx, true, ts)
       && |FetchPayload(id, SentTopics(cx, ts))| < 0x8000_0000
       && var r := ParseFetchResp(cx, depth, Framed(FetchPayload(id, SentTopics(cx, ts))));
          r.Good? && read == r.value.topics
  }

  function LogNow(topics: Topics, conf: Conf): Log {
    Records(LogOf(topics, conf.me.topic, conf.me.partition))
  }

  ghost predicate Bounded(topics: Topics) {
    forall t, p :: |LogOf(topics, t, p)| < 0x8000_0000_0000_0000
  }

  lemma SuffixStretch(log: Msglist, from: nat, o: int64)
    requires Numbered(log) && from <= o && o <= |log| < 0x8000_0000_0000_0000
    ensures Stretch(log[from..], Records(log), o)
  {
    assert Records(log[from..]) == Records(log)[from..];
  }

  lemma HoldsAStretch(topics: Topics, conf: Conf, o: int64, part: Part<Msglist>, items: seq<Item>, from: nat)
    requires AllNumbered(topics) && Bounded(topics) && Holding(topics, conf, o, part, items, from)
    ensures Stretch(Contents(items), LogNow(topics, conf), o)
  {
    var log := LogOf(topics, conf.me.topic, conf.me.partition);
    assert Numbered(log) && |log| < 0x8000_0000_0000_0000;
    hide Numbered, AllNumbered, Bounded, Records;
    if part.err == NoErr {
      SuffixStretch(log, from, o);
    }
  }

  /** The answer that the handler itself gives is one of these: its messages are the log from `o` on. */
  lemma HandlerHolds(topics: Topics, conf: Conf, o: int64, c: Compression)
    requires Bounded(topics) && ServePart(topics, conf.me.topic, Wanted(conf.me.partition, o)).Some?
    ensures var part := ServePart(topics, conf.me.topic, Wanted(conf.me.partition, o)).value;
            Holding(topics, conf, o, part, Written(part.body, c), if o < 0 then 0 else o)
  {
    var part := ServePart(topics, conf.me.topic, Wanted(conf.me.partition, o)).value;
    var cx := Storing();
    WrittenIs(cx, part.body, c);
    assert |LogOf(topics, conf.me.topic, conf.me.partition)| < 0x8000_0000_0000_0000;
    ServesTheLog(topics, conf.me.topic, Wanted(conf.me.partition, o));
    hide Written, Contents, ServePart;
    if part.err != NoErr {
      NothingWritten(c);
    }
  }

  lemma NothingWritten(c: Compression)
    ensures Written([], c) == []
  {
  }

  lemma ServerIsHonest(cx: Codecs, depth: nat, topics: Topics, conf: Conf, o: int64, id: int32, items: seq<Item>,
      from: nat, keep: nat, read: seq<Topic<Msglist>>)
    requires Lawful(cx) && depth > 0 && AllNumbered(topics) && Bounded(topics)
    requires Sends(cx, depth, topics, conf, o, id, items, from, keep, read)
    ensures HonestTopics(read, LogNow(topics, conf), conf, o)
  {
    var part := ServePart(topics, conf.me.topic, Wanted(conf.me.partition, o)).value;
    var ts := Sending(part, conf, items, keep);
    hide AllNumbered, Bounded, ServePart, Stretch, SendableTopics, FetchPayload, SentTopics, ParseFetchResp, Lawful,
        HonestTopics, Holding, Contents;
    HoldsAStretch(topics, conf, o, part, items, from);
    assert HonestSets(ts, LogNow(topics, conf), conf, o);
    HonestArrives(cx, depth, id, ts, LogNow(topics, conf), conf, o);
  }

  /** The server's answer, read back, is the one entry for the consumer's partition. */
  lemma ServedEntry(cx: Codecs, depth: nat, topics: Topics, conf: Conf, o: int64, id: int32, items: seq<Item>,
      from: nat, keep: nat, read: seq<Topic<Msglist>>) returns (p: Part<Msglist>)
    requires Lawful(cx) && depth > 0
    requires Sends(cx, depth, topics, conf, o, id, items, from, keep, read)
    ensures Single(read) && Holds(conf.me, read, p)
    ensures p.err == ServePart(topics, conf.me.topic, Wanted(conf.me.partition, o)).value.err
    ensures Records(p.body) == Records(Survivors(cx, CutSet(items, keep)))
  {
    var part := ServePart(topics, conf.me.topic, Wanted(conf.me.partition, o)).value;
    var s := CutSet(items, keep);
    assert part.id == conf.me.partition;
    var ts := Sending(part, conf, items, keep);
    p := ReadBackPart(cx, true, conf.me.topic, ts[0].parts[0]);
    hide ServePart, Survivors, StampAll, ReceivedAll, Records, SendableTopics, FetchPayload, ParseFetchResp, Holding;
    CutFetchResponse(cx, depth, id, ts);
    assert read[0].parts == [p];
    assert FirstEntry(conf.me, read, 0, 0);
    RecordsArrive(cx, conf.me.topic, part.id, part.tip, Survivors(cx, s));
  }

  /** What the server refuses: an unknown partition is tried again, an offset beyond the log is an error. */
  lemma ServerRefuses(cx: Codecs, depth: nat, topics: Topics, conf: Conf, o: int64, id: int32, items: seq<Item>,
      from: nat, keep: nat, read: seq<Topic<Msglist>>)
    requires Lawful(cx) && depth > 0 && Bounded(topics)
    requires Sends(cx, depth, topics, conf, o, id, items, from, keep, read)
    ensures var known := conf.me.topic in topics && conf.me.partition in topics[conf.me.topic];
            && (!known ==> Retried(Asked(Replied(read)), conf.me))
            && (known && o > |LogOf(topics, conf.me.topic, conf.me.partition)| ==>
                 exists p :: Answers(Asked(Replied(read)), conf.me, p) && p.err == Known(1))
  {
    assert |LogOf(topics, conf.me.topic, conf.me.partition)| < 0x8000_0000_0000_0000;
    ServesTheLog(topics, conf.me.topic, Wanted(conf.me.partition, o));
    hide ServePart, Single, Sends, Holds, Bounded, LogOf, Lawful;
    var p := ServedEntry(cx, depth, topics, conf, o, id, items, from, keep, read);
  }

  /** The offset at which the messages that survive the cut begin and end. */
  lemma SurvivorsRange(cx: Codecs, topics: Topics, conf: Conf, o: int64, part: Part<Msglist>, items: seq<Item>,
      from: nat, keep: nat, body: Msglist)
    requires AllNumbered(topics) && Bounded(topics) && part.err == NoErr
    requires Holding(topics, conf, o, part, items, from)
    requires Records(body) == Records(Survivors(cx, CutSet(items, keep))) && body != []
    ensures Stretch(body, LogNow(topics, conf), o) && body[0].offset == from
  {
    var log, s := LogOf(topics, conf.me.topic, conf.me.partition), CutSet(items, keep);
    var left := Survivors(cx, s);
    hide Survivors, Contents, Stretch, Holding, AllNumbered, Bounded, LogNow, Records;
    HoldsAStretch(topics, conf, o, part, items, from);
    SurvivorsStretch(cx, s, LogNow(topics, conf), o);
    SameStretch(body, left, LogNow(topics, conf), o);
    FirstSurvivor(cx, topics, conf, o, part, items, from, keep);
    SameFirst(body, left);
  }

  lemma SameFirst(a: Msglist, b: Msglist)
    requires Records(a) == Records(b) && a != []
    ensures b != [] && a[0].offset == b[0].offset && |a| == |b|
  {
    assert |Records(a)| == |a| && |Records(b)| == |b|;
    assert Records(a)[0] == Records(b)[0];
  }

  lemma FirstSurvivor(cx: Codecs, topics: Topics, conf: Conf, o: int64, part: Part<Msglist>, items: seq<Item>,
      from: nat, keep: nat)
    requires AllNumbered(topics) && Bounded(topics) && part.err == NoErr
    requires Holding(topics, conf, o, part, items, from)
    ensures var left := Survivors(cx, CutSet(items, keep)); left != [] ==> left[0].offset == from
  {
    var log := LogOf(topics, conf.me.topic, conf.me.partition);
    var left := Survivors(cx, CutSet(items, keep));
    ContentsPrefix(items, WholeItems(cx, items, keep));
    assert left <= Contents(items) == log[from..];
    NumberedFrom(topics, conf, from);
    hide *;
    if left != [] {
      assert left[0] == log[from..][0];
    }
  }

  lemma NumberedFrom(topics: Topics, conf: Conf, from: nat)
    requires AllNumbered(topics) && Bounded(topics)
    ensures var log := LogOf(topics, conf.me.topic, conf.me.partition);
            from < |log| ==> log[from].offset == from
  {
    assert Numbered(LogOf(topics, conf.me.topic, conf.me.partition));
    assert |LogOf(topics, conf.me.topic, conf.me.partition)| < 0x8000_0000_0000_0000;
  }

  // ---------------------------------------------------------------- the server's history

  type States = nat -> Topics

  /** One request of any client: a produce request, AddMessages, or one that changes nothing. */
  ghost predicate Next(before: Topics, after: Topics) {
    || after == before
    || (exists req :: after == ProduceTopics(before, req).0)
    || (exists t, p, ms :: Extends(before, after, t, p, Added(|LogOf(before, t, p)|, t, p, ms)))
  }

  ghost predicate ServerRun(states: States) {
    && AllNumbered(states(0))
    && (forall t: nat :: Next(states(t), states(t + 1)))
    && (forall t :: Bounded(states(t)))
  }

  lemma NextGrows(before: Topics, after: Topics, t: seq<byte>, p: int32)
    requires Next(before, after)
    ensures LogOf(before, t, p) <= LogOf(after, t, p)
  {
    if after != before {
      if req :| after == ProduceTopics(before, req).0 {
        ProduceAppends(before, req, t, p);
      }
    }
  }

  lemma NextNumbers(before: Topics, after: Topics)
    requires Next(before, after) && AllNumbered(before)
    ensures AllNumbered(after)
  {
    hide AllNumbered, Extends, Added;
    if after != before {
      if req :| after == ProduceTopics(before, req).0 {
        ProduceNumbers(before, req);
      } else {
        var t, p, ms :| Extends(before, after, t, p, Added(|LogOf(before, t, p)|, t, p, ms));
        AddKeepsNumbers(before, after, t, p, ms);
      }
    }
  }

  lemma {:induction false} StaysNumbered(states: States, t: nat)
    requires ServerRun(states)
    ensures AllNumbered(states(t))
  {
    if t > 0 {
      hide AllNumbered, Next, Bounded;
      StaysNumbered(states, t - 1);
      assert Next(states(t - 1), states(t - 1 + 1));
      NextNumbers(states(t - 1), states(t));
    }
  }

  lemma {:induction false} LogGrows(states: States, topic: seq<byte>, p: int32, t: nat, u: nat)
    requires ServerRun(states) && t <= u
    ensures LogOf(states(t), topic, p) <= LogOf(states(u), topic, p)
    decreases u
  {
    if t < u {
      hide AllNumbered, Next, Bounded, LogOf;
      LogGrows(states, topic, p, t, u - 1);
      assert Next(states(u - 1), states(u - 1 + 1));
      NextGrows(states(u - 1), states(u), topic, p);
    }
  }

  function LogAt(states: States, conf: Conf): History {
    (t: nat) => LogNow(states(t), conf)
  }

  lemma NumberedIsDense(topics: Topics, conf: Conf)
    requires AllNumbered(topics) && Bounded(topics)
    ensures Dense(LogNow(topics, conf))
  {
    var log := LogOf(topics, conf.me.topic, conf.me.partition);
    assert Numbered(log) && |log| < 0x8000_0000_0000_0000;
  }

  lemma PrefixRecords(a: Msglist, b: Msglist)
    requires a <= b
    ensures Records(a) <= Records(b)
  {
  }

  lemma HistoryGrows(states: States, conf: Conf)
    requires ServerRun(states)
    ensures Grows(LogAt(states, conf))
  {
    var logs := LogAt(states, conf);
    hide Dense, AllNumbered, Next, Bounded, LogOf, Records;
    forall t: nat ensures Dense(logs(t)) {
      StaysNumbered(states, t);
      assert Bounded(states(t));
      NumberedIsDense(states(t), conf);
    }
    forall t: nat, u: nat | t <= u ensures logs(t) <= logs(u) {
      LogGrows(states, conf.me.topic, conf.me.partition, t, u);
      PrefixRecords(LogOf(states(t), conf.me.topic, conf.me.partition),
          LogOf(states(u), conf.me.topic, conf.me.partition));
    }
  }

  /** Every reply the consumer gets is the server's answer at that time, however sent. */
  ghost predicate ServedBy(cx: Codecs, depth: nat, states: States, conf: Conf, b: Broker) {
    forall t, o :: Said(b(t, o)) ==>
      exists id, items, from, keep :: Sends(cx, depth, states(t), conf, o, id, items, from, keep, b(t, o).reply.topics)
  }

  lemma ServedIsHonest(cx: Codecs, depth: nat, states: States, conf: Conf, b: Broker)
    requires Lawful(cx) && depth > 0 && ServerRun(states) && ServedBy(cx, depth, states, conf, b)
    ensures Honest(b, LogAt(states, conf), conf)
  {
    hide Lawful, AllNumbered, Next, Bounded, LogNow, Sends, HonestTopics;
    forall t, o | Said(b(t, o))
      ensures HonestTopics(b(t, o).reply.topics, LogAt(states, conf)(t), conf, o)
    {
      var id, items, from, keep :| Sends(cx, depth, states(t), conf, o, id, items, from, keep, b(t, o).reply.topics);
      StaysNumbered(states, t);
      assert Bounded(states(t));
      ServerIsHonest(cx, depth, states(t), conf, o, id, items, from, keep, b(t, o).reply.topics);
    }
  }

  /**
   While other clients produce to the server, a client that only calls Consume, or only calls
   ConsumeBatch, gets exactly the partition's log from its start offset on, whatever requests
   fail, wherever responses are cut, however the log is compressed into batches, and however far
   below the requested offset the first batch begins.
   */
  lemma ConsumerGetsServerLog(cx: Codecs, depth: nat, states: States, conf: Conf, b: Broker, start: int64,
      calls: seq<Call>)
    requires Lawful(cx) && depth > 0 && ServerRun(states) && ServedBy(cx, depth, states, conf, b) && start >= 0
    requires (forall i :: 0 <= i < |calls| ==> calls[i].ConsumeOne?)
        || (forall i :: 0 <= i < |calls| ==> calls[i].ConsumeMany?)
    ensures var ran := Run(b, conf, State(start, []), calls, 0);
            InOrder(ran.ms, LogNow(states(ran.now), conf), start)
  {
    hide *;
    HistoryGrows(states, conf);
    ServedIsHonest(cx, depth, states, conf, b);
    DeliversTheLog(b, LogAt(states, conf), conf, start, calls, 0);
    LogAtIs(states, conf, Run(b, conf, State(start, []), calls, 0).now);
  }

  lemma LogAtIs(states: States, conf: Conf, t: nat)
    ensures LogAt(states, conf)(t) == LogNow(states(t), conf)
  {
  }

  /**
   Whatever was tried in vain before, once a try is answered by the server and the cut leaves the
   message at the cursor, Consume returns that message of the server's log.
   */
  lemma ServedRecordIsConsumed(cx: Codecs, depth: nat, topics: Topics, conf: Conf, b: Broker, o: int64,
      patience: nat, at: nat, waits: seq<nat>, k: nat, id: int32, items: seq<Item>, from: nat, keep: nat,
      read: seq<Topic<Msglist>>)
    requires Lawful(cx) && depth > 0 && AllNumbered(topics) && Bounded(topics)
    requires |waits| < patience && Allows(conf, |waits|) && Waits(b, conf, o, at, waits)
    requires k < conf.retryErrLimit && Exhausts(b, conf, o, k, at + Sum(waits))
    requires b(at + Sum(waits) + k, o) == Asked(Replied(read))
    requires Sends(cx, depth, topics, conf, o, id, items, from, keep, read)
    requires 0 <= o < |LogOf(topics, conf.me.topic, conf.me.partition)|
    requires o < from + |Survivors(cx, CutSet(items, keep))|
    ensures var (r, s, now) := One(b, conf, State(o, []), patience, at);
            && r.Batch? && Records(r.ms) == [LogNow(topics, conf)[o]]
            && s.offset == o + 1 && now == at + Sum(waits) + k + 1
  {
    hide *;
    var p := ServedEntry(cx, depth, topics, conf, o, id, items, from, keep, read);
    var part := ServedWithin(cx, depth, topics, conf, o, id, items, from, keep, read);
    EntryAnswers(read, conf.me, p);
    SameCount(p.body, Survivors(cx, CutSet(items, keep)));
    SurvivorsRange(cx, topics, conf, o, part, items, from, keep, p.body);
    NumberedIsDense(topics, conf);
    RecordIsDelivered(b, LogNow(topics, conf), conf, State(o, []), patience, at, waits, k, p);
  }

  lemma SameCount(a: Msglist, b: Msglist)
    requires Records(a) == Records(b)
    ensures |a| == |b|
  {
    assert |Records(a)| == |a| && |Records(b)| == |b|;
  }

  lemma EntryAnswers(read: seq<Topic<Msglist>>, me: Target, p: Part<Msglist>)
    requires Single(read) && Holds(me, read, p) && p.err == NoErr
    ensures Answers(Asked(Replied(read)), me, p)
  {
    hide Holds, Single;
  }

  /** Within the log the server answers without error. */
  lemma ServedWithin(cx: Codecs, depth: nat, topics: Topics, conf: Conf, o: int64, id: int32, items: seq<Item>,
      from: nat, keep: nat, read: seq<Topic<Msglist>>) returns (part: Part<Msglist>)
    requires Bounded(topics) && Sends(cx, depth, topics, conf, o, id, items, from, keep, read)
    requires 0 <= o < |LogOf(topics, conf.me.topic, conf.me.partition)|
    ensures ServePart(topics, conf.me.topic, Wanted(conf.me.partition, o)) == Some(part)
    ensures part.err == NoErr && Holding(topics, conf, o, part, items, from) && from <= o
    ensures |LogNow(topics, conf)| == |LogOf(topics, conf.me.topic, conf.me.partition)|
  {
    assert |LogOf(topics, conf.me.topic, conf.me.partition)| < 0x8000_0000_0000_0000;
    ServesTheLog(topics, conf.me.topic, Wanted(conf.me.partition, o));
    part := ServePart(topics, conf.me.topic, Wanted(conf.me.partition, o)).value;
  }
}
