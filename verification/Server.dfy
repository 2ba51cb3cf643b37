/**
 The log behind the test server (kafkatest/server.go): topics, partitions and their messages,
 appended to by AddMessages and by produce requests, read by fetch requests.
 */
module LogServer {
  import opened Wire
  import opened MessageSet
  import opened Responses

  type Parts = map<int32, Msglist>

  type Topics = map<seq<byte>, Parts>

  /** Go's conversion of a length to int64. */
  function Int64(n: int): int64 {
    var u := n % 0x1_0000_0000_0000_0000;
    if u < 0x8000_0000_0000_0000 then u else u - 0x1_0000_0000_0000_0000
  }

  function LogIn(parts: Parts, p: int32): Msglist {
    if p in parts then parts[p] else []
  }

  /** The log of a partition; one that does not exist has no messages. */
  function LogOf(topics: Topics, t: seq<byte>, p: int32): Msglist {
    if t in topics then LogIn(topics[t], p) else []
  }

  /** Every message carries its index as its offset. */
  ghost predicate Numbered(log: Msglist) {
    forall i :: 0 <= i < |log| ==> log[i].offset == Int64(i)
  }

  ghost predicate AllNumbered(topics: Topics) {
    forall t, p :: Numbered(LogOf(topics, t, p))
  }

  // ---------------------------------------------------------------- appending

  /** The messages as they are stored behind a log of `start` messages. */
  function Placed(start: nat, name: seq<byte>, ms: Msglist): (r: Msglist)
    ensures |r| == |ms|
    ensures forall i :: 0 <= i < |ms| ==> r[i] == ms[i].(offset := Int64(start + i), topic := name)
  {
    seq(|ms|, i requires 0 <= i < |ms| => ms[i].(offset := Int64(start + i), topic := name))
  }

  function Place(log: Msglist, name: seq<byte>, ms: Msglist): Msglist {
    log + Placed(|log|, name, ms)
  }

  lemma PlaceTwice(log: Msglist, name: seq<byte>, a: Msglist, b: Msglist)
    ensures Place(Place(log, name, a), name, b) == Place(log, name, a + b)
  {
    assert |Place(log, name, a)| == |log| + |a|;
    assert Placed(|log|, name, a + b) == Placed(|log|, name, a) + Placed(|log| + |a|, name, b);
  }

  lemma PlaceLength(log: Msglist, name: seq<byte>, ms: Msglist)
    ensures |Place(log, name, ms)| == |log| + |ms|
  {
  }

  lemma PlaceNumbers(log: Msglist, name: seq<byte>, ms: Msglist)
    requires Numbered(log)
    ensures Numbered(Place(log, name, ms))
  {
  }

  // ---------------------------------------------------------------- produce requests

  /** A partition of a produce response: its ID and the offset the server reports. */
  datatype Reply = Reply(id: int32, offset: int64)

  function ProducePart(parts: Parts, name: seq<byte>, p: Part<Msglist>): Parts {
    parts[p.id := Place(LogIn(parts, p.id), name, p.body)]
  }

  /** The partitions of one topic, first to last, and the replies. */
  function ProduceParts(parts: Parts, name: seq<byte>, ps: seq<Part<Msglist>>): (Parts, seq<Reply>) {
    if ps == [] then (parts, [])
    else
      var last := ps[|ps| - 1];
      var (before, replies) := ProduceParts(parts, name, ps[..|ps| - 1]);
      var after := ProducePart(before, name, last);
      (after, replies + [Reply(last.id, Int64(|after[last.id]| - 1))])
  }

  function PartsIn(topics: Topics, t: seq<byte>): Parts {
    if t in topics then topics[t] else map[]
  }

  function ProduceTopics(topics: Topics, ts: seq<Topic<Msglist>>): (Topics, seq<seq<Reply>>) {
    if ts == [] then (topics, [])
    else
      var last := ts[|ts| - 1];
      var (before, replies) := ProduceTopics(topics, ts[..|ts| - 1]);
      var (parts, reply) := ProduceParts(PartsIn(before, last.name), last.name, last.parts);
      (before[last.name := parts], replies + [reply])
  }

  /** All messages of a request for one partition, in the order of the request. */
  function SentIn(ps: seq<Part<Msglist>>, id: int32): Msglist {
    if ps == [] then []
    else SentIn(ps[..|ps| - 1], id) + if ps[|ps| - 1].id == id then ps[|ps| - 1].body else []
  }

  function Sent(ts: seq<Topic<Msglist>>, t: seq<byte>, id: int32): Msglist {
    if ts == [] then []
    else Sent(ts[..|ts| - 1], t, id) + if ts[|ts| - 1].name == t then SentIn(ts[|ts| - 1].parts, id) else []
  }

  lemma {:induction false} PartsAppend(parts: Parts, name: seq<byte>, ps: seq<Part<Msglist>>, id: int32)
    ensures LogIn(ProduceParts(parts, name, ps).0, id) == Place(LogIn(parts, id), name, SentIn(ps, id))
  {
    if ps == [] {
      PlaceNothing(LogIn(parts, id), name);
    } else {
      var last := ps[|ps| - 1];
      PartsAppend(parts, name, ps[..|ps| - 1], id);
      hide Place;
      if last.id == id {
        PlaceTwice(LogIn(parts, id), name, SentIn(ps[..|ps| - 1], id), last.body);
      } else {
        assert SentIn(ps, id) == SentIn(ps[..|ps| - 1], id);
      }
    }
  }

  lemma PlaceNothing(log: Msglist, name: seq<byte>)
    ensures Place(log, name, []) == log
  {
  }

  /**
   After a produce request every partition's log is what it was, followed by all the messages
   the request had for it, in order, with the offsets that follow.
   */
  lemma {:induction false} ProduceAppends(topics: Topics, ts: seq<Topic<Msglist>>, t: seq<byte>, id: int32)
    ensures LogOf(ProduceTopics(topics, ts).0, t, id) == Place(LogOf(topics, t, id), t, Sent(ts, t, id))
  {
    if ts == [] {
      PlaceNothing(LogOf(topics, t, id), t);
    } else {
      var last := ts[|ts| - 1];
      var before := ProduceTopics(topics, ts[..|ts| - 1]).0;
      ProduceAppends(topics, ts[..|ts| - 1], t, id);
      hide Place, ProduceParts, SentIn;
      if last.name == t {
        PartsAppend(PartsIn(before, t), t, last.parts, id);
        PlaceTwice(LogOf(topics, t, id), t, Sent(ts[..|ts| - 1], t, id), SentIn(last.parts, id));
      } else {
        assert Sent(ts, t, id) == Sent(ts[..|ts| - 1], t, id);
      }
    }
  }

  /** The stored messages: the log as it was, and each new one with its offset and its topic's name. */
  lemma StoredFields(log: Msglist, name: seq<byte>, ms: Msglist, k: nat)
    requires k < |ms| && |log| + |ms| < 0x8000_0000_0000_0000
    ensures var after := Place(log, name, ms);
            && |after| == |log| + |ms| && after[..|log|] == log
            && var m := after[|log| + k];
               m.offset == |log| + k && m.topic == name && m.key == ms[k].key && m.value == ms[k].value
  {
  }

  lemma ProduceNumbers(topics: Topics, ts: seq<Topic<Msglist>>)
    requires AllNumbered(topics)
    ensures AllNumbered(ProduceTopics(topics, ts).0)
  {
    var after := ProduceTopics(topics, ts).0;
    forall t, id ensures Numbered(LogOf(after, t, id)) {
      ProduceAppends(topics, ts, t, id);
      PlaceNumbers(LogOf(topics, t, id), t, Sent(ts, t, id));
    }
  }

  /** The reported offset is that of the partition's last message. */
  lemma {:induction false} ReplyIsLast(parts: Parts, name: seq<byte>, ps: seq<Part<Msglist>>, i: nat)
    requires i < |ps|
    ensures var replies := ProduceParts(parts, name, ps).1;
            && |replies| == |ps|
            && replies[i] == Reply(ps[i].id, Int64(|LogIn(parts, ps[i].id)| + |SentIn(ps[..i + 1], ps[i].id)| - 1))
    decreases |ps|
  {
    hide Place, Int64;
    var front := ps[..|ps| - 1];
    if i == |ps| - 1 {
      PlaceLength(LogIn(parts, ps[i].id), name, SentIn(ps, ps[i].id));
      PartsAppend(parts, name, ps, ps[i].id);
      assert ps[..i + 1] == ps;
      ReplyCount(parts, name, front);
    } else {
      ReplyIsLast(parts, name, front, i);
      assert front[..i + 1] == ps[..i + 1];
    }
  }

  /** The same for a whole request: topic by topic, each after those before it. */
  lemma {:induction false} RepliesInOrder(topics: Topics, ts: seq<Topic<Msglist>>, i: nat, j: nat)
    requires i < |ts| && j < |ts[i].parts|
    ensures var replies, t, id := ProduceTopics(topics, ts).1, ts[i], ts[i].parts[j].id;
            && |replies| == |ts| && |replies[i]| == |t.parts|
            && replies[i][j] == Reply(id, Int64(|LogOf(topics, t.name, id)| + |Sent(ts[..i], t.name, id)|
                 + |SentIn(t.parts[..j + 1], id)| - 1))
    decreases |ts|
  {
    hide Place, ProduceParts, SentIn;
    var front, last := ts[..|ts| - 1], ts[|ts| - 1];
    TopicCount(topics, front);
    if i == |ts| - 1 {
      var before := ProduceTopics(topics, front).0;
      var id := last.parts[j].id;
      assert ts[..i] == front;
      ProduceAppends(topics, front, last.name, id);
      PlaceLength(LogOf(topics, last.name, id), last.name, Sent(front, last.name, id));
      ReplyIsLast(PartsIn(before, last.name), last.name, last.parts, j);
    } else {
      RepliesInOrder(topics, front, i, j);
      assert front[..i] == ts[..i];
    }
  }

  lemma {:induction false} TopicCount(topics: Topics, ts: seq<Topic<Msglist>>)
    ensures |ProduceTopics(topics, ts).1| == |ts|
    decreases |ts|
  {
    if ts != [] {
      TopicCount(topics, ts[..|ts| - 1]);
    }
  }

  lemma {:induction false} ReplyCount(parts: Parts, name: seq<byte>, ps: seq<Part<Msglist>>)
    ensures |ProduceParts(parts, name, ps).1| == |ps|
    decreases |ps|
  {
    if ps != [] {
      ReplyCount(parts, name, ps[..|ps| - 1]);
    }
  }

  /**
   What producer.Produce (broker.go) makes of the reported offset: it takes it for that of the
   first message and counts up.
   */
  function ClientStamps(reported: int64, ms: Msglist): Msglist {
    seq(|ms|, i requires 0 <= i < |ms| => ms[i].(offset := Int64(reported + i)))
  }

  /** The client's offsets are the ones in the log exactly for batches of at most one message. */
  lemma StampsAgreeIff(log: Msglist, name: seq<byte>, ms: Msglist)
    requires |log| + |ms| < 0x8000_0000_0000_0000
    ensures var reported := Int64(|Place(log, name, ms)| - 1);
            (forall i :: 0 <= i < |ms| ==>
                ClientStamps(reported, ms)[i].offset == Place(log, name, ms)[|log| + i].offset) <==> |ms| <= 1
  {
    var reported := Int64(|Place(log, name, ms)| - 1);
    if |ms| > 0 {
      assert Place(log, name, ms)[|log|].offset == |log|;
      assert ClientStamps(reported, ms)[0].offset == |log| + |ms| - 1;
    }
  }

  // ---------------------------------------------------------------- fetch requests

  datatype Wanted = Wanted(id: int32, offset: int64)

  datatype Request = Request(name: seq<byte>, parts: seq<Wanted>)

  /** One partition's answer; `None` is the panic on a negative offset. */
  function ServePart(topics: Topics, name: seq<byte>, w: Wanted): Option<Part<Msglist>> {
    if name !in topics || w.id !in topics[name] then Some(Part(w.id, Known(3), 0, []))
    else
      var log := topics[name][w.id];
      if w.offset > Int64(|log|) then Some(Part(w.id, Known(1), 0, []))
      else if 0 <= w.offset <= |log| then Some(Part(w.id, NoErr, Int64(|log|), log[w.offset..]))
      else None
  }

  /**
   A partition that exists answers a fetch with exactly the log from the offset on, if the
   offset lies within the log; beyond its end there is code 1, a negative offset is a panic, and
   for a partition that does not exist there is code 3.
   */
  lemma ServesTheLog(topics: Topics, name: seq<byte>, w: Wanted)
    requires |LogOf(topics, name, w.id)| < 0x8000_0000_0000_0000
    ensures var r := ServePart(topics, name, w);
            var log := LogOf(topics, name, w.id);
            if !(name in topics && w.id in topics[name]) then r == Some(Part(w.id, Known(3), 0, []))
            else if w.offset < 0 then r.None?
            else if w.offset > |log| then r == Some(Part(w.id, Known(1), 0, []))
            else
              && r.Some? && r.value.id == w.id && r.value.err == NoErr && r.value.tip == |log|
              && log[..w.offset] + r.value.body == log
  {
  }

  // ---------------------------------------------------------------- the server

  /** The messages as AddMessages stores them. */
  function Added(start: nat, topic: seq<byte>, partition: int32, ms: Msglist): (r: Msglist)
    ensures |r| == |ms|
    ensures forall i :: 0 <= i < |ms| ==>
        r[i] == ms[i].(offset := Int64(start + i), topic := topic, partition := partition)
  {
    seq(|ms|, i requires 0 <= i < |ms| => ms[i].(offset := Int64(start + i), topic := topic, partition := partition))
  }

  /** What AddMessages stores has the topic, the partition and the next offset. */
  lemma AddedFields(start: nat, topic: seq<byte>, partition: int32, ms: Msglist, k: nat)
    requires k < |ms| && start + |ms| < 0x8000_0000_0000_0000
    ensures var m := Added(start, topic, partition, ms)[k];
            && m.offset == start + k && m.topic == topic && m.partition == partition
            && m.key == ms[k].key && m.value == ms[k].value
  {
  }

  method StampMessages(start: nat, topic: seq<byte>, partition: int32, messages: Msglist) returns (stamped: Msglist)
    ensures stamped == Added(start, topic, partition, messages)
  {
    stamped := [];
    for k := 0 to |messages|
      invariant |stamped| == k
      invariant forall j :: 0 <= j < k ==> stamped[j] == Added(start, topic, partition, messages)[j]
    {
      stamped := stamped + [messages[k].(offset := Int64(start + k), topic := topic, partition := partition)];
    }
  }

  /** The partitions up to the given one are created if they do not exist. */
  method CreateParts(parts0: Parts, partition: int32) returns (parts: Parts)
    requires partition < 0x7fff_ffff
    ensures forall p: int32 :: p in parts <==> p in parts0 || 0 <= p <= partition
    ensures forall p :: LogIn(parts, p) == LogIn(parts0, p)
  {
    parts := parts0;
    var i: int32 := 0;
    while i <= partition
      invariant 0 <= i && (i <= partition + 1 || i == 0)
      invariant forall p: int32 :: p in parts <==> p in parts0 || 0 <= p < i
      invariant forall p :: LogIn(parts, p) == LogIn(parts0, p)
    {
      if i !in parts {
        parts := parts[i := []];
      }
      i := i + 1;
    }
  }

  /** One log has grown by `ms`, the others are as they were. */
  ghost predicate Extends(before: Topics, after: Topics, topic: seq<byte>, partition: int32, ms: Msglist) {
    forall t, p :: LogOf(after, t, p) ==
      if t == topic && p == partition then LogOf(before, t, p) + ms else LogOf(before, t, p)
  }

  lemma AddNumbers(log: Msglist, topic: seq<byte>, partition: int32, ms: Msglist)
    requires Numbered(log)
    ensures Numbered(log + Added(|log|, topic, partition, ms))
  {
  }

  lemma AddKeepsNumbers(before: Topics, after: Topics, topic: seq<byte>, partition: int32, ms: Msglist)
    requires Extends(before, after, topic, partition, Added(|LogOf(before, topic, partition)|, topic, partition, ms))
    ensures AllNumbered(before) ==> AllNumbered(after)
  {
    hide LogOf, Added, Numbered;
    if AllNumbered(before) {
      AddNumbers(LogOf(before, topic, partition), topic, partition, ms);
      forall t, p ensures Numbered(LogOf(after, t, p)) {
        assert Numbered(LogOf(before, t, p));
      }
    }
  }

  class Server {
    var topics: Topics

    constructor ()
      ensures topics == map[]
    {
      topics := map[];
    }

    /** The stamped messages are also what the caller's message objects now show. */
    method AddMessages(topic: seq<byte>, partition: int32, messages: Msglist) returns (stamped: Msglist)
      requires partition < 0x7fff_ffff
      modifies this
      ensures topics.Keys == old(topics.Keys) + {topic}
      ensures forall p: int32 :: p in topics[topic] <==>
                p in PartsIn(old(topics), topic) || 0 <= p <= partition || (p == partition && messages != [])
      ensures stamped == Added(|LogOf(old(topics), topic, partition)|, topic, partition, messages)
      ensures Extends(old(topics), topics, topic, partition, stamped)
      ensures old(AllNumbered(topics)) ==> AllNumbered(topics)
    {
      ghost var before := topics;
      var parts := CreateParts(PartsIn(topics, topic), partition);
      ghost var created := parts;
      stamped := [];
      if |messages| > 0 {
        stamped := StampMessages(|LogIn(parts, partition)|, topic, partition, messages);
        parts := parts[partition := LogIn(parts, partition) + stamped];
      }
      topics := topics[topic := parts];
      assert LogOf(before, topic, partition) + [] == LogOf(before, topic, partition);
      assert LogOf(topics, topic, partition) == LogOf(before, topic, partition) + stamped;
      forall p: int32 | p != partition ensures LogIn(parts, p) == LogOf(before, topic, p) {
        assert LogIn(created, p) == LogIn(PartsIn(before, topic), p);
      }
      assert Extends(before, topics, topic, partition, stamped);
      AddKeepsNumbers(before, topics, topic, partition, messages);
    }

    /** handleProduceRequest. */
    method Produce(req: seq<Topic<Msglist>>) returns (replies: seq<seq<Reply>>)
      modifies this
      ensures (topics, replies) == ProduceTopics(old(topics), req)
      ensures forall t, id :: LogOf(topics, t, id) == Place(LogOf(old(topics), t, id), t, Sent(req, t, id))
      ensures old(AllNumbered(topics)) ==> AllNumbered(topics)
    {
      replies := [];
      for ti := 0 to |req|
        invariant (topics, replies) == ProduceTopics(old(topics), req[..ti])
      {
        var name := req[ti].name;
        var parts, reply := ProduceOne(PartsIn(topics, name), name, req[ti].parts);
        assert req[..ti + 1][..ti] == req[..ti];
        topics := topics[name := parts];
        replies := replies + [reply];
      }
      assert req[..|req|] == req;
      forall t, id ensures LogOf(topics, t, id) == Place(LogOf(old(topics), t, id), t, Sent(req, t, id)) {
        ProduceAppends(old(topics), req, t, id);
      }
      if old(AllNumbered(topics)) {
        ProduceNumbers(old(topics), req);
      }
    }

    /** handleFetchRequest; `ok` is false if it panics. */
    method Fetch(req: seq<Request>) returns (ok: bool, resp: seq<Topic<Msglist>>)
      ensures ok <==> forall i, j :: 0 <= i < |req| && 0 <= j < |req[i].parts| ==>
          ServePart(topics, req[i].name, req[i].parts[j]).Some?
      ensures ok ==>
        && |resp| == |req|
        && forall i :: 0 <= i < |req| ==>
             && resp[i].name == req[i].name && |resp[i].parts| == |req[i].parts|
             && forall j :: 0 <= j < |req[i].parts| ==>
                 ServePart(topics, req[i].name, req[i].parts[j]) == Some(resp[i].parts[j])
    {
      resp := [];
      for ti := 0 to |req|
        invariant |resp| == ti
        invariant forall i, j :: 0 <= i < ti && 0 <= j < |req[i].parts| ==>
            ServePart(topics, req[i].name, req[i].parts[j]).Some?
        invariant forall i :: 0 <= i < ti ==>
          && resp[i].name == req[i].name && |resp[i].parts| == |req[i].parts|
          && forall j :: 0 <= j < |req[i].parts| ==>
              ServePart(topics, req[i].name, req[i].parts[j]) == Some(resp[i].parts[j])
      {
        var name := req[ti].name;
        var parts: seq<Part<Msglist>> := [];
        for pi := 0 to |req[ti].parts|
          invariant |parts| == pi
          invariant forall j :: 0 <= j < pi ==> ServePart(topics, name, req[ti].parts[j]) == Some(parts[j])
        {
          var w := req[ti].parts[pi];
          if name !in topics || w.id !in topics[name] {
            parts := parts + [Part(w.id, Known(3), 0, [])];
            continue;
          }
          var messages := topics[name][w.id];
          if w.offset > Int64(|messages|) {
            parts := parts + [Part(w.id, Known(1), 0, [])];
            continue;
          }
          if w.offset < 0 || w.offset > |messages| {
            return false, resp;
          }
          parts := parts + [Part(w.id, NoErr, Int64(|messages|), messages[w.offset..])];
        }
        resp := resp + [Topic(name, parts)];
      }
      ok := true;
    }
  }

  /** The loop over the messages of one partition. */
  method AppendAll(log0: Msglist, name: seq<byte>, ms: Msglist) returns (log: Msglist)
    ensures log == Place(log0, name, ms)
  {
    log := log0;
    for k := 0 to |ms|
      invariant |log| == |log0| + k && log[..|log0|] == log0
      invariant forall j :: 0 <= j < k ==> log[|log0| + j] == Placed(|log0|, name, ms)[j]
    {
      log := log + [ms[k].(offset := Int64(|log|), topic := name)];
    }
  }

  /** The loop over the partitions of one topic. */
  method ProduceOne(parts0: Parts, name: seq<byte>, ps: seq<Part<Msglist>>) returns (parts: Parts, reply: seq<Reply>)
    ensures (parts, reply) == ProduceParts(parts0, name, ps)
  {
    parts := parts0;
    reply := [];
    for pi := 0 to |ps|
      invariant (parts, reply) == ProduceParts(parts0, name, ps[..pi])
    {
      var part := ps[pi];
      var log := AppendAll(LogIn(parts, part.id), name, part.body);
      assert ps[..pi + 1][..pi] == ps[..pi];
      parts := parts[part.id := log];
      reply := reply + [Reply(part.id, Int64(|log| - 1))];
    }
    assert ps[..|ps|] == ps;
  }
}
