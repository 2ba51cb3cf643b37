/**
 The consumer of one partition (broker.go, consumer; connection.go, the trim in Fetch) against
 a broker that may answer every fetch differently. The broker is a function of time and of the
 requested offset: every attempt takes one tick, in which finding the leader fails, the request
 fails, or a parsed fetch response comes back. All results are for all brokers.

 `consume` has no limit on its fetches by default, so a call takes a `patience`: it is still
 `Pending` if that many fetches have not ended it.
 */
module Consumers {
  import opened Wire
  import opened MessageSet
  import opened Responses
  import opened Exchange

  // ---------------------------------------------------------------- records and logs

  /** What a message is, apart from the stamps and the checksum its reader puts on it. */
  datatype Record = Record(offset: int64, key: seq<byte>, value: seq<byte>)

  type Log = seq<Record>

  function RecordOf(m: Message): Record {
    Record(m.offset, m.key.Content(), m.value.Content())
  }

  function Records(ms: Msglist): (r: Log)
    ensures |r| == |ms|
    ensures forall i :: 0 <= i < |ms| ==> r[i] == RecordOf(ms[i])
  {
    seq(|ms|, i requires 0 <= i < |ms| => RecordOf(ms[i]))
  }

  /** The message at index i has offset i; no Go slice is longer than this. */
  ghost predicate Dense(log: Log) {
    && |log| < 0x8000_0000_0000_0000
    && forall i :: 0 <= i < |log| ==> log[i].offset == i
  }

  // ---------------------------------------------------------------- the trim

  /** How many messages at the front are below the requested offset. */
  function Leading(o: int64, ms: Msglist): (i: nat)
    ensures i <= |ms|
    ensures forall k :: 0 <= k < i ==> ms[k].offset < o
    ensures i < |ms| ==> ms[i].offset >= o
  {
    if ms == [] || ms[0].offset >= o then 0 else 1 + Leading(o, ms[1..])
  }

  function TrimPart(o: int64, p: Part<Msglist>): Part<Msglist> {
    p.(body := p.body[Leading(o, p.body)..])
  }

  function TrimTopic(os: seq<int64>, t: Topic<Msglist>): Topic<Msglist>
    requires |t.parts| <= |os|
  {
    Topic(t.name, seq(|t.parts|, i requires 0 <= i < |t.parts| => TrimPart(os[i], t.parts[i])))
  }

  /** The response has no more topics, and no topic more partitions, than the request. */
  predicate Within(req: seq<seq<int64>>, ts: seq<Topic<Msglist>>) {
    |ts| <= |req| && forall i :: 0 <= i < |ts| ==> |ts[i].parts| <= |req[i]|
  }

  function TrimTopics(req: seq<seq<int64>>, ts: seq<Topic<Msglist>>): seq<Topic<Msglist>>
    requires Within(req, ts)
  {
    seq(|ts|, i requires 0 <= i < |ts| => TrimTopic(req[i], ts[i]))
  }

  method TrimBody(o: int64, body: Msglist) returns (trimmed: Msglist)
    ensures trimmed == body[Leading(o, body)..]
  {
    var i := 0;
    while i < |body| && body[i].offset < o
      invariant 0 <= i <= |body|
      invariant Leading(o, body) == i + Leading(o, body[i..])
    {
      i := i + 1;
    }
    trimmed := body[i..];
  }

  /**
   The loops at the end of connection.Fetch. `req` holds the requested offsets, topic by topic;
   a response with more topics or partitions than that makes them run off the request.
   */
  method Trim(req: seq<seq<int64>>, resp: seq<Topic<Msglist>>) returns (ok: bool, topics: seq<Topic<Msglist>>)
    ensures ok <==> Within(req, resp)
    ensures ok ==> topics == TrimTopics(req, resp)
  {
    topics := [];
    for ti := 0 to |resp|
      invariant |topics| == ti
      invariant Within(req, resp[..ti]) && topics == TrimTopics(req, resp[..ti])
    {
      if ti >= |req| {
        return false, topics;
      }
      var parts: seq<Part<Msglist>> := [];
      for pi := 0 to |resp[ti].parts|
        invariant |parts| == pi <= |req[ti]|
        invariant forall i :: 0 <= i < pi ==> parts[i] == TrimPart(req[ti][i], resp[ti].parts[i])
      {
        if pi >= |req[ti]| {
          return false, topics;
        }
        var body := TrimBody(req[ti][pi], resp[ti].parts[pi].body);
        parts := parts + [resp[ti].parts[pi].(body := body)];
      }
      topics := topics + [Topic(resp[ti].name, parts)];
      assert topics[ti] == TrimTopic(req[ti], resp[ti]);
    }
    assert resp[..|resp|] == resp;
    ok := true;
  }

  // ---------------------------------------------------------------- fetch

  datatype Conf = Conf(me: Target, retryLimit: int, retryErrLimit: int)

  /** What an attempt made at a time for an offset comes to. */
  type Broker = (nat, int64) -> Answer<Msglist>

  /** What fetch returns; `Crashed` is the panic of the trim. */
  datatype Fetched = Fetched(ms: Msglist, err: Error) | Crashed

  /** A try after which fetch tries again, with the error it remembers. */
  datatype Try = Again(err: Error) | Done(f: Fetched)

  function Attempt(a: Answer<Msglist>, conf: Conf, o: int64): Try {
    match a
    case NoLeader(code) => Again(Net(code))
    case Asked(SendFailed(_, code)) => Again(Net(code))
    case Asked(ParseFailed(_, code)) => Again(Net(code))
    case Asked(Replied(topics)) =>
      if !Within([[o]], topics) then Done(Crashed)
      else
        var p := Find(conf.me, TrimTopics([[o]], topics));
        if p.None? then Done(Fetched([], Incomplete))
        else if Failover(p.value.err) then Again(Fine)
        else Done(Fetched(p.value.body, ErrorOf(p.value.err)))
  }

  /** fetch from time `at` on with `tries` tries left, and the time when it returns. */
  function FetchFrom(b: Broker, conf: Conf, o: int64, tries: nat, at: nat, resErr: Error): (Fetched, nat) {
    if tries == 0 then (Fetched([], resErr), at)
    else
      match Attempt(b(at, o), conf, o)
      case Again(err) => FetchFrom(b, conf, o, tries - 1, at + 1, err)
      case Done(f) => (f, at + 1)
  }

  // ---------------------------------------------------------------- what a fetch returns

  /** A response to a request for one partition has at most one, or the trim runs off the request. */
  ghost predicate Single(ts: seq<Topic<Msglist>>) {
    |ts| <= 1 && forall i :: 0 <= i < |ts| ==> |ts[i].parts| <= 1
  }

  /** No leader, a failed request, or our partition with one of those codes. */
  ghost predicate Retried(a: Answer<Msglist>, me: Target) {
    Said(a) ==> Single(a.reply.topics) && exists p :: Holds(me, a.reply.topics, p) && p.err in MovedOn
  }

  /** A response within the request whose first entry for us, `p`, has none of those codes. */
  ghost predicate Answers(a: Answer<Msglist>, me: Target, p: Part<Msglist>) {
    Said(a) && Single(a.reply.topics) && Holds(me, a.reply.topics, p) && p.err !in MovedOn
  }

  /** `ms` is what `all` holds from the first offset at or above `o` on. */
  ghost predicate FromOffset(ms: Msglist, all: Msglist, o: int64) {
    exists n: nat :: n <= |all| && ms == all[n..]
      && (forall m :: 0 <= m < n ==> all[m].offset < o) && (n < |all| ==> all[n].offset >= o)
  }

  function Failure(a: Answer<Msglist>): Error {
    match a
    case NoLeader(code) => Net(code)
    case Asked(SendFailed(_, code)) => Net(code)
    case Asked(ParseFailed(_, code)) => Net(code)
    case Asked(Replied(_)) => Fine
  }

  /** The trim changes the messages of the one entry and nothing else. */
  lemma TrimmedEntry(me: Target, ts: seq<Topic<Msglist>>, o: int64)
    requires Within([[o]], ts)
    ensures NoEntry(me, TrimTopics([[o]], ts)) <==> NoEntry(me, ts)
    ensures forall p :: Holds(me, ts, p) ==> Holds(me, TrimTopics([[o]], ts), TrimPart(o, p))
  {
    hide Leading;
    var trimmed := TrimTopics([[o]], ts);
    forall p | Holds(me, ts, p) ensures Holds(me, trimmed, TrimPart(o, p)) {
      var i, j :| FirstEntry(me, ts, i, j) && ts[i].parts[j] == p;
      assert FirstEntry(me, trimmed, i, j) && trimmed[i].parts[j] == TrimPart(o, p);
    }
    if !NoEntry(me, ts) {
      var k, l :| 0 <= k < |ts| && 0 <= l < |ts[k].parts|
          && ts[k].name == me.topic && ts[k].parts[l].id == me.partition;
      assert trimmed[k].parts[l].id == me.partition;
    }
    if !NoEntry(me, trimmed) {
      var k, l :| 0 <= k < |trimmed| && 0 <= l < |trimmed[k].parts|
          && trimmed[k].name == me.topic && trimmed[k].parts[l].id == me.partition;
      assert ts[k].parts[l].id == me.partition;
    }
  }

  lemma TrimIsFromOffset(all: Msglist, o: int64)
    ensures FromOffset(all[Leading(o, all)..], all, o)
    ensures forall ms :: FromOffset(ms, all, o) ==> ms == all[Leading(o, all)..]
  {
    hide Leading;
  }

  lemma SingleIsWithin(ts: seq<Topic<Msglist>>, o: int64)
    ensures Within([[o]], ts) <==> Single(ts)
  {
  }

  /** What one answer comes to. */
  lemma AttemptMeans(a: Answer<Msglist>, conf: Conf, o: int64)
    ensures var t := Attempt(a, conf, o);
            && (t.Again? <==> Retried(a, conf.me))
            && (t.Again? ==> t.err == Failure(a))
            && (Said(a) && !Single(a.reply.topics) ==> t == Done(Crashed))
            && (Said(a) && Single(a.reply.topics) && NoEntry(conf.me, a.reply.topics) ==>
                 t == Done(Fetched([], Incomplete)))
            && forall p :: Answers(a, conf.me, p) ==>
                 t.Done? && t.f.Fetched? && FromOffset(t.f.ms, p.body, o)
                 && t.f.err == if p.err == NoErr then Fine else Kafka(p.err)
  {
    if Said(a) {
      var ts := a.reply.topics;
      SingleIsWithin(ts, o);
      if Single(ts) {
        FindsFirst(conf.me, ts);
        var found := Find(conf.me, ts);
        if found.None? {
          AttemptMissing(ts, conf, o);
        } else {
          assert Holds(conf.me, ts, found.value);
          AttemptFound(ts, conf, o, found.value);
          TrimIsFromOffset(found.value.body, o);
        }
        hide Attempt, Find, Holds, NoEntry, FromOffset, Leading, Single, Within;
      }
    }
  }

  lemma AttemptMissing(ts: seq<Topic<Msglist>>, conf: Conf, o: int64)
    requires Single(ts) && NoEntry(conf.me, ts)
    ensures Attempt(Asked(Replied(ts)), conf, o) == Done(Fetched([], Incomplete))
  {
    SingleIsWithin(ts, o);
    TrimmedEntry(conf.me, ts, o);
    FindsFirst(conf.me, TrimTopics([[o]], ts));
    hide Find, NoEntry, Holds, Single, Within, TrimTopics;
  }

  lemma AttemptFound(ts: seq<Topic<Msglist>>, conf: Conf, o: int64, p: Part<Msglist>)
    requires Single(ts) && Holds(conf.me, ts, p)
    ensures Attempt(Asked(Replied(ts)), conf, o) ==
            if p.err in MovedOn then Again(Fine)
            else Done(Fetched(p.body[Leading(o, p.body)..], if p.err == NoErr then Fine else Kafka(p.err)))
  {
    SingleIsWithin(ts, o);
    TrimmedEntry(conf.me, ts, o);
    FindsFirst(conf.me, TrimTopics([[o]], ts));
    hide Find, NoEntry, Holds, Single, Within, TrimTopics, Leading;
  }

  /** Every try of fetch is one after which it tries again. */
  ghost predicate Exhausts(b: Broker, conf: Conf, o: int64, tries: nat, at: nat) {
    forall t :: at <= t < at + tries ==> Retried(b(t, o), conf.me)
  }

  /**
   Running out of tries returns no messages and the error of the last try, which is nil, so
   that the caller sees success, exactly if there was no try at all or the last one was
   answered with a failover code.
   */
  lemma {:induction false} SilentIff(b: Broker, conf: Conf, o: int64, tries: nat, at: nat, resErr: Error)
    requires Exhausts(b, conf, o, tries, at)
    ensures var (f, now) := FetchFrom(b, conf, o, tries, at, resErr);
            && now == at + tries && f.Fetched? && f.ms == []
            && f.err == (if tries == 0 then resErr else Failure(b(at + tries - 1, o)))
            && (f.err == Fine <==> if tries == 0 then resErr == Fine else Said(b(at + tries - 1, o)))
    decreases tries
  {
    if tries > 0 {
      hide Attempt, Retried;
      AttemptMeans(b(at, o), conf, o);
      var first := Attempt(b(at, o), conf, o);
      SilentIff(b, conf, o, tries - 1, at + 1, first.err);
    }
  }

  /** The first try that is not tried again decides. */
  lemma {:induction false} FirstDecides(b: Broker, conf: Conf, o: int64, tries: nat, at: nat, resErr: Error, k: nat)
    requires k < tries && Exhausts(b, conf, o, k, at) && !Retried(b(at + k, o), conf.me)
    ensures Attempt(b(at + k, o), conf, o).Done?
    ensures FetchFrom(b, conf, o, tries, at, resErr) == (Attempt(b(at + k, o), conf, o).f, at + k + 1)
    decreases k
  {
    hide Attempt, Retried;
    AttemptMeans(b(at, o), conf, o);
    if k > 0 {
      FirstDecides(b, conf, o, tries - 1, at + 1, Attempt(b(at, o), conf, o).err, k - 1);
    }
  }

  /**
   If the first try that is not tried again is a response with our partition, fetch returns that
   entry's messages from the requested offset on, with the entry's error.
   */
  lemma FetchReturns(b: Broker, conf: Conf, o: int64, tries: nat, at: nat, resErr: Error, k: nat, p: Part<Msglist>)
    requires k < tries && Exhausts(b, conf, o, k, at) && Answers(b(at + k, o), conf.me, p)
    ensures var (f, now) := FetchFrom(b, conf, o, tries, at, resErr);
            && now == at + k + 1 && f.Fetched? && FromOffset(f.ms, p.body, o)
            && f.err == if p.err == NoErr then Fine else Kafka(p.err)
  {
    AnswersDecides(b(at + k, o), conf.me, p);
    hide *;
    FirstDecides(b, conf, o, tries, at, resErr, k);
    AttemptMeans(b(at + k, o), conf, o);
  }

  lemma AnswersDecides(a: Answer<Msglist>, me: Target, p: Part<Msglist>)
    requires Answers(a, me, p)
    ensures !Retried(a, me)
  {
    if q :| Holds(me, a.reply.topics, q) && q.err in MovedOn {
      OneFirst(me, a.reply.topics, p, q);
    }
  }

  /** A response without our partition is an error, and one beyond the request is the panic of the trim. */
  lemma FetchRefuses(b: Broker, conf: Conf, o: int64, tries: nat, at: nat, resErr: Error, k: nat)
    requires k < tries && Exhausts(b, conf, o, k, at) && Said(b(at + k, o))
    requires var ts := b(at + k, o).reply.topics; Single(ts) ==> NoEntry(conf.me, ts)
    ensures FetchFrom(b, conf, o, tries, at, resErr) ==
            (if Single(b(at + k, o).reply.topics) then Fetched([], Incomplete) else Crashed, at + k + 1)
  {
    NoEntryDecides(b(at + k, o), conf.me);
    hide *;
    FirstDecides(b, conf, o, tries, at, resErr, k);
    AttemptMeans(b(at + k, o), conf, o);
  }

  lemma NoEntryDecides(a: Answer<Msglist>, me: Target)
    requires Said(a) && (Single(a.reply.topics) ==> NoEntry(me, a.reply.topics))
    ensures !Retried(a, me)
  {
  }

  // ---------------------------------------------------------------- consume, Consume, ConsumeBatch

  datatype Outcome = Batch(ms: Msglist) | Failed(err: Error) | Pending | Boom

  function ConsumeFrom(b: Broker, conf: Conf, o: int64, patience: nat, at: nat, retry: nat): (r: (Outcome, nat))
    ensures r.0.Batch? ==> r.0.ms != []
  {
    if patience == 0 then (Pending, at)
    else
      var (f, now) := FetchFrom(b, conf, o, Limit(conf.retryErrLimit), at, Fine);
      if f.Crashed? then (Boom, now)
      else if f.err != Fine then (Failed(f.err), now)
      else if f.ms != [] then (Batch(f.ms), now)
      else if conf.retryLimit != -1 && retry + 1 > conf.retryLimit then (Failed(NoData), now)
      else ConsumeFrom(b, conf, o, patience - 1, now, retry + 1)
  }

  /** How many fetches without messages are followed by another one. */
  ghost predicate Allows(conf: Conf, empty: nat) {
    empty == 0 || conf.retryLimit == -1 || empty <= conf.retryLimit
  }

  /** A fetch from `at` on takes `n` tries and comes back with no messages and no error. */
  ghost predicate Quiet(b: Broker, conf: Conf, o: int64, at: nat, n: nat) {
    || (n == Limit(conf.retryErrLimit) && Exhausts(b, conf, o, n, at) && (n == 0 || Said(b(at + n - 1, o))))
    || (0 < n <= conf.retryErrLimit && Exhausts(b, conf, o, n - 1, at)
         && exists p :: Answers(b(at + n - 1, o), conf.me, p) && p.err == NoErr && AllBelow(p.body, o))
  }

  ghost predicate AllBelow(ms: Msglist, o: int64) {
    forall i :: 0 <= i < |ms| ==> ms[i].offset < o
  }

  /** Such fetches one after the other, with the tries that each of them takes. */
  ghost predicate Waits(b: Broker, conf: Conf, o: int64, at: nat, waits: seq<nat>)
    decreases |waits|
  {
    waits == [] || (Quiet(b, conf, o, at, waits[0]) && Waits(b, conf, o, at + waits[0], waits[1..]))
  }

  function Sum(waits: seq<nat>): nat {
    if waits == [] then 0 else waits[0] + Sum(waits[1..])
  }

  lemma QuietFetch(b: Broker, conf: Conf, o: int64, at: nat, n: nat)
    requires Quiet(b, conf, o, at, n)
    ensures FetchFrom(b, conf, o, Limit(conf.retryErrLimit), at, Fine) == (Fetched([], Fine), at + n)
  {
    if n == Limit(conf.retryErrLimit) && Exhausts(b, conf, o, n, at) && (n == 0 || Said(b(at + n - 1, o))) {
      hide FetchFrom, Exhausts;
      SilentIff(b, conf, o, n, at, Fine);
    } else {
      var p :| Answers(b(at + n - 1, o), conf.me, p) && p.err == NoErr && AllBelow(p.body, o);
      hide FetchFrom, Exhausts, Answers;
      FetchReturns(b, conf, o, Limit(conf.retryErrLimit), at, Fine, n - 1, p);
    }
  }

  lemma FirstWait(b: Broker, conf: Conf, o: int64, at: nat, waits: seq<nat>)
    requires Waits(b, conf, o, at, waits)
    ensures waits == [] ==> Sum(waits) == 0
    ensures waits != [] ==>
      Quiet(b, conf, o, at, waits[0]) && Waits(b, conf, o, at + waits[0], waits[1..])
          && Sum(waits) == waits[0] + Sum(waits[1..])
  {
  }

  lemma AllowsFewer(conf: Conf, retry: nat, waits: seq<nat>)
    requires waits != [] && Allows(conf, retry + |waits|)
    ensures conf.retryLimit == -1 || retry + 1 <= conf.retryLimit
    ensures waits[1..] == [] || Allows(conf, retry + 1 + |waits[1..]|)
  {
  }

  lemma ConsumeStep(b: Broker, conf: Conf, o: int64, patience: nat, at: nat, retry: nat)
    requires patience > 0
    ensures var (f, now) := FetchFrom(b, conf, o, Limit(conf.retryErrLimit), at, Fine);
            && (f == Fetched([], Fine) ==>
                 ConsumeFrom(b, conf, o, patience, at, retry) ==
                 if conf.retryLimit != -1 && retry + 1 > conf.retryLimit then (Failed(NoData), now)
                 else ConsumeFrom(b, conf, o, patience - 1, now, retry + 1))
            && (f.Fetched? && f.err != Fine ==> ConsumeFrom(b, conf, o, patience, at, retry) == (Failed(f.err), now))
            && (f.Fetched? && f.err == Fine && f.ms != [] ==>
                 ConsumeFrom(b, conf, o, patience, at, retry) == (Batch(f.ms), now))
  {
    hide FetchFrom;
  }

  lemma {:induction false} AfterWaits(b: Broker, conf: Conf, o: int64, patience: nat, at: nat, retry: nat,
      waits: seq<nat>)
    requires |waits| <= patience && Waits(b, conf, o, at, waits)
    requires waits == [] || Allows(conf, retry + |waits|)
    ensures ConsumeFrom(b, conf, o, patience, at, retry) ==
            ConsumeFrom(b, conf, o, patience - |waits|, at + Sum(waits), retry + |waits|)
    decreases |waits|
  {
    hide *;
    FirstWait(b, conf, o, at, waits);
    if waits != [] {
      QuietFetch(b, conf, o, at, waits[0]);
      AllowsFewer(conf, retry, waits);
      ConsumeStep(b, conf, o, patience, at, retry);
      AfterWaits(b, conf, o, patience - 1, at + waits[0], retry + 1, waits[1..]);
    }
  }

  /**
   After any fetches that brought nothing and that the limit allows, and any tries that are tried
   again, a response with our partition ends consume: with its messages from the cursor on, or
   with its error.
   */
  lemma ConsumeReturns(b: Broker, conf: Conf, o: int64, patience: nat, at: nat, waits: seq<nat>, k: nat,
      p: Part<Msglist>)
    requires |waits| < patience && Allows(conf, |waits|) && Waits(b, conf, o, at, waits)
    requires var t := at + Sum(waits);
             k < conf.retryErrLimit && Exhausts(b, conf, o, k, t) && Answers(b(t + k, o), conf.me, p)
    ensures var (r, now) := ConsumeFrom(b, conf, o, patience, at, 0);
            && (p.err != NoErr ==> r == Failed(Kafka(p.err)))
            && (p.err == NoErr && !AllBelow(p.body, o) ==> r.Batch? && FromOffset(r.ms, p.body, o))
            && (p.err != NoErr || !AllBelow(p.body, o) ==> now == at + Sum(waits) + k + 1)
  {
    hide *;
    AfterWaits(b, conf, o, patience, at, 0, waits);
    ConsumeStep(b, conf, o, patience - |waits|, at + Sum(waits), |waits|);
    LimitIs(conf.retryErrLimit);
    FetchReturns(b, conf, o, Limit(conf.retryErrLimit), at + Sum(waits), Fine, k, p);
    var f := FetchFrom(b, conf, o, Limit(conf.retryErrLimit), at + Sum(waits), Fine).0;
    if f.ms == [] {
      NothingFrom(p.body, o);
    }
  }

  lemma NothingFrom(all: Msglist, o: int64)
    requires FromOffset([], all, o)
    ensures AllBelow(all, o)
  {
  }

  /** One fetch without messages more than the limit allows is the no-data error. */
  lemma ConsumeGivesUp(b: Broker, conf: Conf, o: int64, patience: nat, at: nat, waits: seq<nat>)
    requires conf.retryLimit != -1 && Waits(b, conf, o, at, waits)
    requires |waits| == (if conf.retryLimit < 0 then 1 else conf.retryLimit + 1) && |waits| <= patience
    ensures ConsumeFrom(b, conf, o, patience, at, 0) == (Failed(NoData), at + Sum(waits))
  {
    hide *;
    var m := |waits| - 1;
    var first := waits[..m];
    assert |first| == m;
    SplitWaits(b, conf, o, at, waits, m);
    AllowsUpTo(conf, m);
    AfterWaits(b, conf, o, patience, at, 0, first);
    ConsumeStep(b, conf, o, patience - m, at + Sum(first), m);
    QuietFetch(b, conf, o, at + Sum(first), waits[m]);
  }

  lemma AllowsUpTo(conf: Conf, m: nat)
    requires m == 0 || m <= conf.retryLimit
    ensures Allows(conf, m)
  {
  }

  lemma LimitIs(n: int)
    ensures n >= 0 ==> Limit(n) == n
  {
  }

  lemma {:induction false} SplitWaits(b: Broker, conf: Conf, o: int64, at: nat, waits: seq<nat>, m: nat)
    requires m + 1 == |waits| && Waits(b, conf, o, at, waits)
    ensures Waits(b, conf, o, at, waits[..m]) && Sum(waits) == Sum(waits[..m]) + waits[m]
    ensures Quiet(b, conf, o, at + Sum(waits[..m]), waits[m])
    decreases m
  {
    hide Quiet;
    if m > 0 {
      SplitWaits(b, conf, o, at + waits[0], waits[1..], m - 1);
      assert waits[..m][0] == waits[0] && waits[..m][1..] == waits[1..][..m - 1];
    } else {
      assert waits[1..] == [] && waits[..0] == [];
    }
  }

  datatype State = State(offset: int64, msgbuf: Msglist)

  /** The offset after `o`, as a 64-bit integer. */
  function Succ(o: int64): int64 {
    if o == 0x7fff_ffff_ffff_ffff then -0x8000_0000_0000_0000 else o + 1
  }

  /** Consume. */
  function One(b: Broker, conf: Conf, s: State, patience: nat, at: nat): (Outcome, State, nat) {
    if s.msgbuf != [] then
      (Batch([s.msgbuf[0]]), State(Succ(s.msgbuf[0].offset), s.msgbuf[1..]), at)
    else
      var (r, now) := ConsumeFrom(b, conf, s.offset, patience, at, 0);
      if r.Batch? then (Batch([r.ms[0]]), State(Succ(r.ms[0].offset), r.ms[1..]), now) else (r, s, now)
  }

  /** ConsumeBatch: it does not look at the buffer. */
  function Many(b: Broker, conf: Conf, s: State, patience: nat, at: nat): (Outcome, State, nat) {
    var (r, now) := ConsumeFrom(b, conf, s.offset, patience, at, 0);
    if r.Batch? then (r, State(Succ(r.ms[|r.ms| - 1].offset), s.msgbuf), now) else (r, s, now)
  }

  // ---------------------------------------------------------------- the class

  class Consumer {
    const conf: Conf
    var offset: int64
    var msgbuf: Msglist

    function Now(): State
      reads this
    {
      State(offset, msgbuf)
    }

    constructor (conf: Conf, offset: int64)
      ensures this.conf == conf && Now() == State(offset, [])
    {
      this.conf := conf;
      this.offset := offset;
      this.msgbuf := [];
    }

    /** fetch: what it returns, what it does to which connection, and that it keeps none. */
    method Fetch(conns: Ledger, b: Broker, at: nat) returns (f: Fetched, now: nat, ghost log: seq<seq<Event>>)
      requires conns.Valid()
      modifies conns
      ensures conns.Valid() && conns.held == old(conns.held)
      ensures Told(old(conns.events), conns.events, log)
      ensures now == at + |log| && forall i :: 0 <= i < |log| ==> LeaderEvents(log[i], b(at + i, offset), AnyKind)
      ensures (f, now) == FetchFrom(b, conf, offset, Limit(conf.retryErrLimit), at, Fine)
    {
      hide Owing, Ledger.Valid, Attempt, Told, Flatten, LeaderEvents;
      ghost var outer := conns.held;
      OwesNothing(outer);
      var deferred: seq<Conn> := [];
      var resErr := Fine;
      var try := 0;
      now, log := at, [];
      NothingTold(conns.events);
      while try < conf.retryErrLimit
        invariant 0 <= try <= Limit(conf.retryErrLimit)
        invariant conns.Valid() && Owing(conns.held, deferred, outer)
        invariant conns.events == old(conns.events) + Flatten(log)
        invariant now == at + |log| && forall i :: 0 <= i < |log| ==> LeaderEvents(log[i], b(at + i, offset), AnyKind)
        invariant FetchFrom(b, conf, offset, Limit(conf.retryErrLimit), at, Fine)
               == FetchFrom(b, conf, offset, Limit(conf.retryErrLimit) - try, now, resErr)
      {
        var t;
        ghost var told;
        t, deferred, told := TryOnce(conns, b(now, offset), deferred, outer);
        FlattenMore(old(conns.events), log, told);
        log := log + [told];
        now := now + 1;
        try := try + 1;
        match t {
          case Again(err) => resErr := err;
          case Done(g) =>
            ghost var mid := conns.events;
            conns.RunDeferred(deferred, outer);
            ToldMore(old(conns.events), mid, conns.events, log);
            return g, now, log;
        }
      }
      ghost var mid := conns.events;
      conns.RunDeferred(deferred, outer);
      ToldMore(old(conns.events), mid, conns.events, log);
      f := Fetched([], resErr);
    }

    /** The body of fetch's loop: one attempt. After any error fetch closes the connection. */
    method TryOnce(conns: Ledger, answer: Answer<Msglist>, deferred: seq<Conn>, ghost outer: set<Conn>)
      returns (t: Try, more: seq<Conn>, ghost told: seq<Event>)
      requires conns.Valid() && Owing(conns.held, deferred, outer)
      modifies conns
      ensures conns.Valid() && Owing(conns.held, more, outer)
      ensures conns.events == old(conns.events) + told && LeaderEvents(told, answer, AnyKind)
      ensures t == Attempt(answer, conf, offset)
    {
      hide Owing, Ledger.Valid, AskedOnce;
      more, told := deferred, [];
      if answer.NoLeader? {
        return Again(Net(answer.code)), more, told;
      }
      var reply := answer.reply;
      more, told := conns.Ask(reply, AnyKind, deferred, outer);
      if !reply.Replied? {
        return Again(Net(reply.code)), more, told;
      }
      var ok, topics := Trim([[offset]], reply.topics);
      if !ok {
        return Done(Crashed), more, told;
      }
      var p := Pick(conf.me, topics);
      if p.None? {
        return Done(Fetched([], Incomplete)), more, told;
      }
      if Failover(p.value.err) {
        return Again(Fine), more, told;
      }
      return Done(Fetched(p.value.body, ErrorOf(p.value.err))), more, told;
    }

    method FetchBatch(conns: Ledger, b: Broker, patience: nat, at: nat) returns (r: Outcome, now: nat)
      requires conns.Valid()
      modifies conns
      ensures conns.Valid() && conns.held == old(conns.held)
      ensures (r, now) == ConsumeFrom(b, conf, offset, patience, at, 0)
    {
      var retry := 0;
      now := at;
      while retry < patience
        invariant retry <= patience
        invariant conns.Valid() && conns.held == old(conns.held)
        invariant ConsumeFrom(b, conf, offset, patience, at, 0) ==
            ConsumeFrom(b, conf, offset, patience - retry, now, retry)
      {
        var f;
        ghost var log;
        f, now, log := Fetch(conns, b, now);
        if f.Crashed? {
          return Boom, now;
        }
        if f.err != Fine {
          return Failed(f.err), now;
        }
        if |f.ms| != 0 {
          return Batch(f.ms), now;
        }
        retry := retry + 1;
        if conf.retryLimit != -1 && retry > conf.retryLimit {
          return Failed(NoData), now;
        }
      }
      r := Pending;
    }

    method Consume(conns: Ledger, b: Broker, patience: nat, at: nat) returns (r: Outcome, now: nat)
      requires conns.Valid()
      modifies this, conns
      ensures conns.Valid() && conns.held == old(conns.held)
      ensures (r, Now(), now) == One(b, conf, old(Now()), patience, at)
    {
      now := at;
      if |msgbuf| == 0 {
        r, now := FetchBatch(conns, b, patience, at);
        if !r.Batch? {
          return;
        }
        msgbuf := r.ms;
      }
      var msg := msgbuf[0];
      msgbuf := msgbuf[1..];
      offset := Succ(msg.offset);
      r := Batch([msg]);
    }

    method ConsumeBatch(conns: Ledger, b: Broker, patience: nat, at: nat) returns (r: Outcome, now: nat)
      requires conns.Valid()
      modifies this, conns
      ensures conns.Valid() && conns.held == old(conns.held)
      ensures (r, Now(), now) == Many(b, conf, old(Now()), patience, at)
    {
      r, now := FetchBatch(conns, b, patience, at);
      if r.Batch? {
        offset := Succ(r.ms[|r.ms| - 1].offset);
      }
    }

    /** `latest` is the outcome of asking the leader for the latest offset. */
    method SeekToLatest(latest: Option<int64>) returns (ok: bool)
      modifies this
      ensures ok == latest.Some?
      ensures Now() == if ok then State(latest.value, []) else old(Now())
    {
      if latest.None? {
        return false;
      }
      offset := latest.value;
      msgbuf := [];
      ok := true;
    }
  }
}
