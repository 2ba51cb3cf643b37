/**
 What a consumer delivers while the partition's log only grows: exactly the log from where it
 starts, message by message, for every broker that answers each fetch with some stretch of the
 log that does not begin above the requested offset, with nothing, or with an error.
 */
module Delivery {
  import opened Wire
  import opened MessageSet
  import opened Responses
  import opened Exchange
  import opened Consumers

  // ---------------------------------------------------------------- honest brokers

  /** The log at every time. */
  type History = nat -> Log

  ghost predicate Grows(logs: History) {
    && (forall t :: Dense(logs(t)))
    && (forall t, u :: t <= u ==> logs(t) <= logs(u))
  }

  /** A stretch of the log that begins at or below `o`; it may end below `o`, too. */
  ghost predicate Stretch(ms: Msglist, log: Log, o: int64) {
    ms != [] ==>
      && 0 <= ms[0].offset <= o
      && ms[0].offset + |ms| <= |log|
      && Records(ms) == log[ms[0].offset..ms[0].offset + |ms|]
  }

  ghost predicate HonestTopics(ts: seq<Topic<Msglist>>, log: Log, conf: Conf, o: int64) {
    forall i, j ::
      && 0 <= i < |ts| && 0 <= j < |ts[i].parts|
      && ts[i].name == conf.me.topic && ts[i].parts[j].id == conf.me.partition && ts[i].parts[j].err == NoErr ==>
      Stretch(ts[i].parts[j].body, log, o)
  }

  ghost predicate Honest(b: Broker, logs: History, conf: Conf) {
    forall t, o :: Said(b(t, o)) ==> HonestTopics(b(t, o).reply.topics, logs(t), conf, o)
  }

  // ---------------------------------------------------------------- one fetch

  /** Exactly the log from `o` on, as far as it goes. */
  ghost predicate From(ms: Msglist, log: Log, o: int64) {
    ms != [] ==> 0 <= o && o + |ms| <= |log| && Records(ms) == log[o..o + |ms|]
  }

  lemma OffsetsOfStretch(ms: Msglist, log: Log, o: int64, k: nat)
    requires Dense(log) && Stretch(ms, log, o) && k < |ms|
    ensures ms[k].offset == ms[0].offset + k
  {
    assert Records(ms)[k] == log[ms[0].offset..ms[0].offset + |ms|][k] == log[ms[0].offset + k];
  }

  lemma DropOfSlice(ms: Msglist, log: Log, f: nat, i: nat, o: int64)
    requires i <= |ms| && f + i == o && f + |ms| <= |log| && Records(ms) == log[f..f + |ms|]
    ensures From(ms[i..], log, o)
  {
    assert Records(ms[i..]) == Records(ms)[i..];
    assert log[f..f + |ms|][i..] == log[f + i..f + |ms|];
  }

  /** Where the trim stops, if it stops inside a stretch. */
  lemma TrimStops(ms: Msglist, log: Log, o: int64)
    requires Dense(log) && Stretch(ms, log, o) && Leading(o, ms) < |ms|
    ensures ms[0].offset + Leading(o, ms) == o
  {
    var i := Leading(o, ms);
    assert ms[i].offset >= o && (i > 0 ==> ms[i - 1].offset < o);
    hide Stretch, Dense, Leading, Records;
    OffsetsOfStretch(ms, log, o, i);
    if i > 0 {
      OffsetsOfStretch(ms, log, o, i - 1);
    } else {
      StretchStarts(ms, log, o);
    }
  }

  lemma StretchStarts(ms: Msglist, log: Log, o: int64)
    requires Stretch(ms, log, o) && ms != []
    ensures 0 <= ms[0].offset <= o && ms[0].offset + |ms| <= |log|
    ensures Records(ms) == log[ms[0].offset..ms[0].offset + |ms|]
  {
  }

  /** The trim turns any stretch into the log from the requested offset. */
  lemma TrimIsFrom(ms: Msglist, log: Log, o: int64)
    requires Dense(log) && Stretch(ms, log, o)
    ensures From(ms[Leading(o, ms)..], log, o)
  {
    if Leading(o, ms) < |ms| {
      hide *;
      TrimStops(ms, log, o);
      StretchStarts(ms, log, o);
      DropOfSlice(ms, log, ms[0].offset, Leading(o, ms), o);
    }
  }

  lemma AttemptIsFrom(a: Answer<Msglist>, log: Log, conf: Conf, o: int64)
    requires Dense(log) && (Said(a) ==> HonestTopics(a.reply.topics, log, conf, o))
    ensures var t := Attempt(a, conf, o);
            t.Done? && t.f.Fetched? && t.f.err == Fine ==> From(t.f.ms, log, o)
  {
    var t := Attempt(a, conf, o);
    hide Attempt, Dense, Records, Stretch, From, FromOffset, Find;
    AttemptMeans(a, conf, o);
    if t.Done? && t.f.Fetched? && t.f.err == Fine {
      var ts := a.reply.topics;
      FindsFirst(conf.me, ts);
      var p := Find(conf.me, ts).value;
      assert Answers(a, conf.me, p);
      TrimIsFromOffset(p.body, o);
      TrimIsFrom(p.body, log, o);
    }
  }

  lemma StillFrom(ms: Msglist, logs: History, t: nat, u: nat, o: int64)
    requires Grows(logs) && t <= u && From(ms, logs(t), o)
    ensures From(ms, logs(u), o)
  {
    assert logs(t) <= logs(u);
  }

  lemma {:induction false} FetchIsFrom(b: Broker, logs: History, conf: Conf, o: int64, tries: nat, at: nat,
      resErr: Error)
    requires Grows(logs) && Honest(b, logs, conf)
    ensures var (f, now) := FetchFrom(b, conf, o, tries, at, resErr);
            at <= now && (f.Fetched? && f.err == Fine ==> From(f.ms, logs(now), o))
    decreases tries
  {
    if tries > 0 {
      hide Attempt, From, HonestTopics, Dense;
      AttemptIsFrom(b(at, o), logs(at), conf, o);
      match Attempt(b(at, o), conf, o)
      case Again(err) =>
        FetchIsFrom(b, logs, conf, o, tries - 1, at + 1, err);
      case Done(f) =>
        if f.Fetched? && f.err == Fine {
          StillFrom(f.ms, logs, at, at + 1, o);
        }
    } else {
      assert From([], logs(at), o);
    }
  }

  lemma {:induction false} ConsumeIsFrom(b: Broker, logs: History, conf: Conf, o: int64, patience: nat, at: nat,
      retry: nat)
    requires Grows(logs) && Honest(b, logs, conf)
    ensures var (r, now) := ConsumeFrom(b, conf, o, patience, at, retry);
            at <= now && (r.Batch? ==> From(r.ms, logs(now), o))
    decreases patience
  {
    if patience > 0 {
      hide FetchFrom, From, Honest;
      FetchIsFrom(b, logs, conf, o, Limit(conf.retryErrLimit), at, Fine);
      var (f, now) := FetchFrom(b, conf, o, Limit(conf.retryErrLimit), at, Fine);
      if f.Fetched? && f.err == Fine && f.ms == [] && !(conf.retryLimit != -1 && retry + 1 > conf.retryLimit) {
        ConsumeIsFrom(b, logs, conf, o, patience - 1, now, retry + 1);
      }
    }
  }

  // ---------------------------------------------------------------- one call

  /** Buffered messages are a stretch of the log that starts no later than the cursor. */
  ghost predicate Sound(s: State, log: Log) {
    s.offset >= 0 && Stretch(s.msgbuf, log, s.offset)
  }

  /** The buffer does not start at the cursor. */
  predicate Stale(s: State) {
    s.msgbuf != [] && s.msgbuf[0].offset != s.offset
  }

  lemma StillSound(s: State, logs: History, t: nat, u: nat)
    requires Grows(logs) && t <= u && Sound(s, logs(t))
    ensures Sound(s, logs(u))
  {
    assert logs(t) <= logs(u);
  }

  /** After the first message of a buffer is taken, the buffer starts at the cursor again. */
  lemma TakeFirst(ms: Msglist, log: Log, o: int64)
    requires Dense(log) && Stretch(ms, log, o) && ms != []
    ensures var s := State(Succ(ms[0].offset), ms[1..]);
            && Sound(s, log) && !Stale(s) && s.offset == ms[0].offset + 1
    ensures Records([ms[0]]) == log[ms[0].offset..ms[0].offset + 1]
  {
    assert Records(ms)[0] == log[ms[0].offset];
    if |ms| > 1 {
      OffsetsOfStretch(ms, log, o, 1);
      assert Records(ms[1..]) == Records(ms)[1..];
    }
  }

  lemma FromIsStretch(ms: Msglist, log: Log, o: int64)
    requires Dense(log) && From(ms, log, o)
    ensures Stretch(ms, log, o)
    ensures ms != [] ==> ms[0].offset == o && ms[|ms| - 1].offset == o + |ms| - 1
  {
    if ms != [] {
      assert Records(ms)[0] == log[o];
      assert Records(ms)[|ms| - 1] == log[o + |ms| - 1];
    }
  }

  /** Consume delivers the next record of the log and moves past it, or leaves the cursor. */
  lemma OneDelivers(b: Broker, logs: History, conf: Conf, s: State, patience: nat, at: nat)
    requires Grows(logs) && Honest(b, logs, conf)
    requires Sound(s, logs(at)) && !Stale(s)
    ensures var (r, s', now) := One(b, conf, s, patience, at);
            && at <= now && Sound(s', logs(now)) && !Stale(s')
            && (r.Batch? ==>
                 && |r.ms| == 1 && s'.offset == s.offset + 1 <= |logs(now)|
                 && Records(r.ms) == logs(now)[s.offset..s.offset + 1])
            && (!r.Batch? ==> s'.offset == s.offset)
            && (s.msgbuf != [] ==> r.Batch? && now == at && s'.msgbuf == s.msgbuf[1..])
  {
    hide ConsumeFrom, Honest;
    if s.msgbuf != [] {
      TakeFirst(s.msgbuf, logs(at), s.offset);
    } else {
      ConsumeIsFrom(b, logs, conf, s.offset, patience, at, 0);
      var (r, now) := ConsumeFrom(b, conf, s.offset, patience, at, 0);
      if r.Batch? {
        FromIsStretch(r.ms, logs(now), s.offset);
        TakeFirst(r.ms, logs(now), s.offset);
      }
    }
  }

  /** ConsumeBatch delivers the next records of the log, whatever is in the buffer. */
  lemma ManyDelivers(b: Broker, logs: History, conf: Conf, s: State, patience: nat, at: nat)
    requires Grows(logs) && Honest(b, logs, conf)
    requires Sound(s, logs(at))
    ensures var (r, s', now) := Many(b, conf, s, patience, at);
            && at <= now && Sound(s', logs(now)) && s'.msgbuf == s.msgbuf
            && (r.Batch? ==>
                 && r.ms != [] && s'.offset == s.offset + |r.ms| <= |logs(now)|
                 && Records(r.ms) == logs(now)[s.offset..s.offset + |r.ms|])
            && (!r.Batch? ==> s'.offset == s.offset)
  {
    hide ConsumeFrom, Honest;
    ConsumeIsFrom(b, logs, conf, s.offset, patience, at, 0);
    var (r, now) := ConsumeFrom(b, conf, s.offset, patience, at, 0);
    StillSound(s, logs, at, now);
    if r.Batch? {
      FromIsStretch(r.ms, logs(now), s.offset);
    }
  }

  // ---------------------------------------------------------------- records that are there are delivered

  /** A stretch that holds the record at the cursor: the trim leaves that record and all behind it. */
  lemma TrimReaches(all: Msglist, ms: Msglist, log: Log, o: int64)
    requires Dense(log) && Stretch(all, log, o) && all != [] && o < all[0].offset + |all| && FromOffset(ms, all, o)
    ensures !AllBelow(all, o) && ms != [] && ms[0].offset == o && ms[|ms| - 1].offset == o + |ms| - 1
    ensures 0 <= o && o + |ms| == all[0].offset + |all| <= |log| && Records(ms) == log[o..o + |ms|]
  {
    hide *;
    var i := Leading(o, all);
    OffsetsOfStretch(all, log, o, |all| - 1);
    LastIsAbove(all, o);
    TrimIsFromOffset(all, o);
    TrimIsFrom(all, log, o);
    TrimStops(all, log, o);
    FromIsStretch(ms, log, o);
    FromRecords(ms, log, o);
  }

  lemma LastIsAbove(all: Msglist, o: int64)
    requires all != [] && all[|all| - 1].offset >= o
    ensures Leading(o, all) < |all| && !AllBelow(all, o)
  {
  }

  lemma FromRecords(ms: Msglist, log: Log, o: int64)
    requires From(ms, log, o) && ms != []
    ensures 0 <= o && o + |ms| <= |log| && Records(ms) == log[o..o + |ms|]
  {
  }

  /**
   Whatever fetches have come back empty before, as far as the limit allows them, and whatever
   tries have failed: once a try is answered with a stretch of the log that holds the record at the
   cursor, Consume returns that record and buffers the rest of the stretch, and ConsumeBatch
   returns all of it from the cursor on.
   */
  lemma RecordIsDelivered(b: Broker, log: Log, conf: Conf, s: State, patience: nat, at: nat, waits: seq<nat>, k: nat,
      p: Part<Msglist>)
    requires |waits| < patience && Allows(conf, |waits|) && Waits(b, conf, s.offset, at, waits)
    requires var t := at + Sum(waits);
             k < conf.retryErrLimit && Exhausts(b, conf, s.offset, k, t) && Answers(b(t + k, s.offset), conf.me, p)
    requires Dense(log) && Stretch(p.body, log, s.offset) && p.err == NoErr
    requires p.body != [] && s.offset < p.body[0].offset + |p.body|
    ensures var end, over := p.body[0].offset + |p.body|, at + Sum(waits) + k + 1;
            && (s.msgbuf == [] ==>
                 var (r, s', now) := One(b, conf, s, patience, at);
                 && now == over && r.Batch? && Records(r.ms) == [log[s.offset]]
                 && s'.offset == s.offset + 1 && Records(s'.msgbuf) == log[s.offset + 1..end])
            && var (r, s', now) := Many(b, conf, s, patience, at);
               && now == over && r.Batch? && Records(r.ms) == log[s.offset..end]
               && s'.offset == end && s'.msgbuf == s.msgbuf
  {
    hide *;
    var o := s.offset;
    ConsumeReturns(b, conf, o, patience, at, waits, k, p);
    var ms := p.body[Leading(o, p.body)..];
    TrimIsFromOffset(p.body, o);
    TrimReaches(p.body, ms, log, o);
    DenseLimit(log);
    RecordsSplit(ms, log, o);
    CallsOfBatch(b, conf, s, patience, at, ms, at + Sum(waits) + k + 1);
    SmallSucc(o);
    SmallSucc(o + |ms| - 1);
  }

  /** A broker that answers every fetch with all of the log. */
  function Steady(conf: Conf, ms: Msglist): Broker {
    (t: nat, o: int64) => Asked(Replied([Topic(conf.me.topic, [Part(conf.me.partition, NoErr, 0, ms)])]))
  }

  /** From such a broker a consumer gets each record at its first try. */
  lemma SteadyDelivers(conf: Conf, ms: Msglist, o: int64, at: nat)
    requires conf.retryErrLimit > 0 && Dense(Records(ms)) && 0 <= o < |ms|
    ensures var (r, s, now) := One(Steady(conf, ms), conf, State(o, []), 1, at);
            now == at + 1 && r.Batch? && Records(r.ms) == [Records(ms)[o]] && s.offset == o + 1
  {
    var b, p := Steady(conf, ms), Part(conf.me.partition, NoErr, 0, ms);
    SteadyAnswers(conf, ms, at, o);
    WholeStretch(ms, o);
    NoWaits(b, conf, o, at);
    hide *;
    RecordIsDelivered(b, Records(ms), conf, State(o, []), 1, at, [], 0, p);
  }

  lemma SteadyAnswers(conf: Conf, ms: Msglist, t: nat, o: int64)
    ensures Answers(Steady(conf, ms)(t, o), conf.me, Part(conf.me.partition, NoErr, 0, ms))
  {
    var ts := [Topic(conf.me.topic, [Part(conf.me.partition, NoErr, 0, ms)])];
    assert FirstEntry(conf.me, ts, 0, 0);
  }

  lemma WholeStretch(ms: Msglist, o: int64)
    requires Dense(Records(ms)) && 0 <= o < |ms|
    ensures Stretch(ms, Records(ms), o) && ms[0].offset == 0
  {
    assert Records(ms)[0].offset == 0;
    assert Records(ms)[0..|ms|] == Records(ms);
  }

  lemma NoWaits(b: Broker, conf: Conf, o: int64, at: nat)
    ensures Waits(b, conf, o, at, []) && Sum([]) == 0 && Allows(conf, 0) && Exhausts(b, conf, o, 0, at)
  {
  }

  lemma CallsOfBatch(b: Broker, conf: Conf, s: State, patience: nat, at: nat, ms: Msglist, now: nat)
    requires ConsumeFrom(b, conf, s.offset, patience, at, 0) == (Batch(ms), now) && ms != []
    ensures s.msgbuf == [] ==>
      One(b, conf, s, patience, at) == (Batch([ms[0]]), State(Succ(ms[0].offset), ms[1..]), now)
    ensures Many(b, conf, s, patience, at) == (Batch(ms), State(Succ(ms[|ms| - 1].offset), s.msgbuf), now)
  {
    hide ConsumeFrom;
  }

  lemma SmallSucc(o: int64)
    ensures o < 0x7fff_ffff_ffff_ffff ==> Succ(o) == o + 1
    ensures o == 0x7fff_ffff_ffff_ffff ==> Succ(o) == -0x8000_0000_0000_0000
  {
  }

  lemma DenseLimit(log: Log)
    requires Dense(log)
    ensures |log| < 0x8000_0000_0000_0000
  {
  }

  lemma RecordsSplit(ms: Msglist, log: Log, o: int64)
    requires ms != [] && 0 <= o && o + |ms| <= |log| && Records(ms) == log[o..o + |ms|]
    ensures Records([ms[0]]) == [log[o]] && Records(ms[1..]) == log[o + 1..o + |ms|]
  {
    assert Records(ms)[0] == log[o];
    assert Records(ms[1..]) == Records(ms)[1..];
  }

  /** A successful ConsumeBatch leaves a state fit for Consume exactly if nothing was buffered. */
  lemma MixingIff(b: Broker, logs: History, conf: Conf, s: State, patience: nat, at: nat)
    requires Grows(logs) && Honest(b, logs, conf)
    requires Sound(s, logs(at))
    ensures var (r, s', now) := Many(b, conf, s, patience, at);
            r.Batch? ==> (Stale(s') <==> s.msgbuf != [])
  {
    hide Many, Honest;
    ManyDelivers(b, logs, conf, s, patience, at);
  }

  /** Consume in a stale state needs no fetch: it hands out an old record again, and turns the cursor back. */
  lemma StaleRedelivers(b: Broker, logs: History, conf: Conf, s: State, patience: nat, at: nat)
    requires Grows(logs) && Sound(s, logs(at)) && Stale(s)
    ensures var (r, s', now) := One(b, conf, s, patience, at);
            && now == at && r.Batch? && |r.ms| == 1 && r.ms[0].offset < s.offset
            && s'.offset == r.ms[0].offset + 1 && Records(r.ms)[0] == logs(at)[r.ms[0].offset]
            && Sound(s', logs(at)) && !Stale(s')
  {
    TakeFirst(s.msgbuf, logs(at), s.offset);
    assert Records([s.msgbuf[0]])[0] == logs(at)[s.msgbuf[0].offset..s.msgbuf[0].offset + 1][0];
  }

  // ---------------------------------------------------------------- runs of calls

  datatype Call = ConsumeOne(patience: nat) | ConsumeMany(patience: nat)

  function Do(b: Broker, conf: Conf, s: State, call: Call, at: nat): (Outcome, State, nat) {
    match call
    case ConsumeOne(patience) => One(b, conf, s, patience, at)
    case ConsumeMany(patience) => Many(b, conf, s, patience, at)
  }

  function Delivered(r: Outcome): Msglist {
    if r.Batch? then r.ms else []
  }

  datatype Ran = Ran(ms: Msglist, s: State, now: nat)

  /** The calls one after the other, up to one that has not returned or has panicked. */
  function Run(b: Broker, conf: Conf, s: State, calls: seq<Call>, at: nat): Ran
    decreases |calls|
  {
    if calls == [] then Ran([], s, at)
    else
      var (r, s', now) := Do(b, conf, s, calls[0], at);
      if r.Pending? || r.Boom? then Ran([], s', now)
      else
        var more := Run(b, conf, s', calls[1..], now);
        Ran(Delivered(r) + more.ms, more.s, more.now)
  }

  /** No Consume is called in a stale state. */
  predicate Careful(b: Broker, conf: Conf, s: State, calls: seq<Call>, at: nat)
    decreases |calls|
  {
    if calls == [] then true
    else if calls[0].ConsumeOne? && Stale(s) then false
    else
      var (r, s', now) := Do(b, conf, s, calls[0], at);
      r.Pending? || r.Boom? || Careful(b, conf, s', calls[1..], now)
  }

  /** Exactly the log from `o` on: no gap, no repetition, no reordering. */
  ghost predicate InOrder(ms: Msglist, log: Log, o: int64) {
    o >= 0 && (ms == [] || (o + |ms| <= |log| && Records(ms) == log[o..o + |ms|]))
  }

  lemma RecordsJoin(a: Msglist, b: Msglist)
    ensures Records(a + b) == Records(a) + Records(b)
  {
  }

  lemma SlicesJoin(log: Log, i: nat, j: nat, k: nat)
    requires i <= j <= k <= |log|
    ensures log[i..j] + log[j..k] == log[i..k]
  {
  }

  lemma LogSlice(log0: Log, log: Log, i: nat, j: nat)
    requires i <= j <= |log0| && log0 <= log
    ensures log0[i..j] == log[i..j]
  {
  }

  lemma InOrderSplits(first: Msglist, more: Msglist, log0: Log, log: Log, o: int64, o': int64)
    requires InOrder(first, log0, o) && log0 <= log && o' == o + |first|
    ensures InOrder(first + more, log, o) <==> InOrder(more, log, o')
  {
    hide Records;
    if first == [] {
      assert first + more == more;
    } else if more == [] {
      assert first + more == first;
      LogSlice(log0, log, o, o');
    } else if o' + |more| <= |log| {
      RecordsJoin(first, more);
      LogSlice(log0, log, o, o');
      SlicesJoin(log, o, o', o' + |more|);
      PairsEqual(Records(first), Records(more), log[o..o'], log[o'..o' + |more|]);
    }
  }

  lemma PairsEqual(a: Log, b: Log, c: Log, d: Log)
    requires a == c
    ensures a + b == c + d <==> b == d
  {
    assert (a + b)[|a|..] == b && (c + d)[|c|..] == d;
  }

  /** One call, careful or not. */
  lemma CallDelivers(b: Broker, logs: History, conf: Conf, s: State, call: Call, at: nat)
    requires Grows(logs) && Honest(b, logs, conf) && Sound(s, logs(at))
    ensures var (r, s', now) := Do(b, conf, s, call, at);
            && at <= now && Sound(s', logs(now))
            && if call.ConsumeOne? && Stale(s) then r.Batch? && r.ms != [] && r.ms[0].offset < s.offset
               else InOrder(Delivered(r), logs(now), s.offset) && s'.offset == s.offset + |Delivered(r)|
  {
    hide One, Many, Honest;
    match call
    case ConsumeOne(patience) =>
      if Stale(s) {
        StaleRedelivers(b, logs, conf, s, patience, at);
      } else {
        OneDelivers(b, logs, conf, s, patience, at);
      }
    case ConsumeMany(patience) =>
      ManyDelivers(b, logs, conf, s, patience, at);
  }

  lemma {:induction false} RunMoves(b: Broker, logs: History, conf: Conf, s: State, calls: seq<Call>, at: nat)
    requires Grows(logs) && Honest(b, logs, conf) && Sound(s, logs(at))
    ensures at <= Run(b, conf, s, calls, at).now
    decreases |calls|
  {
    if calls != [] {
      hide Do, Honest, Sound;
      CallDelivers(b, logs, conf, s, calls[0], at);
      var (r, s', now) := Do(b, conf, s, calls[0], at);
      if !(r.Pending? || r.Boom?) {
        RunMoves(b, logs, conf, s', calls[1..], now);
      }
    }
  }

  lemma FirstInOrder(ms: Msglist, log: Log, o: int64)
    requires Dense(log) && ms != [] && InOrder(ms, log, o)
    ensures ms[0].offset == o
  {
    assert Records(ms)[0] == log[o];
  }

  /** A message below the cursor is not the next one. */
  lemma RepeatIsNotInOrder(r: Msglist, more: Msglist, log: Log, o: int64)
    requires Dense(log) && r != [] && r[0].offset < o
    ensures !InOrder(r + more, log, o)
  {
    if InOrder(r + more, log, o) {
      FirstInOrder(r + more, log, o);
    }
  }

  /**
   Any mix of Consume and ConsumeBatch delivers exactly the log from the cursor on if and only
   if Consume is never called in a stale state.
   */
  lemma {:induction false} InOrderIffCareful(b: Broker, logs: History, conf: Conf, s: State, calls: seq<Call>, at: nat)
    requires Grows(logs) && Honest(b, logs, conf) && Sound(s, logs(at))
    ensures var ran := Run(b, conf, s, calls, at);
            InOrder(ran.ms, logs(ran.now), s.offset) <==> Careful(b, conf, s, calls, at)
    decreases |calls|
  {
    if calls != [] {
      hide Do, Honest, InOrder, Grows, Stale;
      var (r, s', now) := Do(b, conf, s, calls[0], at);
      var ran := Run(b, conf, s, calls, at);
      RunMoves(b, logs, conf, s, calls, at);
      GrowsTo(logs, ran.now, ran.now);
      CallDelivers(b, logs, conf, s, calls[0], at);
      if calls[0].ConsumeOne? && Stale(s) {
        RepeatIsNotInOrder(r.ms, ran.ms[|r.ms|..], logs(ran.now), s.offset);
        assert ran.ms == r.ms + ran.ms[|r.ms|..];
      } else if r.Pending? || r.Boom? {
        assert ran.ms == Delivered(r);
      } else {
        InOrderIffCareful(b, logs, conf, s', calls[1..], now);
        RunMoves(b, logs, conf, s', calls[1..], now);
        GrowsTo(logs, now, ran.now);
        var more := Run(b, conf, s', calls[1..], now).ms;
        InOrderSplits(Delivered(r), more, logs(now), logs(ran.now), s.offset, s'.offset);
      }
    } else {
      NothingIsInOrder(logs(at), s);
    }
  }

  lemma GrowsTo(logs: History, t: nat, u: nat)
    requires Grows(logs) && t <= u
    ensures Dense(logs(u)) && logs(t) <= logs(u)
  {
  }

  lemma NothingIsInOrder(log: Log, s: State)
    requires Sound(s, log)
    ensures InOrder([], log, s.offset)
  {
  }

  // ---------------------------------------------------------------- the two pure styles

  lemma {:induction false} ConsumeIsCareful(b: Broker, logs: History, conf: Conf, s: State, calls: seq<Call>, at: nat)
    requires Grows(logs) && Honest(b, logs, conf) && Sound(s, logs(at)) && !Stale(s)
    requires forall i :: 0 <= i < |calls| ==> calls[i].ConsumeOne?
    ensures Careful(b, conf, s, calls, at)
    decreases |calls|
  {
    if calls != [] {
      hide One, Honest, Sound, Stale;
      OneDelivers(b, logs, conf, s, calls[0].patience, at);
      var (r, s', now) := Do(b, conf, s, calls[0], at);
      ConsumeIsCareful(b, logs, conf, s', calls[1..], now);
    }
  }

  lemma {:induction false} BatchIsCareful(b: Broker, conf: Conf, s: State, calls: seq<Call>, at: nat)
    requires forall i :: 0 <= i < |calls| ==> calls[i].ConsumeMany?
    ensures Careful(b, conf, s, calls, at)
    decreases |calls|
  {
    if calls != [] {
      hide Many;
      var (r, s', now) := Do(b, conf, s, calls[0], at);
      BatchIsCareful(b, conf, s', calls[1..], now);
    }
  }

  /** A Consume-only client, and a ConsumeBatch-only one, gets exactly the log from its start offset. */
  lemma DeliversTheLog(b: Broker, logs: History, conf: Conf, start: int64, calls: seq<Call>, at: nat)
    requires Grows(logs) && Honest(b, logs, conf) && start >= 0
    requires (forall i :: 0 <= i < |calls| ==> calls[i].ConsumeOne?)
        || (forall i :: 0 <= i < |calls| ==> calls[i].ConsumeMany?)
    ensures var ran := Run(b, conf, State(start, []), calls, at);
            InOrder(ran.ms, logs(ran.now), start)
  {
    var s := State(start, []);
    assert Sound(s, logs(at)) && !Stale(s);
    hide *;
    InOrderIffCareful(b, logs, conf, s, calls, at);
    if forall i :: 0 <= i < |calls| ==> calls[i].ConsumeOne? {
      ConsumeIsCareful(b, logs, conf, s, calls, at);
    } else {
      BatchIsCareful(b, conf, s, calls, at);
    }
  }
}
