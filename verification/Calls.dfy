/**
 The request loops of broker.go other than the consumer's: offset, produce, the offset
 coordinator's commit and Offset, and getGroupCoordinator. Each contract says what the call
 returns, exactly when it tries again, what it does to which connection, and that on every exit
 path each connection it acquired is handed back, once.
 */
module Calls {
  import opened Wire
  import opened Responses
  import opened Exchange

  datatype Result<V> = Result(value: V, err: Error)

  // ---------------------------------------------------------------- offset

  /** The replies an attempt gets, by the number of the attempt. */
  type Replies<!R> = nat -> Answer<R>

  /** The first offset of a partition's answer; a partition without messages has none. */
  function FirstOffset(p: Part<seq<int64>>): int64 {
    if p.body == [] then 0 else p.body[0]
  }

  /** What an attempt makes of the call: an end, or another try with an error remembered. */
  datatype Turn<V> = End(r: Result<V>) | Retry(err: Error)

  /** A response without our partition is tried again, and the error of an earlier try stays. */
  function OffsetTurn(me: Target, a: Answer<seq<int64>>, resErr: Error): Turn<int64> {
    match a
    case NoLeader(code) => End(Result(0, Net(code)))
    case Asked(SendFailed(kind, code)) => if kind in DeadKinds then Retry(Net(code)) else End(Result(0, Net(code)))
    case Asked(ParseFailed(kind, code)) => if kind in DeadKinds then Retry(Net(code)) else End(Result(0, Net(code)))
    case Asked(Replied(topics)) =>
      var p := Find(me, topics);
      if p.None? then Retry(resErr)
      else if Failover(p.value.err) then Retry(ErrorOf(p.value.err))
      else End(Result(FirstOffset(p.value), ErrorOf(p.value.err)))
  }

  function OffsetFrom(me: Target, replies: Replies<seq<int64>>, at: nat, tries: nat, resErr: Error)
    : (Result<int64>, nat)
    decreases tries
  {
    if tries == 0 then (Result(0, if resErr == Fine then Incomplete else resErr), at)
    else
      match OffsetTurn(me, replies(at), resErr)
      case End(r) => (r, at + 1)
      case Retry(err) => OffsetFrom(me, replies, at + 1, tries - 1, err)
  }

  /** The request died, or the response does not have our partition or has it with one of those codes. */
  ghost predicate OffsetRetried(a: Answer<seq<int64>>, me: Target) {
    && a.Asked?
    && if !a.reply.Replied? then a.reply.kind != Harmless
       else NoEntry(me, a.reply.topics) || exists p :: Holds(me, a.reply.topics, p) && p.err in MovedOn
  }

  lemma OffsetTurnMeans(me: Target, a: Answer<seq<int64>>, resErr: Error)
    ensures var turn := OffsetTurn(me, a, resErr);
            && (turn.Retry? <==> OffsetRetried(a, me))
            && (turn.Retry? && resErr != Fine ==> turn.err != Fine)
            && (a.NoLeader? ==> turn == End(Result(0, Net(a.code))))
            && (turn.End? && a.Asked? && !a.reply.Replied? ==> turn == End(Result(0, Net(a.reply.code))))
            && (turn.End? && Said(a) ==> exists p :: Holds(me, a.reply.topics, p) && OffsetOf(turn.r, p))
  {
    if Said(a) {
      FindsFirst(me, a.reply.topics);
      hide Find, Holds, NoEntry;
      var found := Find(me, a.reply.topics);
      if found.Some? {
        assert Holds(me, a.reply.topics, found.value);
      }
    }
  }

  /** The first offset of the entry, 0 if it has none, and the entry's error. */
  ghost predicate OffsetOf(r: Result<int64>, p: Part<seq<int64>>) {
    && (if p.body == [] then r.value == 0 else r.value == p.body[0])
    && (if p.err == NoErr then r.err == Fine else r.err == Kafka(p.err))
  }

  /**
   The first attempt that is not tried again decides: a missing leader and a failed request with
   their error, a response with the first offset and the error of our partition. If there is no
   such attempt there is an error.
   */
  lemma {:induction false} OffsetIsOurs(me: Target, replies: Replies<seq<int64>>, at: nat, tries: nat, resErr: Error,
      k: nat)
    requires k <= tries && forall t :: at <= t < at + k ==> OffsetRetried(replies(t), me)
    requires k < tries ==> !OffsetRetried(replies(at + k), me)
    ensures var (r, end) := OffsetFrom(me, replies, at, tries, resErr);
            && (k == tries ==> r.value == 0 && r.err != Fine && end == at + tries)
            && (k < tries ==>
                 var a := replies(at + k);
                 && end == at + k + 1
                 && (a.NoLeader? ==> r == Result(0, Net(a.code)))
                 && (a.Asked? && !a.reply.Replied? ==> r == Result(0, Net(a.reply.code)))
                 && (Said(a) ==> exists p :: Holds(me, a.reply.topics, p) && OffsetOf(r, p)))
    decreases k
  {
    hide OffsetTurn, OffsetRetried, OffsetOf, Holds;
    if tries > 0 {
      OffsetTurnMeans(me, replies(at), resErr);
      if k > 0 {
        OffsetIsOurs(me, replies, at + 1, tries - 1, OffsetTurn(me, replies(at), resErr).err, k - 1);
      }
    }
  }

  /** offset. */
  method Offset(conns: Ledger, me: Target, limit: int, replies: Replies<seq<int64>>)
    returns (r: Result<int64>, tries: nat, ghost log: seq<seq<Event>>)
    requires conns.Valid()
    modifies conns
    ensures conns.Valid() && conns.held == old(conns.held)
    ensures Told(old(conns.events), conns.events, log)
    ensures |log| == tries && forall i :: 0 <= i < tries ==> LeaderEvents(log[i], replies(i), DeadKinds)
    ensures (r, tries) == OffsetFrom(me, replies, 0, Limit(limit), Fine)
  {
    hide Owing, Find, Ledger.Valid, Told, Flatten, AskedOnce;
    ghost var outer := conns.held;
    OwesNothing(outer);
    var deferred: seq<Conn> := [];
    var resErr := Fine;
    tries, log := 0, [];
    NothingTold(conns.events);
    while tries < limit
      invariant 0 <= tries <= Limit(limit)
      invariant conns.Valid() && Owing(conns.held, deferred, outer)
      invariant conns.events == old(conns.events) + Flatten(log)
      invariant |log| == tries && forall i :: 0 <= i < tries ==> LeaderEvents(log[i], replies(i), DeadKinds)
      invariant OffsetFrom(me, replies, 0, Limit(limit), Fine) ==
          OffsetFrom(me, replies, tries, Limit(limit) - tries, resErr)
    {
      var turn;
      ghost var told;
      turn, deferred, told := TryOffset(conns, me, replies(tries), resErr, deferred, outer);
      FlattenMore(old(conns.events), log, told);
      log := log + [told];
      tries := tries + 1;
      match turn {
        case End(result) =>
          ghost var mid := conns.events;
          conns.RunDeferred(deferred, outer);
          ToldMore(old(conns.events), mid, conns.events, log);
          return result, tries, log;
        case Retry(err) => resErr := err;
      }
    }
    ghost var mid := conns.events;
    conns.RunDeferred(deferred, outer);
    ToldMore(old(conns.events), mid, conns.events, log);
    r := Result(0, if resErr == Fine then Incomplete else resErr);
  }

  /** The body of offset's loop. */
  method TryOffset(conns: Ledger, me: Target, a: Answer<seq<int64>>, resErr: Error, deferred: seq<Conn>,
      ghost outer: set<Conn>)
    returns (turn: Turn<int64>, more: seq<Conn>, ghost told: seq<Event>)
    requires conns.Valid() && Owing(conns.held, deferred, outer)
    modifies conns
    ensures conns.Valid() && Owing(conns.held, more, outer)
    ensures conns.events == old(conns.events) + told && LeaderEvents(told, a, DeadKinds)
    ensures turn == OffsetTurn(me, a, resErr)
  {
    hide Owing, Find, Ledger.Valid, AskedOnce;
    more, told := deferred, [];
    if a.NoLeader? {
      return End(Result(0, Net(a.code))), more, told;
    }
    var reply := a.reply;
    more, told := conns.Ask(reply, DeadKinds, deferred, outer);
    if !reply.Replied? {
      return if reply.kind in DeadKinds then Retry(Net(reply.code)) else End(Result(0, Net(reply.code))), more, told;
    }
    var p := Pick(me, reply.topics);
    if p.None? {
      return Retry(resErr), more, told;
    }
    if Failover(p.value.err) {
      return Retry(ErrorOf(p.value.err)), more, told;
    }
    return End(Result(FirstOffset(p.value), ErrorOf(p.value.err))), more, told;
  }

  // ---------------------------------------------------------------- produce

  /** Without acknowledgements the request does not go through sendRequest, so its error closes nothing. */
  function AsSent<R>(acks: bool, reply: Reply<R>): Reply<R> {
    if !acks && reply.SendFailed? then ParseFailed(reply.kind, reply.code) else reply
  }

  predicate ProduceEvents<R>(told: seq<Event>, acks: bool, a: Answer<R>) {
    if a.NoLeader? then told == [] else AskedOnce(told, AsSent(acks, a.reply), DeadKinds)
  }

  /** The offset and the error that the response has for the partition. */
  predicate Placed(r: Result<int64>, p: Part<int64>) {
    r.value == p.body && r.err == if p.err == NoErr then Fine else Kafka(p.err)
  }

  /**
   produce: one attempt. With acknowledgements the answer is our partition's offset and error;
   without, there is no response to read.
   */
  method Produce(conns: Ledger, me: Target, acks: bool, a: Answer<int64>)
      returns (r: Result<int64>, ghost told: seq<Event>)
    requires conns.Valid()
    modifies conns
    ensures conns.Valid() && conns.held == old(conns.held)
    ensures Told(old(conns.events), conns.events, [told]) && ProduceEvents(told, acks, a)
    ensures r.err == Fine <==>
              Said(a) && (acks ==> Find(me, a.reply.topics).Some? && Find(me, a.reply.topics).value.err == NoErr)
    ensures r ==
      if a.NoLeader? then Result(0, Net(a.code))
      else if !a.reply.Replied? then Result(0, Net(a.reply.code))
      else if !acks then Result(0, Fine)
      else if Find(me, a.reply.topics).None? then Result(0, Incomplete)
      else Result(Find(me, a.reply.topics).value.body, ErrorOf(Find(me, a.reply.topics).value.err))
    ensures Said(a) && acks ==>
      if NoEntry(me, a.reply.topics) then r == Result(0, Incomplete)
      else exists p :: Holds(me, a.reply.topics, p) && Placed(r, p)
  {
    hide Find, Ledger.Valid, Told, AskedOnce;
    ghost var outer, before := conns.held, conns.events;
    if a.NoLeader? {
      ToldNothing(before);
      return Result(0, Net(a.code)), [];
    }
    var reply := AsSent(acks, a.reply);
    var deferred;
    OwesNothing(outer);
    deferred, told := conns.Ask(reply, DeadKinds, [], outer);
    ghost var mid := conns.events;
    FlattenMore(before, [], told);
    NothingTold(before);
    conns.RunDeferred(deferred, outer);
    ToldMore(before, mid, conns.events, [] + [told]);
    if !reply.Replied? {
      return Result(0, Net(reply.code)), told;
    }
    if !acks {
      return Result(0, Fine), told;
    }
    var p := Pick(me, reply.topics);
    if p.None? {
      return Result(0, Incomplete), told;
    }
    assert Holds(me, a.reply.topics, p.value);
    return Result(p.value.body, ErrorOf(p.value.err)), told;
  }

  lemma ToldNothing(before: seq<Event>)
    ensures Told(before, before, [[]])
  {
    assert Flatten([[]]) == Flatten([]) + [];
  }

  // ---------------------------------------------------------------- the group coordinator

  /**
   Finding a coordinator: whether some connection is idle, else which addresses connect, in
   the order they are tried; the answer to the request; and whether the coordinator connects.
   */
  datatype Search = Search(idle: bool, connects: seq<bool>, sent: bool, parsed: bool, err: KafkaErr, reached: bool)

  predicate Found(s: Search) {
    s.idle || true in s.connects
  }

  predicate Reachable(s: Search) {
    Found(s) && s.sent && s.parsed && s.err == NoErr && s.reached
  }

  /** The connection used for the question goes back before the coordinator's is acquired. */
  predicate SearchEvents(told: seq<Event>, s: Search) {
    if !Found(s) then told == []
    else told != [] && told == [Acquire(told[0].c)] + (if s.sent then [] else [Close(told[0].c)]) + [Idle(told[0].c)]
  }

  /** The connection asked for the coordinator is closed exactly if the request was not answered. */
  lemma SearchClosesIff(told: seq<Event>, s: Search)
    requires SearchEvents(told, s) && Found(s)
    ensures var c := told[0].c;
            && told[0] == Acquire(c) && told[|told| - 1] == Idle(c)
            && (Close(c) in told <==> !s.sent)
            && forall e :: e in told ==> e == Acquire(c) || e == Close(c) || e == Idle(c)
  {
  }

  /** getGroupCoordinator. */
  method GetGroupCoordinator(conns: Ledger, s: Search) returns (ok: bool, ghost told: seq<Event>)
    requires conns.Valid()
    modifies conns
    ensures conns.Valid() && conns.held == old(conns.held)
    ensures conns.events == old(conns.events) + told && SearchEvents(told, s)
    ensures ok <==> Found(s) && s.sent && s.parsed && s.err == NoErr
  {
    hide Ledger.Valid;
    var conn: Option<Conn> := None;
    if s.idle {
      var c := conns.Take();
      conn := Some(c);
    } else {
      var i := 0;
      while i < |s.connects| && !s.connects[i]
        invariant 0 <= i <= |s.connects|
        invariant true !in s.connects[..i]
      {
        i := i + 1;
      }
      if i < |s.connects| {
        var c := conns.Take();
        conn := Some(c);
      }
    }
    if conn.None? {
      return false, [];
    }
    if !s.sent {
      conns.Shut(conn.value);
    }
    conns.HandBack(conn.value);
    told := [Acquire(conn.value)] + (if s.sent then [] else [Close(conn.value)]) + [Idle(conn.value)];
    ok := s.sent && s.parsed && s.err == NoErr;
  }

  /** coordinatorConnection: the caller gets a connection to hand back, or none. */
  method CoordinatorConnection(conns: Ledger, s: Search) returns (conn: Option<Conn>, ghost told: seq<Event>)
    requires conns.Valid()
    modifies conns
    ensures conns.Valid()
    ensures conn.Some? <==> Reachable(s)
    ensures conn.None? ==> conns.held == old(conns.held)
    ensures conn.Some? ==> conn.value !in old(conns.held) && conns.held == old(conns.held) + {conn.value}
    ensures SearchEvents(told, s)
    ensures conns.events == old(conns.events) + told + if conn.Some? then [Acquire(conn.value)] else []
  {
    hide Ledger.Valid, SearchEvents;
    var ok;
    ok, told := GetGroupCoordinator(conns, s);
    if !ok || !s.reached {
      return None, told;
    }
    var c := conns.Take();
    return Some(c), told;
  }

  // ---------------------------------------------------------------- commit and Offset

  /** An attempt of commit or Offset: the search for the coordinator, then the request. */
  datatype Attempt<R> = Attempt(search: Search, reply: Reply<R>)

  /** An attempt whose request is answered is the last one. */
  predicate Ends<R>(a: Attempt<R>) {
    Reachable(a.search) && a.reply.Replied?
  }

  function Verdict<R>(me: Target, a: Attempt<R>): Error {
    if !Reachable(a.search) then NoCoordinator
    else if !a.reply.Replied? then Net(a.reply.code)
    else
      var p := Find(me, a.reply.topics);
      if p.None? then Incomplete else ErrorOf(p.value.err)
  }

  /** The coordinator answers for our partition without error. */
  ghost predicate Committed<R(!new)>(me: Target, a: Attempt<R>) {
    && Reachable(a.search) && a.reply.Replied?
    && exists p :: Holds(me, a.reply.topics, p) && p.err == NoErr
  }

  lemma VerdictMeans<R(!new)>(me: Target, a: Attempt<R>)
    ensures Verdict(me, a) == Fine <==> Committed(me, a)
    ensures Verdict(me, a) == NoCoordinator <==> !Reachable(a.search)
    ensures Reachable(a.search) && !a.reply.Replied? ==> Verdict(me, a) == Net(a.reply.code)
    ensures Reachable(a.search) && a.reply.Replied? ==>
      && (NoEntry(me, a.reply.topics) ==> Verdict(me, a) == Incomplete)
      && forall p :: Holds(me, a.reply.topics, p) && p.err != NoErr ==> Verdict(me, a) == Kafka(p.err)
  {
    hide Reachable;
    if Reachable(a.search) && a.reply.Replied? {
      FindsFirst(me, a.reply.topics);
      hide Find, Holds, NoEntry;
      var found := Find(me, a.reply.topics);
      if found.Some? {
        assert Holds(me, a.reply.topics, found.value);
      }
    }
  }

  /** The events of one attempt: the search, and the request if there is a connection for it. */
  predicate AttemptEvents<R>(told: seq<Event>, a: Attempt<R>, fatal: set<Kind>) {
    if Reachable(a.search) then |told| > 2 && SearchEvents(told[..2], a.search) && AskedOnce(told[2..], a.reply, fatal)
    else SearchEvents(told, a.search)
  }

  /** Attempts are made until one is answered or the limit is reached. */
  ghost predicate Persistent<R>(attempts: nat -> Attempt<R>, tries: nat, limit: nat) {
    && tries <= limit
    && (tries < limit ==> tries > 0 && Ends(attempts(tries - 1)))
    && forall i :: 0 <= i < tries - 1 ==> !Ends(attempts(i))
  }

  /** One attempt up to the response; `fatal` are the kinds of error after which the caller closes. */
  method TryCoordinator<R>(conns: Ledger, a: Attempt<R>, fatal: set<Kind>, deferred: seq<Conn>, ghost outer: set<Conn>)
    returns (more: seq<Conn>, ghost told: seq<Event>)
    requires conns.Valid() && Owing(conns.held, deferred, outer)
    modifies conns
    ensures conns.Valid() && Owing(conns.held, more, outer)
    ensures conns.events == old(conns.events) + told && AttemptEvents(told, a, fatal)
  {
    hide Owing, Ledger.Valid;
    ghost var held, before := conns.held, conns.events;
    var conn;
    conn, told := CoordinatorConnection(conns, a.search);
    more := deferred;
    if conn.Some? {
      OwesOneMore(held, deferred, outer, conn.value);
      more := deferred + [conn.value];
      conns.Finish(conn.value, a.reply, fatal);
      ghost var asked := [Acquire(conn.value)] + Closes(conn.value, a.reply, fatal);
      assert (told + asked)[..2] == told && (told + asked)[2..] == asked;
      assert conns.events == before + (told + asked);
      told := told + asked;
    }
  }

  /**
   commit: nil if and only if the last attempt was answered for our partition without error,
   or there was no attempt because the limit allows none.
   */
  method Commit(conns: Ledger, me: Target, offset: int64, limit: int, attempts: nat -> Attempt<()>)
    returns (err: Error, tries: nat, ghost log: seq<seq<Event>>)
    requires conns.Valid()
    modifies conns
    ensures conns.Valid() && conns.held == old(conns.held)
    ensures Told(old(conns.events), conns.events, log)
    ensures |log| == tries && forall i :: 0 <= i < tries ==> AttemptEvents(log[i], attempts(i), DeadKinds)
    ensures if offset < 0 then tries == 0 && err == Negative
            else
              && Persistent(attempts, tries, Limit(limit))
              && err == if tries == 0 then Fine else Verdict(me, attempts(tries - 1))
    ensures err == Fine <==>
              && offset >= 0
              && (limit <= 0 || (tries > 0 && Committed(me, attempts(tries - 1))))
  {
    hide Owing, Find, Committed, Ledger.Valid, Told, Flatten, AttemptEvents, Reachable;
    tries, log := 0, [];
    NothingTold(conns.events);
    NothingDeferred(conns.events);
    if offset < 0 {
      return Negative, tries, log;
    }
    ghost var outer := conns.held;
    OwesNothing(outer);
    var deferred: seq<Conn> := [];
    err := Fine;
    while tries < limit
      invariant 0 <= tries <= Limit(limit)
      invariant conns.Valid() && Owing(conns.held, deferred, outer)
      invariant conns.events == old(conns.events) + Flatten(log)
      invariant |log| == tries && forall i :: 0 <= i < tries ==> AttemptEvents(log[i], attempts(i), DeadKinds)
      invariant forall i :: 0 <= i < tries ==> !Ends(attempts(i))
      invariant err == if tries == 0 then Fine else Verdict(me, attempts(tries - 1))
      invariant tries > 0 ==> err != Fine && !Committed(me, attempts(tries - 1))
    {
      var a := attempts(tries);
      ghost var told;
      deferred, told := TryCoordinator(conns, a, DeadKinds, deferred, outer);
      FlattenMore(old(conns.events), log, told);
      log := log + [told];
      tries := tries + 1;
      VerdictMeans(me, a);
      if !Reachable(a.search) {
        err := NoCoordinator;
      } else if !a.reply.Replied? {
        err := Net(a.reply.code);
      } else {
        var p := Pick(me, a.reply.topics);
        ghost var mid := conns.events;
        conns.RunDeferred(deferred, outer);
        ToldMore(old(conns.events), mid, conns.events, log);
        return if p.None? then Incomplete else ErrorOf(p.value.err), tries, log;
      }
    }
    ghost var mid := conns.events;
    conns.RunDeferred(deferred, outer);
    ToldMore(old(conns.events), mid, conns.events, log);
  }

  lemma NothingDeferred(before: seq<Event>)
    ensures Told(before, before, [])
  {
  }

  datatype Position = Position(offset: int64, metadata: seq<byte>)

  const Nowhere := Position(0, [])

  /**
   The offset coordinator's Offset: what it reports without error is our partition's entry in
   the last response, or nothing if the limit allows no attempt. Only an end of file or a
   broken pipe makes it close the connection itself.
   */
  method CommittedOffset(conns: Ledger, me: Target, limit: int, attempts: nat -> Attempt<Position>)
    returns (r: Result<Position>, tries: nat, ghost log: seq<seq<Event>>)
    requires conns.Valid()
    modifies conns
    ensures conns.Valid() && conns.held == old(conns.held)
    ensures Told(old(conns.events), conns.events, log)
    ensures |log| == tries && forall i :: 0 <= i < tries ==> AttemptEvents(log[i], attempts(i), {EndOrPipe})
    ensures Persistent(attempts, tries, Limit(limit))
    ensures r.err == if tries == 0 then Fine else Verdict(me, attempts(tries - 1))
    ensures r.value ==
        if tries > 0 && r.err == Fine then Find(me, attempts(tries - 1).reply.topics).value.body else Nowhere
    ensures r.err == Fine <==> tries == 0 || Committed(me, attempts(tries - 1))
    ensures tries > 0 && r.err == Fine ==>
      exists p :: Holds(me, attempts(tries - 1).reply.topics, p) && r.value == p.body
  {
    hide Owing, Find, Committed, Ledger.Valid, Told, Flatten, AttemptEvents, Reachable;
    tries, log := 0, [];
    NothingTold(conns.events);
    ghost var outer := conns.held;
    OwesNothing(outer);
    var deferred: seq<Conn> := [];
    var resErr := Fine;
    while tries < limit
      invariant 0 <= tries <= Limit(limit)
      invariant conns.Valid() && Owing(conns.held, deferred, outer)
      invariant conns.events == old(conns.events) + Flatten(log)
      invariant |log| == tries && forall i :: 0 <= i < tries ==> AttemptEvents(log[i], attempts(i), {EndOrPipe})
      invariant forall i :: 0 <= i < tries ==> !Ends(attempts(i))
      invariant resErr == if tries == 0 then Fine else Verdict(me, attempts(tries - 1))
      invariant tries > 0 ==> resErr != Fine && !Committed(me, attempts(tries - 1))
    {
      var a := attempts(tries);
      ghost var told;
      deferred, told := TryCoordinator(conns, a, {EndOrPipe}, deferred, outer);
      FlattenMore(old(conns.events), log, told);
      log := log + [told];
      tries := tries + 1;
      VerdictMeans(me, a);
      if !Reachable(a.search) {
        resErr := NoCoordinator;
      } else if !a.reply.Replied? {
        resErr := Net(a.reply.code);
      } else {
        var p := Pick(me, a.reply.topics);
        ghost var mid := conns.events;
        conns.RunDeferred(deferred, outer);
        ToldMore(old(conns.events), mid, conns.events, log);
        if p.None? {
          return Result(Nowhere, Incomplete), tries, log;
        }
        assert Holds(me, a.reply.topics, p.value);
        if p.value.err != NoErr {
          return Result(Nowhere, ErrorOf(p.value.err)), tries, log;
        }
        return Result(p.value.body, Fine), tries, log;
      }
    }
    ghost var mid := conns.events;
    conns.RunDeferred(deferred, outer);
    ToldMore(old(conns.events), mid, conns.events, log);
    r := Result(Nowhere, resErr);
  }
}
