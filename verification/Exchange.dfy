/**
 What every request of the broker (broker.go) has in common: a connection is acquired from
 the pool, used, closed if it failed, and handed back when the calling function returns; the
 response is searched for the one partition that was asked for.

 A `Ledger` records what a goroutine does with connections. Its methods may only be called on
 a connection that is held, so a caller that verifies uses connections properly; what that
 means for the record as a whole is proved about `Replay`.
 */
module Exchange {
  import opened Wire
  import opened Responses

  // ---------------------------------------------------------------- the record of a goroutine

  type Conn = nat

  datatype Event = Acquire(c: Conn) | Close(c: Conn) | Idle(c: Conn)

  /** The connections held after `events`, if each was held when closed or handed back. */
  function Replay(events: seq<Event>): Option<set<Conn>> {
    if events == [] then Some({})
    else
      var last := events[|events| - 1];
      var before := Replay(events[..|events| - 1]);
      if before.None? then None
      else
        match last
        case Acquire(c) => if c in before.value then None else Some(before.value + {c})
        case Close(c) => if c in before.value then before else None
        case Idle(c) => if c in before.value then Some(before.value - {c}) else None
  }

  function Count(events: seq<Event>, e: Event): nat {
    if events == [] then 0
    else Count(events[..|events| - 1], e) + if events[|events| - 1] == e then 1 else 0
  }

  /**
   In a record that replays, every connection has been handed back exactly as often as it was
   acquired, except those still held, which are one behind.
   */
  lemma {:induction false} HandedBackOnce(events: seq<Event>, c: Conn)
    requires Replay(events).Some?
    ensures Count(events, Acquire(c)) == Count(events, Idle(c)) + if c in Replay(events).value then 1 else 0
  {
    if events != [] {
      HandedBackOnce(events[..|events| - 1], c);
    }
  }

  lemma {:induction false} ReplayPrefix(events: seq<Event>, i: nat)
    requires i <= |events| && Replay(events).Some?
    ensures Replay(events[..i]).Some?
  {
    if i < |events| {
      var front := events[..|events| - 1];
      ReplayPrefix(front, i);
      assert front[..i] == events[..i];
    } else {
      assert events[..i] == events;
    }
  }

  /** A connection is closed only between an acquisition and the matching hand-back. */
  lemma {:induction false} ClosedWhileHeld(events: seq<Event>, i: nat)
    requires Replay(events).Some? && i < |events| && events[i].Close?
    ensures Count(events[..i], Acquire(events[i].c)) == Count(events[..i], Idle(events[i].c)) + 1
  {
    ReplayPrefix(events, i + 1);
    assert events[..i + 1][..i] == events[..i];
    HandedBackOnce(events[..i], events[i].c);
  }

  /** Which connection the pool gives out, by time and by what the goroutine holds already. */
  type Supply = (nat, set<Conn>) -> Conn

  /** The pool does not give out what is held; Clients.PoolIsExclusive proves it of the pool. */
  ghost predicate Exclusive(supply: Supply) {
    forall t, held :: supply(t, held) !in held
  }

  class Ledger {
    const supply: Supply
    var tick: nat
    var held: set<Conn>
    var events: seq<Event>

    ghost predicate Valid()
      reads this
    {
      Exclusive(supply) && Replay(events) == Some(held)
    }

    constructor (supply: Supply)
      requires Exclusive(supply)
      ensures Valid() && held == {} && events == []
    {
      this.supply := supply;
      tick := 0;
      held := {};
      events := [];
    }

    method Take() returns (c: Conn)
      requires Valid()
      modifies this
      ensures Valid()
      ensures c !in old(held) && held == old(held) + {c} && events == old(events) + [Acquire(c)]
    {
      c := supply(tick, held);
      tick := tick + 1;
      held := held + {c};
      events := events + [Acquire(c)];
    }

    method Shut(c: Conn)
      requires Valid() && c in held
      modifies this`events
      ensures Valid()
      ensures held == old(held) && events == old(events) + [Close(c)]
    {
      events := events + [Close(c)];
    }

    method HandBack(c: Conn)
      requires Valid() && c in held
      modifies this
      ensures Valid()
      ensures held == old(held) - {c} && events == old(events) + [Idle(c)]
    {
      held := held - {c};
      events := events + [Idle(c)];
    }

    /** The deferred calls of Idle, last one first. */
    method RunDeferred(deferred: seq<Conn>, ghost outer: set<Conn>)
      requires Valid() && Owing(held, deferred, outer)
      modifies this
      ensures Valid() && held == outer
      ensures Told(old(events), events, [])
    {
      var i := |deferred|;
      while i > 0
        invariant 0 <= i <= |deferred|
        invariant Valid() && Told(old(events), events, [])
        invariant Owing(held, deferred[..i], outer)
      {
        i := i - 1;
        assert deferred[..i + 1][i] == deferred[i];
        HandBack(deferred[i]);
        assert deferred[..i + 1] == deferred[..i] + [deferred[i]];
      }
    }

    /**
     A connection for one request, and what happens to it until the response is there: sendRequest
     closes it on an error, and so does the caller if the error is one of the kinds it takes to
     mean that the connection is dead.
     */
    method Ask<R>(reply: Reply<R>, fatal: set<Kind>, deferred: seq<Conn>, ghost outer: set<Conn>)
      returns (more: seq<Conn>, ghost told: seq<Event>)
      requires Valid() && Owing(held, deferred, outer)
      modifies this
      ensures Valid() && Owing(held, more, outer)
      ensures events == old(events) + told && AskedOnce(told, reply, fatal)
    {
      hide Owing;
      ghost var before := held;
      var c := Take();
      OwesOneMore(before, deferred, outer, c);
      more := deferred + [c];
      Finish(c, reply, fatal);
      told := [Acquire(c)] + Closes(c, reply, fatal);
      assert events == old(events) + told;
    }

    /** The closes of one request on a connection that is held. */
    method Finish<R>(c: Conn, reply: Reply<R>, fatal: set<Kind>)
      requires Valid() && c in held
      modifies this`events
      ensures Valid() && events == old(events) + Closes(c, reply, fatal)
    {
      if reply.SendFailed? {
        Shut(c);
      }
      if !reply.Replied? && reply.kind in fatal {
        Shut(c);
      }
    }
  }

  /** The closes of a request on connection `c`. */
  function Closes<R>(c: Conn, reply: Reply<R>, fatal: set<Kind>): seq<Event> {
    if reply.Replied? then []
    else (if reply.SendFailed? then [Close(c)] else []) + (if reply.kind in fatal then [Close(c)] else [])
  }

  /** The events of one request: its connection is acquired, and closed as its reply demands. */
  predicate AskedOnce<R>(told: seq<Event>, reply: Reply<R>, fatal: set<Kind>) {
    told != [] && told == [Acquire(told[0].c)] + Closes(told[0].c, reply, fatal)
  }

  /**
   A connection is closed during its request exactly if sending failed or the error was fatal: for
   fetch that is any error; for offset, produce and commit a network error, an end of file or a
   broken pipe.
   */
  lemma ClosedIff<R>(told: seq<Event>, reply: Reply<R>, fatal: set<Kind>)
    requires AskedOnce(told, reply, fatal)
    ensures Close(told[0].c) in told <==> reply.SendFailed? || (reply.ParseFailed? && reply.kind in fatal)
    ensures fatal == AnyKind ==> (Close(told[0].c) in told <==> !reply.Replied?)
    ensures fatal == DeadKinds ==>
      (Close(told[0].c) in told <==> reply.SendFailed? || (reply.ParseFailed? && reply.kind != Harmless))
  {
    var c := told[0].c;
    assert Close(c) in told <==> Close(c) in Closes(c, reply, fatal);
    if !reply.Replied? {
      assert reply.kind.NetOp? || reply.kind.EndOrPipe? || reply.kind.Harmless?;
      assert reply.kind in AnyKind && (reply.kind in DeadKinds <==> reply.kind != Harmless);
    }
  }

  function Flatten(log: seq<seq<Event>>): seq<Event> {
    if log == [] then [] else Flatten(log[..|log| - 1]) + log[|log| - 1]
  }

  /** Since `before`, exactly the events of the attempts in `log`, and then only hand-backs. */
  ghost predicate Told(before: seq<Event>, after: seq<Event>, log: seq<seq<Event>>) {
    var n := |before| + |Flatten(log)|;
    n <= |after| && after[..n] == before + Flatten(log) && forall i :: n <= i < |after| ==> after[i].Idle?
  }

  lemma ToldMore(before: seq<Event>, mid: seq<Event>, after: seq<Event>, log: seq<seq<Event>>)
    requires mid == before + Flatten(log) && Told(mid, after, [])
    ensures Told(before, after, log)
  {
    assert mid + Flatten([]) == mid;
  }

  lemma NothingTold(events: seq<Event>)
    ensures events == events + Flatten([])
  {
  }

  lemma FlattenMore(before: seq<Event>, log: seq<seq<Event>>, told: seq<Event>)
    ensures before + Flatten(log + [told]) == before + Flatten(log) + told
  {
    assert (log + [told])[..|log|] == log;
  }

  /** Besides `outer`, exactly the connections with a deferred hand-back are held. */
  ghost predicate Owing(held: set<Conn>, deferred: seq<Conn>, outer: set<Conn>) {
    && (forall i, j :: 0 <= i < j < |deferred| ==> deferred[i] != deferred[j])
    && (forall i :: 0 <= i < |deferred| ==> deferred[i] !in outer)
    && (forall c :: c in held <==> c in outer || c in deferred)
  }

  lemma OwesNothing(held: set<Conn>)
    ensures Owing(held, [], held)
  {
  }

  lemma OwesOneMore(held: set<Conn>, deferred: seq<Conn>, outer: set<Conn>, c: Conn)
    requires Owing(held, deferred, outer) && c !in held
    ensures Owing(held + {c}, deferred + [c], outer)
  {
  }

  // ---------------------------------------------------------------- requests and responses

  /** How an error tells that the connection is dead. */
  datatype Kind = NetOp | EndOrPipe | Harmless

  const AnyKind: set<Kind> := {NetOp, EndOrPipe, Harmless}
  const DeadKinds: set<Kind> := {NetOp, EndOrPipe}

  /**
   A request on a connection: an error while sending or waiting, after which sendRequest has
   closed the connection; an error in parsing, after which it has not; or a parsed response.
   */
  datatype Reply<R> =
    | SendFailed(kind: Kind, code: nat)
    | ParseFailed(kind: Kind, code: nat)
    | Replied(topics: seq<Topic<R>>)

  /** One attempt with the leader: no connection to it, or a request. */
  datatype Answer<R> = NoLeader(code: nat) | Asked(reply: Reply<R>)

  /** The events of one attempt with the leader; without a connection there are none. */
  predicate LeaderEvents<R>(told: seq<Event>, a: Answer<R>, fatal: set<Kind>) {
    if a.NoLeader? then told == [] else AskedOnce(told, a.reply, fatal)
  }

  predicate Said<R>(a: Answer<R>) {
    a.Asked? && a.reply.Replied?
  }

  datatype Error = Fine | Net(code: nat) | Kafka(err: KafkaErr) | Incomplete | NoData | NoCoordinator | Negative

  function ErrorOf(e: KafkaErr): Error {
    if e == NoErr then Fine else Kafka(e)
  }

  /** The error codes after which the leader is looked up again. */
  predicate Failover(e: KafkaErr) {
    e in {Known(5), Known(6), Known(8), Known(3)}
  }

  /** Leader not available, not the leader for the partition, broker not available, unknown partition. */
  const MovedOn: set<KafkaErr> := {Known(5), Known(6), Known(8), Known(3)}

  function Limit(n: int): nat {
    if n < 0 then 0 else n
  }

  datatype Target = Target(topic: seq<byte>, partition: int32)

  predicate Ours<R>(me: Target, t: Topic<R>, p: Part<R>) {
    t.name == me.topic && p.id == me.partition
  }

  function FindPart<R>(me: Target, t: Topic<R>, from: nat): Option<Part<R>>
    requires from <= |t.parts|
    decreases |t.parts| - from
  {
    if from == |t.parts| then None
    else if Ours(me, t, t.parts[from]) then Some(t.parts[from])
    else FindPart(me, t, from + 1)
  }

  /** The first partition in the response that is the one asked for. */
  function Find<R>(me: Target, ts: seq<Topic<R>>): Option<Part<R>>
  {
    if ts == [] then None
    else
      var p := FindPart(me, ts[0], 0);
      if p.Some? then p else Find(me, ts[1..])
  }

  /** The entry at (i, j) is the first one, by index, for this topic and partition. */
  ghost predicate FirstEntry<R>(me: Target, ts: seq<Topic<R>>, i: int, j: int) {
    && 0 <= i < |ts| && 0 <= j < |ts[i].parts|
    && ts[i].name == me.topic && ts[i].parts[j].id == me.partition
    && forall k, l :: 0 <= k < |ts| && 0 <= l < |ts[k].parts| && (k < i || (k == i && l < j)) ==>
         ts[k].name != me.topic || ts[k].parts[l].id != me.partition
  }

  ghost predicate NoEntry<R>(me: Target, ts: seq<Topic<R>>) {
    forall k, l :: 0 <= k < |ts| && 0 <= l < |ts[k].parts| ==>
      ts[k].name != me.topic || ts[k].parts[l].id != me.partition
  }

  /** The first entry for us is `p`. */
  ghost predicate Holds<R>(me: Target, ts: seq<Topic<R>>, p: Part<R>) {
    exists i, j :: FirstEntry(me, ts, i, j) && ts[i].parts[j] == p
  }

  /** Where the search in one topic stops. */
  lemma {:induction false} FindPartIsFirst<R>(me: Target, t: Topic<R>, from: nat) returns (j: nat)
    requires from <= |t.parts|
    ensures from <= j <= |t.parts|
    ensures forall l :: from <= l < j ==> t.name != me.topic || t.parts[l].id != me.partition
    ensures FindPart(me, t, from) == if j < |t.parts| then Some(t.parts[j]) else None
    ensures j < |t.parts| ==> t.name == me.topic && t.parts[j].id == me.partition
    decreases |t.parts| - from
  {
    j := from;
    if from < |t.parts| && !Ours(me, t, t.parts[from]) {
      j := FindPartIsFirst(me, t, from + 1);
    }
  }

  /** The search finds the first entry for our topic and partition, and nothing if there is none. */
  lemma {:induction false} FindsFirst<R>(me: Target, ts: seq<Topic<R>>)
    ensures Find(me, ts).None? <==> NoEntry(me, ts)
    ensures forall p :: Find(me, ts) == Some(p) <==> Holds(me, ts, p)
  {
    FindIsFirst(me, ts);
    hide Find;
    forall p, q | Holds(me, ts, p) && Holds(me, ts, q) ensures p == q {
      OneFirst(me, ts, p, q);
    }
    if Find(me, ts).Some? {
      assert Holds(me, ts, Find(me, ts).value);
    }
  }

  lemma OneFirst<R>(me: Target, ts: seq<Topic<R>>, p: Part<R>, q: Part<R>)
    requires Holds(me, ts, p) && Holds(me, ts, q)
    ensures p == q && !NoEntry(me, ts)
  {
    var i, j :| FirstEntry(me, ts, i, j) && ts[i].parts[j] == p;
    var k, l :| FirstEntry(me, ts, k, l) && ts[k].parts[l] == q;
    assert !(k < i || (k == i && l < j)) && !(i < k || (i == k && j < l));
  }

  lemma {:induction false} FindIsFirst<R>(me: Target, ts: seq<Topic<R>>)
    ensures var r := Find(me, ts);
            if r.None? then NoEntry(me, ts) else Holds(me, ts, r.value)
    decreases |ts|
  {
    if ts != [] {
      hide FindPart;
      var j := FindPartIsFirst(me, ts[0], 0);
      if j < |ts[0].parts| {
        assert FirstEntry(me, ts, 0, j);
      } else {
        FindIsFirst(me, ts[1..]);
        if Find(me, ts[1..]).Some? {
          var k, l :| FirstEntry(me, ts[1..], k, l) && ts[1..][k].parts[l] == Find(me, ts[1..]).value;
          FirstBehind(me, ts, k, l);
        } else {
          NoneBehind(me, ts);
        }
      }
    }
  }

  lemma FirstBehind<R>(me: Target, ts: seq<Topic<R>>, i: int, j: int)
    requires ts != [] && FirstEntry(me, ts[1..], i, j)
    requires forall l :: 0 <= l < |ts[0].parts| ==> ts[0].name != me.topic || ts[0].parts[l].id != me.partition
    ensures FirstEntry(me, ts, i + 1, j)
  {
    forall k, l | 0 <= k < |ts| && 0 <= l < |ts[k].parts| && (k < i + 1 || (k == i + 1 && l < j))
      ensures ts[k].name != me.topic || ts[k].parts[l].id != me.partition
    {
      if k > 0 {
        assert ts[1..][k - 1] == ts[k];
      }
    }
  }

  lemma NoneBehind<R>(me: Target, ts: seq<Topic<R>>)
    requires ts != [] && NoEntry(me, ts[1..])
    requires forall l :: 0 <= l < |ts[0].parts| ==> ts[0].name != me.topic || ts[0].parts[l].id != me.partition
    ensures NoEntry(me, ts)
  {
    forall k, l | 0 <= k < |ts| && 0 <= l < |ts[k].parts|
      ensures ts[k].name != me.topic || ts[k].parts[l].id != me.partition
    {
      if k > 0 {
        assert ts[1..][k - 1] == ts[k];
      }
    }
  }

  /** The two nested loops at the end of every request. */
  method Pick<R>(me: Target, topics: seq<Topic<R>>) returns (p: Option<Part<R>>)
    ensures p == Find(me, topics)
    ensures p.None? <==> NoEntry(me, topics)
    ensures p.Some? ==> Holds(me, topics, p.value)
  {
    FindsFirst(me, topics);
    for i := 0 to |topics|
      invariant Find(me, topics) == Find(me, topics[i..])
    {
      var t := topics[i];
      for j := 0 to |t.parts|
        invariant FindPart(me, t, 0) == FindPart(me, t, j)
      {
        if Ours(me, t, t.parts[j]) {
          return Some(t.parts[j]);
        }
      }
    }
    return None;
  }
}
