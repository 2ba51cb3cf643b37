/**
 Distribute over all schedules (distributing_producer.go): how often a single caller gets a
 partition that always fails, with no backoff timer running out, and how many calls succeed.
 */
module Schedules {
  import opened Partitions
  import opened Distribution

  // ---------------------------------------------------------------- conditions on a schedule

  /**
   A failure is recorded after the goroutine of the token has read its counter: the token has
   left `taken` and `spawned`.
   */
  predicate ReadFirst(d: Caller, a: Action, failing: set<nat>)
    requires d.s.chans != []
  {
    a.DoOutcome? && d.call.Producing? && d.call.t.part in failing ==>
      d.call.t !in d.s.chans[0].taken && d.call.t !in d.s.chans[0].spawned
  }

  /** No token is on its way back; those in backoff stay there. */
  predicate Still(c: Chan) {
    c.taken == c.spawned == c.ready == multiset{}
  }

  /** In every failure of the run the counter is read first. */
  ghost predicate Early(d: Caller, actions: seq<Action>, failing: set<nat>)
    requires CanDo(d, actions, failing)
    decreases |actions|
  {
    actions == [] ||
    (d.s.chans != [] && ReadFirst(d, actions[0], failing) && Early(Do(d, actions[0], failing), actions[1..], failing))
  }

  /** Every call begins when no token is on its way back. */
  ghost predicate Prompt(d: Caller, actions: seq<Action>, failing: set<nat>)
    requires CanDo(d, actions, failing)
    decreases |actions|
  {
    actions == [] ||
    (d.s.chans != [] && (actions[0].DoGet? ==> Still(d.s.chans[0]))
        && Prompt(Do(d, actions[0], failing), actions[1..], failing))
  }

  /** The partitions handed out in a run, in order. */
  ghost function Handouts(d: Caller, actions: seq<Action>, failing: set<nat>): seq<nat>
    requires CanDo(d, actions, failing)
    decreases |actions|
  {
    if actions == [] then []
    else
      (if actions[0].DoGet? then [Current(d.s, Topic).queue[0].part] else [])
      + Handouts(Do(d, actions[0], failing), actions[1..], failing)
  }

  // ---------------------------------------------------------------- exactly twice before suspension

  /** A failing partition is suspended after its second try and not before. */
  ghost predicate Suspends(d: Caller, p: nat)
    requires d.s.chans != []
  {
    var t, c := Token(0, p), d.s.chans[0];
    && (t in c.sleeping ==> Tries(d, p) == 2)
    && (t in c.taken || t in c.spawned ==> Busy(d, t))
  }

  /** A partition that does not fail has no failures to its name and is never suspended. */
  ghost predicate Spared(d: Caller, p: nat)
    requires d.s.chans != []
  {
    Fails(d.s, Token(0, p)) == 0 && Token(0, p) !in d.s.chans[0].sleeping
  }

  ghost predicate Suspending(d: Caller, failing: set<nat>) {
    Good(d, failing)
    && (forall p :: p in failing ==> Suspends(d, p))
    && (forall p :: p !in failing ==> Spared(d, p))
  }

  /** The head of the queue is not in backoff or on its way back. */
  lemma HeadIsAwake(d: Caller)
    requires Shape(d) && Possible(d, DoGet)
    ensures var t, c := Current(d.s, Topic).queue[0], d.s.chans[0];
            t.gen == 0 && t.part < c.cap && t !in c.sleeping && t !in c.taken && t !in c.spawned && t !in c.ready
  {
    var c := d.s.chans[0];
    var t := c.queue[0];
    QueueHead(c.queue);
    AtHome(0, c, t);
    assert InPlay(c)[t] == multiset(c.queue)[t] + c.taken[t] + c.spawned[t] + c.sleeping[t] + c.ready[t];
  }

  lemma GetSuspends(d: Caller, failing: set<nat>, p: nat)
    requires Shape(d) && Possible(d, DoGet) && Suspends(d, p)
    ensures Do(d, DoGet, failing).s.chans != [] && Suspends(Do(d, DoGet, failing), p)
  {
    HeadIsAwake(d);
    var c, c' := d.s.chans[0], Do(d, DoGet, failing).s.chans[0];
    var h := c.queue[0];
    hide Inv;
    assert c'.sleeping == c.sleeping && c'.spawned == c.spawned && c'.taken == c.taken + multiset{h};
  }

  /** The machine's step for an action on token `t`. */
  function MoveOf(a: Action, t: Token): Step {
    if a.DoSpawn? then Spawn(t) else if a.DoLoad? then Load(t) else if a.DoWake? then Wake(t) else Send(t)
  }

  /** The channel after an action of a goroutine of a token of generation 0. */
  lemma MoveChan(d: Caller, a: Action, failing: set<nat>)
    requires Shape(d) && Possible(d, a)
    requires a.DoSpawn? || a.DoLoad? || a.DoWake? || a.DoSend?
    ensures var t := if a.DoSpawn? then d.call.t else a.t;
            var step := MoveOf(a, t);
            var d' := Do(d, a, failing);
            && t.gen == 0 && d'.s.chans == [Moved(d.s.chans[0], step, if a.DoLoad? then Fails(d.s, t) else 0)]
            && d'.s.fails == d.s.fails && d'.tries == d.tries
            && d'.call == (if a.DoSpawn? then Producing(t) else d.call)
            && d'.s.reset <= d.s.reset
            && (a.DoSend? ==> |d.s.chans[0].queue| < d.s.chans[0].cap)
  {
    if a.DoSend? {
      RoomForToken(d.s, a.t);
    }
    hide Inv, Moved;
  }

  lemma MoveSuspends(d: Caller, a: Action, failing: set<nat>, p: nat)
    requires Shape(d) && Possible(d, a) && Tracked(d, p) && Suspends(d, p)
    requires a.DoSpawn? || a.DoLoad? || a.DoWake? || a.DoSend?
    ensures Do(d, a, failing).s.chans != [] && Suspends(Do(d, a, failing), p)
  {
    MoveChan(d, a, failing);
    hide Shape, Do, Possible;
  }

  lemma OutcomeSuspends(d: Caller, failing: set<nat>, p: nat)
    requires Shape(d) && Possible(d, DoOutcome) && Suspends(d, p) && p in failing
    requires ReadFirst(d, DoOutcome, failing)
    ensures Do(d, DoOutcome, failing).s.chans != [] && Suspends(Do(d, DoOutcome, failing), p)
  {
    hide Inv;
  }

  lemma MoveSpares(d: Caller, d': Caller, step: Step, p: nat)
    requires |d.s.chans| == 1 && Spared(d, p)
    requires d'.s.fails == d.s.fails
        && d'.s.chans == [Moved(d.s.chans[0], step, if step.Load? then Fails(d.s, step.t) else 0)]
    ensures Spared(d', p)
  {
  }

  lemma StaysSpared(d: Caller, a: Action, failing: set<nat>, p: nat)
    requires Shape(d) && Possible(d, a) && Spared(d, p) && p !in failing
    ensures Do(d, a, failing).s.chans != [] && Spared(Do(d, a, failing), p)
  {
    if a.DoSpawn? || a.DoLoad? || a.DoWake? || a.DoSend? {
      HasChannel(d);
      hide Shape, Do, Possible, Spared, Moved, Fails;
      MoveChan(d, a, failing);
      var t := if a.DoSpawn? then d.call.t else a.t;
      var step := MoveOf(a, t);
      MoveSpares(d, Do(d, a, failing), step, p);
    } else {
      hide Inv;
    }
  }

  lemma StepSuspends(d: Caller, a: Action, failing: set<nat>)
    requires Suspending(d, failing) && Possible(d, a) && ReadFirst(d, a, failing)
    ensures Suspending(Do(d, a, failing), failing)
  {
    var d' := Do(d, a, failing);
    ShapeStays(d, a, failing);
    hide Shape, Do, Possible, Tracked, Suspends, Spared, ReadFirst;
    forall p | p in failing
      ensures d'.s.chans != [] && Tracked(d', p) && Suspends(d', p)
    {
      if a == DoGet {
        GetTracks(d, failing, p);
        GetSuspends(d, failing, p);
      } else {
        MoveTracks(d, a, failing, p);
        if a == DoOutcome {
          OutcomeSuspends(d, failing, p);
        } else {
          MoveSuspends(d, a, failing, p);
        }
      }
    }
    forall p | p !in failing
      ensures d'.s.chans != [] && Spared(d', p)
    {
      StaysSpared(d, a, failing, p);
    }
    HasChannel(d');
  }

  lemma HasChannel(d: Caller)
    requires Shape(d)
    ensures |d.s.chans| == 1
  {
  }

  lemma {:induction false} RunSuspends(d: Caller, actions: seq<Action>, failing: set<nat>)
    requires Suspending(d, failing) && CanDo(d, actions, failing) && Early(d, actions, failing)
    ensures Suspending(DoAll(d, actions, failing), failing)
    decreases |actions|
  {
    if actions != [] {
      hide Suspending, Do, Possible, ReadFirst;
      StepSuspends(d, actions[0], failing);
      RunSuspends(Do(d, actions[0], failing), actions[1..], failing);
    }
  }

  lemma StartSuspends(n: nat, failing: set<nat>)
    ensures Suspending(Start(n), failing)
  {
    StartIsGood(n, failing);
    hide Inv;
  }

  /**
   If every counter is read before the failure is recorded, a failing partition that is in
   backoff has been tried exactly twice, whatever else the schedule does.
   */
  lemma TwiceBeforeSuspension(n: nat, failing: set<nat>, actions: seq<Action>, p: nat)
    requires CanDo(Start(n), actions, failing) && Early(Start(n), actions, failing) && p in failing
    ensures var d := DoAll(Start(n), actions, failing);
            d.s.chans != [] && (Token(0, p) in d.s.chans[0].sleeping ==> Tries(d, p) == 2)
  {
    hide CanDo, Early, DoAll, Start, Shape;
    StartSuspends(n, failing);
    RunSuspends(Start(n), actions, failing);
    HasChannel(DoAll(Start(n), actions, failing));
  }

  // ---------------------------------------------------------------- how many calls succeed

  /** The tries of the partitions below `n`, all together. */
  ghost function AllTries(d: Caller, n: nat): nat {
    if n == 0 then 0 else AllTries(d, n - 1) + Tries(d, n - 1)
  }

  lemma {:induction false} OneMoreTry(d: Caller, d': Caller, n: nat, p: nat)
    requires forall o: nat :: Tries(d', o) == Tries(d, o) + if o == p then 1 else 0
    ensures AllTries(d', n) == AllTries(d, n) + if p < n then 1 else 0
  {
    if n > 0 {
      OneMoreTry(d, d', n - 1, p);
    }
  }

  lemma {:induction false} SameTries(d: Caller, d': Caller, n: nat)
    requires d'.tries == d.tries
    ensures AllTries(d', n) == AllTries(d, n)
  {
    if n > 0 {
      SameTries(d, d', n - 1);
    }
  }

  lemma {:induction false} AtMostTwiceEach(d: Caller, n: nat)
    requires forall p: nat :: p < n ==> Tries(d, p) <= 2
    ensures AllTries(d, n) <= 2 * n
    ensures AllTries(d, n) == 2 * n ==> forall p: nat :: p < n ==> Tries(d, p) == 2
  {
    if n > 0 {
      AtMostTwiceEach(d, n - 1);
    }
  }

  lemma {:induction false} TwiceEach(d: Caller, n: nat)
    requires forall p: nat :: p < n ==> Tries(d, p) == 2
    ensures AllTries(d, n) == 2 * n
  {
    if n > 0 {
      TwiceEach(d, n - 1);
    }
  }

  lemma GetTries(d: Caller, failing: set<nat>)
    requires Shape(d) && Possible(d, DoGet)
    ensures var d', h := Do(d, DoGet, failing), d.s.chans[0].queue[0].part;
            && d.s.chans[0].queue != [] && d'.s.chans != [] && d'.s.chans[0].cap == d.s.chans[0].cap
            && forall o: nat :: Tries(d', o) == Tries(d, o) + if o == h then 1 else 0
  {
    hide Inv;
  }

  lemma OutcomeTries(d: Caller, failing: set<nat>)
    requires Possible(d, DoOutcome)
    ensures var d' := Do(d, DoOutcome, failing);
            d'.s.chans == d.s.chans && d'.tries == d.tries
  {
  }

  lemma StepTries(d: Caller, a: Action, failing: set<nat>)
    requires Shape(d) && Possible(d, a)
    ensures var d' := Do(d, a, failing);
            && Shape(d') && d'.s.chans[0].cap == d.s.chans[0].cap
            && AllTries(d', d.s.chans[0].cap) == AllTries(d, d.s.chans[0].cap) + if a.DoGet? then 1 else 0
  {
    var d', n := Do(d, a, failing), d.s.chans[0].cap;
    hide Shape, Do, Possible;
    ShapeStays(d, a, failing);
    HasChannel(d');
    if a.DoGet? {
      HeadIsAwake(d);
      GetTries(d, failing);
      QueuedHead(d);
      OneMoreTry(d, d', n, d.s.chans[0].queue[0].part);
    } else {
      if a.DoOutcome? {
        OutcomeTries(d, failing);
      } else {
        MoveChan(d, a, failing);
      }
      SameTries(d, d', n);
    }
  }

  lemma {:induction false} HandoutsAreTries(d: Caller, actions: seq<Action>, failing: set<nat>)
    requires Shape(d) && CanDo(d, actions, failing)
    ensures var d' := DoAll(d, actions, failing);
            && Shape(d') && d'.s.chans[0].cap == d.s.chans[0].cap
            && AllTries(d', d.s.chans[0].cap) == AllTries(d, d.s.chans[0].cap) + |Handouts(d, actions, failing)|
    decreases |actions|
  {
    HasChannel(d);
    if actions != [] {
      hide Shape, Do, Possible, AllTries;
      StepTries(d, actions[0], failing);
      HasChannel(Do(d, actions[0], failing));
      HandoutsAreTries(Do(d, actions[0], failing), actions[1..], failing);
    }
  }

  lemma StartTries(n: nat, failing: set<nat>)
    ensures Shape(Start(n)) && Start(n).s.chans[0].cap == n && AllTries(Start(n), n) == 0
  {
    StartIsGood(n, failing);
    NoTries(Start(n), n);
  }

  lemma {:induction false} NoTries(d: Caller, n: nat)
    requires d.tries == map[]
    ensures AllTries(d, n) == 0
  {
    if n > 0 {
      NoTries(d, n - 1);
    }
  }

  lemma TriesBounded(d: Caller, n: nat, failing: set<nat>)
    requires Good(d, failing) && d.s.chans[0].cap == n && forall p: nat :: p < n ==> p in failing
    ensures AllTries(d, n) <= 2 * n
    ensures AllTries(d, n) == 2 * n ==> !Possible(d, DoGet)
  {
    HasChannel(d);
    hide Shape, Tracked, Possible, Tries;
    forall p: nat | p < n ensures Tries(d, p) <= 2 {
      TrackedTwice(d, p);
    }
    AtMostTwiceEach(d, n);
    if Possible(d, DoGet) && AllTries(d, n) == 2 * n {
      HeadIsAwake(d);
      QueuedHead(d);
      var h := d.s.chans[0].queue[0];
      assert h == Token(0, h.part);
      TrackedTwice(d, h.part);
      assert false;
    }
  }

  /**
   If all n partitions fail, then in every schedule at most 2n calls get a partition, and once
   2n have, none is left in the queue: the next call gets NoPartitionsAvailable.
   */
  lemma AllFailing(n: nat, failing: set<nat>, actions: seq<Action>)
    requires CanDo(Start(n), actions, failing) && forall p: nat :: p < n ==> p in failing
    ensures var d, got := DoAll(Start(n), actions, failing), |Handouts(Start(n), actions, failing)|;
            && got <= 2 * n
            && (got == 2 * n ==> !Possible(d, DoGet))
  {
    hide *;
    StartTries(n, failing);
    HandoutsAreTries(Start(n), actions, failing);
    StartIsGood(n, failing);
    RunTracks(Start(n), actions, failing);
    TriesBounded(DoAll(Start(n), actions, failing), n, failing);
  }

  lemma TrackedTwice(d: Caller, p: nat)
    requires d.s.chans != [] && Tracked(d, p)
    ensures Tries(d, p) <= 2 && (Tries(d, p) == 2 ==> Token(0, p) !in d.s.chans[0].queue)
  {
  }

  lemma QueuedHead(d: Caller)
    requires Shape(d) && Possible(d, DoGet)
    ensures d.s.chans[0].queue != [] && Current(d.s, Topic) == d.s.chans[0]
    ensures d.s.chans[0].queue[0] in d.s.chans[0].queue
  {
    hide Inv;
  }

  lemma AsleepMeansTwice(d: Caller, n: nat, failing: set<nat>)
    requires Suspending(d, failing) && d.s.chans[0].cap == n && d.s.chans[0].queue == [] && Still(d.s.chans[0])
    ensures forall p: nat :: p < n ==> p in failing && Tries(d, p) == 2
    ensures AllTries(d, n) == 2 * n
  {
    HasChannel(d);
    hide Shape, Tracked, Tries, AllTries, Still;
    forall p: nat | p < n ensures p in failing && Tries(d, p) == 2 {
      AllAsleep(d, n, p);
      assert p !in failing ==> Spared(d, p);
      assert p in failing ==> Suspends(d, p);
    }
    TwiceEach(d, n);
  }

  /**
   If counters are read first, and the queue is empty with nothing on its way back, then all
   partitions fail and each of them has been tried exactly twice.
   */
  lemma EmptyMeansTwice(n: nat, failing: set<nat>, actions: seq<Action>)
    requires CanDo(Start(n), actions, failing) && Early(Start(n), actions, failing)
    requires var d := DoAll(Start(n), actions, failing);
             d.s.chans != [] && d.s.chans[0].queue == [] && Still(d.s.chans[0])
    ensures forall p: nat :: p < n ==> p in failing && Tries(DoAll(Start(n), actions, failing), p) == 2
    ensures |Handouts(Start(n), actions, failing)| == 2 * n
  {
    hide *;
    StartTries(n, failing);
    HandoutsAreTries(Start(n), actions, failing);
    StartSuspends(n, failing);
    RunSuspends(Start(n), actions, failing);
    AsleepMeansTwice(DoAll(Start(n), actions, failing), n, failing);
  }

  /** With an empty queue and nothing on its way back, every token is in backoff. */
  lemma AllAsleep(d: Caller, n: nat, p: nat)
    requires Shape(d) && d.s.chans[0].cap == n && d.s.chans[0].queue == [] && Still(d.s.chans[0]) && p < n
    ensures Token(0, p) in d.s.chans[0].sleeping
  {
    var c := d.s.chans[0];
    InFresh(0, n, Token(0, p));
    assert InPlay(c)[Token(0, p)] == multiset(c.queue)[Token(0, p)] + c.sleeping[Token(0, p)];
  }
}
