/**
 The order in which Distribute hands out partitions (distributing_producer.go): for which
 schedules of a single caller it is the closed form of the ring, that there are such schedules,
 and what else can happen in others. Module RoundRobin has the exact condition.
 */
module CallOrder {
  import opened Partitions
  import opened Distribution
  import opened Schedules

  // ---------------------------------------------------------------- the order of the calls

  /** The queue holds the tokens of these partitions. */
  ghost predicate Queued(c: Chan, q: seq<nat>) {
    |c.queue| == |q| && forall i :: 0 <= i < |q| ==> c.queue[i] == Token(0, q[i])
  }

  ghost predicate Counts(s: Sys, r: Ring) {
    forall p :: Fails(s, Token(0, p)) == FailsOf(r, p)
  }

  /** Nothing that could wake a token. */
  ghost predicate Asleep(d: Caller, failing: set<nat>)
    requires d.s.chans != []
  {
    && (forall t :: t in d.s.chans[0].sleeping ==> t.part in failing)
    && (forall t :: t in d.s.reset ==> t.part !in failing)
  }

  /** Failures are few, and only failing partitions have any. */
  ghost predicate Plausible(r: Ring, failing: set<nat>) {
    FailsBelow(r, 2) && forall p: nat :: p !in failing ==> FailsOf(r, p) == 0
  }

  /** Where the token of the call under way is: at most one of the three places. */
  predicate Place(c: Chan, t: Token) {
    || (c.taken == multiset{t} && c.spawned == c.ready == multiset{})
    || (c.spawned == multiset{t} && c.taken == c.ready == multiset{})
    || (c.ready == multiset{t} && c.taken == c.spawned == multiset{})
    || Still(c)
  }

  /** The channel while a call that got the head of ring `r` is under way. */
  ghost predicate OnItsWay(c: Chan, call: Call, r: Ring, failing: set<nat>)
    requires r.queue != []
  {
    var t := Token(0, r.queue[0]);
    && Place(c, t)
    && (call == Resting || call == Fetching(t) || call == Producing(t))
    && (call.Fetching? <==> c.taken == multiset{t})
    && (c.ready == multiset{t} ==> FailsOf(r, t.part) == 0)
    && (call == Resting && c.spawned == multiset{t} ==> t.part !in failing)
    && Queued(c, r.queue[1..] + if Still(c) && FailsOf(r, t.part) == 0 then [t.part] else [])
  }

  /** That call, its outcome recorded or not. */
  ghost predicate During(d: Caller, r: Ring, failing: set<nat>) {
    && Shape(d) && r.queue != [] && Asleep(d, failing)
    && Counts(d.s, if d.call == Resting then NextRing(r, failing) else r)
    && OnItsWay(d.s.chans[0], d.call, r, failing)
  }

  /** When the token is back or in backoff and the outcome is recorded, the next ring shows. */
  lemma CallEnds(d: Caller, r: Ring, failing: set<nat>)
    requires During(d, r, failing) && d.call == Resting && Still(d.s.chans[0])
    ensures Shows(d, NextRing(r, failing))
  {
    hide Inv, FailsOf, Fails;
  }

  /** Between two calls nothing can happen but the next one. */
  lemma OnlyGet(d: Caller, r: Ring, a: Action, failing: set<nat>)
    requires Shows(d, r) && Asleep(d, failing) && Possible(d, a)
    ensures a == DoGet && r.queue != [] && Current(d.s, Topic).queue[0] == Token(0, r.queue[0])
  {
    hide Inv;
  }

  lemma CallBegins(d: Caller, r: Ring, failing: set<nat>)
    requires Shows(d, r) && Asleep(d, failing) && Possible(d, DoGet) && r.queue != []
    ensures During(Do(d, DoGet, failing), r, failing)
  {
    var t, d' := Token(0, r.queue[0]), Do(d, DoGet, failing);
    ShowsMeans(d, r);
    hide *;
    ShapeStays(d, DoGet, failing);
    GetPart(d, failing);
    GetResets(d, failing);
    StillCounts(d.s, d'.s, r);
    GotOnItsWay(d.s.chans[0], d'.s.chans[0], r, failing);
    GetStaysAsleep(d, d', failing);
    DuringIs(d', r, failing);
  }

  lemma ShowsMeans(d: Caller, r: Ring)
    requires Shows(d, r)
    ensures Shape(d) && |d.s.chans| == 1 && d.call == Resting && Still(d.s.chans[0])
    ensures Queued(d.s.chans[0], r.queue) && Counts(d.s, r)
    ensures r.queue != [] ==> d.s.chans[0].queue != [] && d.s.chans[0].queue[0] == Token(0, r.queue[0])
  {
    hide Inv, Fails, FailsOf;
  }

  lemma GotOnItsWay(c: Chan, c': Chan, r: Ring, failing: set<nat>)
    requires r.queue != [] && Still(c) && Queued(c, r.queue)
    requires var t := Token(0, r.queue[0]); c' == c.(queue := c.queue[1..], taken := c.taken + multiset{t})
    ensures OnItsWay(c', Fetching(Token(0, r.queue[0])), r, failing)
  {
    hide FailsOf;
  }

  lemma GetStaysAsleep(d: Caller, d': Caller, failing: set<nat>)
    requires d.s.chans != [] && d'.s.chans != [] && Asleep(d, failing)
    requires d'.s.chans[0].sleeping == d.s.chans[0].sleeping && d'.s.reset == d.s.reset
    ensures Asleep(d', failing)
  {
  }

  lemma GetResets(d: Caller, failing: set<nat>)
    requires Possible(d, DoGet)
    ensures Do(d, DoGet, failing).s.reset == d.s.reset
  {
  }

  lemma SpawnOnItsWay(c: Chan, r: Ring, failing: set<nat>)
    requires r.queue != [] && OnItsWay(c, Fetching(Token(0, r.queue[0])), r, failing)
    ensures var t := Token(0, r.queue[0]);
            OnItsWay(Moved(c, Spawn(t), 0), Producing(t), r, failing)
  {
    TokenMoves(c, Token(0, r.queue[0]), 0);
    hide FailsOf, Moved;
  }

  lemma LoadOnItsWay(c: Chan, call: Call, r: Ring, fails: nat, failing: set<nat>)
    requires r.queue != [] && OnItsWay(c, call, r, failing) && c.spawned == multiset{Token(0, r.queue[0])}
    requires fails > 0 <==> FailsOf(r, r.queue[0]) > 0
    ensures OnItsWay(Moved(c, Load(Token(0, r.queue[0])), fails), call, r, failing)
  {
    TokenMoves(c, Token(0, r.queue[0]), fails);
    hide FailsOf, Moved;
  }

  lemma SendOnItsWay(c: Chan, call: Call, r: Ring, failing: set<nat>)
    requires r.queue != [] && OnItsWay(c, call, r, failing)
    requires c.ready == multiset{Token(0, r.queue[0])} && |c.queue| < c.cap
    ensures OnItsWay(Moved(c, Send(Token(0, r.queue[0])), 0), call, r, failing)
  {
    TokenMoves(c, Token(0, r.queue[0]), 0);
    hide FailsOf, Moved;
  }

  /** Only a failing partition's token goes to sleep. */
  lemma MoveStaysAsleep(d: Caller, d': Caller, step: Step, fails: nat, failing: set<nat>)
    requires |d.s.chans| == 1 && Asleep(d, failing) && d'.s.reset <= d.s.reset
    requires d'.s.chans == [Moved(d.s.chans[0], step, fails)]
    requires step.Load? && fails > 0 ==> step.t.part in failing
    ensures Asleep(d', failing)
  {
  }

  /** The goroutine's actions during a call, and the caller's spawn. */
  lemma CallMoves(d: Caller, r: Ring, a: Action, failing: set<nat>)
    requires During(d, r, failing) && Plausible(r, failing) && Possible(d, a)
    requires a.DoSpawn? || a.DoLoad? || a.DoWake? || a.DoSend?
    ensures During(Do(d, a, failing), r, failing)
  {
    var t, d' := Token(0, r.queue[0]), Do(d, a, failing);
    var step := if a.DoSpawn? then Spawn(t) else if a.DoLoad? then Load(t) else Send(t);
    var fails := if a.DoLoad? then Fails(d.s, t) else 0;
    DuringMeans(d, r, failing);
    hide *;
    ShapeStays(d, a, failing);
    MoveChan(d, a, failing);
    MoveIsOurs(d, r, a, failing);
    LoadedFails(d, r, a, failing);
    StillCounts(d.s, d'.s, if d.call == Resting then NextRing(r, failing) else r);
    if a.DoSpawn? {
      SpawnOnItsWay(d.s.chans[0], r, failing);
    } else if a.DoLoad? {
      LoadOnItsWay(d.s.chans[0], d.call, r, fails, failing);
    } else {
      SendOnItsWay(d.s.chans[0], d.call, r, failing);
    }
    MoveStaysAsleep(d, d', step, fails, failing);
    DuringIs(d', r, failing);
  }

  lemma DuringMeans(d: Caller, r: Ring, failing: set<nat>)
    requires During(d, r, failing)
    ensures Shape(d) && |d.s.chans| == 1 && r.queue != [] && Asleep(d, failing)
    ensures Counts(d.s, if d.call == Resting then NextRing(r, failing) else r)
    ensures OnItsWay(d.s.chans[0], d.call, r, failing)
  {
  }

  lemma DuringIs(d: Caller, r: Ring, failing: set<nat>)
    requires Shape(d) && |d.s.chans| == 1 && r.queue != [] && Asleep(d, failing)
    requires Counts(d.s, if d.call == Resting then NextRing(r, failing) else r)
    requires OnItsWay(d.s.chans[0], d.call, r, failing)
    ensures During(d, r, failing)
  {
  }

  lemma StillCounts(s: Sys, s': Sys, r: Ring)
    requires s'.fails == s.fails && Counts(s, r)
    ensures Counts(s', r)
  {
    SameCounts(s, s', r);
  }

  /** The counter that is read is the one before the outcome, or that of a live partition. */
  lemma LoadedFails(d: Caller, r: Ring, a: Action, failing: set<nat>)
    requires During(d, r, failing) && Plausible(r, failing)
    requires a.DoLoad? ==> a.t == Token(0, r.queue[0]) && d.s.chans[0].spawned == multiset{a.t}
    ensures a.DoLoad? ==> (Fails(d.s, a.t) > 0 <==> FailsOf(r, r.queue[0]) > 0)
    ensures a.DoLoad? && Fails(d.s, a.t) > 0 ==> r.queue[0] in failing
  {
    if a.DoLoad? {
      var p := r.queue[0];
      assert Fails(d.s, Token(0, p)) == FailsOf(if d.call == Resting then NextRing(r, failing) else r, p);
      if p !in failing {
        PlausibleNext(r, failing, p);
      }
      hide Shape, Queued, FailsOf, NextRing, Fails;
    }
  }

  lemma PlausibleNext(r: Ring, failing: set<nat>, p: nat)
    requires Plausible(r, failing) && p !in failing
    ensures FailsOf(r, p) == 0 && FailsOf(NextRing(r, failing), p) == 0
  {
  }

  /** The single token of a call on its way. */
  lemma TokenMoves(c: Chan, t: Token, fails: nat)
    ensures c.taken == multiset{t} && c.spawned == multiset{} ==>
              Moved(c, Spawn(t), 0) == c.(taken := multiset{}, spawned := multiset{t})
    ensures c.spawned == multiset{t} && c.ready == multiset{} ==>
              Moved(c, Load(t), fails) ==
                if fails > 0 then c.(spawned := multiset{}, sleeping := c.sleeping + multiset{t})
                else c.(spawned := multiset{}, ready := multiset{t})
    ensures c.ready == multiset{t} && |c.queue| < c.cap ==>
              Moved(c, Send(t), 0) == c.(ready := multiset{}, queue := c.queue + [t])
  {
    SingleMoves(t, multiset{});
  }

  /** What it takes for a goroutine to act. */
  lemma MovePossible(d: Caller, a: Action)
    requires Shape(d) && Possible(d, a)
    ensures |d.s.chans| == 1
    ensures a.DoSpawn? ==> d.call.Fetching? && d.call.t in d.s.chans[0].taken
    ensures a.DoLoad? ==> a.t in d.s.chans[0].spawned
    ensures a.DoWake? ==> a.t in d.s.chans[0].sleeping && a.t in d.s.reset
    ensures a.DoSend? ==> a.t in d.s.chans[0].ready
  {
    hide Inv;
  }

  /** Only the token of the call can move, since nothing wakes the others. */
  lemma MoveIsOurs(d: Caller, r: Ring, a: Action, failing: set<nat>)
    requires During(d, r, failing) && Possible(d, a)
    requires a.DoSpawn? || a.DoLoad? || a.DoWake? || a.DoSend?
    ensures var t, c := Token(0, r.queue[0]), d.s.chans[0];
            && !a.DoWake? && (a.DoLoad? || a.DoSend? ==> a.t == t)
            && (a.DoSpawn? ==> d.call == Fetching(t) && c.taken == multiset{t})
            && (a.DoLoad? ==> c.spawned == multiset{t})
            && (a.DoSend? ==> c.ready == multiset{t})
  {
    MovePossible(d, a);
    hide Shape, Possible, Counts, Queued, FailsOf;
  }

  lemma OutcomeDuring(d: Caller, r: Ring, failing: set<nat>)
    requires During(d, r, failing) && Plausible(r, failing) && Possible(d, DoOutcome)
        && ReadFirst(d, DoOutcome, failing)
    ensures During(Do(d, DoOutcome, failing), r, failing)
  {
    var t, d' := Token(0, r.queue[0]), Do(d, DoOutcome, failing);
    ShapeStays(d, DoOutcome, failing);
    OutcomeIs(d, failing);
    assert Fails(d.s, t) == FailsOf(r, t.part) <= 2;
    var v := if t.part in failing then FailsOf(r, t.part) + 1 else 0;
    CountsUpdated(d.s, d'.s, r, NextRing(r, failing), t.part, v);
    hide Shape, Do, Possible, Fails, FailsOf, NextRing, Plausible;
  }

  lemma OutcomeIs(d: Caller, failing: set<nat>)
    requires Possible(d, DoOutcome)
    ensures var t, d' := d.call.t, Do(d, DoOutcome, failing);
            && d'.s.chans == d.s.chans && d'.call == Resting
            && d'.s.fails == d.s.fails[t := if t.part in failing then (Fails(d.s, t) + 1) % Uint64 else 0]
            && d'.s.reset == if t.part in failing then d.s.reset else d.s.reset + {t}
  {
  }

  lemma {:induction false} RingIsPlausible(n: nat, failing: set<nat>, k: nat)
    ensures Plausible(RingAfter(n, failing, k), failing)
  {
    FewFailures(n, failing, k);
    if k > 0 {
      RingIsPlausible(n, failing, k - 1);
    }
  }

  /** `k` calls have got a partition so far. */
  ghost predicate Behind(d: Caller, n: nat, failing: set<nat>, k: nat) {
    || (Shows(d, RingAfter(n, failing, k)) && Asleep(d, failing))
    || (k > 0 && During(d, RingAfter(n, failing, k - 1), failing))
  }

  /** A call that begins with nothing on its way back finds the ring of its number. */
  lemma ShowsThen(d: Caller, n: nat, failing: set<nat>, k: nat)
    requires Behind(d, n, failing, k) && d.call == Resting && d.s.chans != [] && Still(d.s.chans[0])
    ensures Shows(d, RingAfter(n, failing, k)) && Asleep(d, failing)
  {
    if k > 0 {
      RingNext(n, failing, k);
      hide RingAfter, NextRing, Shape, Counts, Queued;
      if During(d, RingAfter(n, failing, k - 1), failing) {
        CallEnds(d, RingAfter(n, failing, k - 1), failing);
      }
    }
  }

  lemma StepBehind(d: Caller, a: Action, n: nat, failing: set<nat>, k: nat)
    requires Behind(d, n, failing, k) && Possible(d, a) && d.s.chans != []
    requires ReadFirst(d, a, failing) && (a.DoGet? ==> Still(d.s.chans[0]))
    ensures Behind(Do(d, a, failing), n, failing, if a.DoGet? then k + 1 else k)
    ensures a.DoGet? ==>
      var r := RingAfter(n, failing, k);
      r.queue != [] && Known(d.s, Topic) && Current(d.s, Topic).queue != []
          && Current(d.s, Topic).queue[0].part == r.queue[0]
  {
    var r := RingAfter(n, failing, k);
    hide RingAfter, NextRing, Shape, Counts, Queued, Do, ReadFirst, Still, Asleep;
    if a.DoGet? {
      ShowsThen(d, n, failing, k);
      OnlyGet(d, r, a, failing);
      CallBegins(d, r, failing);
    } else if Shows(d, r) && Asleep(d, failing) {
      OnlyGet(d, r, a, failing);
    } else {
      var before := RingAfter(n, failing, k - 1);
      RingIsPlausible(n, failing, k - 1);
      if a.DoOutcome? {
        OutcomeDuring(d, before, failing);
      } else {
        CallMoves(d, before, a, failing);
      }
    }
  }

  /** The handouts `h` are those of the closed form from number `k` on. */
  ghost predicate Expected(h: seq<nat>, n: nat, failing: set<nat>, k: nat) {
    forall i :: 0 <= i < |h| ==> Kth(n, failing, k + i) == [h[i]]
  }

  lemma ExpectedMore(p: nat, h: seq<nat>, n: nat, failing: set<nat>, k: nat)
    ensures Expected([], n, failing, k)
    ensures [] + h == h
    ensures Expected(h, n, failing, k + 1) && Kth(n, failing, k) == [p] ==> Expected([p] + h, n, failing, k)
  {
    hide Kth;
    if Expected(h, n, failing, k + 1) && Kth(n, failing, k) == [p] {
      forall i | 0 <= i < |h| + 1 ensures Kth(n, failing, k + i) == [([p] + h)[i]] {
        if i > 0 {
          assert Kth(n, failing, k + 1 + (i - 1)) == [h[i - 1]];
        }
      }
    }
  }

  /** One action of a schedule, and the rest. */
  lemma ScheduleStep(d: Caller, actions: seq<Action>, failing: set<nat>)
    requires CanDo(d, actions, failing) && Early(d, actions, failing) && Prompt(d, actions, failing)
    ensures actions == [] ==> Handouts(d, actions, failing) == [] && DoAll(d, actions, failing) == d
    ensures actions != [] ==>
      var a := actions[0];
      && Possible(d, a) && d.s.chans != [] && ReadFirst(d, a, failing) && (a.DoGet? ==> Still(d.s.chans[0]))
      && var d', rest := Do(d, a, failing), actions[1..];
      && CanDo(d', rest, failing) && Early(d', rest, failing) && Prompt(d', rest, failing)
      && DoAll(d, actions, failing) == DoAll(d', rest, failing)
      && Handouts(d, actions, failing) ==
           (if a.DoGet? then [Current(d.s, Topic).queue[0].part] else []) + Handouts(d', rest, failing)
  {
  }

  lemma {:induction false} RunInOrder(d: Caller, actions: seq<Action>, n: nat, failing: set<nat>, k: nat)
    requires Behind(d, n, failing, k) && CanDo(d, actions, failing)
    requires Early(d, actions, failing) && Prompt(d, actions, failing)
    ensures var h := Handouts(d, actions, failing);
            Behind(DoAll(d, actions, failing), n, failing, k + |h|) && Expected(h, n, failing, k)
    decreases |actions|
  {
    hide *;
    ScheduleStep(d, actions, failing);
    if actions == [] {
      ExpectedMore(0, [], n, failing, k);
    } else {
      var a := actions[0];
      var d' := Do(d, a, failing);
      StepBehind(d, a, n, failing, k);
      var k' := if a.DoGet? then k + 1 else k;
      RunInOrder(d', actions[1..], n, failing, k');
      var h' := Handouts(d', actions[1..], failing);
      if a.DoGet? {
        var p := RingAfter(n, failing, k).queue[0];
        CallsInOrder(n, failing, k);
        FirstIs(RingAfter(n, failing, k).queue);
        ExpectedMore(p, h', n, failing, k);
        assert k + |[p] + h'| == k' + |h'|;
      } else {
        ExpectedMore(0, h', n, failing, k);
      }
    }
  }

  lemma StartBehind(n: nat, failing: set<nat>)
    ensures Behind(Start(n), n, failing, 0)
  {
    StartShows(n, failing);
    hide Inv, Shows;
  }

  /**
   For every schedule in which calls begin with no token on its way back and failures are
   recorded after their counter is read: the k-th call that gets a partition gets the k-th of
   the closed form, and whenever a call begins it gets one if and only if the closed form has
   one for it. So 2n calls go round all partitions twice, then the live ones keep cycling in
   order, and if there are none every further call gets NoPartitionsAvailable.
   */
  lemma HandedOutInOrder(n: nat, failing: set<nat>, actions: seq<Action>)
    requires CanDo(Start(n), actions, failing)
    requires Early(Start(n), actions, failing) && Prompt(Start(n), actions, failing)
    ensures var d, h := DoAll(Start(n), actions, failing), Handouts(Start(n), actions, failing);
            && (forall k :: 0 <= k < |h| ==> Kth(n, failing, k) == [h[k]])
            && (d.s.chans != [] && d.call == Resting && Still(d.s.chans[0]) ==>
                 (Possible(d, DoGet) <==> Kth(n, failing, |h|) != []))
  {
    var d, h := DoAll(Start(n), actions, failing), Handouts(Start(n), actions, failing);
    hide *;
    RunFromStart(n, failing, actions);
    ExpectedFromStart(h, n, failing);
    if d.s.chans != [] && d.call == Resting && Still(d.s.chans[0]) {
      NextCall(d, n, failing, |h|);
    }
  }

  lemma RunFromStart(n: nat, failing: set<nat>, actions: seq<Action>)
    requires CanDo(Start(n), actions, failing)
    requires Early(Start(n), actions, failing) && Prompt(Start(n), actions, failing)
    ensures var h := Handouts(Start(n), actions, failing);
            Behind(DoAll(Start(n), actions, failing), n, failing, |h|) && Expected(h, n, failing, 0)
  {
    hide *;
    StartBehind(n, failing);
    RunInOrder(Start(n), actions, n, failing, 0);
  }

  lemma NextCall(d: Caller, n: nat, failing: set<nat>, k: nat)
    requires Behind(d, n, failing, k) && d.call == Resting && d.s.chans != [] && Still(d.s.chans[0])
    ensures Possible(d, DoGet) <==> Kth(n, failing, k) != []
  {
    hide *;
    ShowsThen(d, n, failing, k);
    CanGet(d, RingAfter(n, failing, k));
    CallsInOrder(n, failing, k);
    FirstIs(RingAfter(n, failing, k).queue);
  }

  lemma ExpectedFromStart(h: seq<nat>, n: nat, failing: set<nat>)
    requires Expected(h, n, failing, 0)
    ensures forall k :: 0 <= k < |h| ==> Kth(n, failing, k) == [h[k]]
  {
    hide Kth;
    forall k | 0 <= k < |h| ensures Kth(n, failing, k) == [h[k]] {
      assert Kth(n, failing, 0 + k) == [h[k]];
    }
  }

  lemma CanGet(d: Caller, r: Ring)
    requires Shows(d, r)
    ensures Possible(d, DoGet) <==> r.queue != []
  {
    hide Inv, Fails, FailsOf;
  }

  lemma FirstIs(q: seq<nat>)
    ensures First(q) == [] <==> q == []
    ensures q != [] ==> First(q) == [q[0]]
  {
  }

  /**
   With nothing failing and tokens put back promptly, in whatever order outcomes are recorded,
   the k-th call gets partition k mod n.
   */
  lemma PromptRoundRobin(n: nat, actions: seq<Action>, k: nat)
    requires CanDo(Start(n), actions, {}) && Prompt(Start(n), actions, {})
    requires k < |Handouts(Start(n), actions, {})|
    ensures n > 0 && Handouts(Start(n), actions, {})[k] == k % n
  {
    hide *;
    StartSuspends(n, {});
    AlwaysEarly(Start(n), actions);
    HandedOutInOrder(n, {}, actions);
    NoPartitions(n, k);
    KthWithoutFailures(n, k);
  }

  lemma NoPartitions(n: nat, k: nat)
    requires Kth(n, {}, k) != []
    ensures n > 0
  {
  }

  lemma {:induction false} AlwaysEarly(d: Caller, actions: seq<Action>)
    requires Suspending(d, {}) && CanDo(d, actions, {})
    ensures Early(d, actions, {})
    decreases |actions|
  {
    if actions != [] {
      hide Suspending, Do, Possible;
      SuspendingHasChannel(d);
      StepSuspends(d, actions[0], {});
      AlwaysEarly(Do(d, actions[0], {}), actions[1..]);
    }
  }

  lemma SuspendingHasChannel(d: Caller)
    requires Suspending(d, {})
    ensures |d.s.chans| == 1
  {
    hide Inv;
  }

  // ---------------------------------------------------------------- such schedules exist

  lemma {:induction false} DoSplit(d: Caller, actions: seq<Action>, more: seq<Action>, failing: set<nat>)
    requires CanDo(d, actions + more, failing)
    ensures CanDo(d, actions, failing) && CanDo(DoAll(d, actions, failing), more, failing)
    ensures DoAll(d, actions + more, failing) == DoAll(DoAll(d, actions, failing), more, failing)
    decreases |actions|
  {
    if actions == [] {
      assert actions + more == more;
    } else {
      assert (actions + more)[0] == actions[0] && (actions + more)[1..] == actions[1..] + more;
      DoSplit(Do(d, actions[0], failing), actions[1..], more, failing);
    }
  }

  /** An action in front of a schedule. */
  lemma ScheduleFirst(d: Caller, a: Action, rest: seq<Action>, failing: set<nat>)
    requires Possible(d, a) && d.s.chans != [] && ReadFirst(d, a, failing) && (a.DoGet? ==> Still(d.s.chans[0]))
    requires CanDo(Do(d, a, failing), rest, failing)
    requires Early(Do(d, a, failing), rest, failing) && Prompt(Do(d, a, failing), rest, failing)
    ensures CanDo(d, [a] + rest, failing) && Early(d, [a] + rest, failing) && Prompt(d, [a] + rest, failing)
    ensures Handouts(d, [a] + rest, failing) ==
            (if a.DoGet? then [Current(d.s, Topic).queue[0].part] else []) + Handouts(Do(d, a, failing), rest, failing)
  {
    assert ([a] + rest)[0] == a && ([a] + rest)[1..] == rest;
  }

  lemma {:induction false} OrderlyMore(d: Caller, actions: seq<Action>, more: seq<Action>, failing: set<nat>)
    requires CanDo(d, actions, failing) && Early(d, actions, failing) && Prompt(d, actions, failing)
    requires CanDo(DoAll(d, actions, failing), more, failing)
    requires Early(DoAll(d, actions, failing), more, failing) && Prompt(DoAll(d, actions, failing), more, failing)
    ensures CanDo(d, actions + more, failing) && Early(d, actions + more, failing) && Prompt(d, actions + more, failing)
    ensures Handouts(d, actions + more, failing) ==
        Handouts(d, actions, failing) + Handouts(DoAll(d, actions, failing), more, failing)
    decreases |actions|
  {
    hide *;
    ScheduleStep(d, actions, failing);
    if actions == [] {
      assert actions + more == more;
    } else {
      var a, rest := actions[0], actions[1..];
      var d' := Do(d, a, failing);
      OrderlyMore(d', rest, more, failing);
      ScheduleFirst(d, a, rest + more, failing);
      assert actions + more == [a] + (rest + more);
    }
  }

  /** Actions of goroutines alone are orderly. */
  lemma {:induction false} MovesAreOrderly(d: Caller, actions: seq<Action>, failing: set<nat>)
    requires Shape(d) && CanDo(d, actions, failing) && DoGet !in actions && DoOutcome !in actions
    ensures Early(d, actions, failing) && Prompt(d, actions, failing) && Handouts(d, actions, failing) == []
    decreases |actions|
  {
    if actions != [] {
      assert actions[0] in actions;
      HasChannel(d);
      hide Shape, Possible, Do, Still;
      ShapeStays(d, actions[0], failing);
      MovesAreOrderly(Do(d, actions[0], failing), actions[1..], failing);
    }
  }

  /** The goroutine's part of a call, between the get and the outcome. */
  function Between(r: Ring): seq<Action>
    requires r.queue != []
  {
    var t := Token(0, r.queue[0]);
    [DoSpawn, DoLoad(t)] + if FailsOf(r, t.part) == 0 then [DoSend(t)] else []
  }

  lemma CallIsOrderly(d: Caller, r: Ring, failing: set<nat>)
    requires Shows(d, r) && r.queue != [] && FailsBelow(r, 2)
    ensures CanDo(d, CallSteps(r), failing) && Shows(DoAll(d, CallSteps(r), failing), NextRing(r, failing))
    ensures Early(d, CallSteps(r), failing) && Prompt(d, CallSteps(r), failing)
    ensures |Handouts(d, CallSteps(r), failing)| == 1
  {
    CallRuns(d, r, failing);
    assert CallSteps(r) == [DoGet] + (Between(r) + [DoOutcome]);
    assert DoGet !in Between(r) && DoOutcome !in Between(r);
    ShowsMeans(d, r);
    hide *;
    DoSplit(d, [DoGet], Between(r) + [DoOutcome], failing);
    OneAction(d, DoGet, failing);
    var d1 := Do(d, DoGet, failing);
    ShapeStays(d, DoGet, failing);
    DoSplit(d1, Between(r), [DoOutcome], failing);
    MovesAreOrderly(d1, Between(r), failing);
    var d4 := DoAll(d1, Between(r), failing);
    OneAction(d4, DoOutcome, failing);
    OutcomeIs(d4, failing);
    ShowsMeans(Do(d4, DoOutcome, failing), NextRing(r, failing));
    StillReads(d4, failing);
    OrderlyMore(d1, Between(r), [DoOutcome], failing);
    OrderlyMore(d, [DoGet], Between(r) + [DoOutcome], failing);
  }

  lemma StillReads(d: Caller, failing: set<nat>)
    requires Possible(d, DoOutcome) && |d.s.chans| == 1 && Still(d.s.chans[0])
    ensures CanDo(d, [DoOutcome], failing) && Early(d, [DoOutcome], failing)
  {
    OneAction(d, DoOutcome, failing);
    assert ReadFirst(d, DoOutcome, failing);
    hide Do, Possible, ReadFirst, Still;
  }

  lemma OneAction(d: Caller, a: Action, failing: set<nat>)
    ensures CanDo(d, [a], failing) <==> Possible(d, a)
    ensures Possible(d, a) ==> DoAll(d, [a], failing) == Do(d, a, failing)
    ensures Possible(d, a) && |d.s.chans| == 1 && !a.DoOutcome? ==> Early(d, [a], failing)
    ensures Possible(d, a) && |d.s.chans| == 1 && (a.DoGet? ==> Still(d.s.chans[0])) ==> Prompt(d, [a], failing)
    ensures Possible(d, a) ==> |Handouts(d, [a], failing)| == if a.DoGet? then 1 else 0
  {
    hide Do, Possible, Still;
    if Possible(d, a) {
      assert CanDo(Do(d, a, failing), [], failing);
      assert [a][1..] == [];
    }
  }

  /**
   For any number of calls there is a schedule of that kind with so many calls in it, and with
   2n or more of them every partition that fails has been tried exactly twice.
   */
  lemma {:induction false} OrderlyRunsExist(n: nat, failing: set<nat>, k: nat) returns (actions: seq<Action>)
    ensures CanDo(Start(n), actions, failing)
    ensures Early(Start(n), actions, failing) && Prompt(Start(n), actions, failing)
    ensures Shows(DoAll(Start(n), actions, failing), RingAfter(n, failing, k))
    ensures (forall j: nat :: j < k ==> RingAfter(n, failing, j).queue != []) ==>
        |Handouts(Start(n), actions, failing)| == k
    ensures k >= 2 * n ==> forall p :: p in failing && p < n ==> Tries(DoAll(Start(n), actions, failing), p) == 2
    decreases k
  {
    hide *;
    if k == 0 {
      actions := [];
      NoActions(Start(n), failing);
      StartShows(n, failing);
    } else {
      var before := OrderlyRunsExist(n, failing, k - 1);
      var r := RingAfter(n, failing, k - 1);
      actions := before;
      if r.queue == [] {
        NothingToHandOut(n, failing, k - 1);
      } else {
        FewFailures(n, failing, k - 1);
        CallIsOrderly(DoAll(Start(n), before, failing), r, failing);
        DoMore(Start(n), before, CallSteps(r), failing);
        OrderlyMore(Start(n), before, CallSteps(r), failing);
        actions := before + CallSteps(r);
        RingNext(n, failing, k);
      }
    }
    if k >= 2 * n {
      FewFailuresLater(n, failing, k - 2 * n);
      StartIsGood(n, failing);
      RunTracks(Start(n), actions, failing);
      TriesAreTwo(DoAll(Start(n), actions, failing), RingAfter(n, failing, 2 * n + (k - 2 * n)), n, failing);
    }
  }

  lemma NoActions(d: Caller, failing: set<nat>)
    ensures CanDo(d, [], failing) && DoAll(d, [], failing) == d
    ensures Early(d, [], failing) && Prompt(d, [], failing) && Handouts(d, [], failing) == []
  {
  }

  // ---------------------------------------------------------------- promptness is needed

  /** The machine with two partitions, nothing failed, and these tokens queued and on their way. */
  function TwoParts(queue: seq<Token>, taken: multiset<Token>, spawned: multiset<Token>, ready: multiset<Token>,
      fails: map<Token, nat>, reset: set<Token>, call: Call, tries: map<nat, nat>): Caller
  {
    Caller(Sys([Chan(2, queue, taken, spawned, multiset{}, ready)], map[Topic := 0], fails, reset, false), call, tries)
  }

  const A := Token(0, 0)
  const B := Token(0, 1)
  const Nothing: multiset<Token> := multiset{}

  /** The states of the run below. */
  function Run2(i: nat): Caller {
    var one, two := map[0 := 1], map[0 := 1, 1 := 1];
    if i == 0 then TwoParts([A, B], Nothing, Nothing, Nothing, map[], {}, Resting, map[])
    else if i == 1 then TwoParts([B], multiset{A}, Nothing, Nothing, map[], {}, Fetching(A), one)
    else if i == 2 then TwoParts([B], Nothing, multiset{A}, Nothing, map[], {}, Producing(A), one)
    else if i == 3 then TwoParts([B], Nothing, Nothing, multiset{A}, map[], {}, Producing(A), one)
    else if i == 4 then TwoParts([B], Nothing, Nothing, multiset{A}, map[A := 0], {A}, Resting, one)
    else if i == 5 then TwoParts([], multiset{B}, Nothing, multiset{A}, map[A := 0], {A}, Fetching(B), two)
    else if i == 6 then TwoParts([], Nothing, multiset{B}, multiset{A}, map[A := 0], {A}, Producing(B), two)
    else if i == 7 then TwoParts([], Nothing, Nothing, multiset{A, B}, map[A := 0], {A}, Producing(B), two)
    else if i == 8 then TwoParts([B], Nothing, Nothing, multiset{A}, map[A := 0], {A}, Producing(B), two)
    else if i == 9 then TwoParts([B], Nothing, Nothing, multiset{A}, map[A := 0, B := 0], {A, B}, Resting, two)
    else TwoParts([], multiset{B}, Nothing, multiset{A}, map[A := 0, B := 0], {A, B}, Fetching(B), map[0 := 1, 1 := 2])
  }

  /** Call, read, outcome; call, read, put back, outcome; call: the first token is never put back. */
  function Action2(i: nat): Action {
    if i == 2 then DoLoad(A)
    else if i == 6 then DoLoad(B)
    else if i == 7 then DoSend(B)
    else if i == 0 || i == 4 || i == 9 then DoGet
    else if i == 1 || i == 5 then DoSpawn
    else DoOutcome
  }

  function Actions2(i: nat): seq<Action>
    decreases 10 - i
  {
    if i >= 10 then [] else [Action2(i)] + Actions2(i + 1)
  }

  function Got2(i: nat): seq<nat> {
    if i == 0 then [0, 1, 1] else if i <= 4 then [1, 1] else if i <= 9 then [1] else []
  }

  lemma Moves2()
    ensures Nothing + multiset{A} == multiset{A} && multiset{A} - multiset{A} == Nothing
    ensures Nothing + multiset{B} == multiset{B} && multiset{B} - multiset{B} == Nothing
    ensures multiset{A} + multiset{B} == multiset{A, B} && multiset{A, B} - multiset{B} == multiset{A}
  {
  }

  lemma Gets2(i: nat)
    requires i in {0, 4, 9}
    ensures Goes(Run2(i), Action2(i), Run2(i + 1))
    ensures Current(Run2(i).s, Topic).queue[0].part == if i == 0 then 0 else 1
  {
    Moves2();
    var d, e := Do(Run2(i), Action2(i), {}), Run2(i + 1);
    assert d.s.chans[0].queue == e.s.chans[0].queue;
    assert d.s.chans == e.s.chans;
    assert d.s.fails == e.s.fails && d.s.reset == e.s.reset && d.tries == e.tries;
  }

  lemma Spawns2(i: nat)
    requires i in {1, 5}
    ensures Goes(Run2(i), Action2(i), Run2(i + 1))
  {
    Moves2();
    var d, e := Do(Run2(i), Action2(i), {}), Run2(i + 1);
    assert d.s.chans[0].queue == e.s.chans[0].queue;
    assert d.s.chans == e.s.chans;
    assert d.s.fails == e.s.fails && d.s.reset == e.s.reset && d.tries == e.tries;
  }

  lemma Loads2(i: nat)
    requires i in {2, 6}
    ensures Goes(Run2(i), Action2(i), Run2(i + 1))
  {
    Moves2();
    var d, e := Do(Run2(i), Action2(i), {}), Run2(i + 1);
    assert d.s.chans[0].queue == e.s.chans[0].queue;
    assert d.s.chans == e.s.chans;
    assert d.s.fails == e.s.fails && d.s.reset == e.s.reset && d.tries == e.tries;
  }

  lemma Sends2(i: nat)
    requires i == 7
    ensures Goes(Run2(i), Action2(i), Run2(i + 1))
  {
    Moves2();
    var d, e := Do(Run2(i), Action2(i), {}), Run2(i + 1);
    assert d.s.chans[0].queue == e.s.chans[0].queue;
    assert d.s.chans == e.s.chans;
    assert d.s.fails == e.s.fails && d.s.reset == e.s.reset && d.tries == e.tries;
  }

  lemma Outcomes2(i: nat)
    requires i in {3, 8}
    ensures Goes(Run2(i), Action2(i), Run2(i + 1))
  {
    Moves2();
    var d, e := Do(Run2(i), Action2(i), {}), Run2(i + 1);
    assert d.s.chans[0].queue == e.s.chans[0].queue;
    assert d.s.chans == e.s.chans;
    assert d.s.fails == e.s.fails && d.s.reset == e.s.reset && d.tries == e.tries;
  }

  lemma Step2(i: nat)
    requires i < 10
    ensures Goes(Run2(i), Action2(i), Run2(i + 1))
    ensures Action2(i).DoGet? ==> Current(Run2(i).s, Topic).queue[0].part == if i == 0 then 0 else 1
  {
    hide Run2, Goes;
    if i in {0, 4, 9} {
      Gets2(i);
    } else if i in {1, 5} {
      Spawns2(i);
    } else if i in {2, 6} {
      Loads2(i);
    } else if i == 7 {
      Sends2(i);
    } else {
      Outcomes2(i);
    }
  }

  lemma Unfold2(i: nat)
    requires i <= 10
    ensures i == 10 ==> Actions2(i) == [] && Got2(i) == []
    ensures i < 10 ==> Actions2(i) == [Action2(i)] + Actions2(i + 1)
    ensures i < 10 ==> Got2(i) == (if Action2(i).DoGet? then [if i == 0 then 0 else 1] else []) + Got2(i + 1)
  {
  }

  lemma {:induction false} RunOfTwo(i: nat)
    requires i <= 10
    ensures CanDo(Run2(i), Actions2(i), {}) && Early(Run2(i), Actions2(i), {})
    ensures Handouts(Run2(i), Actions2(i), {}) == Got2(i)
    decreases 10 - i
  {
    hide *;
    Unfold2(i);
    if i == 10 {
      Ended(Run2(i));
    } else {
      Step2(i);
      RunOfTwo(i + 1);
      GoesFirst(Run2(i), Action2(i), Run2(i + 1), Actions2(i + 1));
    }
  }

  /**
   Early reading alone does not give the order: if the token of the first call is put back only
   after the second call's, the third call gets partition 1 and not 0.
   */
  lemma LatePutBackDisorders() returns (actions: seq<Action>)
    ensures CanDo(Start(2), actions, {}) && Early(Start(2), actions, {})
    ensures Handouts(Start(2), actions, {}) == [0, 1, 1] && Kth(2, {}, 2) == [0]
  {
    StartOfTwo();
    KthOfTwo();
    hide *;
    RunOfTwo(0);
    GotAll();
    actions := Actions2(0);
  }

  lemma GotAll()
    ensures Got2(0) == [0, 1, 1]
  {
  }

  ghost predicate Goes(d: Caller, a: Action, d': Caller) {
    Possible(d, a) && Do(d, a, {}) == d' && |d.s.chans| == 1
  }

  lemma StartOfTwo()
    ensures Start(2) == Run2(0)
  {
    assert Fresh(0, 2) == [Token(0, 0), Token(0, 1)];
  }

  lemma KthOfTwo()
    ensures Kth(2, {}, 2) == [0]
  {
    assert 2 % 2 == 0;
  }

  lemma Ended(d: Caller)
    ensures CanDo(d, [], {}) && Early(d, [], {}) && Handouts(d, [], {}) == []
  {
  }

  lemma GoesFirst(d: Caller, a: Action, d': Caller, rest: seq<Action>)
    requires Goes(d, a, d') && CanDo(d', rest, {}) && Early(d', rest, {})
    ensures CanDo(d, [a] + rest, {}) && Early(d, [a] + rest, {})
    ensures Handouts(d, [a] + rest, {}) ==
        (if a.DoGet? then [Current(d.s, Topic).queue[0].part] else []) + Handouts(d', rest, {})
  {
    assert ([a] + rest)[0] == a && ([a] + rest)[1..] == rest;
  }
}
