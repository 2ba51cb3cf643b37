/**
 Distribute (distributing_producer.go) over the token machine: a single caller, a set of
 partitions whose produces always fail, and no backoff timer running out.
 */
module Distribution {
  import opened Arithmetic
  import opened Partitions

  const Topic := "topic"

  /** Where the caller is: between calls, inside GetPartition, or waiting for its produce. */
  datatype Call = Resting | Fetching(t: Token) | Producing(t: Token)

  /** The machine, the caller, and how often each partition was handed out. */
  datatype Caller = Caller(s: Sys, call: Call, tries: map<nat, nat>)

  datatype Action = DoGet | DoSpawn | DoOutcome | DoLoad(t: Token) | DoWake(t: Token) | DoSend(t: Token)

  function Start(n: nat): Caller {
    Caller(Apply(Empty, SetCount(Topic, n)), Resting, map[])
  }

  function Tries(d: Caller, p: nat): nat {
    if p in d.tries then d.tries[p] else 0
  }

  predicate Possible(d: Caller, a: Action) {
    match a
    case DoGet => d.call == Resting && Enabled(d.s, Get(Topic))
    case DoSpawn => d.call.Fetching? && Enabled(d.s, Spawn(d.call.t))
    case DoOutcome => d.call.Producing?
    case DoLoad(t) => Enabled(d.s, Load(t))
    case DoWake(t) => Enabled(d.s, Wake(t))
    case DoSend(t) => Enabled(d.s, Send(t))
  }

  function Do(d: Caller, a: Action, failing: set<nat>): Caller
    requires Possible(d, a)
  {
    match a
    case DoGet =>
      var t := Current(d.s, Topic).queue[0];
      Caller(Apply(d.s, Get(Topic)), Fetching(t), d.tries[t.part := Tries(d, t.part) + 1])
    case DoSpawn => Caller(Apply(d.s, Spawn(d.call.t)), Producing(d.call.t), d.tries)
    case DoOutcome =>
      var t := d.call.t;
      Caller(if t.part in failing then Apply(d.s, Fail(t))
             else Apply(Apply(d.s, SuccessStore(t)), SuccessSignal(t)), Resting, d.tries)
    case DoLoad(t) => d.(s := Apply(d.s, Load(t)))
    case DoWake(t) => d.(s := Apply(d.s, Wake(t)))
    case DoSend(t) => d.(s := Apply(d.s, Send(t)))
  }

  ghost predicate CanDo(d: Caller, actions: seq<Action>, failing: set<nat>)
    decreases |actions|
  {
    actions == [] || (Possible(d, actions[0]) && CanDo(Do(d, actions[0], failing), actions[1..], failing))
  }

  ghost function DoAll(d: Caller, actions: seq<Action>, failing: set<nat>): Caller
    requires CanDo(d, actions, failing)
    decreases |actions|
  {
    if actions == [] then d else DoAll(Do(d, actions[0], failing), actions[1..], failing)
  }

  // ---------------------------------------------------------------- at most twice

  predicate Busy(d: Caller, t: Token) {
    !d.call.Resting? && d.call.t == t
  }

  /** One channel, and the bookkeeping of a partition that always fails. */
  ghost predicate Shape(d: Caller) {
    Inv(d.s) && |d.s.chans| == 1 && d.s.current == map[Topic := 0]
  }

  ghost predicate Tracked(d: Caller, p: nat)
    requires d.s.chans != []
  {
    var t, c := Token(0, p), d.s.chans[0];
    && Tries(d, p) == Fails(d.s, t) + (if Busy(d, t) then 1 else 0)
    && Tries(d, p) <= 2
    && (Tries(d, p) == 2 ==> t !in c.queue && t !in c.ready)
    && t !in d.s.reset
  }

  ghost predicate Good(d: Caller, failing: set<nat>) {
    Shape(d) && forall p :: p in failing ==> Tracked(d, p)
  }

  lemma ShapeStays(d: Caller, a: Action, failing: set<nat>)
    requires Shape(d) && Possible(d, a)
    ensures Shape(Do(d, a, failing))
  {
    match a
    case DoGet => StepKeeps(d.s, Get(Topic));
    case DoSpawn => StepKeeps(d.s, Spawn(d.call.t));
    case DoOutcome =>
    case DoLoad(t) => StepKeeps(d.s, Load(t));
    case DoWake(t) => StepKeeps(d.s, Wake(t));
    case DoSend(t) => StepKeeps(d.s, Send(t));
  }

  /** The head of the queue is nowhere else in play. */
  lemma HeadIsOnlyThere(d: Caller)
    requires Shape(d) && Possible(d, DoGet)
    ensures var t, c := Current(d.s, Topic).queue[0], d.s.chans[0];
            t.gen == 0 && t !in c.queue[1..] && t !in c.ready
  {
    var c := d.s.chans[0];
    var t := c.queue[0];
    QueueHead(c.queue);
    assert multiset(c.queue)[t] == 1 + multiset(c.queue[1..])[t];
    AtHome(0, c, t);
    assert InPlay(c)[t] == multiset(c.queue)[t] + c.taken[t] + c.spawned[t] + c.sleeping[t] + c.ready[t];
  }

  lemma GetTracks(d: Caller, failing: set<nat>, p: nat)
    requires Shape(d) && Possible(d, DoGet) && Tracked(d, p)
    ensures Do(d, DoGet, failing).s.chans != [] && Tracked(Do(d, DoGet, failing), p)
  {
    HeadIsOnlyThere(d);
    var c := d.s.chans[0];
    var h := c.queue[0];
    var c' := Do(d, DoGet, failing).s.chans[0];
    assert c'.queue == c.queue[1..] && c'.ready == c.ready;
    assert h in c.queue;
    assert forall t :: t in c.queue[1..] ==> t in c.queue;
  }

  lemma SendTracks(d: Caller, u: Token, failing: set<nat>, p: nat)
    requires Shape(d) && Possible(d, DoSend(u)) && Tracked(d, p)
    ensures Do(d, DoSend(u), failing).s.chans != [] && Tracked(Do(d, DoSend(u), failing), p)
  {
    RoomForToken(d.s, u);
    MoveIs(d.s, Send(u), 0);
    hide Inv;
    var c, c' := d.s.chans[0], Do(d, DoSend(u), failing).s.chans[0];
    assert c'.queue == c.queue + [u];
    assert c'.ready == c.ready - multiset{u};
  }

  lemma LoadTracks(d: Caller, u: Token, failing: set<nat>, p: nat)
    requires Shape(d) && Possible(d, DoLoad(u)) && Tracked(d, p)
    ensures Do(d, DoLoad(u), failing).s.chans != [] && Tracked(Do(d, DoLoad(u), failing), p)
  {
    hide Inv;
    var c, c' := d.s.chans[0], Do(d, DoLoad(u), failing).s.chans[0];
    assert c'.queue == c.queue;
    assert c'.ready == if Fails(d.s, u) > 0 then c.ready else c.ready + multiset{u};
  }

  lemma MoveTracks(d: Caller, a: Action, failing: set<nat>, p: nat)
    requires Shape(d) && Possible(d, a) && Tracked(d, p) && p in failing
    requires a != DoGet
    ensures Do(d, a, failing).s.chans != [] && Tracked(Do(d, a, failing), p)
  {
    match a
    case DoSend(u) => SendTracks(d, u, failing, p);
    case DoLoad(u) => LoadTracks(d, u, failing, p);
    case DoSpawn => SpawnTracks(d, failing, p);
    case DoWake(u) => WakeTracks(d, u, failing, p);
    case DoOutcome => OutcomeTracks(d, failing, p);
  }

  lemma SpawnTracks(d: Caller, failing: set<nat>, p: nat)
    requires Shape(d) && Possible(d, DoSpawn) && Tracked(d, p)
    ensures Do(d, DoSpawn, failing).s.chans != [] && Tracked(Do(d, DoSpawn, failing), p)
  {
    hide Inv;
  }

  /** Only a success sets the reset flag, so a failing partition is never woken early. */
  lemma WakeTracks(d: Caller, u: Token, failing: set<nat>, p: nat)
    requires Shape(d) && Possible(d, DoWake(u)) && Tracked(d, p)
    ensures Do(d, DoWake(u), failing).s.chans != [] && Tracked(Do(d, DoWake(u), failing), p)
  {
    hide Inv;
    assert u != Token(0, p);
    var c, c' := d.s.chans[0], Do(d, DoWake(u), failing).s.chans[0];
    assert c'.queue == c.queue && c'.ready == c.ready + multiset{u};
  }

  lemma OutcomeTracks(d: Caller, failing: set<nat>, p: nat)
    requires Shape(d) && Possible(d, DoOutcome) && Tracked(d, p) && p in failing
    ensures Do(d, DoOutcome, failing).s.chans != [] && Tracked(Do(d, DoOutcome, failing), p)
  {
    hide Inv;
  }

  lemma {:induction false} RunTracks(d: Caller, actions: seq<Action>, failing: set<nat>)
    requires Good(d, failing) && CanDo(d, actions, failing)
    ensures Good(DoAll(d, actions, failing), failing)
    decreases |actions|
  {
    if actions != [] {
      var a := actions[0];
      var d' := Do(d, a, failing);
      ShapeStays(d, a, failing);
      forall p | p in failing
        ensures d'.s.chans != [] && Tracked(d', p)
      {
        if a == DoGet {
          GetTracks(d, failing, p);
        } else {
          MoveTracks(d, a, failing, p);
        }
      }
      GoodIs(d', failing);
      hide *;
      RunTracks(d', actions[1..], failing);
      DoAllStep(d, actions, failing);
    }
  }

  lemma GoodIs(d: Caller, failing: set<nat>)
    requires Shape(d) && forall p :: p in failing ==> Tracked(d, p)
    ensures Good(d, failing)
  {
  }

  lemma DoAllStep(d: Caller, actions: seq<Action>, failing: set<nat>)
    requires actions != [] && CanDo(d, actions, failing)
    ensures Possible(d, actions[0]) && CanDo(Do(d, actions[0], failing), actions[1..], failing)
    ensures DoAll(d, actions, failing) == DoAll(Do(d, actions[0], failing), actions[1..], failing)
  {
  }

  lemma StartIsGood(n: nat, failing: set<nat>)
    ensures Good(Start(n), failing)
  {
    StepKeeps(Empty, SetCount(Topic, n));
  }

  /**
   In every interleaving of one caller with the goroutines, a partition that always fails is
   handed out at most twice before it stays suspended.
   */
  lemma AtMostTwice(n: nat, failing: set<nat>, actions: seq<Action>, p: nat)
    requires CanDo(Start(n), actions, failing) && p in failing
    ensures Tries(DoAll(Start(n), actions, failing), p) <= 2
  {
    StartIsGood(n, failing);
    RunTracks(Start(n), actions, failing);
  }

  // ---------------------------------------------------------------- exactly twice, when counters are read early

  /**
   The caller as a list: which partitions are queued and how often each has failed. Module
   Schedules shows for which schedules of the machine this is what happens.
   */
  datatype Ring = Ring(queue: seq<nat>, fails: map<nat, nat>)

  function FailsOf(r: Ring, p: nat): nat {
    if p in r.fails then r.fails[p] else 0
  }

  /** One Distribute call; nothing is handed out when the queue stays empty: NoPartitionsAvailable. */
  function NextRing(r: Ring, failing: set<nat>): Ring {
    if r.queue == [] then r
    else
      var p := r.queue[0];
      Ring(r.queue[1..] + (if FailsOf(r, p) == 0 then [p] else []),
           r.fails[p := if p in failing then FailsOf(r, p) + 1 else 0])
  }

  function Range(a: nat, b: nat): seq<nat>
    requires a <= b
  {
    seq(b - a, i requires 0 <= i < b - a => a + i)
  }

  function RingAfter(n: nat, failing: set<nat>, k: nat): Ring {
    if k == 0 then Ring(Range(0, n), map[]) else NextRing(RingAfter(n, failing, k - 1), failing)
  }

  /** The partitions below `j` that do not fail. */
  function Live(failing: set<nat>, j: nat): (l: seq<nat>)
    ensures |l| <= j
    ensures forall p :: p in l ==> p < j && p !in failing
  {
    if j == 0 then [] else Live(failing, j - 1) + if j - 1 in failing then [] else [j - 1]
  }

  /** The partition that call number `k` gets, counting from 0. */
  function Kth(n: nat, failing: set<nat>, k: nat): seq<nat> {
    var l := Live(failing, n);
    if k < 2 * n then [k % n]
    else if l == [] then []
    else [l[(k - 2 * n) % |l|]]
  }

  /** What one call does to a ring whose head is known. */
  lemma RingStep(n: nat, failing: set<nat>, k: nat, p: nat, rest: seq<nat>)
    requires RingAfter(n, failing, k).queue == [p] + rest
    ensures var r, r' := RingAfter(n, failing, k), RingAfter(n, failing, k + 1);
            && r'.queue == rest + (if FailsOf(r, p) == 0 then [p] else [])
            && FailsOf(r', p) == (if p in failing then FailsOf(r, p) + 1 else 0)
            && forall o: nat :: o != p ==> FailsOf(r', o) == FailsOf(r, o)
  {
    assert ([p] + rest)[0] == p && ([p] + rest)[1..] == rest;
  }

  lemma RangeStep(a: nat, b: nat)
    requires a < b
    ensures Range(a, b) == [a] + Range(a + 1, b)
    ensures Range(a, b) == Range(a, b - 1) + [b - 1]
  {
  }

  lemma RingStart(n: nat, failing: set<nat>)
    ensures RingAfter(n, failing, 0).queue == Range(0, n) + Range(0, 0)
    ensures forall p: nat :: FailsOf(RingAfter(n, failing, 0), p) == 0
    ensures Range(n, n) + Range(0, n) == Range(0, n) + Live(failing, 0)
    ensures Range(n, n) == []
  {
  }

  /** The first round: everything is put back, and failures are counted once. */
  lemma {:induction false} FirstRound(n: nat, failing: set<nat>, k: nat)
    requires k <= n
    ensures RingAfter(n, failing, k).queue == Range(k, n) + Range(0, k)
    ensures forall p: nat :: FailsOf(RingAfter(n, failing, k), p) == if p in failing && p < k then 1 else 0
  {
    hide *;
    if k == 0 {
      RingStart(n, failing);
    } else {
      FirstRound(n, failing, k - 1);
      RangeStep(k - 1, n);
      RangeStep(0, k);
      var rest := Range(k, n) + Range(0, k - 1);
      assert [k - 1] + Range(k, n) + Range(0, k - 1) == [k - 1] + rest;
      RingStep(n, failing, k - 1, k - 1, rest);
      assert rest + [k - 1] == Range(k, n) + (Range(0, k - 1) + [k - 1]);
    }
  }

  /** The second round: a failing partition is handed out once more and not put back. */
  lemma {:induction false} SecondRound(n: nat, failing: set<nat>, j: nat)
    requires j <= n
    ensures RingAfter(n, failing, n + j).queue == Range(j, n) + Live(failing, j)
    ensures forall p: nat :: FailsOf(RingAfter(n, failing, n + j), p) ==
              if p !in failing || p >= n then 0 else if p < j then 2 else 1
  {
    hide *;
    if j == 0 {
      FirstRound(n, failing, n);
      RingStart(n, failing);
    } else {
      SecondRound(n, failing, j - 1);
      RangeStep(j - 1, n);
      LiveStep(failing, j);
      var rest := Range(j, n) + Live(failing, j - 1);
      assert [j - 1] + Range(j, n) + Live(failing, j - 1) == [j - 1] + rest;
      RingStep(n, failing, n + j - 1, j - 1, rest);
      var last := if j - 1 in failing then [] else [j - 1];
      assert rest + last == Range(j, n) + (Live(failing, j - 1) + last);
    }
  }

  lemma LiveStep(failing: set<nat>, j: nat)
    requires j > 0
    ensures Live(failing, j) == Live(failing, j - 1) + if j - 1 in failing then [] else [j - 1]
  {
  }

  function Turned(l: seq<nat>, i: nat): seq<nat>
    requires l != []
  {
    l[i % |l|..] + l[..i % |l|]
  }

  lemma TurnedOnce(l: seq<nat>, i: nat)
    requires l != []
    ensures var m := i % |l|;
            Turned(l, i) == [l[m]] + (l[m + 1..] + l[..m]) && Turned(l, i + 1) == l[m + 1..] + l[..m] + [l[m]]
  {
    var m := i % |l|;
    NextModulo(i, |l|);
    assert l[m..] == [l[m]] + l[m + 1..];
    TurnSplit(l, m);
  }

  lemma TurnSplit(l: seq<nat>, m: nat)
    requires m < |l|
    ensures if m + 1 == |l| then l[m + 1..] + l[..m] + [l[m]] == l && l[0..] + l[..0] == l
            else l[m + 1..] + l[..m] + [l[m]] == l[m + 1..] + l[..m + 1]
  {
    assert l[..m + 1] == l[..m] + [l[m]];
  }

  lemma NotTurned(l: seq<nat>)
    requires l != []
    ensures Turned(l, 0) == l
  {
    SmallModulo(0, |l|);
  }

  lemma SmallerThan(i: nat, m: nat)
    requires m > 0
    ensures 0 <= i % m < m
  {
  }

  lemma NoneLive(n: nat, failing: set<nat>, i: nat)
    requires Live(failing, n) == []
    ensures RingAfter(n, failing, 2 * n + i).queue == []
  {
    if i == 0 {
      SecondRound(n, failing, n);
    } else {
      NoneLive(n, failing, i - 1);
      NothingToHandOut(n, failing, 2 * n + i - 1);
    }
  }

  lemma NothingToHandOut(n: nat, failing: set<nat>, k: nat)
    requires RingAfter(n, failing, k).queue == []
    ensures RingAfter(n, failing, k + 1) == RingAfter(n, failing, k)
  {
  }

  /** From then on the live partitions go round and the failing ones stay away. */
  lemma {:induction false} LaterRounds(n: nat, failing: set<nat>, i: nat)
    requires Live(failing, n) != []
    ensures RingAfter(n, failing, 2 * n + i).queue == Turned(Live(failing, n), i)
    ensures forall p: nat :: p !in failing ==> FailsOf(RingAfter(n, failing, 2 * n + i), p) == 0
    decreases i
  {
    hide *;
    var l := Live(failing, n);
    if i == 0 {
      SecondRound(n, failing, n);
      RingStart(n, failing);
      NotTurned(l);
      assert [] + l == l;
    } else {
      LaterRounds(n, failing, i - 1);
      TurnedOnce(l, i - 1);
      SmallerThan(i - 1, |l|);
      var m := (i - 1) % |l|;
      assert l[m] in l;
      RingStep(n, failing, 2 * n + i - 1, l[m], l[m + 1..] + l[..m]);
    }
  }

  function First(q: seq<nat>): seq<nat> {
    if q == [] then [] else [q[0]]
  }

  /**
   The ring in closed form: the first 2n calls go round all partitions twice; after that the
   live ones keep cycling in order, and if there are none every further call gets none.
   */
  lemma CallsInOrder(n: nat, failing: set<nat>, k: nat)
    ensures First(RingAfter(n, failing, k).queue) == Kth(n, failing, k)
  {
    hide *;
    var l := Live(failing, n);
    if k < n {
      FirstRound(n, failing, k);
      RangeStep(k, n);
      FirstOf(k, Range(k + 1, n), Range(0, k));
      SmallModulo(k, n);
      KthIs(n, failing, k);
    } else if k < 2 * n {
      SecondRound(n, failing, k - n);
      RangeStep(k - n, n);
      FirstOf(k - n, Range(k - n + 1, n), Live(failing, k - n));
      AddModulo(k - n, n);
      SmallModulo(k - n, n);
      KthIs(n, failing, k);
    } else if l == [] {
      NoneLive(n, failing, k - 2 * n);
      KthIs(n, failing, k);
    } else {
      LaterRounds(n, failing, k - 2 * n);
      TurnedOnce(l, k - 2 * n);
      var m := (k - 2 * n) % |l|;
      FirstOf(l[m], l[m + 1..] + l[..m], []);
      KthIs(n, failing, k);
    }
  }

  lemma FirstOf(p: nat, rest: seq<nat>, more: seq<nat>)
    ensures First([p] + rest + more) == [p] && First([p] + rest) == [p] && First([]) == []
  {
  }

  lemma KthIs(n: nat, failing: set<nat>, k: nat)
    ensures var l := Live(failing, n);
            && (k < 2 * n ==> Kth(n, failing, k) == [k % n])
            && (k >= 2 * n && l == [] ==> Kth(n, failing, k) == [])
            && (k >= 2 * n && l != [] ==> Kth(n, failing, k) == [l[(k - 2 * n) % |l|]])
    ensures First([]) == []
  {
    hide Live;
  }

  /** With nothing failing the closed form is plain round robin. */
  lemma KthWithoutFailures(n: nat, k: nat)
    requires n > 0
    ensures Kth(n, {}, k) == [k % n]
  {
    AllLive(n);
    if k >= 2 * n {
      AddModulo(k - n, n);
      AddModulo(k - 2 * n, n);
    }
  }

  lemma {:induction false} AllLive(n: nat)
    ensures Live({}, n) == Range(0, n)
  {
    if n > 0 {
      AllLive(n - 1);
      assert Range(0, n) == Range(0, n - 1) + [n - 1];
    }
  }

  // ---------------------------------------------------------------- the ring is the machine

  /** The machine with nothing under way but tokens in backoff, seen as a ring. */
  ghost predicate Shows(d: Caller, r: Ring) {
    && Shape(d) && d.call == Resting
    && d.s.chans[0].taken == d.s.chans[0].spawned == d.s.chans[0].ready == multiset{}
    && |d.s.chans[0].queue| == |r.queue|
    && (forall i :: 0 <= i < |r.queue| ==> d.s.chans[0].queue[i] == Token(0, r.queue[i]))
    && (forall p :: Fails(d.s, Token(0, p)) == FailsOf(r, p))
  }

  /** The steps of one call in this schedule. */
  function CallSteps(r: Ring): seq<Action> {
    if r.queue == [] then []
    else
      var t := Token(0, r.queue[0]);
      [DoGet, DoSpawn, DoLoad(t)] + (if FailsOf(r, t.part) == 0 then [DoSend(t)] else []) + [DoOutcome]
  }

  lemma SingleMoves(t: Token, m: multiset<Token>)
    ensures multiset{} + multiset{t} == multiset{t} && multiset{t} - multiset{t} == multiset{}
    ensures m + multiset{t} - multiset{t} == m
  {
  }

  lemma GetSpawn(d: Caller, r: Ring, failing: set<nat>)
    requires Shows(d, r) && r.queue != []
    ensures var t := Token(0, r.queue[0]);
            && Possible(d, DoGet) && Possible(Do(d, DoGet, failing), DoSpawn)
            && var d2 := Do(Do(d, DoGet, failing), DoSpawn, failing);
            && Shape(d2) && d2.call == Producing(t) && d2.s.fails == d.s.fails
            && d.s.chans != [] && d2.s.chans != []
            && d2.s.chans[0] == d.s.chans[0].(queue := d.s.chans[0].queue[1..], spawned := multiset{t})
            && d.s.chans[0].queue != [] && d.s.chans[0].taken == d.s.chans[0].ready == multiset{}
            && Fails(d2.s, t) == FailsOf(r, t.part)
  {
    var t := Token(0, r.queue[0]);
    ShapeStays(d, DoGet, failing);
    GetPart(d, failing);
    var d1 := Do(d, DoGet, failing);
    SpawnPart(d1, failing);
    ShapeStays(d1, DoSpawn, failing);
    hide Inv, Do, Possible;
    SingleMoves(t, multiset{});
  }

  lemma GetPart(d: Caller, failing: set<nat>)
    requires Shape(d) && d.call == Resting && d.s.chans[0].queue != [] && d.s.chans[0].queue[0].gen == 0
    ensures Possible(d, DoGet)
    ensures var d1, c, t := Do(d, DoGet, failing), d.s.chans[0], d.s.chans[0].queue[0];
            && d1.call == Fetching(t) && d1.s.fails == d.s.fails && d1.s.chans != []
            && d1.s.chans[0] == c.(queue := c.queue[1..], taken := c.taken + multiset{t})
  {
    hide Inv;
  }

  lemma SpawnPart(d: Caller, failing: set<nat>)
    requires d.s.chans != [] && d.call.Fetching? && d.call.t.gen == 0 && d.call.t in d.s.chans[0].taken
    ensures Possible(d, DoSpawn)
    ensures var d1, c, t := Do(d, DoSpawn, failing), d.s.chans[0], d.call.t;
            && d1.call == Producing(t) && d1.s.fails == d.s.fails && d1.s.chans != []
            && d1.s.chans[0] == c.(taken := c.taken - multiset{t}, spawned := c.spawned + multiset{t})
  {
  }

  /** The goroutine's part: back into the queue, or into backoff. */
  lemma LoadSend(d: Caller, t: Token, failing: set<nat>)
    requires Shape(d) && t.gen == 0 && d.s.chans != []
    requires d.s.chans[0].spawned == multiset{t} && d.s.chans[0].ready == multiset{}
    ensures Possible(d, DoLoad(t))
    ensures var d1 := Do(d, DoLoad(t), failing);
            var c := d.s.chans[0];
            if Fails(d.s, t) > 0 then
              && Shape(d1) && d1.call == d.call && d1.s.fails == d.s.fails && d1.s.chans != []
              && d1.s.chans[0] == c.(spawned := multiset{}, sleeping := c.sleeping + multiset{t})
            else
              && Possible(d1, DoSend(t))
              && var d2 := Do(d1, DoSend(t), failing);
              && Shape(d2) && d2.call == d.call && d2.s.fails == d.s.fails && d2.s.chans != []
              && d2.s.chans[0] == c.(spawned := multiset{}, queue := c.queue + [t])
  {
    SingleMoves(t, multiset{});
    ShapeStays(d, DoLoad(t), failing);
    var d1 := Do(d, DoLoad(t), failing);
    if Fails(d.s, t) == 0 {
      ShapeStays(d1, DoSend(t), failing);
      RoomForToken(d1.s, t);
      MoveIs(d1.s, Send(t), 0);
      hide Inv;
      assert d1.s.chans[0] == d.s.chans[0].(spawned := multiset{}, ready := multiset{t});
    } else {
      hide Inv;
    }
  }

  /** One call of the ring is a run of the machine. */
  lemma CallRuns(d: Caller, r: Ring, failing: set<nat>)
    requires Shows(d, r) && r.queue != []
    requires FailsBelow(r, 2)
    ensures CanDo(d, CallSteps(r), failing) && Shows(DoAll(d, CallSteps(r), failing), NextRing(r, failing))
  {
    hide *;
    var t := Token(0, r.queue[0]);
    GetSpawn(d, r, failing);
    var d1 := Do(d, DoGet, failing);
    var d2 := Do(d1, DoSpawn, failing);
    LoadSend(d2, t, failing);
    var d3 := Do(d2, DoLoad(t), failing);
    var again := FailsOf(r, t.part) == 0;
    var d4 := if again then Do(d3, DoSend(t), failing) else d3;
    BelowAt(r, r.queue[0]);
    OutcomeShows(d, d4, r, failing);
    var d5 := Do(d4, DoOutcome, failing);
    var last: seq<Action> := [DoOutcome];
    assert [DoOutcome] + [] == last;
    DoNothing(d5, failing);
    DoFirst(d4, DoOutcome, [], failing);
    var rest := (if again then [DoSend(t)] else []) + last;
    if again {
      DoFirst(d3, DoSend(t), last, failing);
    } else {
      assert rest == last;
    }
    DoFirst(d2, DoLoad(t), rest, failing);
    DoFirst(d1, DoSpawn, [DoLoad(t)] + rest, failing);
    DoFirst(d, DoGet, [DoSpawn] + ([DoLoad(t)] + rest), failing);
    CallStepsAre(r);
    assert [DoGet] + ([DoSpawn] + ([DoLoad(t)] + rest)) ==
        [DoGet, DoSpawn, DoLoad(t)] + (if again then [DoSend(t)] else []) + [DoOutcome];
  }

  lemma BelowAt(r: Ring, p: nat)
    requires FailsBelow(r, 2)
    ensures FailsOf(r, p) <= 2
  {
  }

  lemma CallStepsAre(r: Ring)
    requires r.queue != []
    ensures var t := Token(0, r.queue[0]);
            CallSteps(r) == [DoGet, DoSpawn, DoLoad(t)] + (if FailsOf(r, t.part) == 0 then [DoSend(t)] else [])
                + [DoOutcome]
  {
  }

  lemma DoNothing(d: Caller, failing: set<nat>)
    ensures CanDo(d, [], failing) && DoAll(d, [], failing) == d
  {
  }

  lemma DoFirst(d: Caller, a: Action, rest: seq<Action>, failing: set<nat>)
    requires Possible(d, a) && CanDo(Do(d, a, failing), rest, failing)
    ensures CanDo(d, [a] + rest, failing)
    ensures DoAll(d, [a] + rest, failing) == DoAll(Do(d, a, failing), rest, failing)
  {
    assert ([a] + rest)[0] == a && ([a] + rest)[1..] == rest;
  }

  /** The outcome, recorded after the token is back in the queue or in backoff. */
  lemma OutcomeShows(d: Caller, d4: Caller, r: Ring, failing: set<nat>)
    requires Shows(d, r) && r.queue != [] && FailsOf(r, r.queue[0]) <= 2
    requires Shape(d4) && d4.call == Producing(Token(0, r.queue[0])) && d4.s.fails == d.s.fails
    requires d.s.chans != [] && d4.s.chans != [] && d.s.chans[0].queue != []
    requires var t, c, c4 := Token(0, r.queue[0]), d.s.chans[0], d4.s.chans[0];
             && c4.queue == c.queue[1..] + (if FailsOf(r, t.part) == 0 then [t] else [])
             && c4.taken == c4.spawned == c4.ready == multiset{}
    ensures Possible(d4, DoOutcome) && Shows(Do(d4, DoOutcome, failing), NextRing(r, failing))
  {
    ShapeStays(d4, DoOutcome, failing);
    OutcomeKeepsQueue(d, d4, r, failing);
    OutcomeCounts(d, d4, r, failing);
    hide Shape, Do, NextRing, Fails, FailsOf;
  }

  lemma OutcomeKeepsQueue(d: Caller, d4: Caller, r: Ring, failing: set<nat>)
    requires Shows(d, r) && r.queue != [] && Possible(d4, DoOutcome)
    requires d.s.chans != [] && d4.s.chans != [] && d.s.chans[0].queue != []
    requires var t, c, c4 := Token(0, r.queue[0]), d.s.chans[0], d4.s.chans[0];
             c4.queue == c.queue[1..] + (if FailsOf(r, t.part) == 0 then [t] else [])
    ensures var d5, q := Do(d4, DoOutcome, failing), NextRing(r, failing).queue;
            && d5.s.chans == d4.s.chans && d5.call == Resting
            && |d5.s.chans[0].queue| == |q|
            && forall i :: 0 <= i < |q| ==> d5.s.chans[0].queue[i] == Token(0, q[i])
  {
    hide Shape, FailsOf, Fails;
  }

  lemma CountsUpdated(s: Sys, s': Sys, r: Ring, r': Ring, p0: nat, v: nat)
    requires forall p :: Fails(s, Token(0, p)) == FailsOf(r, p)
    requires s'.fails == s.fails[Token(0, p0) := v] && r'.fails == r.fails[p0 := v]
    ensures forall p :: Fails(s', Token(0, p)) == FailsOf(r', p)
  {
    forall p ensures Fails(s', Token(0, p)) == FailsOf(r', p) {
      assert p != p0 ==> Fails(s, Token(0, p)) == FailsOf(r, p);
    }
  }

  lemma OutcomeCounts(d: Caller, d4: Caller, r: Ring, failing: set<nat>)
    requires Shows(d, r) && r.queue != [] && FailsOf(r, r.queue[0]) <= 2
    requires d4.call == Producing(Token(0, r.queue[0])) && d4.s.fails == d.s.fails
    ensures forall p :: Fails(Do(d4, DoOutcome, failing).s, Token(0, p)) == FailsOf(NextRing(r, failing), p)
  {
    hide Shape;
    var p0 := r.queue[0];
    SameCounts(d.s, d4.s, r);
    hide Fails, Shows;
    CountsUpdated(d4.s, Do(d4, DoOutcome, failing).s, r, NextRing(r, failing), p0,
        if p0 in failing then FailsOf(r, p0) + 1 else 0);
  }

  lemma SameCounts(s: Sys, s': Sys, r: Ring)
    requires s'.fails == s.fails && forall p :: Fails(s, Token(0, p)) == FailsOf(r, p)
    ensures forall p :: Fails(s', Token(0, p)) == FailsOf(r, p)
  {
    forall p ensures Fails(s', Token(0, p)) == FailsOf(r, p) {
      assert Fails(s, Token(0, p)) == FailsOf(r, p);
    }
  }

  lemma StartShows(n: nat, failing: set<nat>)
    ensures Shows(Start(n), RingAfter(n, failing, 0))
  {
    StartIsGood(n, failing);
    hide Inv;
  }

  ghost predicate FailsBelow(r: Ring, bound: nat) {
    forall p: nat :: FailsOf(r, p) <= bound
  }

  /** Every failing partition has two failures to its name, and no other has any. */
  ghost predicate AllTwice(r: Ring, n: nat, failing: set<nat>) {
    forall p: nat :: FailsOf(r, p) == if p in failing && p < n then 2 else 0
  }

  lemma AllTwiceStep(r: Ring, r': Ring, n: nat, failing: set<nat>, p: nat)
    requires AllTwice(r, n, failing) && p !in failing
    requires FailsOf(r', p) == 0 && forall o: nat :: o != p ==> FailsOf(r', o) == FailsOf(r, o)
    ensures AllTwice(r', n, failing)
  {
    hide FailsOf;
  }

  lemma TwiceMeans(r: Ring, n: nat, failing: set<nat>)
    requires AllTwice(r, n, failing)
    ensures FailsBelow(r, 2)
  {
    hide FailsOf;
  }

  /** No partition ever has more than two failures to its name. */
  lemma FewFailures(n: nat, failing: set<nat>, k: nat)
    ensures FailsBelow(RingAfter(n, failing, k), 2)
  {
    hide RingAfter, FailsOf;
    if k <= n {
      FirstRound(n, failing, k);
    } else if k <= 2 * n {
      SecondBelow(n, failing, k - n);
    } else {
      FewFailuresLater(n, failing, k - 2 * n);
      TwiceMeans(RingAfter(n, failing, k), n, failing);
    }
  }

  lemma SecondBelow(n: nat, failing: set<nat>, j: nat)
    requires j <= n
    ensures FailsBelow(RingAfter(n, failing, n + j), 2)
  {
    hide RingAfter, FailsOf;
    SecondRound(n, failing, j);
    var r := RingAfter(n, failing, n + j);
    assert forall p: nat :: FailsOf(r, p) == if p !in failing || p >= n then 0 else if p < j then 2 else 1;
  }

  lemma {:induction false} FewFailuresLater(n: nat, failing: set<nat>, i: nat)
    ensures AllTwice(RingAfter(n, failing, 2 * n + i), n, failing)
    decreases i
  {
    var l := Live(failing, n);
    if i == 0 {
      hide RingAfter, FailsOf;
      SecondRound(n, failing, n);
    } else {
      hide *;
      FewFailuresLater(n, failing, i - 1);
      var k := 2 * n + i - 1;
      if l == [] {
        NoneLive(n, failing, i - 1);
        NothingToHandOut(n, failing, k);
      } else {
        LaterRounds(n, failing, i - 1);
        TurnedOnce(l, i - 1);
        SmallerThan(i - 1, |l|);
        var m := (i - 1) % |l|;
        assert l[m] in l;
        RingStep(n, failing, k, l[m], l[m + 1..] + l[..m]);
        AllTwiceStep(RingAfter(n, failing, k), RingAfter(n, failing, k + 1), n, failing, l[m]);
      }
    }
  }

  lemma {:induction false} DoMore(d: Caller, actions: seq<Action>, more: seq<Action>, failing: set<nat>)
    requires CanDo(d, actions, failing) && CanDo(DoAll(d, actions, failing), more, failing)
    ensures CanDo(d, actions + more, failing)
    ensures DoAll(d, actions + more, failing) == DoAll(DoAll(d, actions, failing), more, failing)
    decreases |actions|
  {
    if actions == [] {
      assert actions + more == more;
    } else {
      assert (actions + more)[0] == actions[0] && (actions + more)[1..] == actions[1..] + more;
      DoMore(Do(d, actions[0], failing), actions[1..], more, failing);
    }
  }

  lemma RingNext(n: nat, failing: set<nat>, k: nat)
    requires k > 0
    ensures RingAfter(n, failing, k) == NextRing(RingAfter(n, failing, k - 1), failing)
  {
  }

  lemma TriesAreTwo(d: Caller, r: Ring, n: nat, failing: set<nat>)
    requires Shows(d, r) && Good(d, failing) && AllTwice(r, n, failing)
    ensures forall p :: p in failing && p < n ==> Tries(d, p) == 2
  {
    hide Inv, FailsOf, Fails, Tries;
    forall p | p in failing && p < n
      ensures Tries(d, p) == 2
    {
      assert Tracked(d, p);
      assert Fails(d.s, Token(0, p)) == FailsOf(r, p);
    }
  }
}
