/**
 The error-averse round-robin partition manager (distributing_producer.go) as a state machine.
 A token stands for one partitionData object; it knows the channel it belongs to. Whoever
 receives a token starts a goroutine that puts it back, at once or after a backoff, so every
 step of that goroutine is a step here, and so are the outcomes that producers report at any
 time.
 */
module Partitions {

  datatype Token = Token(gen: nat, part: nat)

  /**
   One channel generation: its capacity, its queue, and the tokens whose goroutine is about to
   start, about to read the failure counter, in backoff, and about to send.
   */
  datatype Chan = Chan(
    cap: nat,
    queue: seq<Token>,
    taken: multiset<Token>,
    spawned: multiset<Token>,
    sleeping: multiset<Token>,
    ready: multiset<Token>)

  /** `lost` is set in the branch of reEnqueue that the source calls a programmer error. */
  datatype Sys = Sys(
    chans: seq<Chan>,
    current: map<string, nat>,
    fails: map<Token, nat>,
    reset: set<Token>,
    lost: bool)

  const Empty: Sys := Sys([], map[], map[], {}, false)

  function Fails(s: Sys, t: Token): nat {
    if t in s.fails then s.fails[t] else 0
  }

  /** The tokens of a new channel, in partition order. */
  function Fresh(gen: nat, n: nat): (q: seq<Token>)
    ensures |q| == n
  {
    seq(n, i requires 0 <= i < n => Token(gen, i))
  }

  datatype Step =
    | SetCount(topic: string, n: nat)
    | Get(topic: string)
    | Spawn(t: Token)
    | Load(t: Token)
    | Timer(t: Token)
    | Wake(t: Token)
    | Send(t: Token)
    | SuccessStore(t: Token)
    | SuccessSignal(t: Token)
    | Fail(t: Token)

  predicate Known(s: Sys, topic: string) {
    topic in s.current && s.current[topic] < |s.chans|
  }

  function Current(s: Sys, topic: string): Chan
    requires Known(s, topic)
  {
    s.chans[s.current[topic]]
  }

  predicate Enabled(s: Sys, step: Step) {
    match step
    case SetCount(topic, n) => true
    case Get(topic) => Known(s, topic) && Current(s, topic).queue != [] && Current(s, topic).queue[0].gen < |s.chans|
    case Spawn(t) => t.gen < |s.chans| && t in s.chans[t.gen].taken
    case Load(t) => t.gen < |s.chans| && t in s.chans[t.gen].spawned
    case Timer(t) => t.gen < |s.chans| && t in s.chans[t.gen].sleeping
    case Wake(t) => t.gen < |s.chans| && t in s.chans[t.gen].sleeping && t in s.reset
    case Send(t) => t.gen < |s.chans| && t in s.chans[t.gen].ready
    case _ => true
  }

  function Put(s: Sys, g: nat, c: Chan): Sys
    requires g < |s.chans|
  {
    s.(chans := s.chans[g := c])
  }

  /** One step of the goroutine of a token; a token that finds the queue full is dropped. */
  function Moved(c: Chan, step: Step, fails: nat): Chan {
    match step
    case Spawn(t) => c.(taken := c.taken - multiset{t}, spawned := c.spawned + multiset{t})
    case Load(t) =>
      if fails > 0 then c.(spawned := c.spawned - multiset{t}, sleeping := c.sleeping + multiset{t})
      else c.(spawned := c.spawned - multiset{t}, ready := c.ready + multiset{t})
    case Timer(t) => c.(sleeping := c.sleeping - multiset{t}, ready := c.ready + multiset{t})
    case Wake(t) => c.(sleeping := c.sleeping - multiset{t}, ready := c.ready + multiset{t})
    case Send(t) =>
      if |c.queue| < c.cap then c.(ready := c.ready - multiset{t}, queue := c.queue + [t])
      else c.(ready := c.ready - multiset{t})
    case _ => c
  }

  const Uint64 := 0x1_0000_0000_0000_0000

  function Apply(s: Sys, step: Step): Sys
    requires Enabled(s, step)
  {
    match step
    case SetCount(topic, n) =>
      if Known(s, topic) && Current(s, topic).cap == n then s
      else s.(chans := s.chans + [Chan(n, Fresh(|s.chans|, n), multiset{}, multiset{}, multiset{}, multiset{})],
              current := s.current[topic := |s.chans|])
    case Get(topic) =>
      var g := s.current[topic];
      var t := s.chans[g].queue[0];
      var s' := Put(s, g, s.chans[g].(queue := s.chans[g].queue[1..]));
      Put(s', t.gen, s'.chans[t.gen].(taken := s'.chans[t.gen].taken + multiset{t}))
    case Spawn(t) => Put(s, t.gen, Moved(s.chans[t.gen], step, 0))
    case Load(t) => Put(s, t.gen, Moved(s.chans[t.gen], step, Fails(s, t)))
    case Timer(t) => Put(s, t.gen, Moved(s.chans[t.gen], step, 0))
    case Wake(t) => Put(s, t.gen, Moved(s.chans[t.gen], step, 0)).(reset := s.reset - {t})
    case Send(t) =>
      var c := s.chans[t.gen];
      Put(s, t.gen, Moved(c, step, 0)).(lost := s.lost || |c.queue| >= c.cap)
    case SuccessStore(t) => s.(fails := s.fails[t := 0])
    case SuccessSignal(t) => s.(reset := s.reset + {t})
    case Fail(t) => s.(fails := s.fails[t := (Fails(s, t) + 1) % Uint64])
  }

  // ---------------------------------------------------------------- runs

  ghost predicate ValidRun(s: Sys, steps: seq<Step>)
    decreases |steps|
  {
    steps == [] || (Enabled(s, steps[0]) && ValidRun(Apply(s, steps[0]), steps[1..]))
  }

  ghost function Exec(s: Sys, steps: seq<Step>): Sys
    requires ValidRun(s, steps)
    decreases |steps|
  {
    if steps == [] then s else Exec(Apply(s, steps[0]), steps[1..])
  }

  // ---------------------------------------------------------------- conservation

  /** All tokens of a channel, wherever they are. */
  function InPlay(c: Chan): multiset<Token> {
    multiset(c.queue) + c.taken + c.spawned + c.sleeping + c.ready
  }

  /** Each of the partitions 0..n-1 exactly once, and nothing else. */
  ghost predicate Conserved(g: nat, c: Chan) {
    InPlay(c) == multiset(Fresh(g, c.cap))
  }

  ghost predicate Inv(s: Sys) {
    && (forall g :: 0 <= g < |s.chans| ==> Conserved(g, s.chans[g]))
    && (forall topic :: topic in s.current ==> s.current[topic] < |s.chans|)
    && !s.lost
  }

  lemma InFresh(g: nat, n: nat, t: Token)
    ensures t in multiset(Fresh(g, n)) <==> t.gen == g && t.part < n
    ensures multiset(Fresh(g, n))[t] <= 1
  {
    var q := Fresh(g, n);
    if t in q {
      var i :| 0 <= i < |q| && q[i] == t;
    }
    if t.gen == g && t.part < n {
      assert q[t.part] == t;
    }
    FreshOnce(g, n, n, t);
    assert q[..n] == q;
  }

  lemma {:induction false} FreshOnce(g: nat, n: nat, k: nat, t: Token)
    requires k <= n
    ensures multiset(Fresh(g, n)[..k])[t] == if t.gen == g && t.part < k then 1 else 0
    decreases k
  {
    if k > 0 {
      FreshOnce(g, n, k - 1, t);
      assert Fresh(g, n)[..k] == Fresh(g, n)[..k - 1] + [Token(g, k - 1)];
    }
  }

  /** Every token in play in a channel belongs to it. */
  lemma AtHome(g: nat, c: Chan, t: Token)
    requires Conserved(g, c) && t in InPlay(c)
    ensures t.gen == g && t.part < c.cap
    ensures InPlay(c)[t] == 1
  {
    InFresh(g, c.cap, t);
  }

  lemma QueueHead(q: seq<Token>)
    requires q != []
    ensures multiset(q) == multiset{q[0]} + multiset(q[1..])
  {
    assert q == [q[0]] + q[1..];
  }

  lemma GetKeeps(s: Sys, topic: string)
    requires Inv(s) && Enabled(s, Get(topic))
    ensures Inv(Apply(s, Get(topic)))
    ensures Current(s, topic).queue[0].gen == s.current[topic]
  {
    var g := s.current[topic];
    var c := s.chans[g];
    var t := c.queue[0];
    QueueHead(c.queue);
    assert t in InPlay(c);
    AtHome(g, c, t);
    var s' := Apply(s, Get(topic));
    assert InPlay(s'.chans[g]) == InPlay(c);
  }

  /** A goroutine about to send finds room: its own token is not in the queue. */
  lemma RoomForToken(s: Sys, t: Token)
    requires Inv(s) && Enabled(s, Send(t))
    ensures |s.chans[t.gen].queue| < s.chans[t.gen].cap
  {
    var c := s.chans[t.gen];
    assert |InPlay(c)| == |c.queue| + |c.taken| + |c.spawned| + |c.sleeping| + |c.ready|;
    assert c.ready == c.ready - multiset{t} + multiset{t};
    assert |InPlay(c)| == |multiset(Fresh(t.gen, c.cap))| == c.cap;
  }

  predicate IsMove(step: Step) {
    step.Spawn? || step.Load? || step.Timer? || step.Wake? || step.Send?
  }

  lemma MoveConserves(c: Chan, step: Step, fails: nat)
    requires IsMove(step)
    requires match step
             case Spawn(t) => t in c.taken
             case Load(t) => t in c.spawned
             case Send(t) => t in c.ready && |c.queue| < c.cap
             case _ => step.t in c.sleeping
    ensures InPlay(Moved(c, step, fails)) == InPlay(c)
  {
    var t := step.t;
    Shifts(multiset(c.queue), c.taken, c.spawned, c.sleeping, c.ready, t);
    assert multiset(c.queue + [t]) == multiset(c.queue) + multiset{t};
  }

  /** One token changes its place and the sum stays. */
  lemma Shifts(q: multiset<Token>, ta: multiset<Token>, sp: multiset<Token>, sl: multiset<Token>, re: multiset<Token>,
      t: Token)
    ensures t in ta ==> q + (ta - multiset{t}) + (sp + multiset{t}) + sl + re == q + ta + sp + sl + re
    ensures t in sp ==> q + ta + (sp - multiset{t}) + (sl + multiset{t}) + re == q + ta + sp + sl + re
    ensures t in sp ==> q + ta + (sp - multiset{t}) + sl + (re + multiset{t}) == q + ta + sp + sl + re
    ensures t in sl ==> q + ta + sp + (sl - multiset{t}) + (re + multiset{t}) == q + ta + sp + sl + re
    ensures t in re ==> q + multiset{t} + ta + sp + sl + (re - multiset{t}) == q + ta + sp + sl + re
  {
  }

  lemma MoveKeeps(s: Sys, step: Step)
    requires Inv(s) && Enabled(s, step) && IsMove(step)
    ensures Inv(Apply(s, step))
  {
    if step.Send? {
      RoomForToken(s, step.t);
    }
    var fails := if step.Load? then Fails(s, step.t) else 0;
    var c := s.chans[step.t.gen];
    hide Inv, Moved, InPlay, Apply;
    MoveConserves(c, step, fails);
    MoveIs(s, step, fails);
    MovedCap(c, step, fails);
    UpdateKeeps(s, Apply(s, step), step.t.gen, Moved(c, step, fails));
  }

  lemma UpdateKeeps(s: Sys, s': Sys, g: nat, c: Chan)
    requires Inv(s) && g < |s.chans|
    requires s'.chans == s.chans[g := c] && s'.current == s.current && s'.lost == s.lost
    requires InPlay(c) == InPlay(s.chans[g]) && c.cap == s.chans[g].cap
    ensures Inv(s')
  {
    hide InPlay, Fresh;
  }

  lemma MovedCap(c: Chan, step: Step, fails: nat)
    ensures Moved(c, step, fails).cap == c.cap
  {
  }

  lemma MoveIs(s: Sys, step: Step, fails: nat)
    requires Enabled(s, step) && IsMove(step)
    requires fails == if step.Load? then Fails(s, step.t) else 0
    requires step.Send? ==> |s.chans[step.t.gen].queue| < s.chans[step.t.gen].cap
    ensures var s' := Apply(s, step);
            && s'.chans == s.chans[step.t.gen := Moved(s.chans[step.t.gen], step, fails)]
            && s'.current == s.current && s'.lost == s.lost
  {
    hide Moved;
  }

  lemma SetCountKeeps(s: Sys, topic: string, n: nat)
    requires Inv(s)
    ensures Inv(Apply(s, SetCount(topic, n)))
  {
    var s' := Apply(s, SetCount(topic, n));
    if s' != s {
      var c := s'.chans[|s.chans|];
      assert InPlay(c) == multiset(c.queue);
    }
  }

  lemma StepKeeps(s: Sys, step: Step)
    requires Inv(s) && Enabled(s, step)
    ensures Inv(Apply(s, step))
  {
    match step
    case SetCount(topic, n) => SetCountKeeps(s, topic, n);
    case Get(topic) => GetKeeps(s, topic);
    case SuccessStore(t) =>
    case SuccessSignal(t) =>
    case Fail(t) =>
    case _ => MoveKeeps(s, step);
  }

  lemma {:induction false} RunKeeps(s: Sys, steps: seq<Step>)
    requires Inv(s) && ValidRun(s, steps)
    ensures Inv(Exec(s, steps))
    decreases |steps|
  {
    if steps != [] {
      StepKeeps(s, steps[0]);
      RunKeeps(Apply(s, steps[0]), steps[1..]);
    }
  }

  /**
   In every interleaving, for every channel that ever existed: its queue and its pending
   goroutines hold each of its partitions exactly once and no other token, and no goroutine
   ever finds its channel full.
   */
  lemma TokensConserved(steps: seq<Step>, g: nat, t: Token)
    requires ValidRun(Empty, steps)
    ensures !Exec(Empty, steps).lost
    ensures g < |Exec(Empty, steps).chans| ==>
              InPlay(Exec(Empty, steps).chans[g])[t] ==
                if t.gen == g && t.part < Exec(Empty, steps).chans[g].cap then 1 else 0
  {
    RunKeeps(Empty, steps);
    var s := Exec(Empty, steps);
    if g < |s.chans| {
      InFresh(g, s.chans[g].cap, t);
    }
  }

  // ---------------------------------------------------------------- first in, first out

  /** The tokens that a run takes out of, and puts into, the channel `g`. */
  ghost function Handed(s: Sys, steps: seq<Step>, g: nat): seq<Token>
    requires ValidRun(s, steps)
    decreases |steps|
  {
    if steps == [] then []
    else
      var here := if steps[0].Get? && s.current[steps[0].topic] == g then [Current(s, steps[0].topic).queue[0]] else [];
      here + Handed(Apply(s, steps[0]), steps[1..], g)
  }

  ghost function Entered(s: Sys, steps: seq<Step>, g: nat): seq<Token>
    requires ValidRun(s, steps)
    decreases |steps|
  {
    if steps == [] then []
    else
      var here := if steps[0].Send? && steps[0].t.gen == g then [steps[0].t] else [];
      here + Entered(Apply(s, steps[0]), steps[1..], g)
  }

  lemma GetTakesHead(s: Sys, topic: string, g: nat)
    requires Inv(s) && Enabled(s, Get(topic)) && g < |s.chans|
    ensures g < |Apply(s, Get(topic)).chans|
    ensures var q, q' := s.chans[g].queue, Apply(s, Get(topic)).chans[g].queue;
            if s.current[topic] == g then q == [q[0]] + q' else q' == q
  {
    GetKeeps(s, topic);
    hide Inv;
  }

  lemma MovedQueue(c: Chan, step: Step, fails: nat)
    requires IsMove(step) && (step.Send? ==> |c.queue| < c.cap)
    ensures Moved(c, step, fails).queue == if step.Send? then c.queue + [step.t] else c.queue
  {
  }

  lemma MoveKeepsQueue(s: Sys, step: Step, g: nat)
    requires Inv(s) && Enabled(s, step) && IsMove(step) && g < |s.chans|
    ensures g < |Apply(s, step).chans|
    ensures var q, q' := s.chans[g].queue, Apply(s, step).chans[g].queue;
            q' == if step.Send? && step.t.gen == g then q + [step.t] else q
  {
    if step.Send? {
      RoomForToken(s, step.t);
    }
    assert step.t.gen < |s.chans|;
    var fails := if step.Load? then Fails(s, step.t) else 0;
    hide Inv, Apply, Moved, Enabled, Fails;
    MoveIs(s, step, fails);
    MovedQueue(s.chans[step.t.gen], step, fails);
  }

  lemma QueueAfterStep(s: Sys, step: Step, g: nat)
    requires Inv(s) && Enabled(s, step) && g < |s.chans|
    ensures g < |Apply(s, step).chans|
    ensures var q, q' := s.chans[g].queue, Apply(s, step).chans[g].queue;
            if step.Get? && s.current[step.topic] == g then q == [q[0]] + q'
            else if step.Send? && step.t.gen == g then q' == q + [step.t]
            else q' == q
  {
    hide Inv;
    if step.Get? {
      hide Apply;
      GetTakesHead(s, step.topic, g);
    } else if IsMove(step) {
      hide Apply;
      MoveKeepsQueue(s, step, g);
    }
  }

  /** What was handed out and what is left is what was there and what came in, in order. */
  lemma {:induction false} QueueIsFifo(s: Sys, steps: seq<Step>, g: nat)
    requires Inv(s) && ValidRun(s, steps) && g < |s.chans|
    ensures g < |Exec(s, steps).chans|
    ensures Handed(s, steps, g) + Exec(s, steps).chans[g].queue == s.chans[g].queue + Entered(s, steps, g)
    decreases |steps|
  {
    if steps != [] {
      var s' := Apply(s, steps[0]);
      StepKeeps(s, steps[0]);
      QueueAfterStep(s, steps[0], g);
      QueueIsFifo(s', steps[1..], g);
      var q, q' := s.chans[g].queue, s'.chans[g].queue;
      HandedStep(s, steps, g);
      FifoStep(q, q', Handed(s', steps[1..], g), Entered(s', steps[1..], g), Exec(s', steps[1..]).chans[g].queue);
      hide *;
    }
  }

  /** One get, one send, or neither, in front of a rest for which the law holds. */
  lemma FifoStep(q: seq<Token>, q': seq<Token>, h: seq<Token>, e: seq<Token>, last: seq<Token>)
    requires h + last == q' + e
    ensures q != [] && q == [q[0]] + q' ==> [q[0]] + h + last == q + ([] + e)
    ensures q' == q ==> [] + h + last == q + ([] + e)
    ensures forall t :: q' == q + [t] ==> [] + h + last == q + ([t] + e)
  {
    assert [] + h == h && [] + e == e;
    if q != [] && q == [q[0]] + q' {
      assert [q[0]] + h + last == [q[0]] + (h + last);
      assert [q[0]] + (q' + e) == [q[0]] + q' + e;
    }
    forall t | q' == q + [t]
      ensures h + last == q + ([t] + e)
    {
      assert q + [t] + e == q + ([t] + e);
    }
  }

  lemma HandedStep(s: Sys, steps: seq<Step>, g: nat)
    requires ValidRun(s, steps) && steps != []
    ensures Enabled(s, steps[0]) && ValidRun(Apply(s, steps[0]), steps[1..])
    ensures steps[0].Get? ==> Known(s, steps[0].topic) && Current(s, steps[0].topic).queue != []
    ensures Handed(s, steps, g) ==
            (if steps[0].Get? && s.current[steps[0].topic] == g then [Current(s, steps[0].topic).queue[0]] else [])
            + Handed(Apply(s, steps[0]), steps[1..], g)
    ensures Entered(s, steps, g) ==
            (if steps[0].Send? && steps[0].t.gen == g then [steps[0].t] else [])
                + Entered(Apply(s, steps[0]), steps[1..], g)
    ensures Exec(s, steps) == Exec(Apply(s, steps[0]), steps[1..])
  {
  }

  /**
   A token in the queue is handed out within `cap` further successful gets of its channel,
   whatever else happens in between: if it is at position i, it is the (i+1)-st.
   */
  lemma HandedOutInTurn(s: Sys, steps: seq<Step>, g: nat, i: nat)
    requires Inv(s) && ValidRun(s, steps) && g < |s.chans| && i < |s.chans[g].queue|
    requires |Handed(s, steps, g)| > i
    ensures Handed(s, steps, g)[i] == s.chans[g].queue[i]
    ensures i < s.chans[g].cap
  {
    QueueIsFifo(s, steps, g);
    var h, q := Handed(s, steps, g), s.chans[g].queue;
    var rest, e := Exec(s, steps).chans[g].queue, Entered(s, steps, g);
    assert (h + rest)[i] == h[i] && (q + e)[i] == q[i];
    var c := s.chans[g];
    assert |InPlay(c)| == |multiset(Fresh(g, c.cap))| == c.cap;
    assert |InPlay(c)| == |q| + |c.taken| + |c.spawned| + |c.sleeping| + |c.ready|;
  }

  // ---------------------------------------------------------------- backoff ends

  /** The timer of a token in backoff fires, or its goroutine takes the reset signal. */
  ghost predicate EndsBackoff(s: Sys, step: Step, t: Token) {
    && t.gen < |s.chans| && t in s.chans[t.gen].sleeping
    && (step == Timer(t) || (step == Wake(t) && t in s.reset))
  }

  /** The token can be sent, and it is in no other place. */
  ghost predicate Ready(s: Sys, t: Token) {
    && t.gen < |s.chans| && t in s.chans[t.gen].ready && Enabled(s, Send(t))
    && var c := s.chans[t.gen];
       t !in c.queue && t !in c.taken && t !in c.spawned && t !in c.sleeping
  }

  /**
   In every state that a run can reach: when the backoff of a token ends, it leaves the sleeping
   ones and its goroutine can send it; a reset signal is used up, and the queue is untouched.
   */
  lemma BackoffEnds(s: Sys, step: Step, t: Token)
    requires Inv(s) && EndsBackoff(s, step, t)
    ensures Enabled(s, step)
    ensures var s' := Apply(s, step);
            && Inv(s') && Ready(s', t) && |s'.chans| == |s.chans|
            && s'.chans[t.gen].queue == s.chans[t.gen].queue
            && s'.reset == s.reset - (if step.Wake? then {t} else {})
  {
    hide Inv, Apply, Moved, Ready;
    StepKeeps(s, step);
    MoveIs(s, step, 0);
    BackoffMoves(s.chans[t.gen], step, t);
    ResetAfter(s, step);
    OnlyReady(Apply(s, step), t);
  }

  lemma BackoffMoves(c: Chan, step: Step, t: Token)
    requires step == Timer(t) || step == Wake(t)
    ensures Moved(c, step, 0).queue == c.queue && t in Moved(c, step, 0).ready
  {
  }

  lemma ResetAfter(s: Sys, step: Step)
    requires Enabled(s, step) && (step.Timer? || step.Wake?)
    ensures Apply(s, step).reset == s.reset - if step.Wake? then {step.t} else {}
  {
    hide Moved;
  }

  lemma OnlyReady(s: Sys, t: Token)
    requires Inv(s) && t.gen < |s.chans| && t in s.chans[t.gen].ready
    ensures Ready(s, t)
  {
    var c := s.chans[t.gen];
    AtHome(t.gen, c, t);
    assert InPlay(c)[t] == multiset(c.queue)[t] + c.taken[t] + c.spawned[t] + c.sleeping[t] + c.ready[t];
  }

  /** A success lets the goroutine of its token end its backoff, and clears the failures. */
  lemma SuccessEndsBackoff(s: Sys, t: Token)
    requires Inv(s) && t.gen < |s.chans| && t in s.chans[t.gen].sleeping
    ensures var s' := Apply(Apply(s, SuccessStore(t)), SuccessSignal(t));
            EndsBackoff(s', Wake(t), t) && Fails(s', t) == 0
  {
  }

  /** A failure counts one up, and the counter is back at 0 after 18446744073709551615. */
  lemma FailureCounts(s: Sys, t: Token)
    ensures var s' := Apply(s, Fail(t));
            && (Fails(s, t) < 18446744073709551615 ==> Fails(s', t) == Fails(s, t) + 1)
            && (Fails(s, t) == 18446744073709551615 ==> Fails(s', t) == 0)
            && forall u :: u != t ==> Fails(s', u) == Fails(s, u)
  {
  }

  /** Nothing but its own send takes a ready token away. */
  lemma StaysReady(s: Sys, step: Step, t: Token)
    requires Inv(s) && Ready(s, t) && Enabled(s, step) && step != Send(t)
    ensures Inv(Apply(s, step)) && Ready(Apply(s, step), t)
  {
    StepKeeps(s, step);
    var s', c := Apply(s, step), s.chans[t.gen];
    if IsMove(step) {
      var fails := if step.Load? then Fails(s, step.t) else 0;
      if step.Send? {
        RoomForToken(s, step.t);
      }
      MoveIs(s, step, fails);
      MovedReady(c, step, fails, t);
    }
    hide Inv;
    assert t.gen < |s'.chans| && t in s'.chans[t.gen].ready;
    OnlyReady(s', t);
  }

  lemma MovedReady(c: Chan, step: Step, fails: nat, t: Token)
    requires t in c.ready && step != Send(t)
    ensures t in Moved(c, step, fails).ready
  {
  }

  lemma {:induction false} RunStaysReady(s: Sys, steps: seq<Step>, t: Token)
    requires Inv(s) && Ready(s, t) && ValidRun(s, steps) && Send(t) !in steps
    ensures Inv(Exec(s, steps)) && Ready(Exec(s, steps), t)
    decreases |steps|
  {
    hide Inv, Ready, Apply, Enabled;
    if steps != [] {
      assert steps[0] in steps;
      StaysReady(s, steps[0], t);
      RunStaysReady(Apply(s, steps[0]), steps[1..], t);
    }
  }

  /** The send puts the token at the end of its queue. */
  lemma SendQueues(s: Sys, t: Token)
    requires Inv(s) && Ready(s, t)
    ensures var s' := Apply(s, Send(t));
            && Inv(s') && |s'.chans| == |s.chans| && !s'.lost
            && s'.chans[t.gen].queue == s.chans[t.gen].queue + [t] && s'.chans[t.gen].cap == s.chans[t.gen].cap
  {
    RoomForToken(s, t);
    StepKeeps(s, Send(t));
  }

  /**
   A suspended partition comes back. Once its timer has fired or its reset was taken, and
   whatever happens then, its goroutine can send it; and after the send it is handed out by one of
   the next `cap` successful gets of its channel, again whatever else happens.
   */
  lemma SuspendedComesBack(s: Sys, step: Step, t: Token, before: seq<Step>, after: seq<Step>)
    requires Inv(s) && EndsBackoff(s, step, t)
    requires Enabled(s, step) && ValidRun(Apply(s, step), before) && Send(t) !in before
    ensures var s1 := Exec(Apply(s, step), before);
            && Enabled(s1, Send(t))
            && (ValidRun(Apply(s1, Send(t)), after) ==>
                 var h := Handed(Apply(s1, Send(t)), after, t.gen);
                 |h| >= s1.chans[t.gen].cap ==> t in h[..s1.chans[t.gen].cap])
  {
    hide *;
    BackoffEnds(s, step, t);
    var s0 := Apply(s, step);
    RunStaysReady(s0, before, t);
    var s1 := Exec(s0, before);
    ReadyMeans(s1, t);
    SendQueues(s1, t);
    var s2 := Apply(s1, Send(t));
    var i := |s1.chans[t.gen].queue|;
    if ValidRun(s2, after) && |Handed(s2, after, t.gen)| >= s1.chans[t.gen].cap {
      InQueueInTurn(s2, after, t.gen, i);
    }
  }

  lemma ReadyMeans(s: Sys, t: Token)
    requires Ready(s, t)
    ensures t.gen < |s.chans| && Enabled(s, Send(t))
  {
  }

  /** A queued token is among the next `cap` handed out. */
  lemma InQueueInTurn(s: Sys, steps: seq<Step>, g: nat, i: nat)
    requires Inv(s) && ValidRun(s, steps) && g < |s.chans| && i < |s.chans[g].queue|
    requires |Handed(s, steps, g)| >= s.chans[g].cap
    ensures s.chans[g].queue[i] in Handed(s, steps, g)[..s.chans[g].cap]
  {
    QueueFits(s, g);
    hide Inv, ValidRun, Handed;
    HandedOutInTurn(s, steps, g, i);
    assert Handed(s, steps, g)[..s.chans[g].cap][i] == s.chans[g].queue[i];
  }

  lemma QueueFits(s: Sys, g: nat)
    requires Inv(s) && g < |s.chans|
    ensures |s.chans[g].queue| <= s.chans[g].cap
  {
    var c := s.chans[g];
    assert |InPlay(c)| == |multiset(Fresh(g, c.cap))| == c.cap;
    assert |InPlay(c)| == |c.queue| + |c.taken| + |c.spawned| + |c.sleeping| + |c.ready|;
  }

  /** Setting a new count makes a channel of that many partitions, in order, with none under way. */
  lemma SetCountRenews(s: Sys, topic: string, n: nat)
    requires Inv(s)
    ensures var s' := Apply(s, SetCount(topic, n));
            && Known(s', topic) && Current(s', topic).cap == n
            && (Known(s, topic) && Current(s, topic).cap == n ==> s' == s)
            && (!(Known(s, topic) && Current(s, topic).cap == n) ==>
                 && s'.chans[..|s.chans|] == s.chans && |Current(s', topic).queue| == n
                 && forall i :: 0 <= i < n ==> Current(s', topic).queue[i] == Token(|s.chans|, i))
            && forall other :: other != topic && Known(s, other) ==>
                 Known(s', other) && Current(s', other) == Current(s, other)
  {
  }

  // ---------------------------------------------------------------- the methods

  /** The outcome of a produce to a partition, and of a call of Distribute. */
  datatype Produced = Refused | At(offset: int)

  datatype Distributed = Sent(partition: nat, offset: int) | ProduceFailed | NoPartitions

  /** partitionManager and the partitionData objects, one call at a time. */
  class PartitionManager {
    var s: Sys

    constructor ()
      ensures s == Empty
    {
      s := Empty;
    }

    /** The loop that fills a new channel. */
    static method Fill(gen: nat, n: nat) returns (q: seq<Token>)
      ensures q == Fresh(gen, n)
    {
      q := [];
      for i := 0 to n
        invariant q == Fresh(gen, n)[..i]
      {
        q := q + [Token(gen, i)];
      }
    }

    /** SetPartitionCount: nothing happens unless the count changes. */
    method SetPartitionCount(topic: string, n: nat)
      requires Inv(s)
      modifies this
      ensures Inv(s) && s == Apply(old(s), SetCount(topic, n))
    {
      StepKeeps(s, SetCount(topic, n));
      if topic in s.current && s.chans[s.current[topic]].cap == n {
        return;
      }
      var q := Fill(|s.chans|, n);
      var g := |s.chans|;
      s := s.(chans := s.chans + [Chan(n, q, multiset{}, multiset{}, multiset{}, multiset{})],
          current := s.current[topic := g]);
    }

    /** GetPartition when the queue does not fill before the timeout: none if it is empty. */
    method GetPartition(topic: string) returns (found: bool, t: Token)
      requires Inv(s)
      modifies this
      ensures Inv(s)
      ensures found <==> Enabled(old(s), Get(topic))
      ensures found ==> t == Current(old(s), topic).queue[0] && Enabled(Apply(old(s), Get(topic)), Spawn(t))
      ensures found ==> s == Apply(Apply(old(s), Get(topic)), Spawn(t))
      ensures !found ==> s == old(s)
    {
      found, t := false, Token(0, 0);
      if topic !in s.current {
        return;
      }
      var g := s.current[topic];
      var c := s.chans[g];
      if c.queue == [] {
        return;
      }
      QueueHead(c.queue);
      AtHome(g, c, c.queue[0]);
      GetKeeps(s, topic);
      found, t := true, c.queue[0];
      c := c.(queue := c.queue[1..], taken := c.taken + multiset{t});
      s := s.(chans := s.chans[g := c]);
      assert s == Apply(old(s), Get(topic));
      StepKeeps(s, Spawn(t));
      c := c.(taken := c.taken - multiset{t}, spawned := c.spawned + multiset{t});
      s := s.(chans := s.chans[g := c]);
      assert s.chans == Apply(Apply(old(s), Get(topic)), Spawn(t)).chans;
    }

    /** Success and Failure of a partitionData. */
    method Success(t: Token)
      requires Inv(s)
      modifies this
      ensures Inv(s) && s == Apply(Apply(old(s), SuccessStore(t)), SuccessSignal(t))
    {
      s := s.(fails := s.fails[t := 0]);
      s := s.(reset := s.reset + {t});
    }

    method Failure(t: Token)
      requires Inv(s)
      modifies this
      ensures Inv(s) && s == Apply(old(s), Fail(t))
    {
      s := s.(fails := s.fails[t := (Fails(s, t) + 1) % Uint64]);
    }

    /**
     Distribute, with nothing in between: an unknown topic is taken to have one partition, the
     partition at the head of the queue is tried, and the outcome is recorded on its token.
     `produce` is what a produce to each partition comes to.
     */
    method Distribute(topic: string, known: bool, count: nat, produce: nat -> Produced) returns (r: Distributed)
      requires Inv(s)
      modifies this
      ensures Inv(s)
      ensures var s1 := Apply(old(s), SetCount(topic, if known then count else 1));
              if !Enabled(s1, Get(topic)) then r == NoPartitions && s == s1
              else
                var t := Current(s1, topic).queue[0];
                Enabled(Apply(s1, Get(topic)), Spawn(t)) &&
                var s2 := Apply(Apply(s1, Get(topic)), Spawn(t));
                match produce(t.part)
                case Refused => r == ProduceFailed && s == Apply(s2, Fail(t))
                case At(offset) => r == Sent(t.part, offset) && s == Apply(Apply(s2, SuccessStore(t)), SuccessSignal(t))
    {
      hide Inv, Apply;
      SetPartitionCount(topic, if known then count else 1);
      var found, t := GetPartition(topic);
      if !found {
        return NoPartitions;
      }
      match produce(t.part) {
        case Refused =>
          Failure(t);
          return ProduceFailed;
        case At(offset) =>
          Success(t);
          return Sent(t.part, offset);
      }
    }
  }
}
