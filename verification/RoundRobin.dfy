/**
 When Distribute goes round the partitions in order (distributing_producer.go), for every
 schedule of a single caller: exactly when the tokens that are handed out again were put back
 in the order in which they had left.
 */
module RoundRobin {
  import opened Arithmetic
  import opened Partitions
  import opened Distribution
  import opened Schedules
  import opened CallOrder

  // ---------------------------------------------------------------- handouts and put-backs

  /** The partitions put back into the channel in a run, in order. */
  ghost function PutBacks(d: Caller, actions: seq<Action>, failing: set<nat>): seq<nat>
    requires CanDo(d, actions, failing)
    decreases |actions|
  {
    if actions == [] then []
    else
      (if actions[0].DoSend? then [actions[0].t.part] else [])
      + PutBacks(Do(d, actions[0], failing), actions[1..], failing)
  }

  function Parts(q: seq<Token>): seq<nat> {
    seq(|q|, i requires 0 <= i < |q| => q[i].part)
  }

  /** The partitions in the first channel. */
  function Waiting(d: Caller): seq<nat> {
    if d.s.chans == [] then [] else Parts(d.s.chans[0].queue)
  }

  /** What one action takes out of the channel and puts into it. */
  ghost function Out(d: Caller, a: Action): seq<nat>
    requires Possible(d, a)
  {
    if a.DoGet? then [Current(d.s, Topic).queue[0].part] else []
  }

  ghost function Back(a: Action): seq<nat> {
    if a.DoSend? then [a.t.part] else []
  }

  lemma GetWaiting(d: Caller, failing: set<nat>)
    requires Shape(d) && Possible(d, DoGet)
    ensures Waiting(d) == Out(d, DoGet) + Waiting(Do(d, DoGet, failing))
  {
    hide Inv;
  }

  lemma MoveWaiting(d: Caller, a: Action, failing: set<nat>)
    requires Shape(d) && Possible(d, a) && !a.DoGet?
    ensures Waiting(Do(d, a, failing)) == Waiting(d) + Back(a)
  {
    HasChannel(d);
    hide Shape, Do, Possible, Moved;
    if a.DoOutcome? {
      OutcomeTries(d, failing);
    } else {
      MoveChan(d, a, failing);
      var t := if a.DoSpawn? then d.call.t else a.t;
      MovedQueue(d.s.chans[0], MoveOf(a, t), if a.DoLoad? then Fails(d.s, t) else 0);
    }
  }

  lemma StepWaiting(d: Caller, a: Action, failing: set<nat>)
    requires Shape(d) && Possible(d, a)
    ensures Waiting(d) + Back(a) == Out(d, a) + Waiting(Do(d, a, failing))
  {
    hide Shape, Possible, Do, Waiting;
    if a.DoGet? {
      GetWaiting(d, failing);
    } else {
      MoveWaiting(d, a, failing);
    }
  }

  lemma FirstAction(d: Caller, actions: seq<Action>, failing: set<nat>)
    requires actions != [] && CanDo(d, actions, failing)
    ensures Possible(d, actions[0]) && CanDo(Do(d, actions[0], failing), actions[1..], failing)
    ensures var a, d', rest := actions[0], Do(d, actions[0], failing), actions[1..];
            && DoAll(d, actions, failing) == DoAll(d', rest, failing)
            && Handouts(d, actions, failing) == Out(d, a) + Handouts(d', rest, failing)
            && PutBacks(d, actions, failing) == Back(a) + PutBacks(d', rest, failing)
  {
  }

  /** One action in front of a rest for which the law holds. */
  lemma JoinLaw(q: seq<nat>, q': seq<nat>, last: seq<nat>, out: seq<nat>, back: seq<nat>, h: seq<nat>, p: seq<nat>)
    requires q + back == out + q' && q' + p == h + last
    ensures q + (back + p) == (out + h) + last
  {
    assert q + (back + p) == (q + back) + p;
    assert (out + q') + p == out + (q' + p);
    assert (out + h) + last == out + (h + last);
  }

  /**
   In every schedule, with any partitions failing: what waited and what was put back is what was
   handed out and what waits now, in order.
   */
  lemma {:induction false} QueueLaw(d: Caller, actions: seq<Action>, failing: set<nat>)
    requires Shape(d) && CanDo(d, actions, failing)
    ensures Shape(DoAll(d, actions, failing))
    ensures Waiting(d) + PutBacks(d, actions, failing) ==
            Handouts(d, actions, failing) + Waiting(DoAll(d, actions, failing))
    decreases |actions|
  {
    hide Shape, Possible, Do, Waiting, Out, Back;
    if actions != [] {
      FirstAction(d, actions, failing);
      hide *;
      var a, rest := actions[0], actions[1..];
      var d' := Do(d, a, failing);
      ShapeStays(d, a, failing);
      StepWaiting(d, a, failing);
      QueueLaw(d', rest, failing);
      JoinLaw(Waiting(d), Waiting(d'), Waiting(DoAll(d', rest, failing)), Out(d, a), Back(a),
          Handouts(d', rest, failing), PutBacks(d', rest, failing));
    }
  }

  lemma LawFromStart(n: nat, failing: set<nat>, actions: seq<Action>)
    requires CanDo(Start(n), actions, failing)
    ensures var d := DoAll(Start(n), actions, failing);
            && Shape(d)
            && Range(0, n) + PutBacks(Start(n), actions, failing) ==
               Handouts(Start(n), actions, failing) + Waiting(d)
  {
    StartWaits(n, failing);
    hide *;
    QueueLaw(Start(n), actions, failing);
  }

  lemma StartWaits(n: nat, failing: set<nat>)
    ensures Shape(Start(n)) && Waiting(Start(n)) == Range(0, n)
  {
    StartIsGood(n, failing);
    hide Inv;
  }

  /**
   In every schedule a call gets a partition if and only if fewer than n more were handed out
   than put back, and then it gets the next of the n at the start and those put back since.
   */
  lemma NextInLine(n: nat, failing: set<nat>, actions: seq<Action>)
    requires CanDo(Start(n), actions, failing) && DoAll(Start(n), actions, failing).call == Resting
    ensures var d := DoAll(Start(n), actions, failing);
            var h, p := Handouts(Start(n), actions, failing), PutBacks(Start(n), actions, failing);
            && (Possible(d, DoGet) <==> |h| < n + |p|)
            && (Possible(d, DoGet) ==> Out(d, DoGet) == [(Range(0, n) + p)[|h|]])
  {
    var d := DoAll(Start(n), actions, failing);
    var h, p := Handouts(Start(n), actions, failing), PutBacks(Start(n), actions, failing);
    hide *;
    LawFromStart(n, failing, actions);
    GetsHead(d);
    HeadOfLine(Range(0, n), p, h, Waiting(d));
    RangeSize(n);
  }

  lemma RangeSize(n: nat)
    ensures |Range(0, n)| == n && forall k :: 0 <= k < n ==> Range(0, n)[k] == k
  {
  }

  lemma GetsHead(d: Caller)
    requires Shape(d) && d.call == Resting
    ensures Possible(d, DoGet) <==> Waiting(d) != []
    ensures Possible(d, DoGet) ==> Out(d, DoGet) == [Waiting(d)[0]]
  {
    if d.s.chans[0].queue != [] {
      QueueHead(d.s.chans[0].queue);
      AtHome(0, d.s.chans[0], d.s.chans[0].queue[0]);
    }
    hide Inv;
  }

  lemma HeadOfLine(first: seq<nat>, p: seq<nat>, h: seq<nat>, last: seq<nat>)
    requires first + p == h + last
    ensures last != [] <==> |h| < |first| + |p|
    ensures last != [] ==> last[0] == (first + p)[|h|]
  {
    assert |first + p| == |h + last|;
  }

  // ---------------------------------------------------------------- round robin

  /**
   For every schedule: the k-th handout is of partition k mod n throughout if and only if the
   tokens that were handed out again had been put back in the order in which they had left.
   */
  lemma RoundRobinIff(n: nat, failing: set<nat>, actions: seq<Action>)
    requires n > 0 && CanDo(Start(n), actions, failing)
    ensures var h, p := Handouts(Start(n), actions, failing), PutBacks(Start(n), actions, failing);
            && |h| <= n + |p|
            && ((forall k :: 0 <= k < |h| ==> h[k] == k % n) <==> (forall j :: 0 <= j < |h| - n ==> p[j] == h[j]))
  {
    var h, p := Handouts(Start(n), actions, failing), PutBacks(Start(n), actions, failing);
    var last := Waiting(DoAll(Start(n), actions, failing));
    hide *;
    LawFromStart(n, failing, actions);
    FirstAndLater(n, h, p, last);
    RoundAndRound(n, h, p);
  }

  lemma RoundAndRound(n: nat, h: seq<nat>, p: seq<nat>)
    requires n > 0 && |h| <= n + |p|
    requires forall k :: 0 <= k < n && k < |h| ==> h[k] == k
    requires forall j :: 0 <= j < |h| - n ==> h[j + n] == p[j]
    ensures (forall k :: 0 <= k < |h| ==> h[k] == k % n) <==> (forall j :: 0 <= j < |h| - n ==> p[j] == h[j])
  {
    if forall j :: 0 <= j < |h| - n ==> p[j] == h[j] {
      forall k | 0 <= k < |h| ensures h[k] == k % n {
        GoesRound(n, h, k);
      }
    } else if forall k :: 0 <= k < |h| ==> h[k] == k % n {
      forall j | 0 <= j < |h| - n ensures p[j] == h[j] {
        AddModulo(j, n);
        assert h[j + n] == p[j];
      }
    }
  }

  /** The law, position by position. */
  lemma FirstAndLater(n: nat, h: seq<nat>, p: seq<nat>, last: seq<nat>)
    requires Range(0, n) + p == h + last
    ensures |h| + |last| == n + |p|
    ensures forall k :: 0 <= k < n && k < |h| ==> h[k] == k
    ensures forall j :: 0 <= j < |h| - n ==> h[j + n] == p[j]
  {
    var all := Range(0, n) + p;
    assert |all| == n + |p| && all == h + last;
    assert forall k :: 0 <= k < |h| ==> h[k] == all[k];
  }

  lemma {:induction false} GoesRound(n: nat, h: seq<nat>, k: nat)
    requires n > 0 && k < |h|
    requires forall i :: 0 <= i < n && i < |h| ==> h[i] == i
    requires forall j :: 0 <= j < |h| - n ==> h[j + n] == h[j]
    ensures h[k] == k % n
    decreases k
  {
    if k < n {
      SmallModulo(k, n);
    } else {
      GoesRound(n, h, k - n);
      AddModulo(k - n, n);
      assert h[(k - n) + n] == h[k - n];
    }
  }

  // ---------------------------------------------------------------- with failing partitions

  /** The handouts after which the ring puts the partition back: not the second of a failing one. */
  ghost function Kept(h: seq<nat>, failing: set<nat>): seq<nat> {
    if h == [] then []
    else
      var before, p := h[..|h| - 1], h[|h| - 1];
      Kept(before, failing) + if p in failing && p in before then [] else [p]
  }

  lemma KeptMore(h: seq<nat>, p: nat, failing: set<nat>)
    ensures Kept(h + [p], failing) == Kept(h, failing) + if p in failing && p in h then [] else [p]
  {
    assert (h + [p])[..|h + [p]| - 1] == h;
  }

  lemma {:induction false} KeptPrefix(h: seq<nat>, k: nat, failing: set<nat>)
    requires k <= |h|
    ensures Kept(h[..k], failing) <= Kept(h, failing)
    decreases |h|
  {
    if k == |h| {
      assert h[..k] == h;
    } else {
      KeptPrefix(h[..|h| - 1], k, failing);
      assert h[..|h| - 1][..k] == h[..k];
    }
  }

  /** The handouts are those of the closed form. */
  ghost predicate InForm(h: seq<nat>, n: nat, failing: set<nat>) {
    Expected(h, n, failing, 0)
  }

  /**
   The tokens that were handed out again had been put back in the order in which they had left,
   those of failing partitions once.
   */
  ghost predicate BackInOrder(h: seq<nat>, p: seq<nat>, n: nat, failing: set<nat>) {
    var kept := Kept(h, failing);
    |h| - n <= |p| && |h| - n <= |kept| && forall j :: 0 <= j < |h| - n ==> p[j] == kept[j]
  }

  /** Handouts of the closed form bring the ring to the state in which these are still queued. */
  lemma {:induction false} RingLaw(n: nat, failing: set<nat>, h: seq<nat>)
    requires InForm(h, n, failing)
    ensures Range(0, n) + Kept(h, failing) == h + RingAfter(n, failing, |h|).queue
    ensures forall p: nat :: FailsOf(RingAfter(n, failing, |h|), p) > 0 <==> p in failing && p in h
    decreases |h|
  {
    if h == [] {
      hide Kth;
    } else {
      var b, x := h[..|h| - 1], h[|h| - 1];
      assert h == b + [x];
      assert InForm(b, n, failing) && Kth(n, failing, |b|) == [x];
      hide *;
      RingLaw(n, failing, b);
      RingGives(n, failing, |b|, x);
      KeptMore(b, x, failing);
      RingLawStep(n, failing, b, x, RingAfter(n, failing, |b|), RingAfter(n, failing, |b| + 1));
    }
  }

  /** A call of the closed form gets the head of the ring. */
  lemma RingGives(n: nat, failing: set<nat>, k: nat, x: nat)
    requires Kth(n, failing, k) == [x]
    ensures var r, r' := RingAfter(n, failing, k), RingAfter(n, failing, k + 1);
            && r.queue != [] && r.queue[0] == x
            && r'.queue == r.queue[1..] + (if FailsOf(r, x) == 0 then [x] else [])
            && FailsOf(r', x) == (if x in failing then FailsOf(r, x) + 1 else 0)
            && forall o: nat :: o != x ==> FailsOf(r', o) == FailsOf(r, o)
  {
    hide *;
    CallsInOrder(n, failing, k);
    FirstIs(RingAfter(n, failing, k).queue);
    var q := RingAfter(n, failing, k).queue;
    assert q == [x] + q[1..];
    RingStep(n, failing, k, x, q[1..]);
  }

  lemma RingLawStep(n: nat, failing: set<nat>, b: seq<nat>, x: nat, r: Ring, r': Ring)
    requires Range(0, n) + Kept(b, failing) == b + r.queue && r.queue != [] && r.queue[0] == x
    requires forall p: nat :: FailsOf(r, p) > 0 <==> p in failing && p in b
    requires r'.queue == r.queue[1..] + if FailsOf(r, x) == 0 then [x] else []
    requires FailsOf(r', x) == if x in failing then FailsOf(r, x) + 1 else 0
    requires forall o: nat :: o != x ==> FailsOf(r', o) == FailsOf(r, o)
    requires Kept(b + [x], failing) == Kept(b, failing) + if x in failing && x in b then [] else [x]
    ensures Range(0, n) + Kept(b + [x], failing) == b + [x] + r'.queue
    ensures forall p: nat :: FailsOf(r', p) > 0 <==> p in failing && p in b + [x]
  {
    hide *;
    var back := if FailsOf(r, x) == 0 then [x] else [];
    assert r.queue == [x] + r.queue[1..];
    assert Range(0, n) + (Kept(b, failing) + back) == Range(0, n) + Kept(b, failing) + back;
    assert b + r.queue + back == b + [x] + (r.queue[1..] + back);
  }

  lemma InFormMore(h: seq<nat>, x: nat, n: nat, failing: set<nat>)
    ensures InForm([], n, failing)
    ensures InForm(h, n, failing) && Kth(n, failing, |h|) == [x] ==> InForm(h + [x], n, failing)
  {
    hide Kth;
  }

  lemma FormPutsBackInOrder(n: nat, failing: set<nat>, h: seq<nat>, p: seq<nat>, last: seq<nat>)
    requires Range(0, n) + p == h + last && InForm(h, n, failing)
    ensures BackInOrder(h, p, n, failing)
  {
    var q, kept := RingAfter(n, failing, |h|).queue, Kept(h, failing);
    hide RingAfter, Kth, Kept, Range, InForm;
    RingLaw(n, failing, h);
    FirstAndLater(n, h, p, last);
    FirstAndLater(n, h, kept, q);
  }

  lemma {:induction false} NoneLiveMeans(failing: set<nat>, n: nat)
    requires Live(failing, n) == []
    ensures forall p: nat :: p < n ==> p in failing
  {
    if n > 0 {
      NoneLiveMeans(failing, n - 1);
    }
  }

  /** The closed form ends only when all partitions fail and 2n calls were made. */
  lemma FormEnds(n: nat, failing: set<nat>, k: nat)
    requires Kth(n, failing, k) == []
    ensures Live(failing, n) == [] && k >= 2 * n
  {
    hide Live;
  }

  /** The next handout of a run that has followed the closed form so far. */
  lemma NextInForm(n: nat, failing: set<nat>, h: seq<nat>, p: seq<nat>, last: seq<nat>, k: nat)
    requires Range(0, n) + p == h + last && BackInOrder(h, p, n, failing)
    requires Live(failing, n) == [] ==> |h| <= 2 * n
    requires k < |h| && InForm(h[..k], n, failing)
    ensures Kth(n, failing, k) == [h[k]]
  {
    hide *;
    var b, q := h[..k], RingAfter(n, failing, k).queue;
    if Kth(n, failing, k) == [] {
      FormEnds(n, failing, k);
    }
    CallsInOrder(n, failing, k);
    FirstIs(q);
    RingLaw(n, failing, b);
    FirstAndLater(n, h, p, last);
    FirstAndLater(n, b + q, Kept(b, failing), []);
    assert (b + q) + [] == b + q && (b + q)[k] == q[0];
    if k >= n {
      PutBackAt(h, p, n, failing, k - n);
      KeptPrefix(h, k, failing);
      assert h[(k - n) + n] == p[k - n];
      assert (b + q)[(k - n) + n] == Kept(b, failing)[k - n];
    }
  }

  lemma PutBackAt(h: seq<nat>, p: seq<nat>, n: nat, failing: set<nat>, j: nat)
    requires BackInOrder(h, p, n, failing) && j < |h| - n
    ensures j < |p| && j < |Kept(h, failing)| && p[j] == Kept(h, failing)[j]
  {
  }

  lemma {:induction false} OrderFollowsForm(n: nat, failing: set<nat>, h: seq<nat>, p: seq<nat>, last: seq<nat>, k: nat)
    requires Range(0, n) + p == h + last && BackInOrder(h, p, n, failing)
    requires Live(failing, n) == [] ==> |h| <= 2 * n
    requires k <= |h|
    ensures InForm(h[..k], n, failing)
    decreases k
  {
    hide *;
    InFormMore([], 0, n, failing);
    if k > 0 {
      OrderFollowsForm(n, failing, h, p, last, k - 1);
      NextInForm(n, failing, h, p, last, k - 1);
      InFormMore(h[..k - 1], h[k - 1], n, failing);
      assert h[..k] == h[..k - 1] + [h[k - 1]];
    }
  }

  /**
   For every schedule and any failing partitions: the handouts are those of the closed form if
   and only if the tokens that were handed out again had been put back in the order in which
   they had left, those of failing partitions after their first handout only.
   */
  lemma ClosedFormIff(n: nat, failing: set<nat>, actions: seq<Action>)
    requires CanDo(Start(n), actions, failing)
    ensures var h, p := Handouts(Start(n), actions, failing), PutBacks(Start(n), actions, failing);
            InForm(h, n, failing) <==> BackInOrder(h, p, n, failing)
  {
    var h, p := Handouts(Start(n), actions, failing), PutBacks(Start(n), actions, failing);
    var last := Waiting(DoAll(Start(n), actions, failing));
    hide *;
    LawFromStart(n, failing, actions);
    if Live(failing, n) == [] {
      NoneLiveMeans(failing, n);
      AllFailing(n, failing, actions);
    }
    if InForm(h, n, failing) {
      FormPutsBackInOrder(n, failing, h, p, last);
    }
    if BackInOrder(h, p, n, failing) {
      OrderFollowsForm(n, failing, h, p, last, |h|);
      assert h[..|h|] == h;
    }
  }

  lemma FormIs(h: seq<nat>, n: nat, failing: set<nat>)
    requires forall k :: 0 <= k < |h| ==> Kth(n, failing, k) == [h[k]]
    ensures InForm(h, n, failing)
  {
  }

  /** Prompt schedules whose failures are read before they are recorded are a case of this. */
  lemma PromptPutsBackInOrder(n: nat, failing: set<nat>, actions: seq<Action>)
    requires CanDo(Start(n), actions, failing)
    requires Early(Start(n), actions, failing) && Prompt(Start(n), actions, failing)
    ensures BackInOrder(Handouts(Start(n), actions, failing), PutBacks(Start(n), actions, failing), n, failing)
  {
    hide *;
    HandedOutInOrder(n, failing, actions);
    FormIs(Handouts(Start(n), actions, failing), n, failing);
    ClosedFormIff(n, failing, actions);
  }
}
