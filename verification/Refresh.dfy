/**
 RefreshMetadata (cluster.go) as a state machine: any number of goroutines, each of which
 reads the epoch, takes the refresh lock, reads the epoch again, and then either finds that
 somebody else was faster or fetches, installs and stores the epoch it read plus one.
 */
module Refresh {

  type Tid = nat

  /**
   Where a call is. `e0` and `c0` are the epoch and the number of installations when the call
   began, `ctr` is the epoch it read before taking the lock.
   */
  datatype Pc =
    | Entered(e0: int, c0: int)
    | Waiting(e0: int, c0: int, ctr: int)
    | Locked(e0: int, c0: int, ctr: int)
    | Fetching(e0: int, c0: int, ctr: int)
    | Fetched(e0: int, c0: int, ctr: int)
    | Storing(e0: int, c0: int, ctr: int)
    | Replied(e0: int, c0: int, ok: bool)
    | Done(e0: int, c0: int, ok: bool)

  datatype Lock = Free | HeldBy(t: Tid)

  /**
   `installs` counts the responses that cache has installed, `refusals` those it has refused
   because they had no brokers; `fetches` lists, for every successful fetch so far, the epoch
   its call had read.
   */
  datatype State = State(
    epoch: int,
    installs: int,
    refusals: int,
    lock: Lock,
    calls: map<Tid, Pc>,
    fetches: seq<int>)

  const Init: State := State(0, 0, 0, Free, map[], [])

  datatype Step =
    | Enter(t: Tid)
    | ReadEpoch(t: Tid)
    | Acquire(t: Tid)
    | Check(t: Tid)
    | FetchOk(t: Tid)
    | FetchFails(t: Tid)
    | Install(t: Tid)
    | Refuse(t: Tid)
    | Store(t: Tid)
    | Unlock(t: Tid)

  predicate Enabled(s: State, step: Step) {
    var t := step.t;
    if step.Enter? then t !in s.calls
    else
      && t in s.calls
      && match step
         case ReadEpoch(_) => s.calls[t].Entered?
         case Acquire(_) => s.calls[t].Waiting? && s.lock == Free
         case Check(_) => s.calls[t].Locked?
         case FetchOk(_) => s.calls[t].Fetching?
         case FetchFails(_) => s.calls[t].Fetching?
         case Install(_) => s.calls[t].Fetched?
         case Refuse(_) => s.calls[t].Fetched?
         case Store(_) => s.calls[t].Storing?
         case Unlock(_) => s.calls[t].Replied?
         case _ => false
  }

  function At(s: State, t: Tid, pc: Pc): State {
    s.(calls := s.calls[t := pc])
  }

  function Apply(s: State, step: Step): State
    requires Enabled(s, step)
  {
    var t := step.t;
    if step.Enter? then At(s, t, Entered(s.epoch, s.installs))
    else
      var c := s.calls[t];
      match step
      case ReadEpoch(_) => At(s, t, Waiting(c.e0, c.c0, s.epoch))
      case Acquire(_) => At(s, t, Locked(c.e0, c.c0, c.ctr)).(lock := HeldBy(t))
      case Check(_) => At(s, t, if s.epoch > c.ctr then Replied(c.e0, c.c0, true) else Fetching(c.e0, c.c0, c.ctr))
      case FetchOk(_) => At(s, t, Fetched(c.e0, c.c0, c.ctr)).(fetches := s.fetches + [c.ctr])
      case FetchFails(_) => At(s, t, Replied(c.e0, c.c0, false))
      case Install(_) => At(s, t, Storing(c.e0, c.c0, c.ctr)).(installs := s.installs + 1)
      case Refuse(_) => At(s, t, Storing(c.e0, c.c0, c.ctr)).(refusals := s.refusals + 1)
      case Store(_) => At(s, t, Replied(c.e0, c.c0, true)).(epoch := c.ctr + 1)
      case Unlock(_) => At(s, t, Done(c.e0, c.c0, c.ok)).(lock := Free)
  }

  ghost predicate ValidRun(s: State, steps: seq<Step>)
    decreases |steps|
  {
    steps == [] || (Enabled(s, steps[0]) && ValidRun(Apply(s, steps[0]), steps[1..]))
  }

  ghost function Exec(s: State, steps: seq<Step>): State
    requires ValidRun(s, steps)
    decreases |steps|
  {
    if steps == [] then s else Exec(Apply(s, steps[0]), steps[1..])
  }

  // ---------------------------------------------------------------- the invariant

  predicate InsideLock(c: Pc) {
    c.Locked? || c.Fetching? || c.Fetched? || c.Storing? || c.Replied?
  }

  /** A fetch is under way or its result is not yet published. */
  predicate Refreshing(c: Pc) {
    c.Fetching? || c.Fetched? || c.Storing?
  }

  predicate PcSound(s: State, t: Tid)
    requires t in s.calls
  {
    var c := s.calls[t];
    && (InsideLock(c) <==> s.lock == HeldBy(t))
    && c.e0 <= s.epoch
    && ((c.Waiting? || c.Locked? || Refreshing(c)) ==> c.e0 <= c.ctr <= s.epoch)
    && (Refreshing(c) ==> c.ctr == s.epoch)
    && ((c.Replied? || c.Done?) && c.ok ==> s.epoch > c.e0)
  }

  /** How far the holder of the lock is ahead of the published epoch. */
  function Ahead(s: State, fetched: bool): int {
    if s.lock.HeldBy? && s.lock.t in s.calls
        && (s.calls[s.lock.t].Storing? || (fetched && s.calls[s.lock.t].Fetched?)) then 1
    else 0
  }

  ghost predicate Inv(s: State) {
    && (s.lock.HeldBy? ==> s.lock.t in s.calls)
    && (forall t :: t in s.calls ==> PcSound(s, t))
    && 0 <= s.epoch
    && s.installs + s.refusals == s.epoch + Ahead(s, false)
    && |s.fetches| == s.epoch + Ahead(s, true)
    && (forall i :: 0 <= i < |s.fetches| ==> s.fetches[i] == i)
  }

  lemma OutsideKeeps(s: State, step: Step)
    requires Inv(s) && Enabled(s, step) && (step.Enter? || step.ReadEpoch?)
    ensures Inv(Apply(s, step))
  {
    var s', t := Apply(s, step), step.t;
    assert s.lock != HeldBy(t);
    assert Ahead(s', false) == Ahead(s, false) && Ahead(s', true) == Ahead(s, true);
  }

  lemma AcquireKeeps(s: State, t: Tid)
    requires Inv(s) && Enabled(s, Acquire(t))
    ensures Inv(Apply(s, Acquire(t)))
  {
  }

  /** Another call's view is only disturbed by a growing epoch. */
  lemma InsideKeeps(s: State, step: Step)
    requires Inv(s) && Enabled(s, step)
    requires step.Check? || step.FetchOk? || step.FetchFails? || step.Install? || step.Refuse? || step.Store?
    ensures Inv(Apply(s, step))
  {
    var s', t := Apply(s, step), step.t;
    assert InsideLock(s.calls[t]);
    forall u | u in s'.calls
      ensures PcSound(s', u)
    {
      assert PcSound(s, u);
    }
  }

  lemma UnlockKeeps(s: State, t: Tid)
    requires Inv(s) && Enabled(s, Unlock(t))
    ensures Inv(Apply(s, Unlock(t)))
  {
    var s' := Apply(s, Unlock(t));
    forall u | u in s'.calls
      ensures PcSound(s', u)
    {
      assert PcSound(s, u);
    }
  }

  lemma StepKeeps(s: State, step: Step)
    requires Inv(s) && Enabled(s, step)
    ensures Inv(Apply(s, step)) && s.epoch <= Apply(s, step).epoch <= s.epoch + 1
  {
    match step
    case Enter(_) => OutsideKeeps(s, step);
    case ReadEpoch(_) => OutsideKeeps(s, step);
    case Acquire(t) => AcquireKeeps(s, t);
    case Unlock(t) => UnlockKeeps(s, t);
    case _ => InsideKeeps(s, step);
  }

  lemma {:induction false} RunKeeps(s: State, steps: seq<Step>)
    requires Inv(s) && ValidRun(s, steps)
    ensures Inv(Exec(s, steps)) && s.epoch <= Exec(s, steps).epoch
    decreases |steps|
  {
    if steps != [] {
      StepKeeps(s, steps[0]);
      RunKeeps(Apply(s, steps[0]), steps[1..]);
    }
  }

  // ---------------------------------------------------------------- main results

  /**
   In every interleaving: the successful fetches are, in order, one for each epoch value that
   was read, without gap or repeat; the epoch is their number, but for one that is not yet
   published; each is either installed or refused; at most one call is fetching or publishing;
   and a call that returned nil has seen the epoch grow strictly since it began.
   */
  lemma RefreshIsCoalesced(steps: seq<Step>)
    requires ValidRun(Init, steps)
    ensures var s := Exec(Init, steps);
            && (forall i :: 0 <= i < |s.fetches| ==> s.fetches[i] == i)
            && |s.fetches| - 1 <= s.epoch <= |s.fetches|
            && (s.lock == Free ==> s.epoch == |s.fetches| == s.installs + s.refusals)
            && (forall t, u :: t in s.calls && u in s.calls && Refreshing(s.calls[t]) && Refreshing(s.calls[u]) ==>
                t == u)
            && (forall t :: t in s.calls && (s.calls[t].Replied? || s.calls[t].Done?) && s.calls[t].ok ==>
                s.epoch > s.calls[t].e0)
  {
    hide *;
    InitInv();
    RunKeeps(Init, steps);
    InvMeans(Exec(Init, steps));
  }

  lemma InitInv()
    ensures Inv(Init)
  {
  }

  lemma InvMeans(s: State)
    requires Inv(s)
    ensures (forall i :: 0 <= i < |s.fetches| ==> s.fetches[i] == i)
    ensures |s.fetches| - 1 <= s.epoch <= |s.fetches|
    ensures s.lock == Free ==> s.epoch == |s.fetches| == s.installs + s.refusals
    ensures forall t, u :: t in s.calls && u in s.calls && Refreshing(s.calls[t]) && Refreshing(s.calls[u]) ==> t == u
    ensures forall t :: t in s.calls && (s.calls[t].Replied? || s.calls[t].Done?) && s.calls[t].ok ==>
        s.epoch > s.calls[t].e0
  {
    forall t, u | t in s.calls && u in s.calls && Refreshing(s.calls[t]) && Refreshing(s.calls[u])
      ensures t == u
    {
      assert PcSound(s, t) && PcSound(s, u);
    }
    forall t | t in s.calls && (s.calls[t].Replied? || s.calls[t].Done?) && s.calls[t].ok
      ensures s.epoch > s.calls[t].e0
    {
      assert PcSound(s, t);
    }
  }

  /** Between any two points of a run the epoch does not go back. */
  lemma EpochIsMonotone(before: seq<Step>, after: seq<Step>)
    requires ValidRun(Init, before) && ValidRun(Exec(Init, before), after)
    ensures Exec(Init, before).epoch <= Exec(Exec(Init, before), after).epoch
  {
    hide *;
    InitInv();
    RunKeeps(Init, before);
    RunKeeps(Exec(Init, before), after);
  }

  // ---------------------------------------------------------------- how a call ends

  /** The call is over with this verdict, and the lock is free for others. */
  predicate EndsWith(s: State, t: Tid, ok: bool) {
    t in s.calls && s.calls[t].Done? && s.calls[t].ok == ok && s.lock == Free
  }

  /** A call whose lookup found an epoch newer than it had read ends with nil and fetches nothing. */
  lemma SomebodyElseRefreshed(s: State, t: Tid)
    requires Inv(s) && t in s.calls && s.calls[t].Locked? && s.epoch > s.calls[t].ctr
    ensures Enabled(s, Check(t)) && Enabled(Apply(s, Check(t)), Unlock(t))
    ensures var s' := Apply(Apply(s, Check(t)), Unlock(t));
            EndsWith(s', t, true) && s'.epoch == s.epoch && s'.installs == s.installs && s'.fetches == s.fetches
  {
  }

  /** One whose fetch succeeds and is installed publishes the next epoch and ends with nil. */
  lemma OwnRefresh(s: State, t: Tid) returns (steps: seq<Step>)
    requires Inv(s) && t in s.calls && s.calls[t].Locked? && s.epoch == s.calls[t].ctr
    ensures ValidRun(s, steps) && forall i :: 0 <= i < |steps| ==> steps[i].t == t
    ensures var s' := Exec(s, steps);
            EndsWith(s', t, true) && s'.epoch == s.epoch + 1 && s'.installs == s.installs + 1
  {
    var s1 := Apply(s, Check(t));
    var s2 := Apply(s1, FetchOk(t));
    var s3 := Apply(s2, Install(t));
    var s4 := Apply(s3, Store(t));
    var s5 := Apply(s4, Unlock(t));
    assert EndsWith(s5, t, true) && s5.epoch == s.epoch + 1 && s5.installs == s.installs + 1;
    assert ValidRun(s5, []) && Exec(s5, []) == s5;
    hide *;
    steps := [];
    RunOne(s4, Unlock(t), steps);
    steps := [Unlock(t)] + steps;
    RunOne(s3, Store(t), steps);
    steps := [Store(t)] + steps;
    RunOne(s2, Install(t), steps);
    steps := [Install(t)] + steps;
    RunOne(s1, FetchOk(t), steps);
    steps := [FetchOk(t)] + steps;
    RunOne(s, Check(t), steps);
    steps := [Check(t)] + steps;
  }

  lemma RunOne(s: State, step: Step, rest: seq<Step>)
    requires Enabled(s, step) && ValidRun(Apply(s, step), rest)
    ensures ValidRun(s, [step] + rest) && Exec(s, [step] + rest) == Exec(Apply(s, step), rest)
  {
    assert ([step] + rest)[0] == step && ([step] + rest)[1..] == rest;
  }

  /** One whose fetch fails ends with the error, and nothing is installed or published. */
  lemma FailedRefresh(s: State, t: Tid)
    requires Inv(s) && t in s.calls && s.calls[t].Fetching?
    ensures Enabled(s, FetchFails(t)) && Enabled(Apply(s, FetchFails(t)), Unlock(t))
    ensures var s' := Apply(Apply(s, FetchFails(t)), Unlock(t));
            EndsWith(s', t, false) && s'.epoch == s.epoch && s'.installs == s.installs && s'.fetches == s.fetches
  {
  }

  // ---------------------------------------------------------------- what nil does not mean

  /** The call `t` returned nil, and metadata was installed after it began. */
  ghost predicate Satisfied(s: State, t: Tid) {
    t in s.calls && ((s.calls[t].Replied? || s.calls[t].Done?) && s.calls[t].ok ==> s.installs > s.calls[t].c0)
  }

  /** Somebody has handed a response to cache and not yet stored the epoch. */
  ghost predicate HalfPublished(s: State) {
    exists t :: t in s.calls && s.calls[t].Storing?
  }

  /** All responses in the run have brokers. */
  ghost predicate Accepted(steps: seq<Step>) {
    forall i :: 0 <= i < |steps| ==> !steps[i].Refuse?
  }

  lemma AheadOfHalf(s: State)
    requires Inv(s)
    ensures s.installs + s.refusals == s.epoch + (if HalfPublished(s) then 1 else 0)
  {
    if HalfPublished(s) {
      var t :| t in s.calls && s.calls[t].Storing?;
      assert PcSound(s, t);
    }
  }

  /** The entry record of a call never changes. */
  lemma {:induction false} EntryIsKept(s: State, steps: seq<Step>, t: Tid)
    requires ValidRun(s, steps) && t in s.calls
    ensures t in Exec(s, steps).calls
    ensures Exec(s, steps).calls[t].e0 == s.calls[t].e0 && Exec(s, steps).calls[t].c0 == s.calls[t].c0
    ensures Accepted(steps) ==> Exec(s, steps).refusals == s.refusals
    decreases |steps|
  {
    if steps != [] {
      EntryIsKept(Apply(s, steps[0]), steps[1..], t);
    }
  }

  /** A call that begins when nothing is half published: nil means new metadata. */
  lemma NilMeansInstalled(s: State, t: Tid, steps: seq<Step>)
    requires Inv(s) && Enabled(s, Enter(t)) && !HalfPublished(s)
    requires ValidRun(Apply(s, Enter(t)), steps) && Accepted(steps)
    ensures Satisfied(Exec(Apply(s, Enter(t)), steps), t)
  {
    AheadOfHalf(s);
    var s1 := Apply(s, Enter(t));
    StepKeeps(s, Enter(t));
    RunKeeps(s1, steps);
    EntryIsKept(s1, steps, t);
    var s2 := Exec(s1, steps);
    AheadOfHalf(s2);
    assert PcSound(s2, t);
  }

  /** A call that begins in between can return nil although nothing was installed since. */
  lemma NilWithoutInstall(s: State, t: Tid) returns (steps: seq<Step>)
    requires Inv(s) && Enabled(s, Enter(t)) && HalfPublished(s)
    ensures ValidRun(Apply(s, Enter(t)), steps) && Accepted(steps)
    ensures !Satisfied(Exec(Apply(s, Enter(t)), steps), t)
  {
    var h :| h in s.calls && s.calls[h].Storing?;
    assert PcSound(s, h);
    var s1 := Apply(s, Enter(t));
    var s2 := Apply(s1, ReadEpoch(t));
    var s3 := Apply(s2, Store(h));
    var s4 := Apply(s3, Unlock(h));
    var s5 := Apply(s4, Acquire(t));
    var s6 := Apply(s5, Check(t));
    assert s3.epoch == s.epoch + 1 && s2.calls[t].ctr == s.epoch;
    assert s6.calls[t] == Replied(s.epoch, s.installs, true) && s6.installs == s.installs;
    assert !Satisfied(s6, t);
    assert ValidRun(s6, []) && Exec(s6, []) == s6 && Accepted([]);
    hide *;
    steps := [];
    RunFirst(s5, Check(t), steps);
    steps := [Check(t)] + steps;
    RunFirst(s4, Acquire(t), steps);
    steps := [Acquire(t)] + steps;
    RunFirst(s3, Unlock(h), steps);
    steps := [Unlock(h)] + steps;
    RunFirst(s2, Store(h), steps);
    steps := [Store(h)] + steps;
    RunFirst(s1, ReadEpoch(t), steps);
    steps := [ReadEpoch(t)] + steps;
  }

  lemma RunFirst(s: State, step: Step, rest: seq<Step>)
    requires Enabled(s, step) && ValidRun(Apply(s, step), rest)
    ensures ValidRun(s, [step] + rest) && Exec(s, [step] + rest) == Exec(Apply(s, step), rest)
    ensures Accepted(rest) && !step.Refuse? ==> Accepted([step] + rest)
  {
    RunOne(s, step, rest);
  }

  /**
   RefreshMetadata promises that metadata was refreshed when it returns nil. As long as all
   responses have brokers, this holds of a call that begins in state `s`, in every continuation,
   exactly when no other refresher is between handing its response to cache and storing the epoch.
   */
  lemma NilMeansInstalledIff(s: State, t: Tid)
    requires Inv(s) && Enabled(s, Enter(t))
    ensures (forall steps :: ValidRun(Apply(s, Enter(t)), steps) && Accepted(steps) ==>
               Satisfied(Exec(Apply(s, Enter(t)), steps), t))
       <==> !HalfPublished(s)
  {
    if HalfPublished(s) {
      var steps := NilWithoutInstall(s, t);
    } else {
      forall steps | ValidRun(Apply(s, Enter(t)), steps) && Accepted(steps)
        ensures Satisfied(Exec(Apply(s, Enter(t)), steps), t)
      {
        NilMeansInstalled(s, t, steps);
      }
    }
  }

  /**
   A response without brokers breaks the promise even when nobody else is about: it is refused,
   the epoch is stored all the same, and the call returns nil.
   */
  lemma NilAfterRefusal(s: State, t: Tid) returns (steps: seq<Step>)
    requires Inv(s) && Enabled(s, Enter(t)) && s.lock == Free
    ensures ValidRun(Apply(s, Enter(t)), steps)
    ensures !Satisfied(Exec(Apply(s, Enter(t)), steps), t)
  {
    var s1 := Apply(s, Enter(t));
    var s2 := Apply(s1, ReadEpoch(t));
    var s3 := Apply(s2, Acquire(t));
    var s4 := Apply(s3, Check(t));
    var s5 := Apply(s4, FetchOk(t));
    var s6 := Apply(s5, Refuse(t));
    var s7 := Apply(s6, Store(t));
    assert s7.calls[t] == Replied(s.epoch, s.installs, true) && s7.installs == s.installs;
    assert !Satisfied(s7, t);
    assert ValidRun(s7, []) && Exec(s7, []) == s7 && Accepted([]);
    hide *;
    steps := [];
    RunFirst(s6, Store(t), steps);
    steps := [Store(t)] + steps;
    RunFirst(s5, Refuse(t), steps);
    steps := [Refuse(t)] + steps;
    RunFirst(s4, FetchOk(t), steps);
    steps := [FetchOk(t)] + steps;
    RunFirst(s3, Check(t), steps);
    steps := [Check(t)] + steps;
    RunFirst(s2, Acquire(t), steps);
    steps := [Acquire(t)] + steps;
    RunFirst(s1, ReadEpoch(t), steps);
    steps := [ReadEpoch(t)] + steps;
  }

  /** From any state in which the lock is free, a half-published one is reached, with an accepted response. */
  lemma HalfPublishedIsReachable(s: State, h: Tid) returns (steps: seq<Step>)
    requires Inv(s) && Enabled(s, Enter(h)) && s.lock == Free
    ensures ValidRun(s, steps) && Accepted(steps)
    ensures HalfPublished(Exec(s, steps)) && Exec(s, steps).installs == s.installs + 1
  {
    var s1 := Apply(s, Enter(h));
    var s2 := Apply(s1, ReadEpoch(h));
    var s3 := Apply(s2, Acquire(h));
    var s4 := Apply(s3, Check(h));
    var s5 := Apply(s4, FetchOk(h));
    var s6 := Apply(s5, Install(h));
    assert h in s6.calls && s6.calls[h].Storing? && s6.installs == s.installs + 1;
    assert HalfPublished(s6);
    assert ValidRun(s6, []) && Exec(s6, []) == s6 && Accepted([]);
    hide *;
    steps := [];
    RunFirst(s5, Install(h), steps);
    steps := [Install(h)] + steps;
    RunFirst(s4, FetchOk(h), steps);
    steps := [FetchOk(h)] + steps;
    RunFirst(s3, Check(h), steps);
    steps := [Check(h)] + steps;
    RunFirst(s2, Acquire(h), steps);
    steps := [Acquire(h)] + steps;
    RunFirst(s1, ReadEpoch(h), steps);
    steps := [ReadEpoch(h)] + steps;
    RunFirst(s, Enter(h), steps);
    steps := [Enter(h)] + steps;
  }
}
