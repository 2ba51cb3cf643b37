/**
 Many goroutines on one backend. Each one's record of connections replays (that is what the
 request loops of the broker are proved to produce), and the pool's own steps come in between
 in any order. Then every close and every hand-back finds its connection in the hands of the
 goroutine that makes it, which is all the pool needs for its guarantees.
 */
module Clients {
  import opened Wire
  import opened Pool
  import Exchange

  datatype Act =
    | Inner(step: Step)                         // a step inside the pool that hands out nothing
    | Got(client: nat, step: Step, c: Conn)     // the step that gives a client a connection
    | Shut(client: nat, c: Conn)
    | Gave(client: nat, c: Conn)

  function StepOf(act: Act): Step {
    match act
    case Inner(step) => step
    case Got(_, step, _) => step
    case Shut(_, c) => CloseHeld(c)
    case Gave(_, c) => Return(c)
  }

  /** What the act adds to the record of a client. */
  function EventOf(act: Act, client: nat): seq<Exchange.Event> {
    match act
    case Inner(_) => []
    case Got(k, _, c) => if k == client then [Exchange.Acquire(c)] else []
    case Shut(k, c) => if k == client then [Exchange.Close(c)] else []
    case Gave(k, c) => if k == client then [Exchange.Idle(c)] else []
  }

  function Record(acts: seq<Act>, client: nat): seq<Exchange.Event> {
    if acts == [] then [] else Record(acts[..|acts| - 1], client) + EventOf(acts[|acts| - 1], client)
  }

  function Steps(acts: seq<Act>): seq<Step> {
    if acts == [] then [] else Steps(acts[..|acts| - 1]) + [StepOf(acts[|acts| - 1])]
  }

  /** A step that neither hands out a connection nor is a client's or the closing of the backend. */
  predicate Internal(b: PoolState, step: Step) {
    match step
    case DialOk(_) => false
    case CloseHeld(_) => false
    case Return(_) => false
    case CloseBackend => false
    case CheckTaken(c) => c in b.closed
    case _ => true
  }

  /** Of clients' closes and hand-backs nothing is asked here. */
  predicate Possible(b: PoolState, act: Act) {
    match act
    case Inner(step) => Enabled(b, step) && Internal(b, step)
    case Got(_, step, c) => Enabled(b, step) && (step == DialOk(c) || (step == CheckTaken(c) && c !in b.closed))
    case Shut(_, _) => true
    case Gave(_, _) => true
  }

  function After(b: PoolState, acts: seq<Act>): PoolState {
    if acts == [] then b
    else
      var before := After(b, acts[..|acts| - 1]);
      var step := StepOf(acts[|acts| - 1]);
      if Enabled(before, step) then Apply(before, step) else before
  }

  predicate AllPossible(b: PoolState, acts: seq<Act>) {
    acts == [] || (AllPossible(b, acts[..|acts| - 1]) && Possible(After(b, acts[..|acts| - 1]), acts[|acts| - 1]))
  }

  /** Every client only closes and hands back what it holds. */
  ghost predicate Disciplined(acts: seq<Act>) {
    forall k :: Exchange.Replay(Record(acts, k)).Some?
  }

  /** By its record the client holds the connection. */
  predicate Holds(acts: seq<Act>, k: nat, c: Conn) {
    var held := Exchange.Replay(Record(acts, k));
    held.Some? && c in held.value
  }

  /** What a client holds by its record is held in the pool, and by nobody else. */
  ghost predicate Linked(b: PoolState, acts: seq<Act>) {
    && (forall k, c :: Holds(acts, k, c) ==> In(b, c, Held))
    && (forall k, l, c :: k != l && Holds(acts, k, c) ==> !Holds(acts, l, c))
  }

  lemma ReplaySnoc(events: seq<Exchange.Event>, e: Exchange.Event)
    requires Exchange.Replay(events + [e]).Some?
    ensures Exchange.Replay(events).Some?
    ensures var held, held' := Exchange.Replay(events).value, Exchange.Replay(events + [e]).value;
            && (e.Acquire? ==> e.c !in held && held' == held + {e.c})
            && (e.Close? ==> e.c in held && held' == held)
            && (e.Idle? ==> e.c in held && held' == held - {e.c})
  {
    assert (events + [e])[..|events|] == events && (events + [e])[|events|] == e;
  }

  predicate By(act: Act, k: nat) {
    !act.Inner? && act.client == k
  }

  /** How the last act changes what a client holds. */
  lemma LastAct(acts: seq<Act>, k: nat, c: Conn)
    requires acts != [] && Exchange.Replay(Record(acts, k)).Some?
    ensures var front, last := acts[..|acts| - 1], acts[|acts| - 1];
            && Exchange.Replay(Record(front, k)).Some?
            && (Holds(acts, k, c) <==>
                 if By(last, k) && last.c == c then !last.Gave? else Holds(front, k, c))
            && (By(last, k) ==> (Holds(front, k, last.c) <==> !last.Got?))
  {
    var front, last := acts[..|acts| - 1], acts[|acts| - 1];
    var events := Record(front, k);
    assert events + [] == events;
    if By(last, k) {
      ReplaySnoc(events, EventOf(last, k)[0]);
    }
  }

  /** A step that is no client's leaves held connections held. */
  lemma InnerKeepsHeld(b: PoolState, step: Step, c: Conn)
    requires Inv(b) && Enabled(b, step) && Internal(b, step) && In(b, c, Held)
    ensures In(Apply(b, step), c, Held)
  {
  }

  lemma GotIsNew(b: PoolState, act: Act, c: Conn)
    requires Inv(b) && Possible(b, act) && act.Got? && In(b, c, Held)
    ensures c != act.c && In(Apply(b, act.step), c, Held)
  {
  }

  lemma GotIsHeld(b: PoolState, act: Act)
    requires Possible(b, act) && act.Got?
    ensures In(Apply(b, act.step), act.c, Held)
  {
  }

  /** A connection held before and after the last act stays with the pool as it was. */
  lemma StillHeld(b: PoolState, act: Act, c: Conn)
    requires Inv(b) && Possible(b, act) && Enabled(b, StepOf(act)) && In(b, c, Held) && !(act.Gave? && act.c == c)
    ensures In(Apply(b, StepOf(act)), c, Held)
  {
    hide Inv;
    if act.Inner? {
      InnerKeepsHeld(b, act.step, c);
    } else if act.Got? {
      GotIsNew(b, act, c);
    }
  }

  lemma LastEnabled(b: PoolState, acts: seq<Act>)
    requires acts != [] && Disciplined(acts) && Possible(b, acts[|acts| - 1])
    requires Linked(b, acts[..|acts| - 1])
    ensures Enabled(b, StepOf(acts[|acts| - 1]))
  {
    var last := acts[|acts| - 1];
    if last.Shut? || last.Gave? {
      LastAct(acts, last.client, last.c);
    }
  }

  /** The last act keeps the link. */
  lemma LinkKept(b: PoolState, acts: seq<Act>)
    requires Inv(b) && acts != [] && Disciplined(acts) && Possible(b, acts[|acts| - 1])
    requires Linked(b, acts[..|acts| - 1]) && Enabled(b, StepOf(acts[|acts| - 1]))
    ensures Linked(Apply(b, StepOf(acts[|acts| - 1])), acts)
  {
    var front, last := acts[..|acts| - 1], acts[|acts| - 1];
    var b' := Apply(b, StepOf(last));
    hide Exchange.Replay, Record, Inv, Holds, Apply, Enabled, Possible;
    forall k, c | Holds(acts, k, c)
      ensures In(b', c, Held)
    {
      LastAct(acts, k, c);
      if last.Got? && last.c == c {
        GotIsHeld(b, last);
      } else if last.Gave? && last.c == c {
        LastAct(acts, last.client, c);
        assert false;
      } else {
        StillHeld(b, last, c);
      }
    }
    forall k, l, c | k != l && Holds(acts, k, c)
      ensures !Holds(acts, l, c)
    {
      LastAct(acts, k, c);
      LastAct(acts, l, c);
      if last.Got? && last.c == c && (Holds(front, k, c) || Holds(front, l, c)) {
        assert In(b, c, Held);
        GotIsNew(b, last, c);
      }
    }
  }

  /**
   Every close and every hand-back is of a connection that its client holds. Of what the pool
   hands out nothing is asked.
   */
  ghost predicate OwnOnly(acts: seq<Act>) {
    forall i :: 0 <= i < |acts| && (acts[i].Shut? || acts[i].Gave?) ==> Holds(acts[..i], acts[i].client, acts[i].c)
  }

  lemma FrontOwnOnly(acts: seq<Act>)
    requires acts != [] && OwnOnly(acts)
    ensures OwnOnly(acts[..|acts| - 1])
    ensures var front, last := acts[..|acts| - 1], acts[|acts| - 1];
            last.Shut? || last.Gave? ==> Holds(front, last.client, last.c)
  {
    var front := acts[..|acts| - 1];
    forall i | 0 <= i < |front| && (front[i].Shut? || front[i].Gave?)
      ensures Holds(front[..i], front[i].client, front[i].c)
    {
      assert front[..i] == acts[..i] && front[i] == acts[i];
    }
  }

  lemma NothingLinked(b: PoolState)
    ensures Linked(b, []) && Disciplined([])
  {
  }

  /** A connection that is handed out is held by no client, the one that gets it included. */
  lemma GotIsUnheld(b: PoolState, acts: seq<Act>, act: Act, k: nat)
    requires Inv(b) && Linked(b, acts) && Possible(b, act) && act.Got?
    ensures !Holds(acts, k, act.c)
  {
    hide Inv, Possible, Holds;
    if Holds(acts, k, act.c) {
      assert In(b, act.c, Held);
      GotIsNew(b, act, act.c);
    }
  }

  /** So every record still replays after the last act. */
  lemma StaysDisciplined(b: PoolState, acts: seq<Act>)
    requires Inv(b) && acts != [] && Possible(b, acts[|acts| - 1])
    requires Disciplined(acts[..|acts| - 1]) && Linked(b, acts[..|acts| - 1]) && OwnOnly(acts)
    ensures Disciplined(acts)
  {
    var front, last := acts[..|acts| - 1], acts[|acts| - 1];
    FrontOwnOnly(acts);
    hide Inv, Linked, Possible, OwnOnly;
    forall k ensures Exchange.Replay(Record(acts, k)).Some? {
      assert Exchange.Replay(Record(front, k)).Some?;
      if last.Got? {
        GotIsUnheld(b, front, last, k);
      }
      ReplayMore(front, last, k);
      assert Record(acts, k) == Record(front, k) + EventOf(last, k);
    }
  }

  lemma ReplayMore(front: seq<Act>, last: Act, k: nat)
    requires Exchange.Replay(Record(front, k)).Some?
    requires By(last, k) ==> (Holds(front, k, last.c) <==> !last.Got?)
    ensures Exchange.Replay(Record(front, k) + EventOf(last, k)).Some?
  {
    var events := Record(front, k);
    if By(last, k) {
      var e := EventOf(last, k)[0];
      assert (events + [e])[..|events|] == events && (events + [e])[|events|] == e;
    } else {
      assert events + [] == events;
    }
  }

  lemma {:induction false} StaysLinked(limit: nat, acts: seq<Act>)
    requires AllPossible(Init(limit), acts) && OwnOnly(acts)
    ensures var b := After(Init(limit), acts);
            && Reaches(Init(limit), Steps(acts), b) && CloseBackend !in Steps(acts)
            && Inv(b) && Disciplined(acts) && Linked(b, acts)
    decreases |acts|
  {
    if acts == [] {
      NothingLinked(Init(limit));
    } else {
      hide Inv, Reaches, Linked, Disciplined, OwnOnly, Possible, Enabled, Apply, Init;
      var front, last := acts[..|acts| - 1], acts[|acts| - 1];
      var b := After(Init(limit), front);
      FrontOwnOnly(acts);
      StaysLinked(limit, front);
      StaysDisciplined(b, acts);
      LastEnabled(b, acts);
      LinkKept(b, acts);
      StepIsNotClosing(b, last);
      StepKeeps(b, StepOf(last));
      Extend(Init(limit), Steps(front), b, StepOf(last));
    }
  }

  lemma StepIsNotClosing(b: PoolState, act: Act)
    requires Possible(b, act)
    ensures StepOf(act) != CloseBackend
  {
  }

  /**
   Clients that only close and hand back what they hold, interleaved in any way with the pool's
   own steps, keep the pool safe; every record replays, and what one client holds no other does.
   */
  lemma ClientsAreSafe(limit: nat, acts: seq<Act>)
    requires AllPossible(Init(limit), acts) && OwnOnly(acts)
    ensures Disciplined(acts)
    ensures var b := After(Init(limit), acts);
            && ValidRun(Init(limit), Steps(acts)) && Exec(Init(limit), Steps(acts)) == b
            && b.counter == |b.conns| <= limit
            && |b.dialed - b.closed| <= limit
            && !b.excess
            && (forall k, c :: Holds(acts, k, c) ==> In(b, c, Held) && c !in b.idle)
            && (forall k, l, c :: k != l && Holds(acts, k, c) ==> !Holds(acts, l, c))
  {
    hide Exchange.Replay, Holds, Disciplined, OwnOnly, AllPossible, After;
    StaysLinked(limit, acts);
    ReachesMeans(Init(limit), Steps(acts), After(Init(limit), acts));
    PoolIsSafe(limit, Steps(acts));
  }

  /**
   The pool never hands out a connection that some client holds: what `Exchange.Exclusive` says
   of the supply of a ledger holds of the pool.
   */
  lemma PoolIsExclusive(limit: nat, acts: seq<Act>, act: Act, k: nat)
    requires AllPossible(Init(limit), acts) && OwnOnly(acts)
    requires Possible(After(Init(limit), acts), act) && act.Got?
    ensures Exchange.Replay(Record(acts, k)).Some?
    ensures act.c !in Exchange.Replay(Record(acts, k)).value
  {
    StaysLinked(limit, acts);
    GotIsUnheld(After(Init(limit), acts), acts, act, k);
  }
}
