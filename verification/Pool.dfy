/**
 The connection pool of one backend (connection_pool.go) as a state machine. Every step is
 one atomic action of some goroutine: a channel operation, a test of a connection's closed
 flag, or a stretch under the backend's mutex. Making a new connection holds the mutex over a
 scan and a dial, so those are several steps, and any other goroutine's channel operations and
 closes may come in between.

 The backend is closed only when its address is dropped, and it is taken out of the table of
 backends before anybody can look it up again. So whoever returns a connection later finds no
 backend, and closes the connection.
 */
module Pool {

  /** The identity of a connection; no two dials give the same one. */
  type Conn = nat

  /** Where a connection outside the idle channel is. */
  datatype Role =
    | Taken      // received from the channel, not looked at yet
    | Held       // in use
    | Returning  // handed to Idle, not looked at yet
    | Sending    // Idle saw it open and is about to enqueue it
    | Removing   // seen closed, about to be removed from the list
    | Evicted    // Idle found the channel full

  datatype Mutex = Free | Scanning(next: nat, kept: seq<Conn>) | Dialing

  datatype PoolState = PoolState(
    limit: nat,
    counter: int,
    conns: seq<Conn>,
    idle: seq<Conn>,
    out: map<Conn, Role>,
    closed: set<Conn>,
    dialed: set<Conn>,
    mutex: Mutex,
    registered: bool,
    excess: bool)

  function Init(limit: nat): PoolState {
    PoolState(limit, 0, [], [], map[], {}, {}, Free, true, false)
  }

  datatype Step =
    | TakeIdle
    | CheckTaken(c: Conn)
    | StartNew
    | ScanOne
    | ScanDone
    | DialOk(c: Conn)
    | DialFail
    | CloseHeld(c: Conn)
    | Return(c: Conn)
    | CheckReturned(c: Conn)
    | Send(c: Conn)
    | Remove(c: Conn)
    | CloseBackend

  /** The first occurrence of `c` taken out. */
  function Without<C(==)>(s: seq<C>, c: C): seq<C> {
    if s == [] then []
    else if s[0] == c then s[1..]
    else [s[0]] + Without(s[1..], c)
  }

  predicate In(b: PoolState, c: Conn, r: Role) {
    c in b.out && b.out[c] == r
  }

  predicate Enabled(b: PoolState, step: Step) {
    match step
    case TakeIdle => b.idle != []
    case CheckTaken(c) => In(b, c, Taken)
    case StartNew => b.mutex == Free
    case ScanOne => b.mutex.Scanning? && b.mutex.next < |b.conns|
    case ScanDone => b.mutex.Scanning? && b.mutex.next >= |b.conns|
    case DialOk(c) => b.mutex == Dialing && c !in b.dialed
    case DialFail => b.mutex == Dialing
    case CloseHeld(c) => In(b, c, Held)
    case Return(c) => In(b, c, Held)
    case CheckReturned(c) => In(b, c, Returning)
    case Send(c) => In(b, c, Sending)
    case Remove(c) => (In(b, c, Removing) || In(b, c, Evicted)) && b.mutex == Free
    case CloseBackend => b.mutex == Free && b.registered
  }

  function Move(b: PoolState, c: Conn, r: Role): PoolState {
    b.(out := b.out[c := r])
  }

  function Apply(b: PoolState, step: Step): PoolState
    requires Enabled(b, step)
  {
    match step
    case TakeIdle => Move(b, b.idle[0], Taken).(idle := b.idle[1..])
    case CheckTaken(c) => Move(b, c, if c in b.closed then Removing else Held)
    case StartNew => b.(mutex := if b.counter >= b.limit then Scanning(0, []) else Dialing)
    case ScanOne =>
      var c := b.conns[b.mutex.next];
      b.(mutex := Scanning(b.mutex.next + 1, if c in b.closed then b.mutex.kept else b.mutex.kept + [c]))
    case ScanDone =>
      if |b.mutex.kept| == b.counter then b.(mutex := Free)
      else b.(conns := b.mutex.kept, counter := |b.mutex.kept|, mutex := Dialing)
    case DialOk(c) =>
      Move(b, c, Held).(counter := b.counter + 1, conns := b.conns + [c], dialed := b.dialed + {c}, mutex := Free)
    case DialFail => b.(mutex := Free)
    case CloseHeld(c) => b.(closed := b.closed + {c})
    case Return(c) =>
      if b.registered then Move(b, c, Returning)
      else b.(closed := b.closed + {c}, out := b.out - {c})
    case CheckReturned(c) => Move(b, c, if c in b.closed then Removing else Sending)
    case Send(c) =>
      if |b.idle| < b.limit then b.(idle := b.idle + [c], out := b.out - {c})
      else Move(b, c, Evicted).(excess := true)
    case Remove(c) =>
      b.(counter := if c in b.conns then b.counter - 1 else b.counter,
         conns := Without(b.conns, c),
         closed := if b.out[c] == Evicted then b.closed + {c} else b.closed,
         out := b.out - {c})
    case CloseBackend =>
      b.(closed := b.closed + (set c | c in b.conns), counter := 0, registered := false)
  }

  // ---------------------------------------------------------------- runs

  ghost predicate ValidRun(b: PoolState, steps: seq<Step>)
    decreases |steps|
  {
    steps == [] || (Enabled(b, steps[0]) && ValidRun(Apply(b, steps[0]), steps[1..]))
  }

  ghost function Exec(b: PoolState, steps: seq<Step>): PoolState
    requires ValidRun(b, steps)
    decreases |steps|
  {
    if steps == [] then b else Exec(Apply(b, steps[0]), steps[1..])
  }

  // ---------------------------------------------------------------- the invariant

  ghost predicate Distinct<C>(s: seq<C>) {
    forall i, j :: 0 <= i < j < |s| ==> s[i] != s[j]
  }

  /** The list, its count and its limit. */
  ghost predicate Counted(b: PoolState) {
    && b.counter == |b.conns| <= b.limit
    && Distinct(b.conns)
    && (b.mutex == Dialing ==> |b.conns| < b.limit)
  }

  /** A scan has kept every open connection it has passed, and nothing twice. */
  ghost predicate ScanSound(b: PoolState) {
    b.mutex.Scanning? ==>
      && b.mutex.next <= |b.conns|
      && |b.mutex.kept| <= b.mutex.next
      && Distinct(b.mutex.kept)
      && (forall c :: c in b.mutex.kept ==> c in b.conns[..b.mutex.next])
      && (forall i :: 0 <= i < b.mutex.next ==> b.conns[i] in b.closed || b.conns[i] in b.mutex.kept)
  }

  /** Every dialed connection is closed, idle or out, and the open ones are in the list. */
  ghost predicate Placed(b: PoolState) {
    && (forall c :: c in b.dialed && c !in b.closed ==> c in b.conns && (c in b.idle || c in b.out))
    && (forall c :: c in b.conns ==> c in b.dialed && (c in b.idle || c in b.out))
    && (forall c :: c in b.idle ==> c in b.dialed && c !in b.closed && c !in b.out)
    && Distinct(b.idle)
    && b.out.Keys <= b.dialed
    && b.closed <= b.dialed
  }

  ghost predicate RolesSound(b: PoolState) {
    forall c :: c in b.out ==>
      match b.out[c]
      case Taken | Sending => c !in b.closed
      case Removing => c in b.closed
      case Evicted => false
      case _ => true
  }

  ghost predicate Inv(b: PoolState) {
    Counted(b) && ScanSound(b) && Placed(b) && RolesSound(b) && b.registered && !b.excess
  }

  // ---------------------------------------------------------------- facts about sequences

  lemma {:induction false} WithoutSound<C>(s: seq<C>, c: C)
    requires Distinct(s)
    ensures Distinct(Without(s, c)) && c !in Without(s, c)
    ensures forall d :: d in Without(s, c) <==> d in s && d != c
    ensures |Without(s, c)| == if c in s then |s| - 1 else |s|
    decreases |s|
  {
    if s != [] {
      assert forall d :: d in s <==> d == s[0] || d in s[1..];
      assert s[0] !in s[1..];
      if s[0] != c {
        WithoutSound(s[1..], c);
        var w := Without(s[1..], c);
        assert forall d :: d in [s[0]] + w <==> d == s[0] || d in w;
      }
    }
  }

  lemma {:induction false} WithoutNone<C>(s: seq<C>, c: C)
    requires c !in s
    ensures Without(s, c) == s
    decreases |s|
  {
    if s != [] {
      assert s[0] in s;
      WithoutNone(s[1..], c);
    }
  }

  /** Distinct elements of a list are at most as many as the list is long. */
  lemma {:induction false} Pigeonhole<C>(s: seq<C>, t: seq<C>)
    requires Distinct(s) && forall c :: c in s ==> c in t
    ensures |s| <= |t|
    decreases |s|
  {
    if s != [] {
      assert s[0] in t;
      var i :| 0 <= i < |t| && t[i] == s[0];
      var t' := t[..i] + t[i + 1..];
      forall c | c in s[1..]
        ensures c in t'
      {
        assert c != s[0] && c in t;
        var j :| 0 <= j < |t| && t[j] == c;
        assert t' [if j < i then j else j - 1] == c;
      }
      Pigeonhole(s[1..], t');
    }
  }

  /** An open connection outside the channel leaves room for itself in the channel. */
  lemma RoomToSend(b: PoolState, c: Conn)
    requires Counted(b) && Placed(b)
    requires c in b.out && c !in b.closed
    ensures |b.idle| < b.limit
  {
    var s := b.idle + [c];
    assert c in b.conns && c !in b.idle;
    forall d | d in s
      ensures d in b.conns
    {
      assert d == c || d in b.idle;
    }
    Pigeonhole(s, b.conns);
  }

  // ---------------------------------------------------------------- every step keeps it

  lemma ScanOneKeeps(b: PoolState)
    requires Inv(b) && Enabled(b, ScanOne)
    ensures ScanSound(Apply(b, ScanOne))
  {
    var n, kept := b.mutex.next, b.mutex.kept;
    var c := b.conns[n];
    var b' := Apply(b, ScanOne);
    assert b.conns[..n + 1] == b.conns[..n] + [c];
    assert c !in b.conns[..n];
    assert c !in kept;
    forall i | 0 <= i < n + 1
      ensures b'.conns[i] in b'.closed || b'.conns[i] in b'.mutex.kept
    {
      if i < n {
        assert b.conns[i] in b.closed || b.conns[i] in kept;
      }
    }
  }

  lemma ScanDoneKeeps(b: PoolState)
    requires Inv(b) && Enabled(b, ScanDone)
    ensures Inv(Apply(b, ScanDone))
  {
    assert b.conns[..b.mutex.next] == b.conns;
    forall c | c in b.dialed && c !in b.closed
      ensures c in b.mutex.kept
    {
      var i :| 0 <= i < |b.conns| && b.conns[i] == c;
    }
  }

  lemma DialOkKeeps(b: PoolState, c: Conn)
    requires Inv(b) && Enabled(b, DialOk(c))
    ensures Inv(Apply(b, DialOk(c)))
  {
    var b' := Apply(b, DialOk(c));
    assert forall d :: d in b'.conns <==> d in b.conns || d == c;
  }

  lemma RemoveKeeps(b: PoolState, c: Conn)
    requires Inv(b) && Enabled(b, Remove(c))
    ensures Inv(Apply(b, Remove(c)))
  {
    WithoutSound(b.conns, c);
  }

  lemma TakeKeeps(b: PoolState)
    requires Inv(b) && Enabled(b, TakeIdle)
    ensures Inv(Apply(b, TakeIdle))
  {
    assert forall c :: c in b.idle <==> c == b.idle[0] || c in b.idle[1..];
    assert b.idle[0] !in b.idle[1..];
  }

  lemma SendKeeps(b: PoolState, c: Conn)
    requires Inv(b) && Enabled(b, Send(c))
    ensures Inv(Apply(b, Send(c)))
  {
    RoomToSend(b, c);
    var b' := Apply(b, Send(c));
    assert forall d :: d in b'.idle <==> d in b.idle || d == c;
  }

  lemma StepKeeps(b: PoolState, step: Step)
    requires Inv(b) && Enabled(b, step) && step != CloseBackend
    ensures Inv(Apply(b, step))
  {
    match step
    case TakeIdle => TakeKeeps(b);
    case ScanOne => ScanOneKeeps(b);
    case ScanDone => ScanDoneKeeps(b);
    case DialOk(c) => DialOkKeeps(b, c);
    case Remove(c) => RemoveKeeps(b, c);
    case Send(c) => SendKeeps(b, c);
    case _ =>
  }

  /**
   In every interleaving before the backend is closed: the count is the length of the list and
   within the limit, every open connection is in the list and either idle or out, idle ones are
   distinct, open and nobody's, and Idle never finds the channel full.
   */
  lemma {:induction false} RunKeeps(b: PoolState, steps: seq<Step>)
    requires Inv(b) && ValidRun(b, steps) && CloseBackend !in steps
    ensures Inv(Exec(b, steps))
    decreases |steps|
  {
    if steps != [] {
      StepKeeps(b, steps[0]);
      RunKeeps(Apply(b, steps[0]), steps[1..]);
    }
  }

  lemma PoolIsSafe(limit: nat, steps: seq<Step>)
    requires ValidRun(Init(limit), steps) && CloseBackend !in steps
    ensures var b := Exec(Init(limit), steps);
            && b.limit == limit
            && b.counter == |b.conns| <= limit
            && |b.dialed - b.closed| + (if b.mutex == Dialing then 1 else 0) <= limit
            && (forall c :: c in b.dialed - b.closed ==> c in b.conns)
            && Distinct(b.idle)
            && (forall c :: c in b.idle ==> c in b.dialed - b.closed && c !in b.out)
            && !b.excess
  {
    RunKeeps(Init(limit), steps);
    LimitFixed(Init(limit), steps);
    var b := Exec(Init(limit), steps);
    OpenCount(b.dialed - b.closed, b.conns);
  }

  lemma {:induction false} LimitFixed(b: PoolState, steps: seq<Step>)
    requires ValidRun(b, steps)
    ensures Exec(b, steps).limit == b.limit
    decreases |steps|
  {
    if steps != [] {
      LimitFixed(Apply(b, steps[0]), steps[1..]);
    }
  }

  lemma {:induction false} OpenCount(open: set<Conn>, conns: seq<Conn>)
    requires forall c :: c in open ==> c in conns
    ensures |open| <= |conns|
    decreases |conns|
  {
    if conns == [] {
      assert open == {};
    } else {
      var rest := open - {conns[0]};
      forall c | c in rest
        ensures c in conns[1..]
      {
        assert c in conns && c != conns[0];
      }
      OpenCount(rest, conns[1..]);
      assert open <= rest + {conns[0]};
      assert |open| <= |rest + {conns[0]}|  by {
        Subset(open, rest + {conns[0]});
      }
    }
  }

  lemma {:induction false} Subset<T>(a: set<T>, b: set<T>)
    requires a <= b
    ensures |a| <= |b|
    decreases a
  {
    if a != {} {
      var x :| x in a;
      Subset(a - {x}, b - {x});
    }
  }

  // ---------------------------------------------------------------- idle connections take turns

  /** The connections that a run puts into the channel, in order. */
  function Sent(steps: seq<Step>): seq<Conn> {
    if steps == [] then [] else (if steps[0].Send? then [steps[0].c] else []) + Sent(steps[1..])
  }

  /** How many times a run takes one out. */
  function Takes(steps: seq<Step>): nat {
    if steps == [] then 0 else (if steps[0].TakeIdle? then 1 else 0) + Takes(steps[1..])
  }

  /** One step: the oldest idle connection leaves and becomes taken, or one enters at the end. */
  lemma IdleStep(b: PoolState, step: Step)
    requires Inv(b) && Enabled(b, step) && step != CloseBackend
    ensures var b' := Apply(b, step);
            if step.TakeIdle? then b.idle == [b.idle[0]] + b'.idle && In(b', b.idle[0], Taken)
            else b'.idle == b.idle + if step.Send? then [step.c] else []
  {
    if step.Send? {
      RoomToSend(b, step.c);
    }
  }

  /**
   The channel is first in, first out: after any run it holds what it held and what was put in,
   in order, but for as many at the front as were taken.
   */
  lemma {:induction false} IdleIsFifo(b: PoolState, steps: seq<Step>)
    requires Inv(b) && ValidRun(b, steps) && CloseBackend !in steps
    ensures Takes(steps) <= |b.idle| + |Sent(steps)|
    ensures Exec(b, steps).idle == (b.idle + Sent(steps))[Takes(steps)..]
    decreases |steps|
  {
    if steps != [] {
      var step, rest := steps[0], steps[1..];
      var b' := Apply(b, step);
      StepKeeps(b, step);
      IdleStep(b, step);
      IdleIsFifo(b', rest);
      hide Inv, Apply, Enabled;
      if step.TakeIdle? {
        TakeShifts(b.idle, b'.idle, Sent(rest), Takes(rest));
      } else {
        SendShifts(b.idle, b'.idle, if step.Send? then [step.c] else [], Sent(rest));
      }
    }
  }

  lemma TakeShifts(q: seq<Conn>, q': seq<Conn>, s: seq<Conn>, n: nat)
    requires q != [] && q == [q[0]] + q' && n <= |q'| + |s|
    ensures (q' + s)[n..] == (q + ([] + s))[n + 1..]
  {
    assert q + ([] + s) == [q[0]] + (q' + s);
  }

  lemma SendShifts(q: seq<Conn>, q': seq<Conn>, entered: seq<Conn>, s: seq<Conn>)
    requires q' == q + entered
    ensures q' + s == q + (entered + s)
  {
  }

  /** A connection taken from the channel is open, so no getter ever has to throw one away. */
  lemma TakenIsOpen(b: PoolState, c: Conn)
    requires Inv(b) && Enabled(b, CheckTaken(c))
    ensures In(Apply(b, CheckTaken(c)), c, Held)
  {
  }

  /**
   A dial is refused only at the limit: when a scan ends without freeing a place, the limit's
   worth of connections were all open when the scan passed them.
   */
  lemma RefusedOnlyWhenFull(b: PoolState)
    requires Inv(b) && Enabled(b, ScanDone) && b.counter >= b.limit
    requires Apply(b, ScanDone).mutex == Free
    ensures |b.conns| == b.limit && forall c :: c in b.conns <==> c in b.mutex.kept
  {
    assert b.conns[..b.mutex.next] == b.conns;
    var kept := b.mutex.kept;
    forall c | c in b.conns
      ensures c in kept
    {
      if c !in kept {
        WithoutSound(b.conns, c);
        Pigeonhole(kept, Without(b.conns, c));
      }
    }
  }

  // ---------------------------------------------------------------- what undisturbed calls do

  ghost predicate Reaches(a: PoolState, steps: seq<Step>, b: PoolState) {
    ValidRun(a, steps) && Exec(a, steps) == b
  }

  lemma {:induction false} Extend(a: PoolState, steps: seq<Step>, b: PoolState, step: Step)
    requires Reaches(a, steps, b) && Enabled(b, step)
    ensures Reaches(a, steps + [step], Apply(b, step))
    decreases |steps|
  {
    if steps == [] {
      assert steps + [step] == [step];
      assert ValidRun(Apply(a, step), []);
    } else {
      assert (steps + [step])[1..] == steps[1..] + [step];
      Extend(Apply(a, steps[0]), steps[1..], b, step);
    }
  }

  /** What an undisturbed Idle makes of the pool: for an open connection there is room. */
  function IdleResult(b: PoolState, c: Conn): PoolState {
    if c in b.closed then
      b.(counter := if c in b.conns then b.counter - 1 else b.counter, conns := Without(b.conns, c), out := b.out - {c})
    else b.(idle := b.idle + [c], out := b.out - {c})
  }

  function IdleSteps(b: PoolState, c: Conn): seq<Step> {
    [] + [Return(c)] + [CheckReturned(c)] + [if c in b.closed then Remove(c) else Send(c)]
  }

  /** A held connection is handed back, undisturbed: to the list if it is closed, else to the channel. */
  lemma HandBack(a: PoolState, steps: seq<Step>, b: PoolState, c: Conn)
    requires Reaches(a, steps, b) && Inv(b) && In(b, c, Held) && (c in b.closed ==> b.mutex == Free)
    ensures Reaches(a, steps + IdleSteps(b, c), IdleResult(b, c))
  {
    var b1 := Move(b, c, Returning);
    var b2 := Move(b, c, if c in b.closed then Removing else Sending);
    var last := if c in b.closed then Remove(c) else Send(c);
    assert Apply(b, Return(c)) == b1 && Apply(b1, CheckReturned(c)) == b2;
    if c !in b.closed {
      RoomToSend(b, c);
    }
    assert b2.out - {c} == b.out - {c};
    assert Apply(b2, last) == IdleResult(b, c);
    assert steps + IdleSteps(b, c) == steps + [Return(c)] + [CheckReturned(c)] + [last];
    hide Reaches, Inv, Apply;
    Extend(a, steps, b, Return(c));
    Extend(a, steps + [Return(c)], b1, CheckReturned(c));
    Extend(a, steps + [Return(c)] + [CheckReturned(c)], b2, last);
  }

  /** A held connection that was closed leaves the list, the count and every other place when it is handed back. */
  lemma ClosedLeaves(b: PoolState, c: Conn)
    requires Inv(b) && Enabled(b, CloseHeld(c))
    ensures var b' := Apply(b, CloseHeld(c));
            && Inv(b') && In(b', c, Held)
            && var after := IdleResult(b', c);
               && c !in after.conns && c !in after.idle && c !in after.out
               && after.counter == if c in b.conns then b.counter - 1 else b.counter
  {
    StepKeeps(b, CloseHeld(c));
    WithoutSound(b.conns, c);
  }

  /** The connections of a list that are not closed, in order. */
  function OpenIn(s: seq<Conn>, closed: set<Conn>): seq<Conn> {
    if s == [] then []
    else OpenIn(s[..|s| - 1], closed) + if s[|s| - 1] in closed then [] else [s[|s| - 1]]
  }

  function Scans(n: nat): seq<Step> {
    if n == 0 then [] else Scans(n - 1) + [ScanOne]
  }

  lemma ScanStep(b: PoolState, n: nat)
    requires 0 < n <= |b.conns|
    ensures var b1 := b.(mutex := Scanning(n - 1, OpenIn(b.conns[..n - 1], b.closed)));
            && Enabled(b1, ScanOne)
            && Apply(b1, ScanOne) == b.(mutex := Scanning(n, OpenIn(b.conns[..n], b.closed)))
  {
    assert b.conns[..n][..n - 1] == b.conns[..n - 1];
    var kept := OpenIn(b.conns[..n - 1], b.closed);
    assert kept + [] == kept;
  }

  lemma ScansJoin(steps: seq<Step>, n: nat)
    ensures steps + Scans(0) == steps
    ensures n > 0 ==> steps + Scans(n) == steps + Scans(n - 1) + [ScanOne]
  {
  }

  lemma {:induction false} ScanSome(a: PoolState, steps: seq<Step>, b: PoolState, n: nat)
    requires Reaches(a, steps, b) && b.mutex == Scanning(0, []) && n <= |b.conns|
    ensures Reaches(a, steps + Scans(n), b.(mutex := Scanning(n, OpenIn(b.conns[..n], b.closed))))
  {
    hide *;
    ScansJoin(steps, n);
    if n == 0 {
      NothingScanned(b);
    } else {
      ScanSome(a, steps, b, n - 1);
      ScanStep(b, n);
      Extend(a, steps + Scans(n - 1), b.(mutex := Scanning(n - 1, OpenIn(b.conns[..n - 1], b.closed))), ScanOne);
    }
  }

  lemma NothingScanned(b: PoolState)
    requires b.mutex == Scanning(0, [])
    ensures b.(mutex := Scanning(0, OpenIn(b.conns[..0], b.closed))) == b
  {
  }

  /**
   getNewConnection at the limit, undisturbed: if every tracked connection is open nothing
   changes and there is no dial, otherwise exactly the open ones stay and the dial comes next.
   */
  lemma CleanOut(a: PoolState, steps: seq<Step>, b: PoolState)
    requires Reaches(a, steps, b) && b.mutex == Free && b.counter >= b.limit
    ensures var kept := OpenIn(b.conns, b.closed);
            Reaches(a, steps + [StartNew] + Scans(|b.conns|) + [ScanDone],
              if |kept| == b.counter then b else b.(conns := kept, counter := |kept|, mutex := Dialing))
  {
    hide Reaches, OpenIn;
    var b1 := b.(mutex := Scanning(0, []));
    Extend(a, steps, b, StartNew);
    ScanSome(a, steps + [StartNew], b1, |b.conns|);
    assert b1.conns[..|b1.conns|] == b.conns;
    var b2 := b1.(mutex := Scanning(|b.conns|, OpenIn(b.conns, b.closed)));
    assert Reaches(a, steps + [StartNew] + Scans(|b.conns|), b2);
    Extend(a, steps + [StartNew] + Scans(|b.conns|), b2, ScanDone);
  }

  /** The pool after an undisturbed getNewConnection that dials `d`, or fails to dial. */
  function NewResult(b: PoolState, d: seq<Conn>): PoolState {
    var kept := OpenIn(b.conns, b.closed);
    if b.counter >= b.limit && |kept| == b.counter then b
    else
      var q := if b.counter >= b.limit then b.(conns := kept, counter := |kept|) else b;
      if d == [] then q
      else
        q.(counter := q.counter + 1, conns := q.conns + [d[0]],
           out := q.out[d[0] := Held], dialed := q.dialed + {d[0]})
  }

  /** It is a run of the pool's steps. */
  lemma NewConnection(a: PoolState, steps: seq<Step>, b: PoolState, d: seq<Conn>) returns (steps': seq<Step>)
    requires Reaches(a, steps, b) && b.mutex == Free && |d| <= 1 && (d != [] ==> d[0] !in b.dialed)
    ensures Reaches(a, steps', NewResult(b, d))
  {
    hide Reaches, OpenIn, Scans;
    var kept := OpenIn(b.conns, b.closed);
    var q :=
      if b.counter >= b.limit then b.(conns := kept, counter := |kept|, mutex := Dialing)
      else b.(mutex := Dialing);
    if b.counter >= b.limit {
      CleanOut(a, steps, b);
      steps' := steps + [StartNew] + Scans(|b.conns|) + [ScanDone];
      if |kept| == b.counter {
        return;
      }
    } else {
      Extend(a, steps, b, StartNew);
      steps' := steps + [StartNew];
    }
    var dial := if d == [] then DialFail else DialOk(d[0]);
    Extend(a, steps', q, dial);
    assert Apply(q, dial) == NewResult(b, d);
    steps' := steps' + [dial];
  }

  lemma ReachesMeans(a: PoolState, steps: seq<Step>, b: PoolState)
    requires Reaches(a, steps, b)
    ensures ValidRun(a, steps) && Exec(a, steps) == b
  {
  }
}
