/**
 The connection pool of a backend around its Close (connection_pool.go): what still holds while
 goroutines that looked the backend up before finish their work on it, and exactly when the
 connection limit survives.
 */
module Closing {
  import opened Pool

  // ---------------------------------------------------------------- the excess branch

  /** After Close; `old` are the connections that were tracked when it came. */
  ghost predicate Winding(b: PoolState, tracked: seq<Conn>) {
    && !b.registered && !b.excess && |tracked| <= b.limit
    && (forall c :: c in tracked ==> c in b.closed)
    && b.closed <= b.dialed && b.out.Keys <= b.dialed
    && Distinct(b.idle)
    && (forall c :: c in b.idle ==> c in tracked && c !in b.out)
    && (forall c :: c in b.out && b.out[c] != Held ==> c in b.closed && b.out[c] != Evicted)
    && (forall c :: c in b.out && b.out[c] == Sending ==> c in tracked)
    && (forall c :: c in b.dialed && c !in b.closed ==> In(b, c, Held))
  }

  lemma CloseWinds(b: PoolState)
    requires Inv(b) && Enabled(b, CloseBackend)
    ensures Winding(Apply(b, CloseBackend), b.conns)
  {
  }

  lemma WindingSend(b: PoolState, tracked: seq<Conn>, c: Conn)
    requires Winding(b, tracked) && Enabled(b, Send(c))
    ensures Winding(Apply(b, Send(c)), tracked)
  {
    var s := b.idle + [c];
    assert forall d :: d in s <==> d in b.idle || d == c;
    Pigeonhole(s, tracked);
  }

  lemma WindingKeeps(b: PoolState, tracked: seq<Conn>, step: Step)
    requires Winding(b, tracked) && Enabled(b, step)
    ensures Winding(Apply(b, step), tracked)
  {
    match step
    case Send(c) => WindingSend(b, tracked, c);
    case TakeIdle =>
      assert forall c :: c in b.idle <==> c == b.idle[0] || c in b.idle[1..];
    case DialOk(c) =>
    case _ =>
  }

  lemma {:induction false} RunNeverExcess(b: PoolState, steps: seq<Step>, tracked: seq<Conn>)
    requires (Inv(b) || Winding(b, tracked)) && ValidRun(b, steps)
    ensures !Exec(b, steps).excess
    decreases |steps|
  {
    if steps != [] {
      hide Apply, Enabled;
      if Winding(b, tracked) {
        WindingKeeps(b, tracked, steps[0]);
        RunNeverExcess(Apply(b, steps[0]), steps[1..], tracked);
      } else if steps[0] == CloseBackend {
        CloseWinds(b);
        RunNeverExcess(Apply(b, steps[0]), steps[1..], b.conns);
      } else {
        StepKeeps(b, steps[0]);
        RunNeverExcess(Apply(b, steps[0]), steps[1..], tracked);
      }
    }
  }

  /** The branch for excess connections is unreachable in every run, closing included. */
  lemma NeverExcess(limit: nat, steps: seq<Step>)
    requires ValidRun(Init(limit), steps)
    ensures !Exec(Init(limit), steps).excess
  {
    RunNeverExcess(Init(limit), steps, []);
  }

  lemma {:induction false} RunWinds(b: PoolState, steps: seq<Step>, tracked: seq<Conn>)
    requires Winding(b, tracked) && ValidRun(b, steps)
    ensures Winding(Exec(b, steps), tracked)
    decreases |steps|
  {
    if steps != [] {
      hide Apply, Enabled, Winding;
      WindingKeeps(b, tracked, steps[0]);
      RunWinds(Apply(b, steps[0]), steps[1..], tracked);
    }
  }

  /**
   Closing leaks nothing: from then on a connection is open only while somebody holds it, so when
   all have been handed back every connection that was ever dialed is closed.
   */
  lemma NothingLeaks(limit: nat, before: seq<Step>, after: seq<Step>)
    requires ValidRun(Init(limit), before) && CloseBackend !in before
    requires var b := Exec(Init(limit), before);
             Enabled(b, CloseBackend) && ValidRun(Apply(b, CloseBackend), after)
    ensures var b := Exec(Apply(Exec(Init(limit), before), CloseBackend), after);
            && (forall c :: c in b.dialed - b.closed ==> In(b, c, Held))
            && (b.out == map[] ==> b.dialed <= b.closed)
  {
    RunKeeps(Init(limit), before);
    var b := Exec(Init(limit), before);
    hide Apply, Enabled;
    CloseWinds(b);
    RunWinds(Apply(b, CloseBackend), after, b.conns);
  }

  // ---------------------------------------------------------------- the limit: sufficient

  /** The connections dialed after Close. */
  function Newer(s: seq<Conn>, tracked: seq<Conn>): seq<Conn> {
    if s == [] then []
    else Newer(s[..|s| - 1], tracked) + if s[|s| - 1] in tracked then [] else [s[|s| - 1]]
  }

  lemma {:induction false} NewerMeans(s: seq<Conn>, tracked: seq<Conn>)
    ensures forall c :: c in Newer(s, tracked) <==> c in s && c !in tracked
    ensures (forall c :: c in s ==> c !in tracked) ==> Newer(s, tracked) == s
    ensures (forall c :: c in s ==> c in tracked) ==> Newer(s, tracked) == []
  {
    if s != [] {
      var t := s[..|s| - 1];
      assert s == t + [s[|s| - 1]];
      NewerMeans(t, tracked);
    }
  }

  lemma NewerSnoc(s: seq<Conn>, tracked: seq<Conn>, c: Conn)
    requires c !in tracked
    ensures Newer(s + [c], tracked) == Newer(s, tracked) + [c]
  {
    assert (s + [c])[..|s|] == s;
  }

  /** Every tracked connection is in use, none is idle or on its way in or out of the channel. */
  ghost predicate AllInUse(b: PoolState) {
    forall c :: c in b.conns ==> In(b, c, Held)
  }

  /** Connections on their way back are closed and not tracked any more. */
  ghost predicate DrainingRoles(b: PoolState) {
    && !b.registered && b.idle == []
    && b.closed <= b.dialed && b.out.Keys <= b.dialed
    && forall c :: c in b.out ==>
         b.out[c] == Held || ((b.out[c] == Returning || b.out[c] == Removing) && c in b.closed && c !in b.conns)
  }

  /** The count is that of the newer connections, and all open ones are among them. */
  ghost predicate DrainingList(b: PoolState, tracked: seq<Conn>) {
    && (forall c :: c in tracked ==> c in b.closed)
    && Distinct(b.conns) && (forall c :: c in b.conns ==> c in b.dialed)
    && (forall c :: c in b.dialed && c !in b.closed ==> c in b.conns)
    && b.counter == |Newer(b.conns, tracked)| <= b.limit
    && (b.mutex == Dialing ==> b.counter < b.limit)
  }

  /** After the Close of a pool whose tracked connections were all in use. */
  ghost predicate Draining(b: PoolState, tracked: seq<Conn>) {
    && DrainingRoles(b) && DrainingList(b, tracked) && ScanSound(b)
    && (b.mutex.Scanning? ==> forall c :: c in b.mutex.kept ==> c !in tracked)
  }

  lemma CloseDrains(b: PoolState)
    requires Inv(b) && Enabled(b, CloseBackend) && AllInUse(b)
    ensures Draining(Apply(b, CloseBackend), b.conns)
  {
    NewerMeans(b.conns, b.conns);
    IdleIsTracked(b);
  }

  lemma DrainingScan(b: PoolState, tracked: seq<Conn>)
    requires Draining(b, tracked) && Enabled(b, ScanOne)
    ensures Draining(Apply(b, ScanOne), tracked)
  {
    var n, kept := b.mutex.next, b.mutex.kept;
    var c := b.conns[n];
    var b' := Apply(b, ScanOne);
    assert b.conns[..n + 1] == b.conns[..n] + [c];
    assert c !in b.conns[..n];
    assert c !in kept;
    forall i | 0 <= i < n + 1
      ensures b'.conns[i] in b'.closed || b'.conns[i] in b'.mutex.kept
    {
      if i < n {
        assert b.conns[i] in b.closed || b.conns[i] in kept;
      }
    }
  }

  /** A finished scan has kept every open connection, and of the newer ones at most all. */
  lemma ScanKept(b: PoolState, tracked: seq<Conn>)
    requires Draining(b, tracked) && Enabled(b, ScanDone)
    ensures var kept := b.mutex.kept;
            && Distinct(kept) && |kept| <= b.counter <= b.limit && Newer(kept, tracked) == kept
            && (forall c :: c in kept ==> c in b.conns)
            && (forall c :: c in b.dialed && c !in b.closed ==> c in kept)
  {
    var kept := b.mutex.kept;
    assert b.conns[..b.mutex.next] == b.conns;
    forall c | c in b.dialed && c !in b.closed
      ensures c in kept
    {
      var i :| 0 <= i < |b.conns| && b.conns[i] == c;
    }
    hide Enabled;
    NewerMeans(b.conns, tracked);
    NewerMeans(kept, tracked);
    Pigeonhole(kept, Newer(b.conns, tracked));
  }

  lemma DrainingScanDone(b: PoolState, tracked: seq<Conn>)
    requires Draining(b, tracked) && Enabled(b, ScanDone)
    ensures Draining(Apply(b, ScanDone), tracked)
  {
    hide *;
    ScanKept(b, tracked);
    ScanDoneIs(b);
    ListKept(b, Apply(b, ScanDone), tracked);
    FewerTracked(b, Apply(b, ScanDone), tracked);
    NotScanning(Apply(b, ScanDone), tracked);
  }

  lemma ScanDoneIs(b: PoolState)
    requires Enabled(b, ScanDone)
    ensures b.mutex.Scanning?
    ensures Apply(b, ScanDone) ==
            if |b.mutex.kept| == b.counter then b.(mutex := Free)
            else b.(conns := b.mutex.kept, counter := |b.mutex.kept|, mutex := Dialing)
  {
  }

  lemma NotScanning(b: PoolState, tracked: seq<Conn>)
    requires DrainingRoles(b) && DrainingList(b, tracked) && !b.mutex.Scanning?
    ensures Draining(b, tracked)
  {
    hide DrainingRoles, DrainingList;
  }

  lemma FewerTracked(b: PoolState, b': PoolState, tracked: seq<Conn>)
    requires Draining(b, tracked) && b.mutex.Scanning? && forall c :: c in b.mutex.kept ==> c in b.conns
    requires b' == b.(mutex := Free) || b' == b.(conns := b.mutex.kept, counter := |b.mutex.kept|, mutex := Dialing)
    ensures DrainingRoles(b')
  {
    hide DrainingList, ScanSound;
  }

  lemma ListKept(b: PoolState, b': PoolState, tracked: seq<Conn>)
    requires Draining(b, tracked) && b.mutex.Scanning?
    requires b' == b.(mutex := Free)
        || (b' == b.(conns := b.mutex.kept, counter := |b.mutex.kept|, mutex := Dialing) && b'.counter != b.counter)
    requires var kept := b.mutex.kept;
             && Distinct(kept) && |kept| <= b.counter <= b.limit && Newer(kept, tracked) == kept
             && (forall c :: c in kept ==> c in b.conns)
             && (forall c :: c in b.dialed && c !in b.closed ==> c in kept)
    ensures DrainingList(b', tracked)
  {
    hide Newer, DrainingRoles, ScanSound;
  }

  lemma DrainingDial(b: PoolState, tracked: seq<Conn>, c: Conn)
    requires Draining(b, tracked) && Enabled(b, DialOk(c))
    ensures Draining(Apply(b, DialOk(c)), tracked)
  {
    NewerSnoc(b.conns, tracked, c);
    var b' := Apply(b, DialOk(c));
    assert forall d :: d in b'.conns <==> d in b.conns || d == c;
    assert Distinct(b'.conns);
    hide Newer;
    assert DrainingList(b', tracked);
    hide DrainingList;
  }

  lemma DrainingRemove(b: PoolState, tracked: seq<Conn>, c: Conn)
    requires Draining(b, tracked) && Enabled(b, Remove(c))
    ensures Draining(Apply(b, Remove(c)), tracked)
  {
    WithoutNone(b.conns, c);
  }

  lemma DrainingKeeps(b: PoolState, tracked: seq<Conn>, step: Step)
    requires Draining(b, tracked) && Enabled(b, step)
    ensures Draining(Apply(b, step), tracked)
  {
    match step
    case ScanOne => DrainingScan(b, tracked);
    case ScanDone => DrainingScanDone(b, tracked);
    case DialOk(c) => DrainingDial(b, tracked, c);
    case Remove(c) => DrainingRemove(b, tracked, c);
    case _ =>
  }

  /** No more open connections than the limit, one that is being dialed included. */
  ghost predicate WithinLimit(b: PoolState) {
    |b.dialed - b.closed| + (if b.mutex == Dialing then 1 else 0) <= b.limit
  }

  lemma DrainingWithin(b: PoolState, tracked: seq<Conn>)
    requires Draining(b, tracked)
    ensures WithinLimit(b)
  {
    NewerMeans(b.conns, tracked);
    OpenCount(b.dialed - b.closed, Newer(b.conns, tracked));
  }

  lemma {:induction false} RunDrains(b: PoolState, tracked: seq<Conn>, steps: seq<Step>)
    requires Draining(b, tracked) && ValidRun(b, steps)
    ensures WithinLimit(Exec(b, steps))
    decreases |steps|
  {
    if steps == [] {
      DrainingWithin(b, tracked);
    } else {
      DrainingKeeps(b, tracked, steps[0]);
      RunDrains(Apply(b, steps[0]), tracked, steps[1..]);
    }
  }

  // ---------------------------------------------------------------- the limit: necessary

  lemma {:induction false} FreshConn(s: set<Conn>) returns (c: Conn)
    ensures c !in s && forall d :: d in s ==> d < c
    decreases |s|
  {
    if s == {} {
      c := 0;
    } else {
      var d :| d in s;
      c := FreshConn(s - {d});
      c := if c <= d then d + 1 else c;
      assert forall e :: e in s ==> e == d || e in s - {d};
    }
  }

  /** The count is one too small, and no connection is open. */
  ghost predicate Undercounted(b: PoolState, open: nat) {
    && b.mutex == Free && b.counter == open - 1 && b.closed <= b.dialed
    && |b.dialed - b.closed| == open
  }

  /** With too small a count, dials go on up to one more than the limit. */
  lemma {:induction false} DialAll(a: PoolState, steps: seq<Step>, b: PoolState, open: nat)
      returns (steps': seq<Step>, b': PoolState)
    requires Reaches(a, steps, b) && Undercounted(b, open) && open <= b.limit + 1
    ensures Reaches(a, steps', b') && Undercounted(b', b.limit + 1) && b'.limit == b.limit
    decreases b.limit + 1 - open
  {
    if open == b.limit + 1 {
      return steps, b;
    }
    var c := FreshConn(b.dialed);
    var b1 := Apply(b, StartNew);
    var b2 := Apply(b1, DialOk(c));
    assert b2.dialed - b2.closed == (b.dialed - b.closed) + {c};
    hide Reaches;
    Extend(a, steps, b, StartNew);
    Extend(a, steps + [StartNew], b1, DialOk(c));
    steps', b' := DialAll(a, steps + [StartNew] + [DialOk(c)], b2, open + 1);
  }

  /** Just closed, with these connections tracked. */
  ghost predicate JustClosed(b: PoolState, tracked: seq<Conn>) {
    && b.conns == tracked && Distinct(tracked) && b.counter == 0 && b.mutex == Free
    && b.closed <= b.dialed && b.dialed <= b.closed
    && (forall c :: c in tracked ==> c in b.closed)
  }

  /** Removing one tracked connection makes the count negative. */
  lemma RemoveUndercounts(a: PoolState, steps: seq<Step>, b: PoolState, c: Conn)
    requires Reaches(a, steps, b) && JustClosed(b, b.conns) && c in b.conns && In(b, c, Removing)
    ensures Enabled(b, Remove(c)) && Reaches(a, steps + [Remove(c)], Apply(b, Remove(c)))
    ensures Undercounted(Apply(b, Remove(c)), 0) && Apply(b, Remove(c)).limit == b.limit
  {
    assert b.dialed - b.closed == {};
    hide Reaches;
    Extend(a, steps, b, Remove(c));
  }

  /** A getter that finds a connection closed, and a returner that does, remove it. */
  lemma SeenClosed(a: PoolState, steps: seq<Step>, b: PoolState, c: Conn) returns (steps': seq<Step>, b': PoolState)
    requires Reaches(a, steps, b) && JustClosed(b, b.conns) && c in b.conns
    requires In(b, c, Taken) || In(b, c, Returning) || In(b, c, Removing)
    ensures Reaches(a, steps', b') && Undercounted(b', 0) && b'.limit == b.limit
  {
    if In(b, c, Removing) {
      RemoveUndercounts(a, steps, b, c);
      return steps + [Remove(c)], Apply(b, Remove(c));
    }
    var step := if In(b, c, Taken) then CheckTaken(c) else CheckReturned(c);
    var b1 := Apply(b, step);
    assert b1 == Move(b, c, Removing);
    hide Reaches;
    Extend(a, steps, b, step);
    RemoveUndercounts(a, steps + [step], b1, c);
    return steps + [step] + [Remove(c)], Apply(b1, Remove(c));
  }

  lemma TakenThenSeen(a: PoolState, steps: seq<Step>, b: PoolState) returns (steps': seq<Step>, b': PoolState)
    requires Reaches(a, steps, b) && JustClosed(b, b.conns) && b.idle != [] && b.idle[0] in b.conns
    ensures Reaches(a, steps', b') && Undercounted(b', 0) && b'.limit == b.limit
  {
    var b1 := Apply(b, TakeIdle);
    hide Reaches;
    Extend(a, steps, b, TakeIdle);
    steps', b' := SeenClosed(a, steps + [TakeIdle], b1, b.idle[0]);
  }

  /** A tracked connection that is not in use leads to too small a count. */
  lemma Undercount(b: PoolState, c: Conn) returns (steps: seq<Step>, b': PoolState)
    requires Inv(b) && Enabled(b, CloseBackend) && c in b.conns && !In(b, c, Held)
    ensures Reaches(Apply(b, CloseBackend), steps, b') && Undercounted(b', 0) && b'.limit == b.limit
  {
    var b0 := Apply(b, CloseBackend);
    assert Reaches(b0, [], b0);
    ClosedJustNow(b);
    IdleIsTracked(b);
    if c in b.idle {
      steps, b' := TakenThenSeen(b0, [], b0);
    } else if In(b, c, Sending) {
      RoomToSend(b, c);
      var b1 := Apply(b0, Send(c));
      hide Reaches;
      Extend(b0, [], b0, Send(c));
      if b.idle == [] {
        assert b1.idle == [c];
      } else {
        assert b1.idle[0] == b.idle[0];
      }
      steps, b' := TakenThenSeen(b0, [] + [Send(c)], b1);
    } else {
      steps, b' := SeenClosed(b0, [], b0, c);
    }
  }

  lemma ClosedJustNow(b: PoolState)
    requires Inv(b) && Enabled(b, CloseBackend)
    ensures JustClosed(Apply(b, CloseBackend), b.conns)
    ensures Apply(b, CloseBackend).idle == b.idle && Apply(b, CloseBackend).out == b.out
    ensures Apply(b, CloseBackend).limit == b.limit && Apply(b, CloseBackend).conns == b.conns
  {
  }

  lemma IdleIsTracked(b: PoolState)
    requires Inv(b)
    ensures b.idle != [] ==> b.idle[0] in b.conns && b.idle[0] !in b.out
    ensures forall c :: c in b.conns ==> c in b.idle || c in b.out
    ensures forall c :: c in b.out ==> b.out[c] != Evicted
    ensures forall c :: c in b.out && b.out[c] == Sending ==> c !in b.closed
  {
    if b.idle != [] {
      assert b.idle[0] in b.idle;
    }
  }

  lemma OverLimit(b: PoolState, c: Conn) returns (steps: seq<Step>)
    requires Inv(b) && Enabled(b, CloseBackend) && c in b.conns && !In(b, c, Held)
    ensures ValidRun(Apply(b, CloseBackend), steps) && !WithinLimit(Exec(Apply(b, CloseBackend), steps))
  {
    hide Inv, Reaches, ValidRun, Exec, Apply, Enabled;
    var before, b1 := Undercount(b, c);
    var b2;
    steps, b2 := DialAll(Apply(b, CloseBackend), before, b1, 0);
    ReachesMeans(Apply(b, CloseBackend), steps, b2);
  }

  /**
   A pool closed in state `b` stays within its limit, whatever the goroutines do that already
   have hold of it, if and only if at that moment every tracked connection is in use: otherwise
   the one that is not will be counted down from zero.
   */
  lemma CloseIsSafeIff(b: PoolState)
    requires Inv(b) && Enabled(b, CloseBackend)
    ensures (forall steps :: ValidRun(Apply(b, CloseBackend), steps) ==>
        WithinLimit(Exec(Apply(b, CloseBackend), steps)))
       <==> AllInUse(b)
  {
    hide Inv, Apply, Enabled, WithinLimit, ValidRun, Exec, Draining;
    var b0 := Apply(b, CloseBackend);
    if AllInUse(b) {
      CloseDrains(b);
      forall steps | ValidRun(b0, steps) ensures WithinLimit(Exec(b0, steps)) {
        RunDrains(b0, b.conns, steps);
      }
    } else {
      var c :| c in b.conns && !In(b, c, Held);
      var steps := OverLimit(b, c);
    }
  }

  lemma OneInUse() returns (b: PoolState)
    ensures Reaches(Init(1), [] + [StartNew] + [DialOk(1)], b)
    ensures Inv(b) && In(b, 1, Held) && b.conns == [1] && b.mutex == Free && 1 !in b.closed
  {
    var b0 := Init(1);
    var b1 := Apply(b0, StartNew);
    b := Apply(b1, DialOk(1));
    StepKeeps(b0, StartNew);
    StepKeeps(b1, DialOk(1));
    assert Reaches(b0, [], b0);
    hide Reaches, Inv;
    Extend(b0, [], b0, StartNew);
    Extend(b0, [] + [StartNew], b1, DialOk(1));
  }

  /** Such states are reached: one connection, used and handed back. */
  lemma UnsafeIsReachable() returns (steps: seq<Step>)
    ensures ValidRun(Init(1), steps) && CloseBackend !in steps
    ensures var b := Exec(Init(1), steps);
            Inv(b) && Enabled(b, CloseBackend) && !AllInUse(b)
  {
    var used := OneInUse();
    var b := IdleResult(used, 1);
    steps := [] + [StartNew] + [DialOk(1)] + IdleSteps(used, 1);
    assert CloseBackend !in steps;
    assert 1 in b.conns && 1 !in b.out && b.mutex == Free;
    hide Reaches, Inv, ValidRun, Exec, Apply, Init, IdleSteps, IdleResult;
    HandBack(Init(1), [] + [StartNew] + [DialOk(1)], used, 1);
    ReachesMeans(Init(1), steps, b);
    InitInv(1);
    RunKeeps(Init(1), steps);
    Registered(b);
  }

  lemma InitInv(limit: nat)
    ensures Inv(Init(limit))
  {
  }

  lemma Registered(b: PoolState)
    requires Inv(b)
    ensures b.registered
  {
  }
}
