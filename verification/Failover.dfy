/**
 Finding a partition's leader (broker.go, leaderConnection and getLeaderEndpoint) while other
 goroutines install metadata and forget endpoints. The metadata tables are shared; `world`
 says, for each access the caller makes, what the others have done since the access before,
 and how the caller's own refresh, fetch or connection attempt turns out. Every result is for
 all worlds.
 */
module Failover {
  import opened Wire
  import opened Clusters

  /** The shared tables; `version` counts the installations of new metadata. */
  datatype Meta = Meta(tables: Tables, version: nat)

  datatype Other = Install(tables: Tables) | Forget(tp: TopicPartition)

  datatype Attempted = Connected(id: nat) | PoolFull | Failed

  datatype Answer = Answer(others: seq<Other>, ok: bool, attempt: Attempted)

  type World = nat -> Answer

  function ForgetEndpoint(m: Meta, tp: TopicPartition): (r: Meta)
    ensures r.version == m.version && r.tables.nodes == m.tables.nodes && r.tables.partitions == m.tables.partitions
    ensures tp !in r.tables.endpoints
    ensures forall u :: u != tp ==> Lookup(r.tables.endpoints, u) == Lookup(m.tables.endpoints, u)
  {
    m.(tables := m.tables.(endpoints := m.tables.endpoints - {tp}))
  }

  function Interfere(m: Meta, others: seq<Other>): Meta
    decreases |others|
  {
    if others == [] then m
    else
      match others[0]
      case Install(tables) => Interfere(Meta(tables, m.version + 1), others[1..])
      case Forget(tp) => Interfere(ForgetEndpoint(m, tp), others[1..])
  }

  /** Whatever the others do, an absent endpoint only comes back with new metadata. */
  ghost predicate Gone(m: Meta, tp: TopicPartition, since: int) {
    tp in m.tables.endpoints ==> m.version > since
  }

  lemma {:induction false} InterfereKeeps(m: Meta, others: seq<Other>, tp: TopicPartition, since: int)
    ensures m.version <= Interfere(m, others).version
    ensures Gone(m, tp, since) && since <= m.version ==> Gone(Interfere(m, others), tp, since)
    decreases |others|
  {
    if others != [] {
      match others[0]
      case Install(tables) => InterfereKeeps(Meta(tables, m.version + 1), others[1..], tp, since);
      case Forget(u) => InterfereKeeps(ForgetEndpoint(m, u), others[1..], tp, since);
    }
  }

  /** The others, and nobody else, made `m'` of `m`. */
  ghost predicate Follows(m: Meta, m': Meta) {
    exists others :: m' == Interfere(m, others)
  }

  lemma {:induction false} InterfereTwice(m: Meta, a: seq<Other>, b: seq<Other>)
    ensures Interfere(Interfere(m, a), b) == Interfere(m, a + b)
    decreases |a|
  {
    if a == [] {
      assert a + b == b;
    } else {
      assert (a + b)[0] == a[0] && (a + b)[1..] == a[1..] + b;
      match a[0]
      case Install(tables) => InterfereTwice(Meta(tables, m.version + 1), a[1..], b);
      case Forget(tp) => InterfereTwice(ForgetEndpoint(m, tp), a[1..], b);
    }
  }

  lemma FollowsOn(m: Meta, m': Meta, others: seq<Other>)
    requires Follows(m, m')
    ensures Follows(m, Interfere(m', others))
  {
    var before :| m' == Interfere(m, before);
    InterfereTwice(m, before, others);
    assert Interfere(m', others) == Interfere(m, before + others);
  }

  lemma FollowsSelf(m: Meta)
    ensures Follows(m, m)
  {
    assert m == Interfere(m, []);
  }

  // ---------------------------------------------------------------- what a run leaves behind

  /**
   One try of leaderConnection. Either no leader was found; or there was an attempt: the tables
   when the leader was looked up and when its address was read, the time and outcome of the dial if
   there was an address, the tables when the attempt was over, and those that the try left behind.
   */
  datatype Attempt =
    | Leaderless(left: Meta)
    | Tried(looked: Meta, node: int, read: Meta, addr: string, time: nat, said: Attempted, over: Meta, left: Meta)

  /** Why there is no connection. */
  datatype Reason = NoTry | NoEndpoint | UnknownBroker | NoRoom | Unreachable

  datatype Result = Conn(addr: string, id: nat) | NoConn(why: Reason)

  predicate Won(a: Attempt) {
    a.Tried? && a.addr != "" && a.said.Connected?
  }

  /** There was no address for the node, or the dial failed, other than for want of room in the pool. */
  predicate Lost(a: Attempt) {
    a.Tried? && (a.addr == "" || a.said == Failed)
  }

  /** The attempt went where the tables said. */
  ghost predicate Faithful(a: Attempt, tp: TopicPartition, world: World) {
    a.Tried? ==>
      && a.said == world(a.time).attempt
      && tp in a.looked.tables.endpoints && a.node == a.looked.tables.endpoints[tp]
      && Follows(a.looked, a.read) && Follows(a.read, a.over)
      && a.addr == (if a.node in a.read.tables.nodes then a.read.tables.nodes[a.node] else "")
  }

  /** A lost attempt's endpoint is forgotten; otherwise the call leaves the tables alone. */
  ghost predicate Reacts(a: Attempt, tp: TopicPartition) {
    a.Tried? ==>
      if Lost(a) then exists m :: Follows(a.over, m) && a.left == ForgetEndpoint(m, tp) else a.left == a.over
  }

  /** What the call itself has done to the tables is in the trace: between two tries only others act. */
  ghost predicate Chained(m0: Meta, trace: seq<Attempt>, m: Meta) {
    && (forall i :: 0 <= i < |trace| ==> Follows(Left(m0, trace, i), FirstSeen(trace[i])))
    && m == Left(m0, trace, |trace|)
  }

  /** The tables that the first `i` tries left behind. */
  function Left(m0: Meta, trace: seq<Attempt>, i: nat): Meta
    requires i <= |trace|
  {
    if i == 0 then m0 else trace[i - 1].left
  }

  function FirstSeen(a: Attempt): Meta {
    if a.Tried? then a.looked else a.left
  }

  lemma ChainMore(m0: Meta, trace: seq<Attempt>, m: Meta, a: Attempt)
    requires Chained(m0, trace, m) && Follows(m, FirstSeen(a))
    ensures Chained(m0, trace + [a], a.left)
  {
    hide Follows;
    var more := trace + [a];
    forall i | 0 <= i < |more| ensures Follows(Left(m0, more, i), FirstSeen(more[i])) {
      assert Left(m0, more, i) == Left(m0, trace, i);
      if i < |trace| {
        assert more[i] == trace[i];
      }
    }
  }

  /** After a lost attempt, the next one is made on newer metadata. */
  ghost predicate Patient(trace: seq<Attempt>) {
    forall i, j :: 0 <= i < j < |trace| && Lost(trace[i]) && trace[j].Tried? ==>
      trace[j].looked.version > trace[i].over.version
  }

  /** The last failure so far, if there is one, still keeps the endpoint away. */
  ghost predicate StillGone(m: Meta, tp: TopicPartition, trace: seq<Attempt>) {
    forall i :: 0 <= i < |trace| && Lost(trace[i]) ==>
      trace[i].over.version <= m.version && Gone(m, tp, trace[i].over.version)
  }

  lemma StillGoneAfter(m: Meta, others: seq<Other>, tp: TopicPartition, trace: seq<Attempt>)
    requires StillGone(m, tp, trace)
    ensures StillGone(Interfere(m, others), tp, trace)
    ensures m.version <= Interfere(m, others).version
  {
    InterfereKeeps(m, others, tp, 0);
    forall i | 0 <= i < |trace| && Lost(trace[i])
      ensures trace[i].over.version <= Interfere(m, others).version
      ensures Gone(Interfere(m, others), tp, trace[i].over.version)
    {
      InterfereKeeps(m, others, tp, trace[i].over.version);
    }
  }

  // ---------------------------------------------------------------- what the calls compute

  /** getLeaderEndpoint from access `at` on: the leader, the tables and the last access. */
  function Leader(tp: TopicPartition, create: bool, m0: Meta, world: World, at: nat): (Option<int>, Meta, nat) {
    var m1 := Interfere(m0, world(at).others);
    if tp in m1.tables.endpoints then (Some(m1.tables.endpoints[tp]), m1, at)
    else if !world(at + 1).ok then (None, m1, at + 1)
    else
      // RefreshMetadata: its installation, if any, is one of the others' actions.
      var m2 := Interfere(m1, world(at + 1).others);
      if tp in m2.tables.endpoints then (Some(m2.tables.endpoints[tp]), m2, at + 1)
      else if !create then (None, m2, at + 1)
      else if !world(at + 2).ok then (None, m2, at + 2)
      else
        var m3 := Interfere(m2, world(at + 2).others);
        (if tp in m3.tables.endpoints then Some(m3.tables.endpoints[tp]) else None, m3, at + 2)
  }

  /** The error of an attempt, if there is one. */
  function ErrorOf(addr: string, said: Attempted): Option<Reason> {
    if addr == "" then Some(UnknownBroker)
    else
      match said
      case Connected(id) => None
      case PoolFull => Some(NoRoom)
      case Failed => Some(Unreachable)
  }

  /** An attempt on a node that was looked up in `looked`. */
  function Node(tp: TopicPartition, looked: Meta, nodeID: int, world: World, at: nat): (r: (Attempt, nat))
    ensures r.0.Tried?
  {
    var m1 := Interfere(looked, world(at).others);
    var addr := if nodeID in m1.tables.nodes then m1.tables.nodes[nodeID] else "";
    var m2 := Interfere(m1, world(at + 1).others);
    var said := world(at + 1).attempt;
    // Others may act between the failure and the call of ForgetEndpoint.
    if ErrorOf(addr, said) in {Some(UnknownBroker), Some(Unreachable)} then
      var m3 := ForgetEndpoint(Interfere(m2, world(at + 2).others), tp);
      (Tried(looked, nodeID, m1, addr, at + 1, said, m2, m3), at + 2)
    else (Tried(looked, nodeID, m1, addr, at + 1, said, m2, m2), at + 1)
  }

  /** leaderConnection with `tries` tries left, after those in `trace`. */
  function Connecting(tp: TopicPartition, create: bool, m: Meta, world: World, at: nat, tries: nat, why: Reason,
      trace: seq<Attempt>)
    : (Result, seq<Attempt>, Meta)
    decreases tries
  {
    if tries == 0 then (NoConn(why), trace, m)
    else
      var (found, m1, now1) := Leader(tp, create, m, world, at);
      if found.None? then
        Connecting(tp, create, m1, world, now1 + 1, tries - 1, NoEndpoint, trace + [Leaderless(m1)])
      else
        var (a, now2) := Node(tp, m1, found.value, world, now1 + 1);
        var err := ErrorOf(a.addr, a.said);
        if err.None? then (Conn(a.addr, a.said.id), trace + [a], a.left)
        else Connecting(tp, create, a.left, world, now2 + 1, tries - 1, err.value, trace + [a])
  }

  /** The leader is found in the first tables, or those after a refresh, or those after a topic creation. */
  lemma LeaderIff(tp: TopicPartition, create: bool, m0: Meta, world: World, at: nat)
    ensures var first := Interfere(m0, world(at).others);
            var refreshed := Interfere(first, world(at + 1).others);
            var created := Interfere(refreshed, world(at + 2).others);
            Leader(tp, create, m0, world, at).0.Some? <==>
              || tp in first.tables.endpoints
              || (world(at + 1).ok && tp in refreshed.tables.endpoints)
              || (world(at + 1).ok && create && world(at + 2).ok && tp in created.tables.endpoints)
  {
    hide Interfere;
  }

  lemma LeaderSound(tp: TopicPartition, create: bool, m0: Meta, world: World, at: nat, trace: seq<Attempt>)
    requires StillGone(m0, tp, trace)
    ensures var (found, m, now) := Leader(tp, create, m0, world, at);
            && StillGone(m, tp, trace) && Follows(m0, m)
            && (found.Some? ==> tp in m.tables.endpoints && found.value == m.tables.endpoints[tp])
            && (found.None? ==> tp !in m.tables.endpoints)
  {
    hide Interfere, StillGone, Follows;
    FollowsSelf(m0);
    StillGoneAfter(m0, world(at).others, tp, trace);
    FollowsOn(m0, m0, world(at).others);
    var m1 := Interfere(m0, world(at).others);
    StillGoneAfter(m1, world(at + 1).others, tp, trace);
    FollowsOn(m0, m1, world(at + 1).others);
    var m2 := Interfere(m1, world(at + 1).others);
    StillGoneAfter(m2, world(at + 2).others, tp, trace);
    FollowsOn(m0, m2, world(at + 2).others);
  }

  lemma NodeSound(tp: TopicPartition, looked: Meta, nodeID: int, world: World, at: nat, trace: seq<Attempt>)
    requires StillGone(looked, tp, trace) && tp in looked.tables.endpoints && nodeID == looked.tables.endpoints[tp]
    ensures var (a, now) := Node(tp, looked, nodeID, world, at);
            && a.Tried? && Faithful(a, tp, world) && Reacts(a, tp) && a.looked == looked
            && StillGone(a.left, tp, trace + [a])
  {
    var m1 := Interfere(looked, world(at).others);
    var m2 := Interfere(m1, world(at + 1).others);
    var m3 := Interfere(m2, world(at + 2).others);
    StillGoneAfter(looked, world(at).others, tp, trace);
    StillGoneAfter(m1, world(at + 1).others, tp, trace);
    StillGoneAfter(m2, world(at + 2).others, tp, trace);
    assert Follows(looked, m1) && Follows(m1, m2) && Follows(m2, m3);
    hide Interfere, Follows;
  }

  /** Where the endpoint is known again, every failure so far is older than the metadata. */
  lemma NextIsPatient(m: Meta, tp: TopicPartition, trace: seq<Attempt>)
    requires StillGone(m, tp, trace) && tp in m.tables.endpoints
    ensures forall i :: 0 <= i < |trace| && Lost(trace[i]) ==> m.version > trace[i].over.version
  {
  }

  // ---------------------------------------------------------------- the methods

  /** getLeaderEndpoint: at most three lookups, with a refresh and a topic creation in between. */
  method GetLeaderEndpoint(tp: TopicPartition, create: bool, m0: Meta, world: World, at: nat)
    returns (found: Option<int>, m: Meta, now: nat)
    ensures (found, m, now) == Leader(tp, create, m0, world, at)
  {
    now := at;
    m := Interfere(m0, world(now).others);
    if tp in m.tables.endpoints {
      return Some(m.tables.endpoints[tp]), m, now;
    }
    now := now + 1;
    if !world(now).ok {
      return None, m, now;
    }
    m := Interfere(m, world(now).others);
    if tp in m.tables.endpoints {
      return Some(m.tables.endpoints[tp]), m, now;
    }
    if !create {
      return None, m, now;
    }
    now := now + 1;
    if !world(now).ok {
      return None, m, now;
    }
    m := Interfere(m, world(now).others);
    if tp in m.tables.endpoints {
      return Some(m.tables.endpoints[tp]), m, now;
    }
    return None, m, now;
  }

  /**
   leaderConnection: every attempt goes to the address recorded for the leader looked up; after
   an unknown node or a failed dial the endpoint is forgotten, and the partition's next attempt is
   on metadata installed after that failure; a full pool leaves the tables alone; the first dial
   that connects ends the call with that connection, and nothing but the limit ends it otherwise.
   */
  method LeaderConnection(tp: TopicPartition, limit: nat, create: bool, m0: Meta, world: World)
    returns (r: Result, trace: seq<Attempt>, m: Meta)
    ensures (r, trace, m) == Connecting(tp, create, m0, world, 0, limit, NoTry, [])
    ensures |trace| <= limit
    ensures forall i :: 0 <= i < |trace| ==> Faithful(trace[i], tp, world) && Reacts(trace[i], tp)
    ensures Chained(m0, trace, m)
    ensures Patient(trace)
    ensures forall i :: 0 <= i < |trace| && Won(trace[i]) ==> i == |trace| - 1 && r.Conn?
    ensures r.Conn? ==> trace != [] && var last := trace[|trace| - 1];
            Won(last) && r == Conn(last.addr, last.said.id)
    ensures r.NoConn? ==> |trace| == limit
    ensures r.NoConn? ==> r.why == LastReason(trace)
  {
    hide *;
    m := m0;
    trace := [];
    var resErr := NoTry;
    var now := 0;
    NoTries(m, tp);
    while |trace| < limit
      invariant |trace| <= limit
      invariant forall i :: 0 <= i < |trace| ==> Faithful(trace[i], tp, world) && Reacts(trace[i], tp) && !Won(trace[i])
      invariant Chained(m0, trace, m)
      invariant Patient(trace)
      invariant StillGone(m, tp, trace)
      invariant resErr == LastReason(trace)
      invariant Connecting(tp, create, m0, world, 0, limit, NoTry, []) ==
          Connecting(tp, create, m, world, now, limit - |trace|, resErr, trace)
    {
      LeaderSound(tp, create, m, world, now, trace);
      ConnectingStep(tp, create, m, world, now, limit - |trace|, resErr, trace);
      ghost var before := m;
      var found;
      found, m, now := GetLeaderEndpoint(tp, create, m, world, now);
      if found.None? {
        resErr := NoEndpoint;
        LeaderlessIs(m0, trace, before, m, tp, world);
        trace := trace + [Leaderless(m)];
      } else {
        NextIsPatient(m, tp, trace);
        NodeSound(tp, m, found.value, world, now + 1, trace);
        var a, err;
        a, err, now := TryNode(tp, m, found.value, world, now + 1);
        TriedIs(m0, trace, before, a);
        trace := trace + [a];
        m := a.left;
        if err.None? {
          return Conn(a.addr, a.said.id), trace, m;
        }
        resErr := err.value;
      }
      now := now + 1;
    }
    ConnectingEnds(tp, create, m, world, now, resErr, trace);
    r := NoConn(resErr);
  }

  lemma ConnectingEnds(tp: TopicPartition, create: bool, m: Meta, world: World, at: nat, why: Reason,
      trace: seq<Attempt>)
    ensures Connecting(tp, create, m, world, at, 0, why, trace) == (NoConn(why), trace, m)
  {
  }

  lemma ConnectingStep(tp: TopicPartition, create: bool, m: Meta, world: World, at: nat, tries: nat, why: Reason,
      trace: seq<Attempt>)
    requires tries > 0
    ensures var (found, m1, now1) := Leader(tp, create, m, world, at);
            if found.None? then
              Connecting(tp, create, m, world, at, tries, why, trace) ==
              Connecting(tp, create, m1, world, now1 + 1, tries - 1, NoEndpoint, trace + [Leaderless(m1)])
            else
              var (a, now2) := Node(tp, m1, found.value, world, now1 + 1);
              var err := ErrorOf(a.addr, a.said);
              && (err.None? ==> a.said.Connected?)
              && Connecting(tp, create, m, world, at, tries, why, trace) ==
                 if err.None? then (Conn(a.addr, a.said.id), trace + [a], a.left)
                 else Connecting(tp, create, a.left, world, now2 + 1, tries - 1, err.value, trace + [a])
  {
    hide Leader, Node;
  }

  /** The error of the last try. */
  function LastReason(trace: seq<Attempt>): Reason {
    if trace == [] then NoTry
    else
      var last := trace[|trace| - 1];
      if last.Leaderless? then NoEndpoint
      else if last.addr == "" then UnknownBroker
      else if last.said == PoolFull then NoRoom
      else Unreachable
  }

  lemma NoTries(m: Meta, tp: TopicPartition)
    ensures Patient([]) && StillGone(m, tp, []) && Chained(m, [], m) && LastReason([]) == NoTry
  {
  }

  lemma LeaderlessIs(m0: Meta, trace: seq<Attempt>, before: Meta, m: Meta, tp: TopicPartition, world: World)
    requires StillGone(m, tp, trace) && Chained(m0, trace, before) && Follows(before, m) && Patient(trace)
    ensures var a := Leaderless(m);
            && Faithful(a, tp, world) && Reacts(a, tp) && !Won(a) && StillGone(m, tp, trace + [a])
            && Chained(m0, trace + [a], m) && Patient(trace + [a]) && LastReason(trace + [a]) == NoEndpoint
  {
    hide Follows, Gone, Chained;
    ChainMore(m0, trace, before, Leaderless(m));
  }

  lemma TriedIs(m0: Meta, trace: seq<Attempt>, before: Meta, a: Attempt)
    requires a.Tried? && Chained(m0, trace, before) && Follows(before, a.looked) && Patient(trace)
    requires forall i :: 0 <= i < |trace| && Lost(trace[i]) ==> a.looked.version > trace[i].over.version
    ensures Chained(m0, trace + [a], a.left) && Patient(trace + [a])
    ensures Won(a) <==> ErrorOf(a.addr, a.said).None?
    ensures Won(a) ==> a.said.Connected?
    ensures !Won(a) ==> LastReason(trace + [a]) == ErrorOf(a.addr, a.said).value
  {
    hide Follows, Chained;
    ChainMore(m0, trace, before, a);
  }

  /** One attempt on a node that was looked up in `looked`, and the endpoint it forgets if it fails. */
  method TryNode(tp: TopicPartition, looked: Meta, nodeID: int, world: World, at: nat)
      returns (a: Attempt, err: Option<Reason>, now: nat)
    ensures (a, now) == Node(tp, looked, nodeID, world, at)
    ensures a.Tried? && err == ErrorOf(a.addr, a.said)
  {
    now := at;
    var read := Interfere(looked, world(now).others);
    var addr := if nodeID in read.tables.nodes then read.tables.nodes[nodeID] else "";
    now := now + 1;
    var over := Interfere(read, world(now).others);
    var said, time := world(now).attempt, now;
    err := ErrorOf(addr, said);
    var left := over;
    if err.Some? && err.value != NoRoom {
      now := now + 1;
      left := ForgetEndpoint(Interfere(over, world(now).others), tp);
    }
    a := Tried(looked, nodeID, read, addr, time, said, over, left);
  }

  // ---------------------------------------------------------------- installed responses

  /**
   If the last thing the others did was to install the tables of a response, the leader found is
   the one in the response's last entry for the partition, and the address on record for it that
   of the last entry for that node.
   */
  lemma InstalledLeader(tp: TopicPartition, create: bool, m: Meta, world: World, at: nat, resp: MetadataResp,
      tables: Tables, i: int, j: int)
    requires Reflects(tables, resp) && world(at).others == [Install(tables)]
    requires LastForPartition(resp.topics, i, j)
    requires tp == TopicPartition(resp.topics[i].name, resp.topics[i].partitions[j].id)
    ensures var nodeID := resp.topics[i].partitions[j].leader;
            && Leader(tp, create, m, world, at).0 == Some(nodeID)
            && forall n :: LastEntry(resp.brokers, n) && resp.brokers[n].nodeID == nodeID ==>
                 var known := Leader(tp, create, m, world, at).1.tables.nodes;
                 nodeID in known && IsAddress(known[nodeID], resp.brokers[n])
  {
    assert world(at).others[1..] == [];
    assert Interfere(m, world(at).others) == Meta(tables, m.version + 1);
    hide LastNode, LastLeader, LastCount, IsAddress, LastForPartition;
    TablesByEntry(tables.endpoints, tables.partitions, resp.topics);
    NodesByEntry(tables.nodes, resp.brokers);
    assert Lookup(tables.endpoints, tp) == [resp.topics[i].partitions[j].leader];
  }
}
