/**
 The objects behind the pool (connection.go, connection_pool.go, connection_cache.go): one
 method call at a time. Module Pool has the interleavings.
 */
module Backends {
  import opened Pool

  /** A connection; `rawCloses` counts the calls that reached the transport. */
  class Connection {
    const id: Conn
    const addr: string
    var closed: bool
    var rawCloses: nat

    constructor (id: Conn, addr: string)
      ensures this.id == id && this.addr == addr && !closed && rawCloses == 0
    {
      this.id, this.addr := id, addr;
      closed, rawCloses := false, 0;
    }

    /** Close: a compare-and-swap lets only the first call through. */
    method Close()
      modifies this
      ensures closed && rawCloses == if old(closed) then old(rawCloses) else old(rawCloses) + 1
    {
      if !closed {
        closed := true;
        rawCloses := rawCloses + 1;
      }
    }
  }

  /** The connections that are not closed, in order. */
  ghost function OpenOnly(s: seq<Connection>): seq<Connection>
    reads s
  {
    if s == [] then []
    else if s[|s| - 1].closed then OpenOnly(s[..|s| - 1])
    else OpenOnly(s[..|s| - 1]) + [s[|s| - 1]]
  }

  lemma {:induction false} OpenOnlyShorter(s: seq<Connection>)
    ensures |OpenOnly(s)| <= |s|
    ensures |OpenOnly(s)| == |s| <==> forall c :: c in s ==> !c.closed
    ensures forall c :: c in OpenOnly(s) <==> c in s && !c.closed
  {
    if s != [] {
      var t, last := s[..|s| - 1], s[|s| - 1];
      OpenOnlyShorter(t);
      assert s == t + [last];
    }
  }

  function WithoutAll<C(==)>(s: seq<C>, drop: seq<C>): seq<C>
    decreases |drop|
  {
    if drop == [] then s else WithoutAll(Without(s, drop[0]), drop[1..])
  }

  lemma {:induction false} WithoutAllSnoc<C>(s: seq<C>, drop: seq<C>, c: C)
    ensures WithoutAll(s, drop + [c]) == Without(WithoutAll(s, drop), c)
    decreases |drop|
  {
    if drop == [] {
      assert drop + [c] == [c];
      assert WithoutAll(Without(s, c), []) == Without(s, c);
    } else {
      assert (drop + [c])[1..] == drop[1..] + [c];
      WithoutAllSnoc(Without(s, drop[0]), drop[1..], c);
    }
  }

  // ---------------------------------------------------------------- the objects as the pool machine sees them

  function Ids(s: seq<Connection>): (r: seq<Conn>)
    ensures |r| == |s|
    ensures forall i :: 0 <= i < |s| ==> r[i] == s[i].id
  {
    seq(|s|, i requires 0 <= i < |s| => s[i].id)
  }

  /** No two of these connections have the same identity. */
  ghost predicate OneId(all: set<Connection>) {
    forall c, d :: c in all && d in all && c.id == d.id ==> c == d
  }

  lemma {:induction false} IdsWithout(s: seq<Connection>, c: Connection, all: set<Connection>)
    requires OneId(all) && c in all && forall d :: d in s ==> d in all
    ensures Ids(Without(s, c)) == Without(Ids(s), c.id)
    ensures c in s <==> c.id in Ids(s)
    decreases |s|
  {
    if s != [] {
      assert s[0] in s;
      assert Ids(s) == [s[0].id] + Ids(s[1..]);
      IdsWithout(s[1..], c, all);
      assert s[0].id == c.id ==> s[0] == c;
      assert Ids([s[0]] + Without(s[1..], c)) == [s[0].id] + Ids(Without(s[1..], c));
    }
  }

  lemma {:induction false} IdsOpen(s: seq<Connection>, closed: set<Conn>)
    requires forall c :: c in s ==> (c.closed <==> c.id in closed)
    ensures Ids(OpenOnly(s)) == OpenIn(Ids(s), closed)
  {
    if s != [] {
      var t, last := s[..|s| - 1], s[|s| - 1];
      assert Ids(s)[..|s| - 1] == Ids(t);
      IdsOpen(t, closed);
      assert Ids(OpenOnly(t) + [last]) == Ids(OpenOnly(t)) + [last.id];
      assert OpenIn(Ids(t), closed) + [] == OpenIn(Ids(t), closed);
    }
  }

  lemma {:induction false} OpenOnlyWithin(s: seq<Connection>)
    ensures forall c :: c in OpenOnly(s) ==> c in s
  {
    if s != [] {
      OpenOnlyWithin(s[..|s| - 1]);
    }
  }

  lemma IdsNew(s: seq<Connection>, dial: Connection?, closed: set<Conn>)
    requires forall c :: c in s ==> (c.closed <==> c.id in closed)
    ensures Ids(OpenOnly(s)) == OpenIn(Ids(s), closed)
    ensures forall c :: c in OpenOnly(s) ==> c in s
    ensures dial != null ==> Ids(s + [dial]) == Ids(s) + [dial.id]
    ensures dial != null ==> Ids(OpenOnly(s) + [dial]) == OpenIn(Ids(s), closed) + [dial.id]
  {
    IdsOpen(s, closed);
    OpenOnlyWithin(s);
  }

  /** The machine's state `p` has this backend's limit, count, list and channel, and the closed flags of `all`. */
  ghost predicate Views(b: Backend, p: PoolState, all: set<Connection>)
    reads b, all
  {
    && OneId(all)
    && (forall c :: c in b.conns ==> c in all) && (forall c :: c in b.channel ==> c in all)
    && p.limit == b.limit && p.counter == b.counter
    && p.conns == Ids(b.conns) && p.idle == Ids(b.channel)
    && (forall c :: c in all ==> (c.closed <==> c.id in p.closed))
  }

  /** What getNewConnection leaves in the list, from what was there. */
  ghost function ListAfterNew(was: seq<Connection>, counter: int, limit: nat, dial: Connection?): seq<Connection>
    reads was
  {
    var open := OpenOnly(was);
    if counter >= limit && |open| == counter then was
    else (if counter >= limit then open else was) + if dial == null then [] else [dial]
  }

  lemma NewViews(b: Backend, p: PoolState, all: set<Connection>, was: seq<Connection>, dial: Connection?)
    requires OneId(all) && (forall c :: c in was ==> c in all) && (forall c :: c in b.channel ==> c in all)
    requires dial != null ==> dial in all
    requires p.limit == b.limit && p.counter == |was| && p.conns == Ids(was) && p.idle == Ids(b.channel)
    requires forall c :: c in all ==> (c.closed <==> c.id in p.closed)
    requires b.conns == ListAfterNew(was, |was|, b.limit, dial) && b.counter == |b.conns|
    ensures Views(b, NewResult(p, if dial == null then [] else [dial.id]), all)
  {
    IdsNew(was, dial, p.closed);
    hide OpenOnly, OpenIn, Ids;
    assert was + [] == was && OpenOnly(was) + [] == OpenOnly(was);
  }

  lemma {:induction false} WithoutSubset<C>(s: seq<C>, c: C)
    ensures forall d :: d in Without(s, c) ==> d in s
    decreases |s|
  {
    if s != [] {
      WithoutSubset(s[1..], c);
    }
  }

  class Backend {
    const addr: string
    const limit: nat
    var channel: seq<Connection>
    var conns: seq<Connection>
    var counter: int

    constructor (addr: string, limit: nat)
      ensures this.addr == addr && this.limit == limit
      ensures channel == [] && conns == [] && counter == 0
    {
      this.addr, this.limit := addr, limit;
      channel, conns, counter := [], [], 0;
    }

    /** Every tracked connection is closed. */
    ghost predicate Shut()
      reads this`conns, conns
    {
      forall c :: c in conns ==> c.closed
    }

    /** removeConnection. */
    method RemoveConnection(conn: Connection)
      modifies this`conns, this`counter
      ensures conns == Without(old(conns), conn)
      ensures counter == if conn in old(conns) then old(counter) - 1 else old(counter)
      ensures counter - |conns| == old(counter - |conns|)
    {
      var idx := 0;
      while idx < |conns|
        invariant 0 <= idx <= |conns|
        invariant conn !in conns[..idx]
        invariant conns == old(conns) && counter == old(counter)
      {
        if conns[idx] == conn {
          counter := counter - 1;
          WithoutAt(conns, idx);
          conns := conns[..idx] + conns[idx + 1..];
          return;
        }
        idx := idx + 1;
      }
      WithoutNone(conns, conn);
    }

    /** GetIdleConnection: the first open connection of the channel; the closed ones before it are dropped. */
    method GetIdleConnection() returns (conn: Connection?, ghost dropped: seq<Connection>)
      modifies this`channel, this`conns, this`counter
      ensures old(channel) == dropped + (if conn == null then [] else [conn]) + channel
      ensures forall c :: c in dropped ==> c.closed
      ensures conn != null ==> !conn.closed
      ensures conn == null ==> channel == []
      ensures conns == WithoutAll(old(conns), dropped)
      ensures counter - |conns| == old(counter - |conns|)
    {
      dropped := [];
      while channel != []
        invariant old(channel) == dropped + channel
        invariant forall c :: c in dropped ==> c.closed
        invariant conns == WithoutAll(old(conns), dropped)
        invariant counter - |conns| == old(counter - |conns|)
        decreases |channel|
      {
        var c := channel[0];
        channel := channel[1..];
        if !c.closed {
          return c, dropped;
        }
        WithoutAllSnoc(old(conns), dropped, c);
        dropped := dropped + [c];
        RemoveConnection(c);
      }
      return null, dropped;
    }

    /**
     getNewConnection; `dial` is what the dial would give, null for an error. At the limit the
     closed connections are cleaned out first, and only if there are none is the dial refused.
     Undisturbed, it is a run of the pool machine (Pool.NewConnection).
     */
    method GetNewConnection(dial: Connection?, ghost p: PoolState, ghost all: set<Connection>)
        returns (conn: Connection?, refused: bool)
      requires counter == |conns|
      modifies this`conns, this`counter
      ensures old(Views(this, p, all)) && (dial != null ==> dial in all) ==>
                Views(this, NewResult(p, if dial == null then [] else [dial.id]), all)
      ensures counter == |conns|
      ensures refused <==> old(counter) >= limit && forall c :: c in old(conns) ==> !c.closed
      ensures refused ==> conn == null && conns == old(conns)
      ensures var base := if old(counter) >= limit then OpenOnly(old(conns)) else old(conns);
              !refused ==> conn == dial && conns == if dial == null then base else base + [dial]
      ensures old(counter) <= limit ==> counter <= limit
    {
      hide OpenOnly, OpenIn, Ids, NewResult;
      ghost var viewed, was := Views(this, p, all) && (dial != null ==> dial in all), conns;
      OpenOnlyShorter(conns);
      if counter >= limit {
        var newConns := OpenConnections();
        if |newConns| == counter {
          if viewed {
            NewViews(this, p, all, was, dial);
          }
          return null, true;
        }
        conns, counter := newConns, |newConns|;
      }
      if dial != null {
        counter := counter + 1;
        conns := conns + [dial];
      }
      if viewed {
        assert conns == ListAfterNew(was, |was|, limit, dial);
        NewViews(this, p, all, was, dial);
      }
      return dial, false;
    }

    /** The loop that cleans out closed connections. */
    method OpenConnections() returns (newConns: seq<Connection>)
      ensures newConns == OpenOnly(conns)
    {
      newConns := [];
      var i := 0;
      while i < |conns|
        invariant 0 <= i <= |conns|
        invariant newConns == OpenOnly(conns[..i])
      {
        assert conns[..i + 1][..i] == conns[..i];
        if !conns[i].closed {
          newConns := newConns + [conns[i]];
        }
        i := i + 1;
      }
      assert conns[..i] == conns;
    }

    /** Idle; undisturbed, it is a run of the pool machine (Pool.HandBack). */
    method Idle(conn: Connection, ghost p: PoolState, ghost all: set<Connection>)
      modifies this, conn
      ensures old(Views(this, p, all)) && conn in all && Inv(p) && In(p, conn.id, Held) ==>
          Views(this, IdleResult(p, conn.id), all)
      ensures if old(conn.closed) then
                channel == old(channel) && conns == Without(old(conns), conn)
              else if |old(channel)| < limit then
                channel == old(channel) + [conn] && conns == old(conns) && counter == old(counter) && !conn.closed
              else
                channel == old(channel) && conns == Without(old(conns), conn) && conn.closed
      ensures counter - |conns| == old(counter - |conns|)
      ensures conn.rawCloses == old(conn.rawCloses) + if conn.closed && !old(conn.closed) then 1 else 0
    {
      ghost var viewed := Views(this, p, all) && conn in all && Inv(p) && In(p, conn.id, Held);
      if viewed {
        IdsWithout(conns, conn, all);
        WithoutSubset(conns, conn);
        assert Ids(channel + [conn]) == Ids(channel) + [conn.id];
        if !conn.closed {
          RoomToSend(p, conn.id);
        }
      }
      if conn.closed {
        RemoveConnection(conn);
        return;
      }
      if |channel| < limit {
        channel := channel + [conn];
      } else {
        RemoveConnection(conn);
        conn.Close();
      }
    }

    /** Close. */
    method Close()
      modifies this`counter, conns
      ensures Shut() && counter == 0
      ensures forall c :: c in conns ==> c.rawCloses == old(c.rawCloses) + if old(c.closed) then 0 else 1
    {
      var i := 0;
      while i < |conns|
        invariant 0 <= i <= |conns|
        invariant forall j :: 0 <= j < i ==> conns[j].closed
        invariant forall c :: c in conns && old(c.closed) ==> c.closed
        invariant forall c :: c in conns ==>
            c.rawCloses == old(c.rawCloses) + if c.closed && !old(c.closed) then 1 else 0
      {
        conns[i].Close();
        i := i + 1;
      }
      counter := 0;
    }
  }

  lemma {:induction false} WithoutAt<C>(s: seq<C>, idx: nat)
    requires idx < |s| && s[idx] !in s[..idx]
    ensures Without(s, s[idx]) == s[..idx] + s[idx + 1..]
    decreases idx
  {
    if idx > 0 {
      assert s[0] in s[..idx];
      assert s[1..][..idx - 1] == s[..idx][1..];
      WithoutAt(s[1..], idx - 1);
      assert s[1..][idx..] == s[idx + 1..];
      assert [s[0]] + s[1..idx] == s[..idx];
    }
  }

  // ---------------------------------------------------------------- all backends of a client

  function AddrSet(addrs: seq<string>): set<string> {
    set a | a in addrs
  }

  /** The table has exactly these addresses; where an address stays, so does the object. */
  ghost predicate Settled(before: map<string, Backend>, now: map<string, Backend>, addrs: seq<string>) {
    && now.Keys == AddrSet(addrs)
    && forall a :: a in before && a in addrs ==> now[a] == before[a]
  }

  /** The backends whose address is not wanted any more. */
  ghost function Gone(before: map<string, Backend>, addrs: seq<string>): set<Backend> {
    set a | a in before && a !in addrs :: before[a]
  }

  /** `bs` and `cs` cover the backends that the new addresses drop, and their connections. */
  ghost predicate Covers(before: map<string, Backend>, addrs: seq<string>, bs: set<Backend>, cs: set<Connection>)
    reads Gone(before, addrs)`conns
  {
    Gone(before, addrs) <= bs && forall b, c :: b in Gone(before, addrs) && c in b.conns ==> c in cs
  }

  class ConnectionPool {
    const limit: nat
    var backends: map<string, Backend>

    constructor (limit: nat)
      ensures this.limit == limit && backends == map[]
    {
      this.limit, backends := limit, map[];
    }

    /** Every backend is filed under its own address. */
    ghost predicate Valid()
      reads this`backends
    {
      forall a :: a in backends ==> backends[a].addr == a
    }

    /**
     InitializeAddrs: afterwards the pool has exactly the given addresses; a backend whose
     address stays is the same object, and every connection a dropped backend tracked is
     closed. Nothing outside the table, `bs` and `cs` changes, and of `bs` only the counters.
     */
    method InitializeAddrs(addrs: seq<string>, ghost bs: set<Backend>, ghost cs: set<Connection>)
      requires Valid() && Covers(backends, addrs, bs, cs)
      modifies this`backends, bs`counter, cs
      ensures Valid() && Settled(old(backends), backends, addrs)
      ensures forall a :: a in backends && a !in old(backends) ==>
          fresh(backends[a]) && backends[a].limit == limit && backends[a].conns == []
      ensures forall b :: b in Gone(old(backends), addrs) ==> b.Shut()
      ensures forall b: Backend :: old(allocated(b)) && old(b.Shut()) ==> b.Shut()
    {
      ghost var before := backends;
      AddBackends(addrs);
      var deleted := backends.Keys - AddrSet(addrs);
      assert forall a :: a in deleted <==> a in before && a !in addrs;
      assert forall a :: a in deleted ==> backends[a] in Gone(before, addrs);
      DropBackends(deleted, bs, cs);
    }

    /** The pool's Idle: the backend is looked up again, and without one the connection is closed. */
    method Idle(conn: Connection, ghost p: PoolState, ghost all: set<Connection>)
      modifies (if conn.addr in backends then {backends[conn.addr] as object} else {}), conn
      ensures conn.addr !in backends ==>
          conn.closed && conn.rawCloses == old(conn.rawCloses) + if old(conn.closed) then 0 else 1
      ensures conn.addr in backends ==>
        var b := backends[conn.addr];
        if old(conn.closed) then b.channel == old(b.channel) && b.conns == Without(old(b.conns), conn)
        else if |old(b.channel)| < b.limit then b.channel == old(b.channel) + [conn] && b.conns == old(b.conns)
            && !conn.closed
        else b.channel == old(b.channel) && b.conns == Without(old(b.conns), conn) && conn.closed
    {
      if conn.addr in backends {
        backends[conn.addr].Idle(conn, p, all);
      } else {
        conn.Close();
      }
    }

    /** The second half: the backends nobody asked for any more are closed and forgotten. */
    method DropBackends(deleted: set<string>, ghost bs: set<Backend>, ghost cs: set<Connection>)
      requires deleted <= backends.Keys
      requires forall a :: a in deleted ==> backends[a] in bs
      requires forall a, c :: a in deleted && c in backends[a].conns ==> c in cs
      modifies this`backends, bs`counter, cs
      ensures backends == old(backends) - deleted
      ensures forall a :: a in deleted ==> old(backends)[a].Shut()
      ensures forall c: Connection :: old(allocated(c)) && old(c.closed) ==> c.closed
    {
      var todo := deleted;
      while todo != {}
        invariant todo <= deleted
        invariant backends == old(backends) - (deleted - todo)
        invariant forall a :: a in deleted - todo ==> old(backends)[a].Shut()
        invariant forall c: Connection :: old(allocated(c)) && old(c.closed) ==> c.closed
        decreases todo
      {
        var addr :| addr in todo;
        assert backends[addr] == old(backends)[addr];
        backends[addr].Close();
        backends := backends - {addr};
        todo := todo - {addr};
      }
    }

    /** The first half: a backend for every new address. */
    method AddBackends(addrs: seq<string>)
      requires Valid()
      modifies this`backends
      ensures Valid() && backends.Keys == old(backends).Keys + AddrSet(addrs)
      ensures forall a :: a in old(backends) ==> backends[a] == old(backends)[a]
      ensures forall a :: a in backends && a !in old(backends) ==>
          fresh(backends[a]) && backends[a].limit == limit && backends[a].conns == []
    {
      for i := 0 to |addrs|
        invariant Valid() && backends.Keys == old(backends).Keys + AddrSet(addrs[..i])
        invariant forall a :: a in old(backends) ==> backends[a] == old(backends)[a]
        invariant forall a :: a in backends && a !in old(backends) ==>
            fresh(backends[a]) && backends[a].limit == limit && backends[a].conns == []
      {
        var addr := addrs[i];
        assert addrs[..i + 1] == addrs[..i] + [addr];
        if addr !in backends {
          var b := new Backend(addr, limit);
          backends := backends[addr := b];
        }
      }
      assert addrs[..|addrs|] == addrs;
    }
  }
}
