/**
 Installing new metadata (cluster.go, cache; connection_cache.go): the node, endpoint and
 partition tables are rebuilt from a response, and every registered pool is told the new set
 of addresses.
 */
module Clusters {
  import opened Wire
  import opened Backends

  // ---------------------------------------------------------------- metadata as values

  datatype BrokerInfo = BrokerInfo(nodeID: int, host: string, port: int)

  datatype PartitionInfo = PartitionInfo(id: int, leader: int)

  datatype TopicInfo = TopicInfo(name: string, partitions: seq<PartitionInfo>)

  datatype MetadataResp = MetadataResp(brokers: seq<BrokerInfo>, topics: seq<TopicInfo>)

  datatype TopicPartition = TopicPartition(topic: string, partition: int)

  datatype Tables = Tables(nodes: map<int, string>, endpoints: map<TopicPartition, int>, partitions: map<string, int>)

  function Digits(n: nat): string {
    if n < 10 then [('0' as int + n) as char] else Digits(n / 10) + [('0' as int + n % 10) as char]
  }

  /** "%s:%d" */
  function Address(b: BrokerInfo): string {
    b.host + ":" + if b.port < 0 then "-" + Digits(-b.port) else Digits(b.port)
  }

  function Addresses(bs: seq<BrokerInfo>): seq<string> {
    seq(|bs|, i requires 0 <= i < |bs| => Address(bs[i]))
  }

  // ---------------------------------------------------------------- what an address is

  /** A decimal number read from left to right, behind the digits that make `before`. */
  function ReadDigits(s: string, before: int): Option<int> {
    if s == [] then Some(before)
    else if '0' <= s[0] <= '9' then ReadDigits(s[1..], 10 * before + (s[0] as int - '0' as int))
    else None
  }

  function ReadDecimal(s: string): Option<int> {
    if s != [] && s[0] == '-' then
      var n := ReadDigits(s[1..], 0);
      if n.Some? && |s| > 1 then Some(-n.value) else None
    else if s != [] then ReadDigits(s, 0)
    else None
  }

  /** The host, a colon, and digits that read back as the port. */
  ghost predicate IsAddress(a: string, b: BrokerInfo) {
    exists d :: a == b.host + [':'] + d && ReadDecimal(d) == Some(b.port)
  }

  lemma {:induction false} ReadOneMore(s: string, d: char, before: int)
    requires '0' <= d <= '9' && ReadDigits(s, before).Some?
    ensures ReadDigits(s + [d], before) == Some(10 * ReadDigits(s, before).value + (d as int - '0' as int))
    decreases |s|
  {
    if s == [] {
      assert (s + [d])[1..] == [];
    } else {
      assert (s + [d])[1..] == s[1..] + [d];
      ReadOneMore(s[1..], d, 10 * before + (s[0] as int - '0' as int));
    }
  }

  lemma {:induction false} DigitsReadBack(n: nat)
    ensures Digits(n) != [] && '0' <= Digits(n)[0] <= '9' && ReadDigits(Digits(n), 0) == Some(n)
  {
    if n >= 10 {
      DigitsReadBack(n / 10);
      ReadOneMore(Digits(n / 10), ('0' as int + n % 10) as char, 0);
    } else {
      var d := ('0' as int + n) as char;
      assert Digits(n) == [d] && [d][1..] == [];
    }
  }

  lemma AddressIs(b: BrokerInfo)
    ensures IsAddress(Address(b), b)
  {
    var n := if b.port < 0 then -b.port else b.port;
    var d := if b.port < 0 then "-" + Digits(n) else Digits(n);
    DigitsReadBack(n);
    assert b.port < 0 ==> d[1..] == Digits(n);
    assert Address(b) == b.host + [':'] + d;
  }

  /** Brokers on one host with different ports have different addresses. */
  lemma PortsDiffer(x: string, a: BrokerInfo, b: BrokerInfo)
    requires IsAddress(x, a) && IsAddress(x, b) && a.host == b.host
    ensures a.port == b.port
  {
    var d :| x == a.host + [':'] + d && ReadDecimal(d) == Some(a.port);
    var e :| x == b.host + [':'] + e && ReadDecimal(e) == Some(b.port);
    assert x[|a.host| + 1..] == d && x[|b.host| + 1..] == e;
  }

  /** The last entry with its node ID. */
  ghost predicate LastEntry(bs: seq<BrokerInfo>, i: int) {
    0 <= i < |bs| && forall j :: i < j < |bs| ==> bs[j].nodeID != bs[i].nodeID
  }

  /** The table has the nodes of the response, each with the address of its last entry. */
  ghost predicate NodesOf(nodes: map<int, string>, bs: seq<BrokerInfo>) {
    && (forall id :: id in nodes <==> exists i :: 0 <= i < |bs| && bs[i].nodeID == id)
    && (forall i :: LastEntry(bs, i) ==> bs[i].nodeID in nodes && IsAddress(nodes[bs[i].nodeID], bs[i]))
  }

  /** Every address is that of a broker, and every broker has one. */
  ghost predicate AddressesOf(addrs: set<string>, bs: seq<BrokerInfo>) {
    && (forall a :: a in addrs ==> Named(a, bs))
    && (forall i :: 0 <= i < |bs| ==> Listed(addrs, bs[i]))
  }

  ghost predicate Named(a: string, bs: seq<BrokerInfo>) {
    exists i :: 0 <= i < |bs| && IsAddress(a, bs[i])
  }

  ghost predicate Listed(addrs: set<string>, b: BrokerInfo) {
    exists a :: a in addrs && IsAddress(a, b)
  }

  lemma {:induction false} LastNodeIs(bs: seq<BrokerInfo>, id: int)
    ensures LastNode(bs, id) != [] <==> exists i :: 0 <= i < |bs| && bs[i].nodeID == id
    ensures forall i :: LastEntry(bs, i) && bs[i].nodeID == id ==>
      LastNode(bs, id) != [] && IsAddress(LastNode(bs, id)[0], bs[i])
    decreases |bs|
  {
    hide IsAddress, Address;
    if bs != [] {
      var front, last := bs[..|bs| - 1], |bs| - 1;
      AddressIs(bs[last]);
      LastNodeIs(front, id);
      forall i | LastEntry(bs, i) && bs[i].nodeID == id
        ensures LastNode(bs, id) != [] && IsAddress(LastNode(bs, id)[0], bs[i])
      {
        if i < last {
          assert LastEntry(front, i) && front[i] == bs[i];
        }
      }
      if LastNode(front, id) != [] {
        var i :| 0 <= i < |front| && front[i].nodeID == id;
        assert bs[i].nodeID == id;
      }
    }
  }

  lemma NodesByEntry(nodes: map<int, string>, bs: seq<BrokerInfo>)
    requires forall id :: Lookup(nodes, id) == LastNode(bs, id)
    ensures NodesOf(nodes, bs)
  {
    hide IsAddress, LastNode;
    forall id: int ensures id in nodes <==> exists i :: 0 <= i < |bs| && bs[i].nodeID == id {
      LastNodeIs(bs, id);
      assert Lookup(nodes, id) == LastNode(bs, id);
    }
    forall i | LastEntry(bs, i) ensures bs[i].nodeID in nodes && IsAddress(nodes[bs[i].nodeID], bs[i]) {
      LastNodeIs(bs, bs[i].nodeID);
      assert Lookup(nodes, bs[i].nodeID) == LastNode(bs, bs[i].nodeID);
    }
  }

  lemma AddressesByBroker(addrs: seq<string>, bs: seq<BrokerInfo>)
    requires addrs == Addresses(bs)
    ensures forall i :: 0 <= i < |bs| ==> IsAddress(addrs[i], bs[i])
    ensures AddressesOf(AddrSet(addrs), bs)
  {
    hide IsAddress, Address;
    forall i | 0 <= i < |bs| ensures IsAddress(addrs[i], bs[i]) {
      AddressIs(bs[i]);
    }
    forall i | 0 <= i < |bs| ensures Listed(AddrSet(addrs), bs[i]) {
      assert addrs[i] in AddrSet(addrs);
    }
    forall a | a in AddrSet(addrs) ensures Named(a, bs) {
      var i :| 0 <= i < |addrs| && addrs[i] == a;
      assert IsAddress(addrs[i], bs[i]);
    }
  }

  // ---------------------------------------------------------------- the last entry wins

  /** What the source promises of a table: the last entry for a key wins. */
  function LastNode(bs: seq<BrokerInfo>, id: int): (r: seq<string>)
    ensures |r| <= 1
  {
    if bs == [] then []
    else if bs[|bs| - 1].nodeID == id then [Address(bs[|bs| - 1])]
    else LastNode(bs[..|bs| - 1], id)
  }

  function LastPartition(ps: seq<PartitionInfo>, id: int): (r: seq<int>)
    ensures |r| <= 1
  {
    if ps == [] then []
    else if ps[|ps| - 1].id == id then [ps[|ps| - 1].leader]
    else LastPartition(ps[..|ps| - 1], id)
  }

  /** The leader in the last entry of the response for a topic and partition, if there is one. */
  function LastLeader(ts: seq<TopicInfo>, tp: TopicPartition): (r: seq<int>)
    ensures |r| <= 1
  {
    if ts == [] then []
    else
      var t := ts[|ts| - 1];
      var here := if t.name == tp.topic then LastPartition(t.partitions, tp.partition) else [];
      if here != [] then here else LastLeader(ts[..|ts| - 1], tp)
  }

  function LastCount(ts: seq<TopicInfo>, name: string): (r: seq<int>)
    ensures |r| <= 1
  {
    if ts == [] then []
    else if ts[|ts| - 1].name == name then [|ts[|ts| - 1].partitions|]
    else LastCount(ts[..|ts| - 1], name)
  }

  /** What a map says about a key, as a list of none or one. */
  function Lookup<K, V>(m: map<K, V>, k: K): seq<V> {
    if k in m then [m[k]] else []
  }

  ghost predicate Reflects(t: Tables, resp: MetadataResp) {
    && (forall id :: Lookup(t.nodes, id) == LastNode(resp.brokers, id))
    && (forall tp :: Lookup(t.endpoints, tp) == LastLeader(resp.topics, tp))
    && (forall name :: Lookup(t.partitions, name) == LastCount(resp.topics, name))
  }

  /** The entry at (i, j) is the last one for its topic and partition. */
  ghost predicate LastForPartition(ts: seq<TopicInfo>, i: int, j: int) {
    && 0 <= i < |ts| && 0 <= j < |ts[i].partitions|
    && forall k, l :: 0 <= k < |ts| && 0 <= l < |ts[k].partitions| && (i < k || (i == k && j < l)) ==>
         ts[k].name != ts[i].name || ts[k].partitions[l].id != ts[i].partitions[j].id
  }

  /** The table has the leader in the last entry for each topic and partition, and nothing else. */
  ghost predicate EndpointsOf(endpoints: map<TopicPartition, int>, ts: seq<TopicInfo>) {
    && (forall i, j :: LastForPartition(ts, i, j) ==>
         Lookup(endpoints, TopicPartition(ts[i].name, ts[i].partitions[j].id)) == [ts[i].partitions[j].leader])
    && (forall tp :: tp in endpoints ==> Occurs(ts, tp))
  }

  ghost predicate Occurs(ts: seq<TopicInfo>, tp: TopicPartition) {
    exists i, j ::
      0 <= i < |ts| && 0 <= j < |ts[i].partitions| && ts[i].name == tp.topic && ts[i].partitions[j].id == tp.partition
  }

  /** The table has the number of partitions in the last entry for each topic, and nothing else. */
  ghost predicate CountsOf(partitions: map<string, int>, ts: seq<TopicInfo>) {
    && (forall i :: 0 <= i < |ts| && (forall j :: i < j < |ts| ==> ts[j].name != ts[i].name) ==>
         Lookup(partitions, ts[i].name) == [|ts[i].partitions|])
    && (forall name :: name in partitions ==> exists i :: 0 <= i < |ts| && ts[i].name == name)
  }

  lemma {:induction false} LastPartitionIs(ps: seq<PartitionInfo>, id: int)
    ensures forall j :: 0 <= j < |ps| && ps[j].id == id && (forall l :: j < l < |ps| ==> ps[l].id != id) ==>
      LastPartition(ps, id) == [ps[j].leader]
    ensures LastPartition(ps, id) != [] ==> exists j :: 0 <= j < |ps| && ps[j].id == id
    decreases |ps|
  {
    if ps != [] {
      var front := ps[..|ps| - 1];
      LastPartitionIs(front, id);
      assert forall j :: 0 <= j < |front| ==> front[j] == ps[j];
    }
  }

  lemma {:induction false} LastLeaderIs(ts: seq<TopicInfo>, tp: TopicPartition)
    ensures forall i, j :: LastForPartition(ts, i, j) && tp == TopicPartition(ts[i].name, ts[i].partitions[j].id) ==>
      LastLeader(ts, tp) == [ts[i].partitions[j].leader]
    ensures LastLeader(ts, tp) != [] ==> Occurs(ts, tp)
    decreases |ts|
  {
    hide LastPartition;
    if ts != [] {
      var front, last := ts[..|ts| - 1], |ts| - 1;
      LastLeaderIs(front, tp);
      LastPartitionIs(ts[last].partitions, tp.partition);
      forall i, j | LastForPartition(ts, i, j) && tp == TopicPartition(ts[i].name, ts[i].partitions[j].id)
        ensures LastLeader(ts, tp) == [ts[i].partitions[j].leader]
      {
        if i < last {
          EarlierEntry(ts, i, j);
        }
      }
      if LastLeader(front, tp) != [] {
        var i, j :| 0 <= i < |front| && 0 <= j < |front[i].partitions|
            && front[i].name == tp.topic && front[i].partitions[j].id == tp.partition;
        assert ts[i] == front[i];
      }
    }
  }

  /** If the last entry is not in the last topic, it is the last one of those before it. */
  lemma EarlierEntry(ts: seq<TopicInfo>, i: int, j: int)
    requires LastForPartition(ts, i, j) && i < |ts| - 1
    ensures LastForPartition(ts[..|ts| - 1], i, j)
    ensures var last := ts[|ts| - 1];
            last.name == ts[i].name ==> LastPartition(last.partitions, ts[i].partitions[j].id) == []
  {
    var last := ts[|ts| - 1];
    LastPartitionIs(last.partitions, ts[i].partitions[j].id);
  }

  lemma {:induction false} LastCountIs(ts: seq<TopicInfo>, name: string)
    ensures forall i :: 0 <= i < |ts| && ts[i].name == name && (forall j :: i < j < |ts| ==> ts[j].name != name) ==>
      LastCount(ts, name) == [|ts[i].partitions|]
    ensures LastCount(ts, name) != [] ==> exists i :: 0 <= i < |ts| && ts[i].name == name
    decreases |ts|
  {
    if ts != [] {
      var front := ts[..|ts| - 1];
      LastCountIs(front, name);
      assert forall i :: 0 <= i < |front| ==> front[i] == ts[i];
    }
  }

  lemma TablesByEntry(endpoints: map<TopicPartition, int>, partitions: map<string, int>, ts: seq<TopicInfo>)
    requires forall tp :: Lookup(endpoints, tp) == LastLeader(ts, tp)
    requires forall name :: Lookup(partitions, name) == LastCount(ts, name)
    ensures EndpointsOf(endpoints, ts) && CountsOf(partitions, ts)
  {
    hide LastLeader, LastCount;
    forall tp: TopicPartition
      ensures tp in endpoints ==> Occurs(ts, tp)
      ensures forall i, j :: LastForPartition(ts, i, j) && tp == TopicPartition(ts[i].name, ts[i].partitions[j].id) ==>
          Lookup(endpoints, tp) == [ts[i].partitions[j].leader]
    {
      LastLeaderIs(ts, tp);
      assert Lookup(endpoints, tp) == LastLeader(ts, tp);
    }
    forall name: string
      ensures name in partitions ==> exists i :: 0 <= i < |ts| && ts[i].name == name
      ensures forall i :: 0 <= i < |ts| && ts[i].name == name && (forall j :: i < j < |ts| ==> ts[j].name != name) ==>
          Lookup(partitions, name) == [|ts[i].partitions|]
    {
      LastCountIs(ts, name);
      assert Lookup(partitions, name) == LastCount(ts, name);
    }
  }

  // ---------------------------------------------------------------- the loops of cache

  method NodeTable(bs: seq<BrokerInfo>) returns (nodes: map<int, string>, addrs: seq<string>)
    ensures forall id :: Lookup(nodes, id) == LastNode(bs, id)
    ensures addrs == Addresses(bs)
    ensures NodesOf(nodes, bs)
    ensures forall i :: 0 <= i < |bs| ==> IsAddress(addrs[i], bs[i])
  {
    nodes, addrs := map[], [];
    for i := 0 to |bs|
      invariant forall id :: Lookup(nodes, id) == LastNode(bs[..i], id)
      invariant addrs == Addresses(bs[..i])
    {
      assert bs[..i + 1][..i] == bs[..i];
      var addr := Address(bs[i]);
      addrs := addrs + [addr];
      nodes := nodes[bs[i].nodeID := addr];
    }
    assert bs[..|bs|] == bs;
    NodesByEntry(nodes, bs);
    AddressesByBroker(addrs, bs);
  }

  /** The entries of one topic, on top of the table so far. */
  method AddTopic(endpoints: map<TopicPartition, int>, t: TopicInfo) returns (r: map<TopicPartition, int>)
    ensures forall tp :: Lookup(r, tp) ==
              (var here := if t.name == tp.topic then LastPartition(t.partitions, tp.partition) else [];
               if here != [] then here else Lookup(endpoints, tp))
  {
    r := endpoints;
    var ps := t.partitions;
    for i := 0 to |ps|
      invariant forall tp :: Lookup(r, tp) ==
                  (var here := if t.name == tp.topic then LastPartition(ps[..i], tp.partition) else [];
                   if here != [] then here else Lookup(endpoints, tp))
    {
      assert ps[..i + 1][..i] == ps[..i];
      r := r[TopicPartition(t.name, ps[i].id) := ps[i].leader];
    }
    assert ps[..|ps|] == ps;
  }

  method TopicTables(ts: seq<TopicInfo>) returns (endpoints: map<TopicPartition, int>, partitions: map<string, int>)
    ensures forall tp :: Lookup(endpoints, tp) == LastLeader(ts, tp)
    ensures forall name :: Lookup(partitions, name) == LastCount(ts, name)
    ensures EndpointsOf(endpoints, ts) && CountsOf(partitions, ts)
  {
    endpoints, partitions := map[], map[];
    for i := 0 to |ts|
      invariant forall tp :: Lookup(endpoints, tp) == LastLeader(ts[..i], tp)
      invariant forall name :: Lookup(partitions, name) == LastCount(ts[..i], name)
    {
      assert ts[..i + 1][..i] == ts[..i];
      endpoints := AddTopic(endpoints, ts[i]);
      partitions := partitions[ts[i].name := |ts[i].partitions|];
    }
    assert ts[..|ts|] == ts;
    TablesByEntry(endpoints, partitions, ts);
  }

  // ---------------------------------------------------------------- every registered pool

  class PoolCache {
    var pools: map<string, ConnectionPool>

    constructor ()
      ensures pools == map[]
    {
      pools := map[];
    }

    ghost predicate Valid()
      reads this`pools, pools.Values`backends
    {
      forall p :: p in pools.Values ==> p.Valid()
    }

    /**
     reinitializeAddrs: every pool gets exactly the given addresses; backends that stay are
     the objects they were, and the connections of those that go are closed.
     */
    method Reinitialize(addrs: seq<string>, ghost bs: set<Backend>, ghost cs: set<Connection>)
      requires Valid() && forall p :: p in pools.Values ==> Covers(p.backends, addrs, bs, cs)
      modifies pools.Values`backends, bs`counter, cs
      ensures Valid()
      ensures forall p :: p in pools.Values ==> Settled(old(p.backends), p.backends, addrs)
      ensures forall p, b :: p in pools.Values && b in Gone(old(p.backends), addrs) ==> b.Shut()
    {
      InitializeAll(pools.Values, addrs, bs, cs);
    }

    /** The loop of reinitializeAddrs. */
    static method InitializeAll(all: set<ConnectionPool>, addrs: seq<string>, ghost bs: set<Backend>,
        ghost cs: set<Connection>)
      requires forall p :: p in all ==> p.Valid() && Covers(p.backends, addrs, bs, cs)
      modifies all`backends, bs`counter, cs
      ensures forall p :: p in all ==> p.Valid()
      ensures forall p :: p in all ==> Settled(old(p.backends), p.backends, addrs)
      ensures forall p, b :: p in all && b in Gone(old(p.backends), addrs) ==> b.Shut()
    {
      hide Settled, Gone, Backend.Shut;
      var todo := all;
      ghost var gone: set<Backend> := {};
      while todo != {}
        invariant todo <= all
        invariant forall p :: p in all ==> p.Valid()
        invariant forall p :: p in todo ==> p.backends == old(p.backends)
        invariant forall p :: p in all - todo ==> Settled(old(p.backends), p.backends, addrs)
        invariant forall p :: p in all - todo ==> Gone(old(p.backends), addrs) <= gone
        invariant forall b :: b in gone ==> b.Shut()
        decreases todo
      {
        var p :| p in todo;
        gone := gone + Gone(p.backends, addrs);
        p.InitializeAddrs(addrs, bs, cs);
        todo := todo - {p};
      }
    }
  }

  // ---------------------------------------------------------------- the cluster

  class Cluster {
    const cache: PoolCache
    var tables: Tables

    constructor (cache: PoolCache)
      ensures this.cache == cache && tables == Tables(map[], map[], map[])
    {
      this.cache, tables := cache, Tables(map[], map[], map[]);
    }

    /**
     cache: a response without brokers is refused and changes nothing; any other replaces all
     three tables, and the pools follow.
     */
    method Cache(resp: MetadataResp, ghost bs: set<Backend>, ghost cs: set<Connection>)
      requires cache.Valid()
      requires forall p :: p in cache.pools.Values ==> Covers(p.backends, Addresses(resp.brokers), bs, cs)
      modifies this`tables, cache.pools.Values`backends, bs`counter, cs
      ensures cache.Valid()
      ensures resp.brokers == [] ==> tables == old(tables) && forall p :: p in cache.pools.Values ==>
          p.backends == old(p.backends)
      ensures resp.brokers != [] ==> Reflects(tables, resp)
      ensures resp.brokers != [] ==>
        && NodesOf(tables.nodes, resp.brokers)
        && EndpointsOf(tables.endpoints, resp.topics) && CountsOf(tables.partitions, resp.topics)
        && forall p :: p in cache.pools.Values ==> AddressesOf(p.backends.Keys, resp.brokers)
      ensures resp.brokers != [] ==>
                && (forall p :: p in cache.pools.Values ==>
                    Settled(old(p.backends), p.backends, Addresses(resp.brokers)))
                && (forall p, b :: p in cache.pools.Values && b in Gone(old(p.backends), Addresses(resp.brokers)) ==>
                    b.Shut())
    {
      hide NodesOf, EndpointsOf, CountsOf, AddressesOf, IsAddress, Addresses, AddrSet, LastNode,
          LastLeader, LastCount, Backend.Shut, Gone;
      if resp.brokers == [] {
        return;
      }
      var nodes, addrs := NodeTable(resp.brokers);
      var endpoints, partitions := TopicTables(resp.topics);
      tables := Tables(nodes, endpoints, partitions);
      cache.Reinitialize(addrs, bs, cs);
      AddressesByBroker(addrs, resp.brokers);
      assert forall p :: p in cache.pools.Values ==> p.backends.Keys == AddrSet(addrs);
    }

    /** GetEndpoint after Cache: the leader of the last entry, or an error. */
    method GetEndpoint(topic: string, partition: int) returns (found: bool, nodeID: int)
      ensures found == (TopicPartition(topic, partition) in tables.endpoints)
      ensures Lookup(tables.endpoints, TopicPartition(topic, partition)) == if found then [nodeID] else []
    {
      var tp := TopicPartition(topic, partition);
      if tp in tables.endpoints {
        return true, tables.endpoints[tp];
      }
      return false, 0;
    }

    /** ForgetEndpoint. */
    method ForgetEndpoint(topic: string, partition: int)
      modifies this`tables
      ensures tables == old(tables).(endpoints := old(tables).endpoints - {TopicPartition(topic, partition)})
    {
      tables := tables.(endpoints := tables.endpoints - {TopicPartition(topic, partition)});
    }

    /** GetNodeAddress: the empty string for an unknown node. */
    method GetNodeAddress(nodeID: int) returns (addr: string)
      ensures addr == if nodeID in tables.nodes then tables.nodes[nodeID] else ""
    {
      addr := if nodeID in tables.nodes then tables.nodes[nodeID] else "";
    }
  }
}
