/** The cluster topology manager: a dictionary of servers, a list of
    undirected connections between them and a dictionary of named clusters. */
module Cluster {
  import opened Common

  // ---------------------------------------------------------------- server types

  datatype ServerType = Web | Database | Dns | Cache | LoadBalancer | FileSystem | Monitoring | Backup | Security

  /** The supported type names. */
  function TypeName(t: ServerType): string
  {
    match t
    case Web => "web"
    case Database => "database"
    case Dns => "dns"
    case Cache => "cache"
    case LoadBalancer => "load_balancer"
    case FileSystem => "file_system"
    case Monitoring => "monitoring"
    case Backup => "backup"
    case Security => "security"
  }

  /** The lookup `server_type in self.server_types`. */
  function ParseServerType(s: string): Option<ServerType>
  {
    if s == "web" then Some(Web)
    else if s == "database" then Some(Database)
    else if s == "dns" then Some(Dns)
    else if s == "cache" then Some(Cache)
    else if s == "load_balancer" then Some(LoadBalancer)
    else if s == "file_system" then Some(FileSystem)
    else if s == "monitoring" then Some(Monitoring)
    else if s == "backup" then Some(Backup)
    else if s == "security" then Some(Security)
    else None
  }

  /** Every type's name is recognised as that type, and only its own name is. */
  lemma ParseServerTypeRoundTrip(t: ServerType, s: string)
    ensures ParseServerType(TypeName(t)) == Some(t)
    ensures ParseServerType(s) == Some(t) ==> s == TypeName(t)
  {
  }

  /** The ports probed for a type before a real (non-simulated) server is added. */
  function Ports(t: ServerType): seq<nat>
  {
    match t
    case Web => [80, 443, 8080]
    case Database => [3306, 5432, 27017]
    case Dns => [53]
    case Cache => [6379, 11211]
    case LoadBalancer => [80, 443, 1936]
    case FileSystem => [22, 445]
    case Monitoring => [9090, 3000]
    case Backup => [22, 873]
    case Security => [22, 443, 8080]
  }

  // ---------------------------------------------------------------- records

  datatype Metrics = Metrics(cpu: real, memory: real, disk: real, network: real)

  datatype Server = Server(id: string, name: string, serverType: ServerType, ip: string, region: string,
                           status: string, createdAt: string, lastCheck: string, metrics: Metrics)

  datatype Connection = Connection(from: string, to: string, connectionType: string, status: string,
                                   createdAt: string, latency: real)

  datatype ClusterInfo = ClusterInfo(id: string, name: string, servers: seq<string>, createdAt: string,
                                     status: string, loadBalancer: Option<string>, healthStatus: string)

  /** The record `add_server` stores: active, with all metrics at zero. */
  function NewServer(id: string, name: string, t: ServerType, ip: string, region: string, now: string): (s: Server)
    ensures s.id == id && s.serverType == t && s.status == "active" && s.metrics == Metrics(0.0, 0.0, 0.0, 0.0)
  {
    Server(id, name, t, ip, region, "active", now, now, Metrics(0.0, 0.0, 0.0, 0.0))
  }

  /** `c` joins `a` and `b`, in either direction. */
  predicate Links(c: Connection, a: string, b: string)
  {
    (c.from == a && c.to == b) || (c.from == b && c.to == a)
  }

  predicate Touches(c: Connection, id: string)
  {
    c.from == id || c.to == id
  }

  predicate Linked(conns: seq<Connection>, a: string, b: string)
  {
    exists i :: 0 <= i < |conns| && Links(conns[i], a, b)
  }

  /** No two connections join the same unordered pair. */
  predicate NoDuplicateEdges(conns: seq<Connection>)
  {
    forall i, j :: 0 <= i < j < |conns| ==> !Links(conns[j], conns[i].from, conns[i].to)
  }

  // ---------------------------------------------------------------- filtering

  /** `remove_server`'s comprehension: the connections not touching `id`. */
  function DropTouching(conns: seq<Connection>, id: string): seq<Connection>
  {
    Filter(conns, (c: Connection) => !Touches(c, id))
  }

  /** `disconnect_servers`'s comprehension: the connections not joining `a` and `b`. */
  function DropLink(conns: seq<Connection>, a: string, b: string): seq<Connection>
  {
    Filter(conns, (c: Connection) => !Links(c, a, b))
  }

  /** Filtering never creates a duplicate edge. */
  lemma {:induction false} FilterKeepsNoDuplicateEdges(conns: seq<Connection>, keep: Connection -> bool)
    requires NoDuplicateEdges(conns)
    ensures NoDuplicateEdges(Filter(conns, keep))
  {
    if conns != [] {
      var tail := conns[1..];
      assert NoDuplicateEdges(tail) by {
        forall i, j | 0 <= i < j < |tail|
          ensures !Links(tail[j], tail[i].from, tail[i].to)
        {
          assert tail[i] == conns[i + 1] && tail[j] == conns[j + 1];
        }
      }
      FilterKeepsNoDuplicateEdges(tail, keep);
      var ft := Filter(tail, keep);
      if keep(conns[0]) {
        var r := Filter(conns, keep);
        assert r == [conns[0]] + ft;
        forall i, j | 0 <= i < j < |r|
          ensures !Links(r[j], r[i].from, r[i].to)
        {
          if i == 0 {
            assert r[j] == ft[j - 1];
            assert r[j] in tail;
            var k :| 0 <= k < |tail| && tail[k] == r[j];
            assert conns[k + 1] == r[j];
          } else {
            assert r[i] == ft[i - 1] && r[j] == ft[j - 1];
          }
        }
      } else {
        assert Filter(conns, keep) == ft;
      }
    }
  }

  // ---------------------------------------------------------------- counting

  /** The sum of the values of a map. */
  ghost function SumValues<K>(m: map<K, nat>): nat
    decreases |m|
  {
    if m == map[] then 0
    else
      var k :| k in m;
      m[k] + SumValues(m - {k})
  }

  lemma {:induction false} SumValuesRemove<K>(m: map<K, nat>, x: K)
    requires x in m
    ensures SumValues(m) == m[x] + SumValues(m - {x})
    decreases |m|
  {
    var k :| k in m && SumValues(m) == m[k] + SumValues(m - {k});
    if k != x {
      assert x in m - {k};
      SumValuesRemove(m - {k}, x);
      assert k in m - {x};
      SumValuesRemove(m - {x}, k);
      assert m - {k} - {x} == m - {x} - {k};
    }
  }

  /** `counts.get(k, 0) + 1`. */
  function Bump<K>(m: map<K, nat>, k: K): map<K, nat>
  {
    m[k := (if k in m then m[k] else 0) + 1]
  }

  lemma SumValuesBump<K>(m: map<K, nat>, k: K)
    ensures SumValues(Bump(m, k)) == SumValues(m) + 1
  {
    var b := Bump(m, k);
    SumValuesRemove(b, k);
    if k in m {
      SumValuesRemove(m, k);
      assert b - {k} == m - {k};
    } else {
      assert b - {k} == m;
    }
  }

  /** The ids among `ids` whose server has key `k`. */
  ghost function IdsWith<K>(servers: map<string, Server>, ids: set<string>, key: Server -> K, k: K): set<string>
  {
    set id | id in ids && id in servers && key(servers[id]) == k
  }

  /** `m` counts the servers of `ids` by `key`, and its values add up to |ids|. */
  ghost predicate Tallies<K(!new)>(m: map<K, nat>, servers: map<string, Server>, ids: set<string>, key: Server -> K)
  {
    (forall k :: k in m ==> m[k] == |IdsWith(servers, ids, key, k)| && m[k] > 0)
    && (forall k :: k !in m ==> IdsWith(servers, ids, key, k) == {})
    && SumValues(m) == |ids|
  }

  lemma TallyStep<K(!new)>(m: map<K, nat>, servers: map<string, Server>, ids: set<string>, key: Server -> K, id: string)
    requires Tallies(m, servers, ids, key)
    requires id in servers && id !in ids
    ensures Tallies(Bump(m, key(servers[id])), servers, ids + {id}, key)
  {
    var kid := key(servers[id]);
    var b := Bump(m, kid);
    SumValuesBump(m, kid);
    forall k
      ensures IdsWith(servers, ids + {id}, key, k) ==
              if k == kid then IdsWith(servers, ids, key, k) + {id} else IdsWith(servers, ids, key, k)
    {
    }
    assert |IdsWith(servers, ids, key, kid) + {id}| == |IdsWith(servers, ids, key, kid)| + 1;
  }

  /** The counts `get_cluster_stats` reports (the metric averages are not modelled). */
  datatype Stats = Stats(totalServers: nat, totalConnections: nat, totalClusters: nat,
                         serversByType: map<ServerType, nat>, serversByRegion: map<string, nat>,
                         activeServers: nat)

  ghost function ActiveIds(servers: map<string, Server>, ids: set<string>): set<string>
  {
    set id | id in ids && id in servers && servers[id].status == "active"
  }

  function TypeOf(s: Server): ServerType
  {
    s.serverType
  }

  function RegionOf(s: Server): string
  {
    s.region
  }

  /** The loop state of `get_cluster_stats` after visiting `ids`. */
  ghost predicate Counted(servers: map<string, Server>, ids: set<string>,
                          byType: map<ServerType, nat>, byRegion: map<string, nat>, active: nat)
  {
    Tallies(byType, servers, ids, TypeOf) && Tallies(byRegion, servers, ids, RegionOf)
    && active == |ActiveIds(servers, ids)|
  }

  lemma CountedEmpty(servers: map<string, Server>)
    ensures Counted(servers, {}, map[], map[], 0)
  {
    assert ActiveIds(servers, {}) == {};
    forall t: ServerType
      ensures IdsWith(servers, {}, TypeOf, t) == {}
    {
    }
    forall r: string
      ensures IdsWith(servers, {}, RegionOf, r) == {}
    {
    }
  }

  lemma CountedStep(servers: map<string, Server>, ids: set<string>,
                    byType: map<ServerType, nat>, byRegion: map<string, nat>, active: nat, id: string)
    requires Counted(servers, ids, byType, byRegion, active)
    requires id in servers && id !in ids
    ensures Counted(servers, ids + {id}, Bump(byType, servers[id].serverType), Bump(byRegion, servers[id].region),
                    if servers[id].status == "active" then active + 1 else active)
  {
    TallyStep(byType, servers, ids, TypeOf, id);
    TallyStep(byRegion, servers, ids, RegionOf, id);
    if servers[id].status == "active" {
      assert ActiveIds(servers, ids + {id}) == ActiveIds(servers, ids) + {id};
    } else {
      assert ActiveIds(servers, ids + {id}) == ActiveIds(servers, ids);
    }
  }

  /** The loop of `get_cluster_stats` over the server records. */
  method CountServers(all: map<string, Server>) returns (byType: map<ServerType, nat>, byRegion: map<string, nat>, active: nat)
    ensures Counted(all, all.Keys, byType, byRegion, active)
  {
    byType, byRegion, active := map[], map[], 0;
    CountedEmpty(all);
    var remaining := all.Keys;
    ghost var seen: set<string> := {};
    while remaining != {}
      invariant seen + remaining == all.Keys && seen !! remaining
      invariant Counted(all, seen, byType, byRegion, active)
      decreases |remaining|
    {
      var id :| id in remaining;
      var server := all[id];
      CountedStep(all, seen, byType, byRegion, active, id);
      byType := Bump(byType, server.serverType);
      byRegion := Bump(byRegion, server.region);
      if server.status == "active" {
        active := active + 1;
      }
      assert (seen + {id}) + (remaining - {id}) == seen + remaining;
      remaining := remaining - {id};
      seen := seen + {id};
    }
  }

  // ---------------------------------------------------------------- manager

  /** The first web server of `ids`, the cluster's load balancer. */
  function FirstWeb(ids: seq<string>, servers: map<string, Server>): (r: Option<string>)
    requires forall k :: 0 <= k < |ids| ==> ids[k] in servers
    ensures r.None? <==> forall k :: 0 <= k < |ids| ==> servers[ids[k]].serverType != Web
    ensures r.Some? ==> exists k :: 0 <= k < |ids| && ids[k] == r.value && servers[ids[k]].serverType == Web
                                    && forall k' :: 0 <= k' < k ==> servers[ids[k']].serverType != Web
  {
    if ids == [] then None
    else if servers[ids[0]].serverType == Web then Some(ids[0])
    else
      var r := FirstWeb(ids[1..], servers);
      assert forall k :: 1 <= k < |ids| ==> ids[k] == ids[1..][k - 1];
      if r.Some? then
        assert exists k :: 0 <= k < |ids| && ids[k] == r.value && servers[ids[k]].serverType == Web
                           && forall k' :: 0 <= k' < k ==> servers[ids[k']].serverType != Web by {
          var k :| 0 <= k < |ids[1..]| && ids[1..][k] == r.value && servers[ids[1..][k]].serverType == Web
                   && forall k' :: 0 <= k' < k ==> servers[ids[1..][k']].serverType != Web;
          assert ids[k + 1] == r.value;
          forall k' | 0 <= k' < k + 1
            ensures servers[ids[k']].serverType != Web
          {
            if k' > 0 {
              assert ids[k'] == ids[1..][k' - 1];
            }
          }
        }
        r
      else r
  }

  /** Some earlier/later pair of `ids` is `x`, `y`. */
  predicate IsPairOf(ids: seq<string>, x: string, y: string)
  {
    exists a, b :: 0 <= a < b < |ids| && ids[a] == x && ids[b] == y
  }

  predicate Known(servers: map<string, Server>, ids: seq<string>)
  {
    forall k :: 0 <= k < |ids| ==> ids[k] in servers
  }

  /** `conns` extends `base` only by active internal connections between
      an earlier and a later member of `ids`. */
  ghost predicate InternalSince(base: seq<Connection>, conns: seq<Connection>, ids: seq<string>)
  {
    base <= conns
    && forall k :: |base| <= k < |conns| ==>
         conns[k].connectionType == "cluster_internal" && conns[k].status == "active"
         && IsPairOf(ids, conns[k].from, conns[k].to)
  }

  /** Every pair of members whose earlier index is below `i` is joined. */
  ghost predicate PairsLinked(conns: seq<Connection>, ids: seq<string>, i: nat)
  {
    forall a, b :: 0 <= a < b < |ids| && a < i ==> Linked(conns, ids[a], ids[b])
  }

  /** Member `i` is joined to members `i + 1` up to (not including) `j`. */
  ghost predicate RowLinked(conns: seq<Connection>, ids: seq<string>, i: nat, j: nat)
    requires i < |ids|
  {
    forall b :: i < b < j && b < |ids| ==> Linked(conns, ids[i], ids[b])
  }

  lemma InternalSinceTrans(base: seq<Connection>, mid: seq<Connection>, conns: seq<Connection>, ids: seq<string>)
    requires InternalSince(base, mid, ids) && InternalSince(mid, conns, ids)
    ensures InternalSince(base, conns, ids)
  {
    forall k | |base| <= k < |conns|
      ensures conns[k].connectionType == "cluster_internal" && conns[k].status == "active"
              && IsPairOf(ids, conns[k].from, conns[k].to)
    {
      if k < |mid| {
        assert conns[k] == mid[k];
      }
    }
  }

  lemma PairsLinkedNext(before: seq<Connection>, after: seq<Connection>, ids: seq<string>, i: nat)
    requires i < |ids| && before <= after
    requires PairsLinked(before, ids, i) && RowLinked(after, ids, i, |ids|)
    ensures PairsLinked(after, ids, i + 1)
  {
    LinkedGrows(before, after);
  }

  /** One `connect_servers` call of the inner loop keeps both invariants. */
  lemma ConnectStep(base: seq<Connection>, before: seq<Connection>, after: seq<Connection>,
                    ids: seq<string>, i: nat, j: nat, ok: bool, now: string, latency: real)
    requires i < j < |ids|
    requires InternalSince(base, before, ids) && RowLinked(before, ids, i, j)
    requires ok <==> !Linked(before, ids[i], ids[j])
    requires ok ==> after == before + [Connection(ids[i], ids[j], "cluster_internal", "active", now, latency)]
    requires !ok ==> after == before
    ensures InternalSince(base, after, ids) && RowLinked(after, ids, i, j + 1)
  {
    if ok {
      assert Links(after[|before|], ids[i], ids[j]);
      LinkedGrows(before, after);
      forall k | |base| <= k < |after|
        ensures after[k].connectionType == "cluster_internal" && after[k].status == "active"
                && IsPairOf(ids, after[k].from, after[k].to)
      {
        if k < |before| {
          assert after[k] == before[k];
        }
      }
    }
  }

  class ClusterManager {
    var servers: map<string, Server>
    var connections: seq<Connection>
    var clusters: map<string, ClusterInfo>

    /** Servers are stored under their own id, every connection joins two
        known servers, and no unordered pair is joined twice. */
    ghost predicate Valid()
      reads this
    {
      (forall id :: id in servers ==> servers[id].id == id)
      && (forall i :: 0 <= i < |connections| ==> connections[i].from in servers && connections[i].to in servers)
      && NoDuplicateEdges(connections)
    }

    constructor ()
      ensures Valid()
      ensures servers == map[] && connections == [] && clusters == map[]
    {
      servers, connections, clusters := map[], [], map[];
    }

    /** `add_server`: rejects a duplicate id, an unknown type, and (unless
        simulating) a server that fails the port probe `reachable`; otherwise
        stores a new active server. */
    method AddServer(serverId: string, name: string, serverType: string, ip: string, region: string,
                     simulate: bool, reachable: bool, now: string) returns (ok: bool)
      requires Valid()
      modifies this
      ensures Valid()
      ensures ok <==> serverId !in old(servers) && ParseServerType(serverType).Some? && (simulate || reachable)
      ensures ok ==> servers == old(servers)[serverId := NewServer(serverId, name, ParseServerType(serverType).value, ip, region, now)]
      ensures !ok ==> servers == old(servers)
      ensures connections == old(connections) && clusters == old(clusters)
    {
      if serverId in servers {
        return false;
      }
      var t := ParseServerType(serverType);
      if t.None? {
        return false;
      }
      if !simulate && !reachable {
        return false;
      }
      servers := servers[serverId := NewServer(serverId, name, t.value, ip, region, now)];
      return true;
    }

    /** `remove_server`: an unknown id gives False; otherwise the server and
        every connection touching it are removed. */
    method RemoveServer(serverId: string) returns (ok: bool)
      requires Valid()
      modifies this
      ensures Valid()
      ensures ok <==> serverId in old(servers)
      ensures ok ==> servers == old(servers) - {serverId} && connections == DropTouching(old(connections), serverId)
      ensures !ok ==> servers == old(servers) && connections == old(connections)
      ensures clusters == old(clusters)
    {
      if serverId !in servers {
        return false;
      }
      FilterKeepsNoDuplicateEdges(connections, (c: Connection) => !Touches(c, serverId));
      connections := DropTouching(connections, serverId);
      servers := servers - {serverId};
      assert forall i :: 0 <= i < |connections| ==> connections[i] in connections;
      return true;
    }

    /** `connect_servers`: both ends must exist and not be joined yet (in
        either direction); then exactly one active connection is appended.
        `latency` is the measurement of the two ips. */
    method ConnectServers(from: string, to: string, connectionType: string, now: string, latency: real) returns (ok: bool)
      requires Valid()
      modifies this
      ensures Valid()
      ensures ok <==> from in old(servers) && to in old(servers) && !Linked(old(connections), from, to)
      ensures ok ==> connections == old(connections) + [Connection(from, to, connectionType, "active", now, latency)]
      ensures !ok ==> connections == old(connections)
      ensures servers == old(servers) && clusters == old(clusters)
    {
      if from !in servers || to !in servers {
        return false;
      }
      if Linked(connections, from, to) {
        return false;
      }
      var c := Connection(from, to, connectionType, "active", now, latency);
      connections := connections + [c];
      assert forall i :: 0 <= i < |connections| - 1 ==> connections[i] == old(connections)[i];
      return true;
    }

    /** `disconnect_servers`: drop every connection joining the two servers,
        in either direction; True exactly when something was dropped. */
    method DisconnectServers(from: string, to: string) returns (ok: bool)
      requires Valid()
      modifies this
      ensures Valid()
      ensures connections == DropLink(old(connections), from, to)
      ensures !Linked(connections, from, to)
      ensures ok <==> Linked(old(connections), from, to)
      ensures servers == old(servers) && clusters == old(clusters)
    {
      var originalCount := |connections|;
      FilterKeepsNoDuplicateEdges(connections, (c: Connection) => !Links(c, from, to));
      FilterShrinks(connections, (c: Connection) => !Links(c, from, to));
      connections := DropLink(connections, from, to);
      assert forall i :: 0 <= i < |connections| ==> connections[i] in connections;
      ok := |connections| < originalCount;
    }

    /** `create_cluster`: fails without change if any id is unknown; otherwise
        stores the cluster (replacing one of the same name), with the first web
        server as load balancer, and connects every earlier member to every
        later one unless they are already joined. */
    method CreateCluster(clusterName: string, serverIds: seq<string>, now: string,
                         measureLatency: (string, string) -> real) returns (ok: bool)
      requires Valid()
      modifies this
      ensures Valid()
      ensures ok <==> Known(old(servers), serverIds)
      ensures !ok ==> clusters == old(clusters) && connections == old(connections)
      ensures ok ==> clusters == old(clusters)[clusterName :=
                       ClusterInfo(clusterName, clusterName, serverIds, now, "active",
                                   FirstWeb(serverIds, old(servers)), "healthy")]
      ensures ok ==> InternalSince(old(connections), connections, serverIds)
      ensures ok ==> PairsLinked(connections, serverIds, |serverIds|)
      ensures servers == old(servers)
    {
      if !Known(servers, serverIds) {
        return false;
      }
      clusters := clusters[clusterName :=
                    ClusterInfo(clusterName, clusterName, serverIds, now, "active", FirstWeb(serverIds, servers), "healthy")];
      ConnectMembers(serverIds, now, measureLatency);
      return true;
    }

    /** The loop at the end of `create_cluster`: every earlier member is
        connected to every later one. */
    method ConnectMembers(ids: seq<string>, now: string, measureLatency: (string, string) -> real)
      requires Valid() && Known(servers, ids)
      modifies this
      ensures Valid()
      ensures InternalSince(old(connections), connections, ids)
      ensures PairsLinked(connections, ids, |ids|)
      ensures servers == old(servers) && clusters == old(clusters)
    {
      var i := 0;
      while i < |ids|
        invariant 0 <= i <= |ids|
        invariant Valid()
        invariant servers == old(servers) && clusters == old(clusters)
        invariant InternalSince(old(connections), connections, ids)
        invariant PairsLinked(connections, ids, i)
      {
        ghost var before := connections;
        ConnectRow(ids, i, now, measureLatency);
        InternalSinceTrans(old(connections), before, connections, ids);
        PairsLinkedNext(before, connections, ids, i);
        i := i + 1;
      }
    }

    /** The inner loop: member `i` is connected to every later member. */
    method ConnectRow(ids: seq<string>, i: nat, now: string, measureLatency: (string, string) -> real)
      requires Valid() && Known(servers, ids) && i < |ids|
      modifies this
      ensures Valid()
      ensures InternalSince(old(connections), connections, ids)
      ensures RowLinked(connections, ids, i, |ids|)
      ensures servers == old(servers) && clusters == old(clusters)
    {
      var j := i + 1;
      while j < |ids|
        invariant i + 1 <= j <= |ids|
        invariant Valid()
        invariant servers == old(servers) && clusters == old(clusters)
        invariant InternalSince(old(connections), connections, ids)
        invariant RowLinked(connections, ids, i, j)
      {
        var x, y := ids[i], ids[j];
        ghost var before := connections;
        var latency := measureLatency(servers[x].ip, servers[y].ip);
        var ok := ConnectServers(x, y, "cluster_internal", now, latency);
        ConnectStep(old(connections), before, connections, ids, i, j, ok, now, latency);
        j := j + 1;
      }
    }

    /** `get_cluster_stats`: totals, per-type and per-region counts and the
        number of active servers, gathered in one pass over the servers. */
    method GetClusterStats() returns (stats: Stats)
      ensures stats.totalServers == |servers| && stats.totalConnections == |connections|
      ensures stats.totalClusters == |clusters|
      ensures Counted(servers, servers.Keys, stats.serversByType, stats.serversByRegion, stats.activeServers)
    {
      var byType, byRegion, active := CountServers(servers);
      stats := Stats(|servers|, |connections|, |clusters|, byType, byRegion, active);
    }
  }

  /** Appending connections never unlinks a pair. */
  lemma LinkedGrows(before: seq<Connection>, after: seq<Connection>)
    requires before <= after
    ensures forall a, b :: Linked(before, a, b) ==> Linked(after, a, b)
  {
    forall a, b | Linked(before, a, b)
      ensures Linked(after, a, b)
    {
      var i :| 0 <= i < |before| && Links(before[i], a, b);
      assert after[i] == before[i];
    }
  }

  /** The per-type (or per-region) counts add up to the number of servers, and
      there are never more active servers than servers. */
  lemma StatsConsistent(servers: map<string, Server>, stats: Stats)
    requires stats.totalServers == |servers|
    requires Counted(servers, servers.Keys, stats.serversByType, stats.serversByRegion, stats.activeServers)
    ensures SumValues(stats.serversByType) == stats.totalServers
    ensures SumValues(stats.serversByRegion) == stats.totalServers
    ensures stats.activeServers <= stats.totalServers
  {
    assert ActiveIds(servers, servers.Keys) <= servers.Keys;
    SubsetCardinality(ActiveIds(servers, servers.Keys), servers.Keys);
  }

  lemma {:induction false} SubsetCardinality<T>(a: set<T>, b: set<T>)
    requires a <= b
    ensures |a| <= |b|
    decreases |b|
  {
    if a != {} {
      var x :| x in a;
      SubsetCardinality(a - {x}, b - {x});
    }
  }

  /** A removed server leaves no connection behind, and every connection not
      touching it survives in order. */
  lemma DropTouchingSpec(conns: seq<Connection>, id: string)
    ensures forall c :: c in DropTouching(conns, id) ==> !Touches(c, id)
    ensures forall c :: c in conns && !Touches(c, id) ==> c in DropTouching(conns, id)
    ensures (forall c :: c in conns ==> !Touches(c, id)) ==> DropTouching(conns, id) == conns
  {
    var keep := (c: Connection) => !Touches(c, id);
    FilterShrinks(conns, keep);
    if forall c :: c in conns ==> !Touches(c, id) {
      assert forall i :: 0 <= i < |conns| ==> keep(conns[i]);
    }
  }
}
