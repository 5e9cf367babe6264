/** The inventory database and the calls that change it: each does what its specification says, or nothing. */
module InventoryStore {
  import opened Options
  import opened Seqs
  import opened Inventory

  class Store {
    var dcs: seq<Datacenter>
    var clusters: seq<Cluster>
    var hosts: seq<Host>

    function Contents(): Tables
      reads this
    {
      Tables(dcs, clusters, hosts)
    }

    constructor ()
      ensures Contents() == Tables([], [], []) && Valid(Contents())
    {
      dcs, clusters, hosts := [], [], [];
    }

    /** Standalone hosts go with the datacenter; its clusters become orphans. */
    method DeleteDatacenter(id: string) returns (ok: bool)
      requires Valid(Contents())
      modifies this
      ensures Valid(Contents())
      ensures ok == Accepts(old(Contents()), Op.DeleteDatacenter(id))
      ensures Contents() == Apply(old(Contents()), Op.DeleteDatacenter(id))
    {
      hide Valid;
      ApplyKeepsValid(Contents(), Op.DeleteDatacenter(id));
      ok := HasDC(Contents(), id);
      if ok {
        dcs := Filter(dcs, NotDC(id));
        OrphanClusters(id);
        DropHosts(NotAt(id));
      }
    }

    /** ON DELETE SET NULL, row by row. */
    method OrphanClusters(dc: string)
      modifies this`clusters
      ensures clusters == MapClusters(old(clusters), Orphan(dc))
    {
      var i := 0;
      while i < |clusters|
        invariant i <= |clusters| == |old(clusters)|
        invariant forall j :: 0 <= j < |clusters| ==>
          clusters[j] == if j < i then Orphan(dc)(old(clusters)[j]) else old(clusters)[j]
      {
        if clusters[i].dc == Some(dc) {
          clusters := clusters[i := clusters[i].(dc := None)];
        }
        i := i + 1;
      }
    }

    /** ON DELETE CASCADE, row by row: removes the hosts that are not to be kept and preserves the order of the others. */
    method DropHosts(keep: Host -> bool)
      modifies this`hosts
      ensures hosts == Filter(old(hosts), keep)
    {
      var i := 0;
      ghost var seen := 0;
      assert hosts[..0] == old(hosts)[..0] == [];
      while i < |hosts|
        invariant i <= |hosts| && seen <= |old(hosts)|
        invariant hosts[..i] == Filter(old(hosts)[..seen], keep) && hosts[i..] == old(hosts)[seen..]
        decreases |hosts| - i
      {
        assert hosts[i] == hosts[i..][0] == old(hosts)[seen];
        assert old(hosts)[..seen + 1] == old(hosts)[..seen] + [hosts[i]];
        FilterSnoc(old(hosts)[..seen], hosts[i], keep);
        if keep(hosts[i]) {
          assert hosts[..i + 1] == hosts[..i] + [hosts[i]];
          i := i + 1;
        } else {
          ghost var before := hosts;
          hosts := hosts[..i] + hosts[i + 1..];
          assert hosts[..i] == before[..i] && hosts[i..] == before[i + 1..];
        }
        seen := seen + 1;
      }
      assert old(hosts)[..seen] == old(hosts) && hosts[..i] == hosts;
    }

    /** The hosts of the cluster go with it. */
    method DeleteCluster(id: string) returns (ok: bool)
      requires Valid(Contents())
      modifies this
      ensures Valid(Contents())
      ensures ok == Accepts(old(Contents()), Op.DeleteCluster(id))
      ensures Contents() == Apply(old(Contents()), Op.DeleteCluster(id))
    {
      hide Valid;
      ApplyKeepsValid(Contents(), Op.DeleteCluster(id));
      ok := HasCluster(Contents(), id);
      if ok {
        clusters := Filter(clusters, NotCluster(id));
        DropHosts(NotIn(id));
      }
    }

    /** A transaction: the cluster row and every host move, or nothing. */
    method FormClusterFromHosts(id: string, name: string, dc: Option<string>, ids: seq<string>, updates: map<string, Token>)
      returns (ok: bool)
      requires Valid(Contents())
      modifies this
      ensures Valid(Contents())
      ensures ok == Accepts(old(Contents()), FormCluster(id, name, dc, ids, updates))
      ensures Contents() == Apply(old(Contents()), FormCluster(id, name, dc, ids, updates))
    {
      hide Valid;
      ApplyKeepsValid(Contents(), FormCluster(id, name, dc, ids, updates));
      if name == "" || HasClusterNamed(Contents(), name) || (dc.Some? && !HasDC(Contents(), dc.value)) || |ids| == 0 || HasCluster(Contents(), id) {
        return false;
      }
      var before := Contents();
      clusters := clusters + [Cluster(id, name, "", dc, Active)];
      var moved;
      ok, moved := MoveAll(hosts, ids, id, updates);
      if ok {
        hosts := moved;
      } else {
        dcs, clusters, hosts := before.dcs, before.clusters, before.hosts;
      }
    }

    method AddHostsToCluster(cluster: string, ids: seq<string>, updates: map<string, Token>) returns (ok: bool)
      requires Valid(Contents())
      modifies this
      ensures Valid(Contents())
      ensures ok == Accepts(old(Contents()), AddHosts(cluster, ids, updates))
      ensures Contents() == Apply(old(Contents()), AddHosts(cluster, ids, updates))
    {
      hide Valid;
      ApplyKeepsValid(Contents(), AddHosts(cluster, ids, updates));
      if !HasCluster(Contents(), cluster) || cluster == "" || |ids| == 0 {
        return false;
      }
      var moved;
      ok, moved := MoveAll(hosts, ids, cluster, updates);
      if ok {
        hosts := moved;
      }
    }

    /** The cluster of a PVE cluster, created under the datacenter unless one is correlated already. */
    method FindOrCreateCluster(dc: string, pveName: string, address: string, newId: string) returns (cluster: Option<string>)
      modifies this`clusters
      ensures cluster.Some? == CanRoute(old(Contents()), dc, pveName, address, newId)
      ensures cluster.Some? ==> (Contents(), cluster.value) == ClusterFor(old(Contents()), dc, pveName, address, newId)
      ensures cluster.None? ==> Contents() == old(Contents())
    {
      cluster := FindByPVEName(clusters, pveName);
      if cluster.None? {
        var name := pveName;
        if HasClusterNamed(Contents(), name) {
          name := pveName + " (" + address + ")";
        }
        if HasDC(Contents(), dc) && !HasCluster(Contents(), newId) && !HasClusterNamed(Contents(), name) {
          clusters := clusters + [Cluster(newId, name, pveName, Some(dc), Empty)];
          cluster := Some(newId);
        }
      }
    }

    method AddHostAutoRoute(id: string, dc: string, conn: Conn, probe: Probe, newId: string) returns (ok: bool)
      requires Valid(Contents())
      modifies this
      ensures Valid(Contents())
      ensures ok == Accepts(old(Contents()), AutoRoute(id, dc, conn, probe, newId))
      ensures Contents() == Apply(old(Contents()), AutoRoute(id, dc, conn, probe, newId))
    {
      hide Valid;
      ApplyKeepsValid(Contents(), AutoRoute(id, dc, conn, probe, newId));
      if !HasDC(Contents(), dc) || HasHost(hosts, id) || probe.ProbeFailed? {
        return false;
      }
      if probe.Standalone? {
        hosts := hosts + [Host(id, None, Some(dc), conn, "staged", "", "")];
        return true;
      }
      var cluster := FindOrCreateCluster(dc, probe.clusterName, conn.address, newId);
      if cluster.None? {
        return false;
      }
      hosts := hosts + [Host(id, Some(cluster.value), None, conn, "staged", "", "")];
      clusters := MapClusters(clusters, SetStatus(cluster.value, Empty, PendingHosts));
      ok := true;
    }

    /** Moves a standalone host that was found to have joined a PVE cluster. */
    method PromoteStandalone(id: string, address: string, dc: string, pveName: string, newId: string) returns (ok: bool)
      requires Valid(Contents())
      modifies this
      ensures Valid(Contents())
      ensures ok == Accepts(old(Contents()), Promote(id, address, dc, pveName, newId))
      ensures Contents() == Apply(old(Contents()), Promote(id, address, dc, pveName, newId))
    {
      hide Valid;
      ApplyKeepsValid(Contents(), Promote(id, address, dc, pveName, newId));
      var cluster := FindOrCreateCluster(dc, pveName, address, newId);
      if cluster.None? || !HasHost(hosts, id) {
        return false;
      }
      hosts := MapHosts(hosts, MoveListed([id], cluster.value, map[]));
      clusters := MapClusters(clusters, SetStatus(cluster.value, Empty, Active));
      ok := true;
    }
  }
}
