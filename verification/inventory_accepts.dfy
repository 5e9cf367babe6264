/** Which inventory calls are let through: those that name something that is there and break no constraint. */
module InventoryAccepts {
  import opened Options
  import opened Seqs
  import opened Inventory

  predicate AllThere(t: Tables, ids: seq<string>) { forall i :: 0 <= i < |ids| ==> HasHost(t.hosts, ids[i]) }

  /** What a call must come with: names that are not empty, and rows to work on. */
  predicate Sensible(t: Tables, op: Op) {
    match op
    case CreateDatacenter(_, name) => name != ""
    case UpdateDatacenter(id, name) => name != "" && HasDC(t, id)
    case DeleteDatacenter(id) => HasDC(t, id)
    case CreateCluster(_, name, _, _) => name != ""
    case UpdateCluster(id, name, _) => name != "" && HasCluster(t, id)
    case MoveCluster(name, _) => HasClusterNamed(t, name)
    case SetClusterStatus(id, _) => HasCluster(t, id)
    case DeleteCluster(id) => HasCluster(t, id)
    case AddHost(_, _, _) => true
    case AddStandalone(_, _, _) => true
    case MoveHost(id, _) => HasHost(t.hosts, id)
    case UpdateHost(id, address, tokenId, _, _) => address != "" && tokenId != "" && HasHost(t.hosts, id)
    case SetHostStatus(id, _, _, _) => HasHost(t.hosts, id)
    case DeleteHost(id) => HasHost(t.hosts, id)
    case FormCluster(_, name, _, hosts, _) => name != "" && hosts != [] && AllThere(t, hosts)
    case AddHosts(cluster, hosts, _) => cluster != "" && hosts != [] && AllThere(t, hosts)
    case AutoRoute(_, dc, _, probe, _) => HasDC(t, dc) && !probe.ProbeFailed?
    case Promote(id, _, _, _, _) => HasHost(t.hosts, id)
  }

  lemma {:induction false} AppendedIsNew<T(!new)>(rows: seq<T>, x: T, key: T -> string)
    requires UniqueBy(rows + [x], key)
    ensures forall y :: y in rows ==> key(y) != key(x)
  {
    forall y | y in rows ensures key(y) != key(x) {
      var i: nat :| i < |rows| && rows[i] == y;
      assert (rows + [x])[i] == y && (rows + [x])[|rows|] == x;
    }
  }

  predicate IdIn(clusters: seq<Cluster>, id: string) { exists c :: c in clusters && c.id == id }

  predicate PlaceIn(clusters: seq<Cluster>, dc: Option<string>) { exists c :: c in clusters && c.dc == dc }

  lemma StatusKeys(clusters: seq<Cluster>, f: Cluster -> Cluster)
    requires forall c :: f(c).id == c.id && f(c).name == c.name
    ensures UniqueBy(MapClusters(clusters, f), ClusterId) <==> UniqueBy(clusters, ClusterId)
    ensures UniqueBy(MapClusters(clusters, f), ClusterName) <==> UniqueBy(clusters, ClusterName)
  {
    var rows := MapClusters(clusters, f);
    assert forall i :: 0 <= i < |rows| ==> ClusterId(rows[i]) == ClusterId(clusters[i]) && ClusterName(rows[i]) == ClusterName(clusters[i]);
  }

  /** Status changes keep ids, names and datacenters. */
  lemma StatusMapped(clusters: seq<Cluster>, cluster: string, from: ClusterStatus, to: ClusterStatus)
    ensures var rows := MapClusters(clusters, SetStatus(cluster, from, to));
            && (UniqueBy(rows, ClusterId) <==> UniqueBy(clusters, ClusterId)) && (UniqueBy(rows, ClusterName) <==> UniqueBy(clusters, ClusterName))
            && (forall id :: IdIn(rows, id) <==> IdIn(clusters, id)) && (forall dc :: PlaceIn(rows, dc) <==> PlaceIn(clusters, dc))
  {
    var f := SetStatus(cluster, from, to);
    StatusKeys(clusters, f);
    hide UniqueBy, IdIn, PlaceIn, MapClusters;
    forall id ensures IdIn(MapClusters(clusters, f), id) <==> IdIn(clusters, id) {
      IdKept(clusters, f, id);
    }
    forall dc ensures PlaceIn(MapClusters(clusters, f), dc) <==> PlaceIn(clusters, dc) {
      PlaceKept(clusters, f, dc);
    }
  }

  lemma IdKept(clusters: seq<Cluster>, f: Cluster -> Cluster, id: string)
    requires forall c :: f(c).id == c.id
    ensures IdIn(MapClusters(clusters, f), id) <==> IdIn(clusters, id)
  {
    var rows := MapClusters(clusters, f);
    if c :| c in clusters && c.id == id {
      var i: nat :| i < |clusters| && clusters[i] == c;
      assert rows[i] in rows && rows[i].id == id;
    }
    if c :| c in rows && c.id == id {
      var i: nat :| i < |rows| && rows[i] == c;
      assert clusters[i] in clusters && clusters[i].id == id;
    }
  }

  lemma PlaceKept(clusters: seq<Cluster>, f: Cluster -> Cluster, dc: Option<string>)
    requires forall c :: f(c).dc == c.dc
    ensures PlaceIn(MapClusters(clusters, f), dc) <==> PlaceIn(clusters, dc)
  {
    var rows := MapClusters(clusters, f);
    if c :| c in clusters && c.dc == dc {
      var i: nat :| i < |clusters| && clusters[i] == c;
      assert rows[i] in rows && rows[i].dc == dc;
    }
    if c :| c in rows && c.dc == dc {
      var i: nat :| i < |rows| && rows[i] == c;
      assert clusters[i] in clusters && clusters[i].dc == dc;
    }
  }

  /** In valid tables a host with a cluster has one that is there, and one without has a datacenter that is there. */
  lemma OwnerIsThere(t: Tables, h: Host)
    requires Valid(t) && h in t.hosts
    ensures h.cluster.Some? ==> HasCluster(t, h.cluster.value)
    ensures h.cluster.None? ==> h.dc.Some? && HasDC(t, h.dc.value)
  {
    assert Owned(t, h);
  }

  lemma AddHostNeeds(t: Tables, id: string, cluster: string, conn: Conn)
    requires Valid(Effect(t, AddHost(id, cluster, conn)))
    ensures HasCluster(t, cluster) && !HasHost(t.hosts, id)
  {
    var t' := Effect(t, AddHost(id, cluster, conn));
    var h := t'.hosts[|t.hosts|];
    assert h in t'.hosts;
    assert UniqueBy(t.hosts + [h], HostId);
    OwnerIsThere(t', h);
    hide Valid, UniqueBy, MapClusters, Owned;
    assert IdIn(t'.clusters, cluster);
    StatusMapped(t.clusters, cluster, Empty, PendingHosts);
    AppendedIsNew(t.hosts, h, HostId);
    assert HostId(h) == id && forall x :: HostId(x) == x.id;
    assert IdIn(t.clusters, cluster);
  }

  lemma AddStandaloneNeeds(t: Tables, id: string, dc: string, conn: Conn)
    requires Valid(Effect(t, AddStandalone(id, dc, conn)))
    ensures HasDC(t, dc) && !HasHost(t.hosts, id)
  {
    var t' := Effect(t, AddStandalone(id, dc, conn));
    var h := t'.hosts[|t.hosts|];
    assert h in t'.hosts;
    OwnerIsThere(t', h);
    AppendedIsNew(t.hosts, h, HostId);
    assert HostId(h) == id && forall x :: HostId(x) == x.id;
    hide Valid;
  }

  lemma MovedIntoNeeds(t: Tables, rows: seq<Cluster>, ids: seq<string>, cluster: string, updates: map<string, Token>)
    requires ids != [] && AllThere(t, ids)
    requires Valid(Tables(t.dcs, rows, MapHosts(t.hosts, MoveListed(ids, cluster, updates))))
    ensures IdIn(rows, cluster)
  {
    var t' := Tables(t.dcs, rows, MapHosts(t.hosts, MoveListed(ids, cluster, updates)));
    assert HasHost(t.hosts, ids[0]);
    var h :| h in t.hosts && h.id == ids[0];
    var i: nat :| i < |t.hosts| && t.hosts[i] == h;
    assert t'.hosts[i] in t'.hosts && t'.hosts[i].cluster == Some(cluster);
    OwnerIsThere(t', t'.hosts[i]);
    assert HasCluster(t', cluster);
    hide Valid;
  }

  lemma NewClusterNeeds(t: Tables, t': Tables, c: Cluster)
    requires Valid(t') && t'.clusters == t.clusters + [c] && t'.dcs == t.dcs
    ensures !HasCluster(t, c.id) && !HasClusterNamed(t, c.name) && (c.dc.Some? ==> HasDC(t, c.dc.value))
  {
    AppendedIsNew(t.clusters, c, ClusterId);
    AppendedIsNew(t.clusters, c, ClusterName);
    assert forall x :: ClusterId(x) == x.id && ClusterName(x) == x.name;
    assert c in t'.clusters;
    assert c.dc.Some? ==> HasDC(t', c.dc.value);
    hide Valid;
  }

  /** A status change after creating a cluster breaks no constraint of its own. */
  lemma BeforeStatus(t: Tables, clusters: seq<Cluster>, hosts: seq<Host>, cluster: string, to: ClusterStatus)
    requires Valid(Tables(t.dcs, MapClusters(clusters, SetStatus(cluster, Empty, to)), hosts))
    ensures Valid(Tables(t.dcs, clusters, hosts))
  {
    var t' := Tables(t.dcs, MapClusters(clusters, SetStatus(cluster, Empty, to)), hosts);
    var u := Tables(t.dcs, clusters, hosts);
    StatusMapped(clusters, cluster, Empty, to);
    forall h | h in hosts ensures Owned(u, h) {
      assert Owned(t', h);
      assert h.cluster.Some? ==> (HasCluster(t', h.cluster.value) <==> IdIn(t'.clusters, h.cluster.value));
      assert h.cluster.Some? ==> (HasCluster(u, h.cluster.value) <==> IdIn(clusters, h.cluster.value));
    }
    forall c | c in clusters && c.dc.Some? ensures HasDC(u, c.dc.value) {
      assert PlaceIn(clusters, c.dc);
      var d :| d in t'.clusters && d.dc == c.dc;
      assert HasDC(t', d.dc.value);
    }
  }

  lemma RouteNeeds(t: Tables, dc: string, pveName: string, address: string, newId: string, hosts: seq<Host>, to: ClusterStatus)
    requires var (t1, cluster) := ClusterFor(t, dc, pveName, address, newId);
             Valid(Tables(t.dcs, MapClusters(t1.clusters, SetStatus(cluster, Empty, to)), hosts))
    ensures CanRoute(t, dc, pveName, address, newId)
  {
    var (t1, cluster) := ClusterFor(t, dc, pveName, address, newId);
    BeforeStatus(t, t1.clusters, hosts, cluster, to);
    if FindByPVEName(t.clusters, pveName).None? {
      NewClusterNeeds(t, Tables(t.dcs, t1.clusters, hosts), t1.clusters[|t.clusters|]);
    }
    hide Valid;
  }

  lemma MoveHostNeeds(t: Tables, id: string, cluster: string)
    requires HasHost(t.hosts, id) && Valid(Effect(t, MoveHost(id, cluster)))
    ensures HasCluster(t, cluster)
  {
    hide Valid, UniqueBy, MapClusters, MapHosts;
    MovedIntoNeeds(t, MapClusters(t.clusters, SetStatus(cluster, Empty, PendingHosts)), [id], cluster, map[]);
    StatusMapped(t.clusters, cluster, Empty, PendingHosts);
    assert IdIn(t.clusters, cluster);
  }

  lemma FormClusterNeeds(t: Tables, op: Op)
    requires op.FormCluster? && Valid(Effect(t, op))
    ensures !HasCluster(t, op.id) && !HasClusterNamed(t, op.name) && (op.dc.Some? ==> HasDC(t, op.dc.value))
  {
    NewClusterNeeds(t, Effect(t, op), Cluster(op.id, op.name, "", op.dc, Active));
  }

  lemma CreateDatacenterNeeds(t: Tables, id: string, name: string)
    requires Valid(Effect(t, CreateDatacenter(id, name)))
    ensures !HasDC(t, id) && !exists d :: d in t.dcs && d.name == name
  {
    AppendedIsNew(t.dcs, Datacenter(id, name), DatacenterId);
    AppendedIsNew(t.dcs, Datacenter(id, name), DatacenterName);
    assert forall x :: DatacenterId(x) == x.id && DatacenterName(x) == x.name;
    hide Valid;
  }

  lemma UpdateDatacenterNeeds(t: Tables, id: string, name: string)
    requires HasDC(t, id) && Valid(Effect(t, UpdateDatacenter(id, name)))
    ensures forall d :: d in t.dcs && d.name == name ==> d.id == id
  {
    var t' := Effect(t, UpdateDatacenter(id, name));
    var x :| x in t.dcs && x.id == id;
    var i: nat :| i < |t.dcs| && t.dcs[i] == x;
    forall d | d in t.dcs && d.name == name ensures d.id == id {
      var j: nat :| j < |t.dcs| && t.dcs[j] == d;
      var r := t'.dcs[j];
      assert DatacenterName(t'.dcs[i]) == name && (d.id != id ==> DatacenterName(r) == name);
    }
  }

  lemma UpdateClusterNeeds(t: Tables, id: string, name: string, dc: Option<string>)
    requires HasCluster(t, id) && Valid(Effect(t, UpdateCluster(id, name, dc)))
    ensures (forall c :: c in t.clusters && c.name == name ==> c.id == id) && (dc.Some? ==> HasDC(t, dc.value))
  {
    var t' := Effect(t, UpdateCluster(id, name, dc));
    var x :| x in t.clusters && x.id == id;
    var i: nat :| i < |t.clusters| && t.clusters[i] == x;
    assert t'.clusters[i] in t'.clusters && t'.clusters[i].dc == dc;
    assert dc.Some? ==> HasDC(t', dc.value);
    forall c | c in t.clusters && c.name == name ensures c.id == id {
      var j: nat :| j < |t.clusters| && t.clusters[j] == c;
      var r := t'.clusters[j];
      assert ClusterName(t'.clusters[i]) == name && (c.id != id ==> ClusterName(r) == name);
    }
  }

  lemma MoveClusterNeeds(t: Tables, name: string, dc: Option<string>)
    requires HasClusterNamed(t, name) && Valid(Effect(t, MoveCluster(name, dc)))
    ensures dc.Some? ==> HasDC(t, dc.value)
  {
    var t' := Effect(t, MoveCluster(name, dc));
    var x :| x in t.clusters && x.name == name;
    var i: nat :| i < |t.clusters| && t.clusters[i] == x;
    assert t'.clusters[i] in t'.clusters && t'.clusters[i].dc == dc;
    assert dc.Some? ==> HasDC(t', dc.value);
    hide Valid;
  }

  /** A cluster call is let through exactly when it comes with what it needs and its rows break no constraint. */
  lemma AcceptedIff(t: Tables, op: Op)
    requires Valid(t)
    ensures Accepts(t, op) <==> Sensible(t, op) && Valid(Effect(t, op))
  {
    if Accepts(t, op) {
      AcceptedIsSensible(t, op);
      ApplyKeepsValid(t, op);
      hide Valid, Accepts, Sensible, Effect;
    } else if Sensible(t, op) && Valid(Effect(t, op)) {
      Needed(t, op);
    }
  }

  lemma AcceptedIsSensible(t: Tables, op: Op)
    requires Accepts(t, op)
    ensures Sensible(t, op)
  {
    hide HasHost, HasDC, HasCluster, HasClusterNamed, FindByPVEName, DisplayName;
  }

  lemma Needed(t: Tables, op: Op)
    requires Sensible(t, op) && Valid(Effect(t, op))
    ensures Accepts(t, op)
  {
    hide Valid, HasHost, HasDC, HasCluster, HasClusterNamed, FindByPVEName, DisplayName, MapClusters, MapHosts, MapDatacenters, Filter;
    match op
    case CreateDatacenter(id, name) => CreateDatacenterNeeds(t, id, name);
    case UpdateDatacenter(id, name) => UpdateDatacenterNeeds(t, id, name);
    case CreateCluster(id, name, dc, pveName) => NewClusterNeeds(t, Effect(t, op), Cluster(id, name, pveName, dc, Empty));
    case UpdateCluster(id, name, dc) => UpdateClusterNeeds(t, id, name, dc);
    case MoveCluster(name, dc) => MoveClusterNeeds(t, name, dc);
    case AddHost(id, cluster, conn) => AddHostNeeds(t, id, cluster, conn);
    case AddStandalone(id, dc, conn) => AddStandaloneNeeds(t, id, dc, conn);
    case MoveHost(id, cluster) => MoveHostNeeds(t, id, cluster);
    case FormCluster(_, _, _, _, _) => FormClusterNeeds(t, op);
    case AddHosts(cluster, ids, updates) => AddHostsNeeds(t, cluster, ids, updates);
    case AutoRoute(id, dc, conn, probe, newId) => AutoRouteNeeds(t, op);
    case Promote(id, address, dc, pveName, newId) => PromoteNeeds(t, op);
    case _ =>
  }

  lemma AddHostsNeeds(t: Tables, cluster: string, ids: seq<string>, updates: map<string, Token>)
    requires ids != [] && AllThere(t, ids) && Valid(Effect(t, AddHosts(cluster, ids, updates)))
    ensures HasCluster(t, cluster)
  {
    hide Valid, HasHost, MapHosts;
    MovedIntoNeeds(t, t.clusters, ids, cluster, updates);
  }

  lemma AutoRouteNeeds(t: Tables, op: Op)
    requires op.AutoRoute? && Sensible(t, op) && Valid(Effect(t, op))
    ensures Accepts(t, op)
  {
    var t' := Effect(t, op);
    if op.probe.Member? {
      RouteNeeds(t, op.datacenter, op.probe.clusterName, op.conn.address, op.newCluster, t'.hosts, PendingHosts);
    }
    var h := t'.hosts[|t.hosts|];
    assert t'.hosts == t.hosts + [h];
    AppendedIsNew(t.hosts, h, HostId);
    assert HostId(h) == op.id && forall x :: HostId(x) == x.id;
    hide Valid, FindByPVEName, DisplayName, CanRoute;
  }

  lemma PromoteNeeds(t: Tables, op: Op)
    requires op.Promote? && Sensible(t, op) && Valid(Effect(t, op))
    ensures Accepts(t, op)
  {
    RouteNeeds(t, op.datacenter, op.pveName, op.address, op.newCluster, Effect(t, op).hosts, Active);
    hide Valid, FindByPVEName, DisplayName, CanRoute;
  }
}
