/** Datacenters, clusters and hosts: who owns each host, over every run of inventory calls. */
module Inventory {
  import opened Options
  import opened Seqs

  datatype Conn = Conn(address: string, tokenId: string, tokenSecret: string, insecure: bool)

  /** A host belongs to a cluster, or stands alone in a datacenter. */
  datatype Host = Host(id: string, cluster: Option<string>, dc: Option<string>, conn: Conn, status: string, error: string, node: string)

  datatype ClusterStatus = Empty | PendingHosts | Active | Errored

  datatype Cluster = Cluster(id: string, name: string, pveName: string, dc: Option<string>, status: ClusterStatus)

  datatype Datacenter = Datacenter(id: string, name: string)

  /** The three tables in row order. */
  datatype Tables = Tables(dcs: seq<Datacenter>, clusters: seq<Cluster>, hosts: seq<Host>)

  datatype Token = Token(id: string, secret: string)

  predicate HasDC(t: Tables, id: string) { exists d :: d in t.dcs && d.id == id }

  predicate HasCluster(t: Tables, id: string) { exists c :: c in t.clusters && c.id == id }

  predicate HasClusterNamed(t: Tables, name: string) { exists c :: c in t.clusters && c.name == name }

  predicate HasHost(hosts: seq<Host>, id: string) { exists h :: h in hosts && h.id == id }

  // ---- Ownership ----

  /** Exactly one owner, and it exists. */
  ghost predicate Owned(t: Tables, h: Host) {
    || (h.cluster.Some? && h.dc.None? && HasCluster(t, h.cluster.value))
    || (h.cluster.None? && h.dc.Some? && HasDC(t, h.dc.value))
  }

  function HostId(h: Host): string { h.id }

  function ClusterId(c: Cluster): string { c.id }

  function ClusterName(c: Cluster): string { c.name }

  function DatacenterId(d: Datacenter): string { d.id }

  function DatacenterName(d: Datacenter): string { d.name }

  ghost predicate Valid(t: Tables) {
    && UniqueBy(t.hosts, HostId) && UniqueBy(t.clusters, ClusterId) && UniqueBy(t.dcs, DatacenterId)
    && UniqueBy(t.clusters, ClusterName) && UniqueBy(t.dcs, DatacenterName)
    && (forall c :: c in t.clusters && c.dc.Some? ==> HasDC(t, c.dc.value))
    && (forall h :: h in t.hosts ==> Owned(t, h))
  }

  lemma SameRow(t: Tables, x: Host, y: Host)
    requires Valid(t) && x in t.hosts && y in t.hosts && x.id == y.id
    ensures x == y
  {
    var i: nat :| i < |t.hosts| && t.hosts[i] == x;
    var j: nat :| j < |t.hosts| && t.hosts[j] == y;
    assert HostId(x) == HostId(y);
  }

  lemma SameCluster(t: Tables, x: Cluster, y: Cluster)
    requires Valid(t) && x in t.clusters && y in t.clusters && x.id == y.id
    ensures x == y
  {
    var i: nat :| i < |t.clusters| && t.clusters[i] == x;
    var j: nat :| j < |t.clusters| && t.clusters[j] == y;
    assert ClusterId(x) == ClusterId(y);
  }

  // ---- Row updates ----

  function MapHosts(hosts: seq<Host>, f: Host -> Host): (r: seq<Host>)
    ensures |r| == |hosts| && forall i :: 0 <= i < |hosts| ==> r[i] == f(hosts[i])
  {
    seq(|hosts|, i requires 0 <= i < |hosts| => f(hosts[i]))
  }

  function MapClusters(clusters: seq<Cluster>, f: Cluster -> Cluster): (r: seq<Cluster>)
    ensures |r| == |clusters| && forall i :: 0 <= i < |clusters| ==> r[i] == f(clusters[i])
  {
    seq(|clusters|, i requires 0 <= i < |clusters| => f(clusters[i]))
  }

  function MapDatacenters(dcs: seq<Datacenter>, f: Datacenter -> Datacenter): (r: seq<Datacenter>)
    ensures |r| == |dcs| && forall i :: 0 <= i < |dcs| ==> r[i] == f(dcs[i])
  {
    seq(|dcs|, i requires 0 <= i < |dcs| => f(dcs[i]))
  }

  /** A host moved into a cluster, with fresh credentials where some are given. */
  function Moved(h: Host, cluster: string, updates: map<string, Token>): Host {
    var conn := if h.id in updates then h.conn.(tokenId := updates[h.id].id, tokenSecret := updates[h.id].secret) else h.conn;
    h.(cluster := Some(cluster), dc := None, conn := conn)
  }

  function MoveListed(ids: seq<string>, cluster: string, updates: map<string, Token>): Host -> Host {
    (h: Host) => if h.id in ids then Moved(h, cluster, updates) else h
  }

  function SetStatus(cluster: string, from: ClusterStatus, to: ClusterStatus): Cluster -> Cluster {
    (c: Cluster) => if c.id == cluster && c.status == from then c.(status := to) else c
  }

  function Orphan(dc: string): Cluster -> Cluster {
    (c: Cluster) => if c.dc == Some(dc) then c.(dc := None) else c
  }

  function Relocate(name: string, dc: Option<string>): Cluster -> Cluster {
    (c: Cluster) => if c.name == name then c.(dc := dc) else c
  }

  function RenameDC(id: string, name: string): Datacenter -> Datacenter {
    (d: Datacenter) => if d.id == id then d.(name := name) else d
  }

  function EditCluster(id: string, name: string, dc: Option<string>): Cluster -> Cluster {
    (c: Cluster) => if c.id == id then c.(name := name, dc := dc) else c
  }

  function ForceStatus(id: string, status: ClusterStatus): Cluster -> Cluster {
    (c: Cluster) => if c.id == id then c.(status := status) else c
  }

  /** The statement that edits a host's connection; it has no column for the secret. */
  function EditHost(id: string, address: string, tokenId: string, insecure: bool): Host -> Host {
    (h: Host) => if h.id == id then h.(conn := Conn(address, tokenId, h.conn.tokenSecret, insecure)) else h
  }

  function WithStatus(id: string, status: string, error: string, node: string): Host -> Host {
    (h: Host) => if h.id == id then h.(status := status, error := error, node := node) else h
  }

  function InCluster(id: string): Host -> bool { (h: Host) => h.cluster == Some(id) }

  function NotIn(cluster: string): Host -> bool { (h: Host) => h.cluster != Some(cluster) }

  function NotAt(dc: string): Host -> bool { (h: Host) => h.dc != Some(dc) }

  function NotHost(id: string): Host -> bool { (h: Host) => h.id != id }

  function NotCluster(id: string): Cluster -> bool { (c: Cluster) => c.id != id }

  function NotDC(id: string): Datacenter -> bool { (d: Datacenter) => d.id != id }

  // ---- Finding the cluster of a real PVE cluster ----

  /** What probing a host says about its cluster membership. */
  datatype Probe = ProbeFailed | Standalone | Member(clusterName: string)

  /** The first cluster correlated to a PVE cluster name; the empty name matches none. */
  function FindByPVEName(clusters: seq<Cluster>, pveName: string): (r: Option<string>)
    ensures r.Some? ==> exists c :: c in clusters && c.id == r.value && c.pveName == pveName && pveName != ""
  {
    if clusters == [] || pveName == "" then None
    else if clusters[0].pveName == pveName then Some(clusters[0].id)
    else FindByPVEName(clusters[1..], pveName)
  }

  /** The display name of a new cluster, suffixed with the address when it is taken. */
  function DisplayName(t: Tables, pveName: string, address: string): string {
    if HasClusterNamed(t, pveName) then pveName + " (" + address + ")" else pveName
  }

  /** The tables and the cluster a host of that PVE cluster goes to, created if none is correlated yet. */
  function ClusterFor(t: Tables, dc: string, pveName: string, address: string, newId: string): (Tables, string) {
    var found := FindByPVEName(t.clusters, pveName);
    if found.Some? then (t, found.value)
    else (t.(clusters := t.clusters + [Cluster(newId, DisplayName(t, pveName, address), pveName, Some(dc), Empty)]), newId)
  }

  predicate CanRoute(t: Tables, dc: string, pveName: string, address: string, newId: string) {
    FindByPVEName(t.clusters, pveName).Some? ||
    (HasDC(t, dc) && !HasCluster(t, newId) && !HasClusterNamed(t, DisplayName(t, pveName, address)))
  }

  // ---- Calls ----

  datatype Op =
    | CreateDatacenter(id: string, name: string)
    | DeleteDatacenter(id: string)
    | CreateCluster(id: string, name: string, dc: Option<string>, pveName: string)
    | MoveCluster(name: string, dc: Option<string>)
    | DeleteCluster(id: string)
    | AddHost(id: string, cluster: string, conn: Conn)
    | AddStandalone(id: string, datacenter: string, conn: Conn)
    | MoveHost(id: string, cluster: string)
    | DeleteHost(id: string)
    | FormCluster(id: string, name: string, dc: Option<string>, hosts: seq<string>, updates: map<string, Token>)
    | AddHosts(cluster: string, hosts: seq<string>, updates: map<string, Token>)
    | AutoRoute(id: string, datacenter: string, conn: Conn, probe: Probe, newCluster: string)
    | Promote(id: string, address: string, datacenter: string, pveName: string, newCluster: string)
    | UpdateDatacenter(id: string, name: string)
    | UpdateCluster(id: string, name: string, dc: Option<string>)
    | SetClusterStatus(id: string, status: ClusterStatus)
    | UpdateHost(id: string, address: string, tokenId: string, secret: string, insecure: bool)
    | SetHostStatus(id: string, hostStatus: string, error: string, node: string)

  /** Whether the validation and the constraints let the call through. */
  predicate Accepts(t: Tables, op: Op) {
    match op
    case CreateDatacenter(id, name) => name != "" && !HasDC(t, id) && !(exists d :: d in t.dcs && d.name == name)
    case DeleteDatacenter(id) => HasDC(t, id)
    case CreateCluster(id, name, dc, _) =>
      name != "" && !HasCluster(t, id) && !HasClusterNamed(t, name) && (dc.Some? ==> HasDC(t, dc.value))
    case MoveCluster(name, dc) => HasClusterNamed(t, name) && (dc.Some? ==> HasDC(t, dc.value))
    case DeleteCluster(id) => HasCluster(t, id)
    case AddHost(id, cluster, _) => HasCluster(t, cluster) && !HasHost(t.hosts, id)
    case AddStandalone(id, dc, _) => HasDC(t, dc) && !HasHost(t.hosts, id)
    case MoveHost(id, cluster) => HasCluster(t, cluster) && HasHost(t.hosts, id)
    case DeleteHost(id) => HasHost(t.hosts, id)
    case FormCluster(id, name, dc, hosts, _) =>
      && name != "" && hosts != [] && !HasCluster(t, id) && !HasClusterNamed(t, name) && (dc.Some? ==> HasDC(t, dc.value))
      && forall i :: 0 <= i < |hosts| ==> HasHost(t.hosts, hosts[i])
    case AddHosts(cluster, hosts, _) =>
      HasCluster(t, cluster) && cluster != "" && hosts != [] && forall i :: 0 <= i < |hosts| ==> HasHost(t.hosts, hosts[i])
    case AutoRoute(id, dc, conn, probe, newId) =>
      && HasDC(t, dc) && !HasHost(t.hosts, id) && !probe.ProbeFailed?
      && (probe.Member? ==> CanRoute(t, dc, probe.clusterName, conn.address, newId))
    case Promote(id, address, dc, pveName, newId) => HasHost(t.hosts, id) && CanRoute(t, dc, pveName, address, newId)
    case UpdateDatacenter(id, name) =>
      name != "" && HasDC(t, id) && forall d :: d in t.dcs && d.name == name ==> d.id == id
    case UpdateCluster(id, name, dc) =>
      && name != "" && HasCluster(t, id) && (forall c :: c in t.clusters && c.name == name ==> c.id == id)
      && (dc.Some? ==> HasDC(t, dc.value))
    case SetClusterStatus(id, _) => HasCluster(t, id)
    case UpdateHost(id, address, tokenId, _, _) => address != "" && tokenId != "" && HasHost(t.hosts, id)
    case SetHostStatus(id, _, _, _) => HasHost(t.hosts, id)
  }

  function Effect(t: Tables, op: Op): Tables {
    match op
    case CreateDatacenter(id, name) => t.(dcs := t.dcs + [Datacenter(id, name)])
    case DeleteDatacenter(id) =>
      Tables(Filter(t.dcs, NotDC(id)), MapClusters(t.clusters, Orphan(id)), Filter(t.hosts, NotAt(id)))
    case CreateCluster(id, name, dc, pveName) => t.(clusters := t.clusters + [Cluster(id, name, pveName, dc, Empty)])
    case MoveCluster(name, dc) => t.(clusters := MapClusters(t.clusters, Relocate(name, dc)))
    case DeleteCluster(id) => t.(clusters := Filter(t.clusters, NotCluster(id)), hosts := Filter(t.hosts, NotIn(id)))
    case AddHost(id, cluster, conn) =>
      t.(hosts := t.hosts + [Host(id, Some(cluster), None, conn, "staged", "", "")],
         clusters := MapClusters(t.clusters, SetStatus(cluster, Empty, PendingHosts)))
    case AddStandalone(id, dc, conn) => t.(hosts := t.hosts + [Host(id, None, Some(dc), conn, "staged", "", "")])
    case MoveHost(id, cluster) =>
      t.(hosts := MapHosts(t.hosts, MoveListed([id], cluster, map[])),
         clusters := MapClusters(t.clusters, SetStatus(cluster, Empty, PendingHosts)))
    case DeleteHost(id) =>
      var rest := Filter(t.hosts, NotHost(id));
      t.(hosts := rest, clusters := MapClusters(t.clusters, EmptyIfHostless(t.hosts, id, rest)))
    case FormCluster(id, name, dc, hosts, updates) =>
      t.(clusters := t.clusters + [Cluster(id, name, "", dc, Active)], hosts := MapHosts(t.hosts, MoveListed(hosts, id, updates)))
    case AddHosts(cluster, hosts, updates) => t.(hosts := MapHosts(t.hosts, MoveListed(hosts, cluster, updates)))
    case AutoRoute(id, dc, conn, probe, newId) =>
      if probe.Member? then
        var (t1, cluster) := ClusterFor(t, dc, probe.clusterName, conn.address, newId);
        t1.(hosts := t1.hosts + [Host(id, Some(cluster), None, conn, "staged", "", "")],
            clusters := MapClusters(t1.clusters, SetStatus(cluster, Empty, PendingHosts)))
      else t.(hosts := t.hosts + [Host(id, None, Some(dc), conn, "staged", "", "")])
    case Promote(id, address, dc, pveName, newId) =>
      var (t1, cluster) := ClusterFor(t, dc, pveName, address, newId);
      t1.(hosts := MapHosts(t1.hosts, MoveListed([id], cluster, map[])),
          clusters := MapClusters(t1.clusters, SetStatus(cluster, Empty, Active)))
    case UpdateDatacenter(id, name) => t.(dcs := MapDatacenters(t.dcs, RenameDC(id, name)))
    case UpdateCluster(id, name, dc) => t.(clusters := MapClusters(t.clusters, EditCluster(id, name, dc)))
    case SetClusterStatus(id, status) => t.(clusters := MapClusters(t.clusters, ForceStatus(id, status)))
    case UpdateHost(id, address, tokenId, _, insecure) => t.(hosts := MapHosts(t.hosts, EditHost(id, address, tokenId, insecure)))
    case SetHostStatus(id, status, error, node) => t.(hosts := MapHosts(t.hosts, WithStatus(id, status, error, node)))
  }

  /** DeleteHost resets the status of the host's cluster when no host is left in it. */
  function EmptyIfHostless(hosts: seq<Host>, id: string, rest: seq<Host>): Cluster -> Cluster {
    (c: Cluster) =>
      if (exists h :: h in hosts && h.id == id && h.cluster == Some(c.id)) && !(exists h :: h in rest && h.cluster == Some(c.id))
      then c.(status := Empty) else c
  }

  /** What a failing call leaves behind: a promotion of a host that is gone has already created its cluster. */
  function Residue(t: Tables, op: Op): Tables {
    if op.Promote? && CanRoute(t, op.datacenter, op.pveName, op.address, op.newCluster)
    then ClusterFor(t, op.datacenter, op.pveName, op.address, op.newCluster).0
    else t
  }

  function Apply(t: Tables, op: Op): Tables {
    if Accepts(t, op) then Effect(t, op) else Residue(t, op)
  }

  // ---- Every call keeps ownership ----

  lemma SameNames(clusters: seq<Cluster>, f: Cluster -> Cluster)
    requires UniqueBy(clusters, ClusterName) && forall c :: c in clusters ==> f(c).name == c.name
    ensures UniqueBy(MapClusters(clusters, f), ClusterName)
  {
    var r := MapClusters(clusters, f);
    forall i, j | 0 <= i < j < |r| ensures ClusterName(r[i]) != ClusterName(r[j]) {
      assert clusters[i] in clusters && clusters[j] in clusters;
      assert ClusterName(clusters[i]) != ClusterName(clusters[j]);
    }
  }

  /** A change of cluster rows that keeps ids, names and datacenters, or moves them to existing ones, keeps the tables valid. */
  lemma KeepNamesValid(t: Tables, f: Cluster -> Cluster)
    requires Valid(t)
    requires forall c :: c in t.clusters ==> f(c).id == c.id && f(c).name == c.name && (f(c).dc.Some? ==> HasDC(t, f(c).dc.value))
    ensures Valid(t.(clusters := MapClusters(t.clusters, f)))
    ensures forall id :: HasCluster(t, id) <==> HasCluster(t.(clusters := MapClusters(t.clusters, f)), id)
  {
    SameNames(t.clusters, f);
    MapClustersValid(t, f);
  }

  /** A change of cluster rows that keeps ids and only points at existing datacenters keeps the tables valid. */
  lemma MapClustersValid(t: Tables, f: Cluster -> Cluster)
    requires Valid(t) && forall c :: c in t.clusters ==> f(c).id == c.id && (f(c).dc.Some? ==> HasDC(t, f(c).dc.value))
    requires UniqueBy(MapClusters(t.clusters, f), ClusterName)
    ensures Valid(t.(clusters := MapClusters(t.clusters, f)))
    ensures forall id :: HasCluster(t, id) <==> HasCluster(t.(clusters := MapClusters(t.clusters, f)), id)
  {
    var t' := t.(clusters := MapClusters(t.clusters, f));
    SameClusterIds(t, f);
    forall h | h in t.hosts ensures Owned(t', h) {
      assert Owned(t, h);
    }
    forall c' | c' in t'.clusters && c'.dc.Some? ensures HasDC(t', c'.dc.value) {
      var i :| 0 <= i < |t'.clusters| && t'.clusters[i] == c';
      assert t.clusters[i] in t.clusters && c' == f(t.clusters[i]);
    }
    hide UniqueBy, HasCluster, HasDC, Owned;
  }

  lemma SameClusterIds(t: Tables, f: Cluster -> Cluster)
    requires UniqueBy(t.clusters, ClusterId) && forall c :: c in t.clusters ==> f(c).id == c.id
    ensures UniqueBy(MapClusters(t.clusters, f), ClusterId)
    ensures forall id :: HasCluster(t, id) <==> HasCluster(t.(clusters := MapClusters(t.clusters, f)), id)
  {
    var t' := t.(clusters := MapClusters(t.clusters, f));
    forall i, j | 0 <= i < j < |t'.clusters| ensures ClusterId(t'.clusters[i]) != ClusterId(t'.clusters[j]) {
      assert t.clusters[i] in t.clusters && t.clusters[j] in t.clusters;
      assert ClusterId(t.clusters[i]) != ClusterId(t.clusters[j]);
    }
    forall id ensures HasCluster(t, id) <==> HasCluster(t', id) {
      if HasCluster(t, id) {
        var c :| c in t.clusters && c.id == id;
        var i :| 0 <= i < |t.clusters| && t.clusters[i] == c;
        assert t'.clusters[i] == f(c) && f(c) in t'.clusters;
      }
      if HasCluster(t', id) {
        var c' :| c' in t'.clusters && c'.id == id;
        var i :| 0 <= i < |t'.clusters| && t'.clusters[i] == c';
        assert c' == f(t.clusters[i]) && t.clusters[i] in t.clusters;
      }
    }
  }

  lemma AppendClusterValid(t: Tables, c: Cluster)
    requires Valid(t) && !HasCluster(t, c.id) && !HasClusterNamed(t, c.name) && (c.dc.Some? ==> HasDC(t, c.dc.value))
    ensures Valid(t.(clusters := t.clusters + [c])) && HasCluster(t.(clusters := t.clusters + [c]), c.id)
  {
    var t' := t.(clusters := t.clusters + [c]);
    assert c in t'.clusters;
    assert forall x :: x in t.clusters ==> x in t'.clusters;
    forall h | h in t.hosts ensures Owned(t', h) {
      assert Owned(t, h);
    }
    forall i, j | 0 <= i < j < |t'.clusters|
      ensures ClusterId(t'.clusters[i]) != ClusterId(t'.clusters[j]) && ClusterName(t'.clusters[i]) != ClusterName(t'.clusters[j])
    {
      assert t'.clusters[i] in t.clusters;
      if j < |t.clusters| {
        assert ClusterId(t.clusters[i]) != ClusterId(t.clusters[j]) && ClusterName(t.clusters[i]) != ClusterName(t.clusters[j]);
      }
    }
  }

  lemma AppendHostValid(t: Tables, h: Host)
    requires Valid(t) && !HasHost(t.hosts, h.id) && Owned(t, h)
    ensures Valid(t.(hosts := t.hosts + [h]))
  {
    var t' := t.(hosts := t.hosts + [h]);
    forall x | x in t'.hosts ensures Owned(t', x) {
      assert x in t.hosts || x == h;
      assert Owned(t, x);
    }
    forall i, j | 0 <= i < j < |t'.hosts| ensures HostId(t'.hosts[i]) != HostId(t'.hosts[j]) {
      assert t'.hosts[i] in t.hosts;
    }
  }

  /** Moving hosts into an existing cluster gives each moved host that one owner and touches no other host. */
  lemma MoveListedValid(t: Tables, ids: seq<string>, cluster: string, updates: map<string, Token>)
    requires Valid(t) && HasCluster(t, cluster)
    ensures Valid(t.(hosts := MapHosts(t.hosts, MoveListed(ids, cluster, updates))))
  {
    var t' := t.(hosts := MapHosts(t.hosts, MoveListed(ids, cluster, updates)));
    forall h' | h' in t'.hosts ensures Owned(t', h') {
      var i :| 0 <= i < |t'.hosts| && t'.hosts[i] == h';
      assert t.hosts[i] in t.hosts && Owned(t, t.hosts[i]);
    }
  }

  lemma DeleteClusterValid(t: Tables, id: string)
    requires Valid(t)
    ensures Valid(Effect(t, DeleteCluster(id)))
  {
    var t' := Effect(t, DeleteCluster(id));
    FilterUniqueBy(t.hosts, HostId, NotIn(id));
    FilterUniqueBy(t.clusters, ClusterId, NotCluster(id));
    FilterUniqueBy(t.clusters, ClusterName, NotCluster(id));
    FilterIn(t.hosts, NotIn(id));
    FilterIn(t.clusters, NotCluster(id));
    hide Filter;
    forall h | h in t'.hosts ensures Owned(t', h) {
      assert Owned(t, h);
      if h.cluster.Some? {
        var c :| c in t.clusters && c.id == h.cluster.value;
        assert c in t'.clusters;
      }
    }
  }

  lemma DeleteDatacenterValid(t: Tables, id: string)
    requires Valid(t)
    ensures Valid(Effect(t, DeleteDatacenter(id)))
  {
    var t' := Effect(t, DeleteDatacenter(id));
    FilterUniqueBy(t.hosts, HostId, NotAt(id));
    FilterUniqueBy(t.dcs, DatacenterId, NotDC(id));
    FilterUniqueBy(t.dcs, DatacenterName, NotDC(id));
    SameNames(t.clusters, Orphan(id));
    FilterIn(t.hosts, NotAt(id));
    FilterIn(t.dcs, NotDC(id));
    hide Filter;
    forall x | x != id && HasDC(t, x) ensures HasDC(t', x) {
      var d :| d in t.dcs && d.id == x;
      assert d in t'.dcs;
    }
    forall h | h in t'.hosts ensures Owned(t', h) {
      assert Owned(t, h);
      if h.cluster.Some? {
        var c :| c in t.clusters && c.id == h.cluster.value;
        var i :| 0 <= i < |t.clusters| && t.clusters[i] == c;
        assert t'.clusters[i] in t'.clusters;
      }
    }
    forall c' | c' in t'.clusters && c'.dc.Some? ensures HasDC(t', c'.dc.value) {
      var i :| 0 <= i < |t'.clusters| && t'.clusters[i] == c';
      assert t.clusters[i] in t.clusters;
    }
  }

  lemma DeleteHostValid(t: Tables, id: string)
    requires Valid(t)
    ensures Valid(Effect(t, DeleteHost(id)))
  {
    var rest := Filter(t.hosts, NotHost(id));
    FilterUniqueBy(t.hosts, HostId, NotHost(id));
    FilterIn(t.hosts, NotHost(id));
    hide Filter;
    var t1 := t.(hosts := rest);
    forall h | h in rest ensures Owned(t1, h) {
      assert Owned(t, h);
    }
    KeepNamesValid(t1, EmptyIfHostless(t.hosts, id, rest));
  }

  lemma CreateDatacenterValid(t: Tables, id: string, name: string)
    requires Valid(t) && Accepts(t, CreateDatacenter(id, name))
    ensures Valid(Effect(t, CreateDatacenter(id, name)))
  {
    var t' := Effect(t, CreateDatacenter(id, name));
    assert forall d :: d in t.dcs ==> d in t'.dcs;
    forall h | h in t.hosts ensures Owned(t', h) {
      assert Owned(t, h);
    }
    forall i, j | 0 <= i < j < |t'.dcs|
      ensures DatacenterId(t'.dcs[i]) != DatacenterId(t'.dcs[j]) && DatacenterName(t'.dcs[i]) != DatacenterName(t'.dcs[j])
    {
      assert t'.dcs[i] in t.dcs;
      if j < |t.dcs| {
        assert DatacenterId(t.dcs[i]) != DatacenterId(t.dcs[j]) && DatacenterName(t.dcs[i]) != DatacenterName(t.dcs[j]);
      }
    }
  }

  lemma UpdateDatacenterValid(t: Tables, id: string, name: string)
    requires Valid(t) && Accepts(t, UpdateDatacenter(id, name))
    ensures Valid(Effect(t, UpdateDatacenter(id, name)))
  {
    var t' := Effect(t, UpdateDatacenter(id, name));
    forall x | HasDC(t, x) ensures HasDC(t', x) {
      var d :| d in t.dcs && d.id == x;
      var i :| 0 <= i < |t.dcs| && t.dcs[i] == d;
      assert t'.dcs[i] in t'.dcs;
    }
    forall h | h in t.hosts ensures Owned(t', h) {
      assert Owned(t, h);
    }
    forall i, j | 0 <= i < j < |t'.dcs|
      ensures DatacenterId(t'.dcs[i]) != DatacenterId(t'.dcs[j]) && DatacenterName(t'.dcs[i]) != DatacenterName(t'.dcs[j])
    {
      assert t.dcs[i] in t.dcs && t.dcs[j] in t.dcs;
      assert DatacenterId(t.dcs[i]) != DatacenterId(t.dcs[j]) && DatacenterName(t.dcs[i]) != DatacenterName(t.dcs[j]);
    }
  }

  lemma UpdateClusterValid(t: Tables, id: string, name: string, dc: Option<string>)
    requires Valid(t) && Accepts(t, UpdateCluster(id, name, dc))
    ensures Valid(Effect(t, UpdateCluster(id, name, dc)))
  {
    var r := MapClusters(t.clusters, EditCluster(id, name, dc));
    forall i, j | 0 <= i < j < |r| ensures ClusterName(r[i]) != ClusterName(r[j]) {
      assert t.clusters[i] in t.clusters && t.clusters[j] in t.clusters;
      assert ClusterId(t.clusters[i]) != ClusterId(t.clusters[j]) && ClusterName(t.clusters[i]) != ClusterName(t.clusters[j]);
    }
    MapClustersValid(t, EditCluster(id, name, dc));
  }

  lemma ForceStatusValid(t: Tables, id: string, status: ClusterStatus)
    requires Valid(t)
    ensures Valid(Effect(t, SetClusterStatus(id, status)))
  {
    KeepNamesValid(t, ForceStatus(id, status));
  }

  /** A change of host rows that keeps ids and owners keeps the tables valid. */
  lemma EditHostsValid(t: Tables, f: Host -> Host)
    requires Valid(t) && forall h :: h in t.hosts ==> f(h).id == h.id && f(h).cluster == h.cluster && f(h).dc == h.dc
    ensures Valid(t.(hosts := MapHosts(t.hosts, f)))
  {
    var t' := t.(hosts := MapHosts(t.hosts, f));
    forall h' | h' in t'.hosts ensures Owned(t', h') {
      var i :| 0 <= i < |t'.hosts| && t'.hosts[i] == h';
      assert t.hosts[i] in t.hosts && Owned(t, t.hosts[i]);
    }
    forall i, j | 0 <= i < j < |t'.hosts| ensures HostId(t'.hosts[i]) != HostId(t'.hosts[j]) {
      assert t.hosts[i] in t.hosts && t.hosts[j] in t.hosts;
      assert HostId(t.hosts[i]) != HostId(t.hosts[j]);
    }
  }

  lemma ApplyKeepsValid(t: Tables, op: Op)
    requires Valid(t)
    ensures Valid(Apply(t, op))
  {
    hide Valid;
    if Accepts(t, op) {
      match op
      case CreateDatacenter(id, name) => CreateDatacenterValid(t, id, name);
      case DeleteDatacenter(id) => DeleteDatacenterValid(t, id);
      case CreateCluster(id, name, dc, pveName) => AppendClusterValid(t, Cluster(id, name, pveName, dc, Empty));
      case MoveCluster(name, dc) => MoveClusterValid(t, name, dc);
      case DeleteCluster(id) => DeleteClusterValid(t, id);
      case AddHost(id, cluster, conn) => AddHostValid(t, id, cluster, conn);
      case AddStandalone(id, dc, conn) => AppendHostValid(t, Host(id, None, Some(dc), conn, "staged", "", ""));
      case MoveHost(id, cluster) => MoveHostValid(t, id, cluster);
      case DeleteHost(id) => DeleteHostValid(t, id);
      case FormCluster(id, name, dc, hosts, updates) => FormClusterValid(t, id, name, dc, hosts, updates);
      case AddHosts(cluster, hosts, updates) => MoveListedValid(t, hosts, cluster, updates);
      case AutoRoute(id, dc, conn, probe, newId) => AutoRouteValid(t, id, dc, conn, probe, newId);
      case Promote(id, address, dc, pveName, newId) => PromoteValid(t, id, address, dc, pveName, newId);
      case UpdateDatacenter(id, name) => UpdateDatacenterValid(t, id, name);
      case UpdateCluster(id, name, dc) => UpdateClusterValid(t, id, name, dc);
      case SetClusterStatus(id, status) => ForceStatusValid(t, id, status);
      case UpdateHost(id, address, tokenId, _, insecure) => EditHostsValid(t, EditHost(id, address, tokenId, insecure));
      case SetHostStatus(id, status, error, node) => EditHostsValid(t, WithStatus(id, status, error, node));
    } else if Residue(t, op) != t {
      ClusterForValid(t, op.datacenter, op.pveName, op.address, op.newCluster);
    }
  }

  lemma ClusterForValid(t: Tables, dc: string, pveName: string, address: string, newId: string)
    requires Valid(t) && CanRoute(t, dc, pveName, address, newId)
    ensures var (t1, cluster) := ClusterFor(t, dc, pveName, address, newId);
            Valid(t1) && HasCluster(t1, cluster) && t1.hosts == t.hosts
  {
    if FindByPVEName(t.clusters, pveName).None? {
      AppendClusterValid(t, Cluster(newId, DisplayName(t, pveName, address), pveName, Some(dc), Empty));
    }
  }

  lemma AutoRouteValid(t: Tables, id: string, dc: string, conn: Conn, probe: Probe, newId: string)
    requires Valid(t) && Accepts(t, AutoRoute(id, dc, conn, probe, newId))
    ensures Valid(Effect(t, AutoRoute(id, dc, conn, probe, newId)))
  {
    hide Valid;
    if probe.Member? {
      ClusterForValid(t, dc, probe.clusterName, conn.address, newId);
      var (t1, cluster) := ClusterFor(t, dc, probe.clusterName, conn.address, newId);
      AddHostValid(t1, id, cluster, conn);
    } else {
      AppendHostValid(t, Host(id, None, Some(dc), conn, "staged", "", ""));
    }
  }

  lemma PromoteValid(t: Tables, id: string, address: string, dc: string, pveName: string, newId: string)
    requires Valid(t) && Accepts(t, Promote(id, address, dc, pveName, newId))
    ensures Valid(Effect(t, Promote(id, address, dc, pveName, newId)))
  {
    hide Valid;
    ClusterForValid(t, dc, pveName, address, newId);
    var (t1, cluster) := ClusterFor(t, dc, pveName, address, newId);
    MoveListedValid(t1, [id], cluster, map[]);
    ActivateValid(t1.(hosts := MapHosts(t1.hosts, MoveListed([id], cluster, map[]))), cluster);
  }

  lemma ActivateValid(t: Tables, cluster: string)
    requires Valid(t)
    ensures Valid(t.(clusters := MapClusters(t.clusters, SetStatus(cluster, Empty, Active))))
  {
    KeepNamesValid(t, SetStatus(cluster, Empty, Active));
  }

  lemma MoveClusterValid(t: Tables, name: string, dc: Option<string>)
    requires Valid(t) && (dc.Some? ==> HasDC(t, dc.value))
    ensures Valid(Effect(t, MoveCluster(name, dc)))
  {
    KeepNamesValid(t, Relocate(name, dc));
  }

  lemma AddHostValid(t: Tables, id: string, cluster: string, conn: Conn)
    requires Valid(t) && HasCluster(t, cluster) && !HasHost(t.hosts, id)
    ensures Valid(Effect(t, AddHost(id, cluster, conn)))
  {
    var h := Host(id, Some(cluster), None, conn, "staged", "", "");
    AppendHostValid(t, h);
    KeepNamesValid(t.(hosts := t.hosts + [h]), SetStatus(cluster, Empty, PendingHosts));
  }

  lemma MoveHostValid(t: Tables, id: string, cluster: string)
    requires Valid(t) && HasCluster(t, cluster)
    ensures Valid(Effect(t, MoveHost(id, cluster)))
  {
    MoveListedValid(t, [id], cluster, map[]);
    KeepNamesValid(t.(hosts := MapHosts(t.hosts, MoveListed([id], cluster, map[]))), SetStatus(cluster, Empty, PendingHosts));
  }

  lemma FormClusterValid(t: Tables, id: string, name: string, dc: Option<string>, hosts: seq<string>, updates: map<string, Token>)
    requires Valid(t) && !HasCluster(t, id) && !HasClusterNamed(t, name) && (dc.Some? ==> HasDC(t, dc.value))
    ensures Valid(Effect(t, FormCluster(id, name, dc, hosts, updates)))
  {
    var c := Cluster(id, name, "", dc, Active);
    AppendClusterValid(t, c);
    MoveListedValid(t.(clusters := t.clusters + [c]), hosts, id, updates);
  }

  // ---- The transactional move ----

  /** Moves one listed host after another and gives up on the first missing one. */
  method MoveAll(rows: seq<Host>, ids: seq<string>, cluster: string, updates: map<string, Token>) returns (ok: bool, moved: seq<Host>)
    ensures ok == forall i :: 0 <= i < |ids| ==> HasHost(rows, ids[i])
    ensures ok ==> moved == MapHosts(rows, MoveListed(ids, cluster, updates))
  {
    moved := rows;
    assert MapHosts(rows, MoveListed([], cluster, updates)) == rows;
    assert ids[..0] == [];
    for i := 0 to |ids|
      invariant moved == MapHosts(rows, MoveListed(ids[..i], cluster, updates))
      invariant forall j :: 0 <= j < i ==> HasHost(rows, ids[j])
    {
      SameIds(rows, MoveListed(ids[..i], cluster, updates), ids[i]);
      if !HasHost(moved, ids[i]) {
        return false, rows;
      }
      MoveOneMore(rows, ids, i, cluster, updates);
      moved := MapHosts(moved, MoveListed([ids[i]], cluster, updates));
    }
    assert ids[..|ids|] == ids;
    ok := true;
  }

  lemma SameIds(hosts: seq<Host>, f: Host -> Host, id: string)
    requires forall h :: h in hosts ==> f(h).id == h.id
    ensures HasHost(MapHosts(hosts, f), id) <==> HasHost(hosts, id)
  {
    var r := MapHosts(hosts, f);
    if HasHost(hosts, id) {
      var h :| h in hosts && h.id == id;
      var i :| 0 <= i < |hosts| && hosts[i] == h;
      assert r[i] in r;
    }
    if HasHost(r, id) {
      var h :| h in r && h.id == id;
      var i :| 0 <= i < |r| && r[i] == h;
      assert hosts[i] in hosts;
    }
  }

  lemma MoveOneMore(rows: seq<Host>, ids: seq<string>, i: nat, cluster: string, updates: map<string, Token>)
    requires i < |ids|
    ensures MapHosts(MapHosts(rows, MoveListed(ids[..i], cluster, updates)), MoveListed([ids[i]], cluster, updates)) ==
            MapHosts(rows, MoveListed(ids[..i + 1], cluster, updates))
  {
    assert ids[..i + 1] == ids[..i] + [ids[i]];
  }

  /** Forming a cluster changes credentials only where an update is given, and no unlisted host at all. */
  lemma FormClusterTouchesOnlyListed(t: Tables, id: string, name: string, dc: Option<string>, hosts: seq<string>, updates: map<string, Token>, r: nat)
    requires Accepts(t, FormCluster(id, name, dc, hosts, updates)) && r < |t.hosts|
    ensures var h, h' := t.hosts[r], Apply(t, FormCluster(id, name, dc, hosts, updates)).hosts[r];
            && h'.id == h.id && h'.status == h.status && h'.node == h.node && h'.conn.address == h.conn.address
            && (h.id in hosts ==> h'.cluster == Some(id) && h'.dc.None?)
            && (h.id !in hosts ==> h' == h)
            && (h.id !in updates ==> h'.conn == h.conn)
  {
  }
}
