/** The clean-up pass over clusters that were never correlated to a real PVE cluster. */
module InventoryReconcile {
  import opened Options
  import opened Seqs
  import opened Inventory
  import opened InventoryStore

  /** The answer to probing a host of a cluster; a pass probes each cluster at most once, so any answers fit. */
  type Prober = (string, Conn) -> Probe

  // ---- What the pass decides about one cluster ----

  datatype Verdict =
    | Correlated
    | NoHosts
    | NoCredentials
    | ProbeError
    | Name(pveName: string)
    | SeveralHosts
    | NoDatacenter
    | Demote(host: Host, dc: string)

  function HostsIn(hosts: seq<Host>, cluster: string): seq<Host> { Filter(hosts, InCluster(cluster)) }

  /** The host is the first of them with a secret. */
  ghost predicate FirstToProbe(hosts: seq<Host>, h: Host) {
    exists i :: 0 <= i < |hosts| && hosts[i] == h && h.conn.tokenSecret != "" && forall j :: 0 <= j < i ==> hosts[j].conn.tokenSecret == ""
  }

  /** The first host that can be probed. */
  function FirstWithSecret(hosts: seq<Host>): (r: Option<Host>)
    ensures r.None? <==> forall h :: h in hosts ==> h.conn.tokenSecret == ""
    ensures r.Some? ==> r.value in hosts && r.value.conn.tokenSecret != "" && FirstToProbe(hosts, r.value)
  {
    if hosts == [] then None
    else if hosts[0].conn.tokenSecret != "" then
      assert FirstToProbe(hosts, hosts[0]);
      Some(hosts[0])
    else
      var r := FirstWithSecret(hosts[1..]);
      assert hosts == [hosts[0]] + hosts[1..];
      assert r.Some? ==> FirstToProbe(hosts, r.value) by {
        if r.Some? {
          var i :| 0 <= i < |hosts[1..]| && hosts[1..][i] == r.value && forall j :: 0 <= j < i ==> hosts[1..][j].conn.tokenSecret == "";
          assert hosts[i + 1] == r.value;
        }
      }
      r
  }

  function Judge(c: Cluster, hosts: seq<Host>, prober: Prober): Verdict {
    if c.pveName != "" then Correlated
    else if hosts == [] then NoHosts
    else
      var probed := FirstWithSecret(hosts);
      if probed.None? then NoCredentials
      else match prober(c.id, probed.value.conn)
        case ProbeFailed => ProbeError
        case Member(name) => Name(name)
        case Standalone =>
          if |hosts| != 1 then SeveralHosts else if c.dc.None? then NoDatacenter else Demote(hosts[0], c.dc.value)
  }

  // ---- What it does ----

  function Rename(cluster: string, pveName: string): Cluster -> Cluster {
    (c: Cluster) => if c.id == cluster then c.(pveName := pveName) else c
  }

  /** The demoted host: a new row with the same connection and status, owned by the datacenter. */
  function Demoted(h: Host, dc: string, newId: string): Host {
    Host(newId, None, Some(dc), h.conn, h.status, h.error, h.node)
  }

  function Settle(t: Tables, c: Cluster, v: Verdict, newId: string): Tables {
    match v
    case Name(n) => t.(clusters := MapClusters(t.clusters, Rename(c.id, n)))
    case Demote(h, dc) =>
      t.(hosts := Filter(Filter(t.hosts, NotHost(h.id)) + [Demoted(h, dc, newId)], NotIn(c.id)),
         clusters := Filter(t.clusters, NotCluster(c.id)))
    case _ => t
  }

  function StepOn(t: Tables, c: Cluster, prober: Prober, newId: string): Tables {
    Settle(t, c, Judge(c, HostsIn(t.hosts, c.id), prober), newId)
  }

  /** The tables after the first `k` clusters of the snapshot. */
  function Reconciled(t: Tables, listing: seq<Cluster>, ids: seq<string>, prober: Prober, k: nat): Tables
    requires k <= |listing| == |ids|
  {
    if k == 0 then t else StepOn(Reconciled(t, listing, ids, prober, k - 1), listing[k - 1], prober, ids[k - 1])
  }

  // ---- Conserved ----

  datatype Record = Record(conn: Conn, status: string, error: string, node: string)

  function RecordOf(h: Host): Record { Record(h.conn, h.status, h.error, h.node) }

  function Records(hosts: seq<Host>): multiset<Record> {
    if hosts == [] then multiset{} else Records(hosts[..|hosts| - 1]) + multiset{RecordOf(hosts[|hosts| - 1])}
  }

  lemma RecordsSnoc(hosts: seq<Host>, h: Host)
    ensures Records(hosts + [h]) == Records(hosts) + multiset{RecordOf(h)}
  {
    assert (hosts + [h])[..|hosts|] == hosts;
  }

  /** Deleting a host by its id takes out one record. */
  lemma {:induction false} RecordsWithout(hosts: seq<Host>, h: Host)
    requires UniqueBy(hosts, HostId) && h in hosts
    ensures Records(hosts) == Records(Filter(hosts, NotHost(h.id))) + multiset{RecordOf(h)}
  {
    var front, last := hosts[..|hosts| - 1], hosts[|hosts| - 1];
    assert hosts == front + [last];
    RecordsSnoc(front, last);
    FilterSnoc(front, last, NotHost(h.id));
    LastIdDiffers(hosts);
    hide Records, Filter;
    if last == h {
      FilterAll(front, NotHost(h.id));
    } else {
      assert h in front;
      RecordsWithout(front, h);
      RecordsSnoc(Filter(front, NotHost(h.id)), last);
    }
  }

  lemma LastIdDiffers(hosts: seq<Host>)
    requires UniqueBy(hosts, HostId) && hosts != []
    ensures var front, last := hosts[..|hosts| - 1], hosts[|hosts| - 1];
            UniqueBy(front, HostId) && forall x :: x in front ==> x.id != last.id
  {
    var front := hosts[..|hosts| - 1];
    forall x | x in front ensures x.id != hosts[|hosts| - 1].id {
      var i :| 0 <= i < |front| && front[i] == x;
      assert HostId(hosts[i]) != HostId(hosts[|hosts| - 1]);
    }
  }

  // ---- One step ----

  ghost predicate Fresh(t: Tables, id: string) { !HasHost(t.hosts, id) }

  /** The hosts after a demotion: the demoted host's row gives way to the new one. */
  lemma DemotedHosts(t: Tables, c: Cluster, h: Host, dc: string, newId: string)
    requires Valid(t) && HostsIn(t.hosts, c.id) == [h]
    ensures Settle(t, c, Demote(h, dc), newId).hosts == Filter(t.hosts, NotHost(h.id)) + [Demoted(h, dc, newId)]
    ensures h in t.hosts && h.cluster == Some(c.id)
  {
    FilterIn(t.hosts, InCluster(c.id));
    assert h in HostsIn(t.hosts, c.id);
    var rows := Filter(t.hosts, NotHost(h.id)) + [Demoted(h, dc, newId)];
    FilterIn(t.hosts, NotHost(h.id));
    hide Filter;
    forall x | x in t.hosts && x.cluster == Some(c.id) ensures x == h {
      assert x in HostsIn(t.hosts, c.id);
    }
    FilterAll(rows, NotIn(c.id));
  }

  lemma DemoteConserves(t: Tables, c: Cluster, h: Host, dc: string, newId: string)
    requires Valid(t) && HostsIn(t.hosts, c.id) == [h]
    ensures Records(Settle(t, c, Demote(h, dc), newId).hosts) == Records(t.hosts)
  {
    DemotedHosts(t, c, h, dc, newId);
    RecordsWithout(t.hosts, h);
    RecordsSnoc(Filter(t.hosts, NotHost(h.id)), Demoted(h, dc, newId));
  }

  lemma DemoteValid(t: Tables, c: Cluster, h: Host, dc: string, newId: string)
    requires Valid(t) && HostsIn(t.hosts, c.id) == [h] && HasDC(t, dc) && Fresh(t, newId)
    ensures Valid(Settle(t, c, Demote(h, dc), newId))
  {
    var t1 := t.(hosts := Filter(t.hosts, NotHost(h.id)));
    FilterUniqueBy(t.hosts, HostId, NotHost(h.id));
    FilterIn(t.hosts, NotHost(h.id));
    forall x | x in t1.hosts ensures Owned(t1, x) {
      assert Owned(t, x);
    }
    AppendHostValid(t1, Demoted(h, dc, newId));
    DeleteClusterValid(t1.(hosts := t1.hosts + [Demoted(h, dc, newId)]), c.id);
  }

  /** Demoting one cluster leaves the hosts of every other cluster as they are. */
  lemma DemoteLeavesOthers(t: Tables, c: Cluster, h: Host, dc: string, newId: string, other: string)
    requires Valid(t) && HostsIn(t.hosts, c.id) == [h] && other != c.id
    ensures HostsIn(Settle(t, c, Demote(h, dc), newId).hosts, other) == HostsIn(t.hosts, other)
  {
    DemotedHosts(t, c, h, dc, newId);
    hide Filter;
    var rest := Filter(t.hosts, NotHost(h.id));
    FilterSnoc(rest, Demoted(h, dc, newId), InCluster(other));
    FilterFilter(t.hosts, NotHost(h.id), InCluster(other));
    forall x | x in t.hosts ensures Both(NotHost(h.id), InCluster(other))(x) == InCluster(other)(x) {
      if x.id == h.id {
        assert x == h by {
          SameRow(t, x, h);
        }
      }
    }
    FilterAgree(t.hosts, Both(NotHost(h.id), InCluster(other)), InCluster(other));
    assert HostsIn(t.hosts, other) + [] == HostsIn(t.hosts, other);
  }

  // ---- The whole pass ----

  /** The verdict on a cluster as the tables stood when the pass began. */
  ghost function Initial(t: Tables, prober: Prober, c: Cluster): Verdict { Judge(c, HostsIn(t.hosts, c.id), prober) }

  /** What becomes of a cluster row once it was handled. */
  ghost function Final(t: Tables, prober: Prober, c: Cluster): Option<Cluster> {
    match Initial(t, prober, c)
    case Demote(_, _) => None
    case Name(n) => Some(c.(pveName := n))
    case _ => Some(c)
  }

  ghost function Fate(t: Tables, prober: Prober, handled: seq<Cluster>, c: Cluster): Option<Cluster> {
    if c in handled then Final(t, prober, c) else Some(c)
  }

  /** The host of a demoted cluster now stands alone in that cluster's datacenter. */
  ghost predicate StandsAlone(t: Tables, h: Host, dc: string) {
    exists r :: r in t.hosts && r.cluster.None? && r.dc == Some(dc) && RecordOf(r) == RecordOf(h)
  }

  /** The cluster rows are those of `t0` with exactly the fates of the clusters handled so far. */
  ghost predicate ClustersAgree(t0: Tables, t: Tables, prober: Prober, handled: seq<Cluster>) {
    && (forall c :: c in t0.clusters && Fate(t0, prober, handled, c).Some? ==> Fate(t0, prober, handled, c).value in t.clusters)
    && (forall c :: c in t.clusters ==> Descends(t0, prober, handled, c))
  }

  ghost predicate Descends(t0: Tables, prober: Prober, handled: seq<Cluster>, c: Cluster) {
    exists c0 :: c0 in t0.clusters && Fate(t0, prober, handled, c0) == Some(c)
  }

  ghost predicate HostsAgree(t0: Tables, t: Tables, prober: Prober, handled: seq<Cluster>) {
    && (forall c :: c in t.clusters ==> HostsIn(t.hosts, c.id) == HostsIn(t0.hosts, c.id))
    && (forall h :: h in t0.hosts && h.cluster.None? ==> h in t.hosts)
    && (forall c :: c in handled && Initial(t0, prober, c).Demote? ==>
          StandsAlone(t, Initial(t0, prober, c).host, Initial(t0, prober, c).dc))
  }

  ghost predicate IdsFrom(t0: Tables, t: Tables, used: seq<string>) {
    forall h :: h in t.hosts ==> HasHost(t0.hosts, h.id) || h.id in used
  }

  ghost predicate Progress(t0: Tables, t: Tables, prober: Prober, handled: seq<Cluster>, used: seq<string>) {
    && Valid(t) && t.dcs == t0.dcs && Records(t.hosts) == Records(t0.hosts) && IdsFrom(t0, t, used)
    && ClustersAgree(t0, t, prober, handled) && HostsAgree(t0, t, prober, handled)
  }

  /** Handling `c` changes the fate of `c` only, and fates keep ids. */
  lemma FateSnoc(t0: Tables, prober: Prober, handled: seq<Cluster>, c: Cluster, x: Cluster)
    ensures Fate(t0, prober, handled + [c], x) == if x == c then Final(t0, prober, c) else Fate(t0, prober, handled, x)
    ensures Fate(t0, prober, handled, x).Some? ==> Fate(t0, prober, handled, x).value.id == x.id
  {
    hide Judge;
  }

  lemma InertClusters(t0: Tables, t: Tables, prober: Prober, handled: seq<Cluster>, c: Cluster)
    requires ClustersAgree(t0, t, prober, handled) && c !in handled && Final(t0, prober, c) == Some(c)
    ensures ClustersAgree(t0, t, prober, handled + [c])
  {
    hide Judge, Initial;
    forall x ensures Fate(t0, prober, handled + [c], x) == Fate(t0, prober, handled, x) {
      FateSnoc(t0, prober, handled, c, x);
    }
    forall y | y in t.clusters ensures Descends(t0, prober, handled + [c], y) {
      assert Descends(t0, prober, handled, y);
    }
  }

  lemma NamedClusters(t0: Tables, t: Tables, prober: Prober, handled: seq<Cluster>, c: Cluster, n: string)
    requires Valid(t0) && Valid(t) && ClustersAgree(t0, t, prober, handled)
    requires c in t0.clusters && c in t.clusters && c !in handled && Final(t0, prober, c) == Some(c.(pveName := n))
    ensures ClustersAgree(t0, t.(clusters := MapClusters(t.clusters, Rename(c.id, n))), prober, handled + [c])
  {
    hide Judge, Initial, Final, Fate, Valid;
    var t' := t.(clusters := MapClusters(t.clusters, Rename(c.id, n)));
    forall x | x in t0.clusters && Fate(t0, prober, handled + [c], x).Some?
      ensures Fate(t0, prober, handled + [c], x).value in t'.clusters
    {
      FateSnoc(t0, prober, handled, c, x);
      if x.id == c.id {
        SameCluster(t0, x, c);
        MappedIn(t.clusters, Rename(c.id, n), c);
      } else {
        MappedIn(t.clusters, Rename(c.id, n), Fate(t0, prober, handled, x).value);
      }
    }
    forall y' | y' in t'.clusters ensures Descends(t0, prober, handled + [c], y') {
      var y := MappedFrom(t.clusters, Rename(c.id, n), y');
      assert Descends(t0, prober, handled, y);
      var x :| x in t0.clusters && Fate(t0, prober, handled, x) == Some(y);
      FateSnoc(t0, prober, handled, c, x);
      FateSnoc(t0, prober, handled, c, c);
      if y.id == c.id {
        SameCluster(t, y, c);
      }
    }
  }

  lemma MappedIn(s: seq<Cluster>, f: Cluster -> Cluster, c: Cluster)
    requires c in s
    ensures f(c) in MapClusters(s, f)
  {
    var i :| 0 <= i < |s| && s[i] == c;
    assert MapClusters(s, f)[i] == f(c);
  }

  lemma MappedFrom(s: seq<Cluster>, f: Cluster -> Cluster, c': Cluster) returns (c: Cluster)
    requires c' in MapClusters(s, f)
    ensures c in s && f(c) == c'
  {
    var i :| 0 <= i < |s| && MapClusters(s, f)[i] == c';
    c := s[i];
  }

  lemma DemotedClusters(t0: Tables, t: Tables, prober: Prober, handled: seq<Cluster>, c: Cluster)
    requires Valid(t0) && Valid(t) && ClustersAgree(t0, t, prober, handled)
    requires c in t0.clusters && c in t.clusters && c !in handled && Final(t0, prober, c) == None
    ensures ClustersAgree(t0, t.(clusters := Filter(t.clusters, NotCluster(c.id))), prober, handled + [c])
  {
    hide Judge, Initial, Final, Fate, Valid, Filter;
    var t' := t.(clusters := Filter(t.clusters, NotCluster(c.id)));
    FilterIn(t.clusters, NotCluster(c.id));
    forall x | x in t0.clusters && Fate(t0, prober, handled + [c], x).Some?
      ensures Fate(t0, prober, handled + [c], x).value in t'.clusters
    {
      FateSnoc(t0, prober, handled, c, x);
      if x.id == c.id {
        SameCluster(t0, x, c);
      }
    }
    forall y | y in t'.clusters ensures Descends(t0, prober, handled + [c], y) {
      assert Descends(t0, prober, handled, y);
      var x :| x in t0.clusters && Fate(t0, prober, handled, x) == Some(y);
      FateSnoc(t0, prober, handled, c, x);
    }
  }

  /** The row of a cluster that is still to be handled, and its hosts, are as they were at the start. */
  lemma StillInitial(t0: Tables, t: Tables, prober: Prober, handled: seq<Cluster>, used: seq<string>, c: Cluster)
    requires Progress(t0, t, prober, handled, used) && c in t0.clusters && c !in handled
    ensures c in t.clusters && HostsIn(t.hosts, c.id) == HostsIn(t0.hosts, c.id)
    ensures Judge(c, HostsIn(t.hosts, c.id), prober) == Initial(t0, prober, c)
  {
    assert Fate(t0, prober, handled, c) == Some(c);
  }

  lemma JudgeDemotes(c: Cluster, hosts: seq<Host>, prober: Prober)
    requires Judge(c, hosts, prober).Demote?
    ensures hosts == [Judge(c, hosts, prober).host] && c.dc == Some(Judge(c, hosts, prober).dc)
  {
  }

  lemma InertStep(t0: Tables, t: Tables, prober: Prober, handled: seq<Cluster>, used: seq<string>, c: Cluster, newId: string)
    requires Progress(t0, t, prober, handled, used) && c !in handled && Final(t0, prober, c) == Some(c) && !Initial(t0, prober, c).Demote?
    ensures Progress(t0, t, prober, handled + [c], used + [newId])
  {
    hide Judge, Initial, HostsIn, Records, StandsAlone, Valid;
    InertClusters(t0, t, prober, handled, c);
    hide ClustersAgree;
  }

  lemma NamedStep(t0: Tables, t: Tables, prober: Prober, handled: seq<Cluster>, used: seq<string>, c: Cluster, newId: string, n: string)
    requires Valid(t0) && Progress(t0, t, prober, handled, used)
    requires c in t0.clusters && c !in handled && Initial(t0, prober, c) == Name(n)
    ensures Progress(t0, t.(clusters := MapClusters(t.clusters, Rename(c.id, n))), prober, handled + [c], used + [newId])
  {
    hide Judge, HostsIn, Records;
    var t' := t.(clusters := MapClusters(t.clusters, Rename(c.id, n)));
    StillInitial(t0, t, prober, handled, used, c);
    NamedClusters(t0, t, prober, handled, c, n);
    RenameValid(t, c.id, n);
    hide ClustersAgree, Valid, Fate, Final, Initial;
    forall y' | y' in t'.clusters ensures HostsIn(t'.hosts, y'.id) == HostsIn(t0.hosts, y'.id) {
      var y := MappedFrom(t.clusters, Rename(c.id, n), y');
    }
    forall h, dc | StandsAlone(t, h, dc) ensures StandsAlone(t', h, dc) {
    }
  }

  lemma RenameValid(t: Tables, id: string, n: string)
    requires Valid(t)
    ensures Valid(t.(clusters := MapClusters(t.clusters, Rename(id, n))))
  {
    KeepNamesValid(t, Rename(id, n));
  }

  lemma DemotedStep(t0: Tables, t: Tables, prober: Prober, handled: seq<Cluster>, used: seq<string>, c: Cluster, newId: string, h: Host, dc: string)
    requires Valid(t0) && Progress(t0, t, prober, handled, used) && newId !in used && Fresh(t0, newId)
    requires c in t0.clusters && c !in handled && Initial(t0, prober, c) == Demote(h, dc)
    ensures Progress(t0, Settle(t, c, Demote(h, dc), newId), prober, handled + [c], used + [newId])
  {
    var t' := Settle(t, c, Demote(h, dc), newId);
    StillInitial(t0, t, prober, handled, used, c);
    JudgeDemotes(c, HostsIn(t.hosts, c.id), prober);
    DemotedClusters(t0, t, prober, handled, c);
    DemotedHosts(t, c, h, dc, newId);
    DemoteConserves(t, c, h, dc, newId);
    DatacenterExists(t0, t, c);
    DemotedIds(t0, t, used, c, newId, h, dc);
    DemoteValid(t, c, h, dc, newId);
    DemotedHostsAgree(t0, t, prober, handled, used, c, newId, h, dc);
    hide ClustersAgree, Valid, Fate, Final, Initial, HostsAgree, Judge, Filter, IdsFrom, Fresh;
    assert ClustersAgree(t0, t', prober, handled + [c]) by {
      SameClusters(t0, t', t.(clusters := Filter(t.clusters, NotCluster(c.id))), prober, handled + [c]);
    }
  }

  lemma DemotedIds(t0: Tables, t: Tables, used: seq<string>, c: Cluster, newId: string, h: Host, dc: string)
    requires Valid(t) && HostsIn(t.hosts, c.id) == [h] && IdsFrom(t0, t, used) && newId !in used && Fresh(t0, newId)
    ensures Fresh(t, newId) && IdsFrom(t0, Settle(t, c, Demote(h, dc), newId), used + [newId])
  {
    hide Valid, HostsIn;
    DemotedHosts(t, c, h, dc, newId);
    FilterIn(t.hosts, NotHost(h.id));
    hide Filter, Settle;
  }

  lemma SameClusters(t0: Tables, t: Tables, u: Tables, prober: Prober, handled: seq<Cluster>)
    requires ClustersAgree(t0, u, prober, handled) && t.clusters == u.clusters
    ensures ClustersAgree(t0, t, prober, handled)
  {
  }

  lemma DatacenterExists(t0: Tables, t: Tables, c: Cluster)
    requires Valid(t0) && t.dcs == t0.dcs && c in t0.clusters && c.dc.Some?
    ensures HasDC(t, c.dc.value)
  {
    assert HasDC(t0, c.dc.value);
  }

  lemma DemotedHostsAgree(t0: Tables, t: Tables, prober: Prober, handled: seq<Cluster>, used: seq<string>, c: Cluster, newId: string, h: Host, dc: string)
    requires Progress(t0, t, prober, handled, used)
    requires HostsIn(t.hosts, c.id) == [h] && Initial(t0, prober, c) == Demote(h, dc)
    ensures HostsAgree(t0, Settle(t, c, Demote(h, dc), newId), prober, handled + [c])
  {
    var t' := Settle(t, c, Demote(h, dc), newId);
    hide ClustersAgree, Judge, Initial;
    DemotedHosts(t, c, h, dc, newId);
    FilterIn(t.hosts, NotHost(h.id));
    FilterIn(t.clusters, NotCluster(c.id));
    hide Filter, HostsIn;
    forall y | y in t'.clusters ensures HostsIn(t'.hosts, y.id) == HostsIn(t0.hosts, y.id) {
      DemoteLeavesOthers(t, c, h, dc, newId, y.id);
    }
    forall x | x in t.hosts && x.cluster.None? ensures x in t'.hosts {
      if x.id == h.id {
        SameRow(t, x, h);
      }
    }
    assert Demoted(h, dc, newId) in t'.hosts;
    assert StandsAlone(t', h, dc);
    forall x, d | StandsAlone(t, x, d) ensures StandsAlone(t', x, d) {
      var r :| r in t.hosts && r.cluster.None? && r.dc == Some(d) && RecordOf(r) == RecordOf(x);
      assert r in t'.hosts;
    }
  }

  // ---- The theorems ----

  /** What the pass is given: a listing of the clusters in any order, and unused ids for new rows. */
  ghost predicate Inputs(t: Tables, listing: seq<Cluster>, ids: seq<string>) {
    && Valid(t) && |ids| == |listing| && multiset(listing) == multiset(t.clusters)
    && NoDup(ids) && forall i :: 0 <= i < |ids| ==> Fresh(t, ids[i])
  }

  lemma Unlisted(t: Tables, listing: seq<Cluster>, ids: seq<string>, k: nat)
    requires Inputs(t, listing, ids) && k < |listing|
    ensures Valid(t) && |ids| == |listing| && Fresh(t, ids[k])
    ensures listing[k] in t.clusters && listing[k] !in listing[..k] && ids[k] !in ids[..k]
  {
    SameElements(listing, t.clusters);
    assert NoDup(t.clusters) by {
      forall i, j | 0 <= i < j < |t.clusters| ensures t.clusters[i] != t.clusters[j] {
        assert ClusterId(t.clusters[i]) != ClusterId(t.clusters[j]);
      }
    }
    NoDupPermutes(t.clusters, listing);
    assert listing[k] in listing;
  }

  lemma StepProgress(t0: Tables, t: Tables, prober: Prober, handled: seq<Cluster>, used: seq<string>, c: Cluster, newId: string)
    requires Valid(t0) && Progress(t0, t, prober, handled, used) && newId !in used && Fresh(t0, newId)
    requires c in t0.clusters && c !in handled
    ensures Progress(t0, StepOn(t, c, prober, newId), prober, handled + [c], used + [newId])
  {
    hide Progress, Judge, Valid, HostsIn, Fresh;
    StillInitial(t0, t, prober, handled, used, c);
    hide Initial;
    match Initial(t0, prober, c)
    case Name(n) => NamedStep(t0, t, prober, handled, used, c, newId, n);
    case Demote(h, dc) => DemotedStep(t0, t, prober, handled, used, c, newId, h, dc);
    case _ => InertStep(t0, t, prober, handled, used, c, newId);
  }

  lemma {:induction false} ReconcileProgress(t: Tables, listing: seq<Cluster>, ids: seq<string>, prober: Prober, k: nat)
    requires Inputs(t, listing, ids) && k <= |listing|
    ensures Progress(t, Reconciled(t, listing, ids, prober, k), prober, listing[..k], ids[..k])
  {
    hide Progress, StepOn, Valid, Fresh, NoDup;
    if k == 0 {
      ProgressStarts(t, prober);
      assert listing[..0] == [] && ids[..0] == [];
    } else {
      hide Reconciled;
      Unlisted(t, listing, ids, k - 1);
      ReconcileProgress(t, listing, ids, prober, k - 1);
      ReconciledLast(t, listing, ids, prober, k);
      StepProgress(t, Reconciled(t, listing, ids, prober, k - 1), prober, listing[..k - 1], ids[..k - 1], listing[k - 1], ids[k - 1]);
      assert listing[..k] == listing[..k - 1] + [listing[k - 1]];
      assert ids[..k] == ids[..k - 1] + [ids[k - 1]];
    }
  }

  lemma ReconciledLast(t: Tables, listing: seq<Cluster>, ids: seq<string>, prober: Prober, k: nat)
    requires 0 < k <= |listing| == |ids|
    ensures Reconciled(t, listing, ids, prober, k) ==
            StepOn(Reconciled(t, listing, ids, prober, k - 1), listing[k - 1], prober, ids[k - 1])
  {
  }

  lemma ProgressStarts(t: Tables, prober: Prober)
    requires Valid(t)
    ensures Progress(t, t, prober, [], [])
  {
    forall c | c in t.clusters ensures Descends(t, prober, [], c) {
      assert Fate(t, prober, [], c) == Some(c);
    }
  }

  function All(t: Tables, listing: seq<Cluster>, ids: seq<string>, prober: Prober): Tables
    requires |ids| == |listing|
  {
    Reconciled(t, listing, ids, prober, |listing|)
  }

  /** A cluster disappears exactly when its sole host, with credentials and a datacenter to go to, probes standalone. */
  ghost predicate SoleStandalone(t: Tables, prober: Prober, c: Cluster) {
    && c.pveName == "" && c.dc.Some?
    && exists h :: HostsIn(t.hosts, c.id) == [h] && h.conn.tokenSecret != "" && prober(c.id, h.conn) == Standalone
  }

  lemma DemotedIffSole(t: Tables, prober: Prober, c: Cluster)
    ensures Initial(t, prober, c).Demote? <==> SoleStandalone(t, prober, c)
  {
    hide HostsIn;
    var hosts := HostsIn(t.hosts, c.id);
    if |hosts| == 1 {
      assert hosts == [hosts[0]];
      assert forall h :: h in hosts ==> h == hosts[0];
    }
  }

  lemma DeletedIffSole(t: Tables, t': Tables, listing: seq<Cluster>, prober: Prober, c: Cluster)
    requires Valid(t) && c in t.clusters && c in listing && ClustersAgree(t, t', prober, listing) && HostsAgree(t, t', prober, listing)
    ensures !HasCluster(t', c.id) <==> SoleStandalone(t, prober, c)
    ensures !SoleStandalone(t, prober, c) ==> HostsIn(t'.hosts, c.id) == HostsIn(t.hosts, c.id)
  {
    hide Judge, HostsIn, SoleStandalone, Valid;
    DemotedIffSole(t, prober, c);
    FateSnoc(t, prober, listing, c, c);
    hide Initial;
    if HasCluster(t', c.id) {
      var y :| y in t'.clusters && y.id == c.id;
      assert Descends(t, prober, listing, y);
      var x :| x in t.clusters && Fate(t, prober, listing, x) == Some(y);
      FateSnoc(t, prober, listing, c, x);
      SameCluster(t, x, c);
    }
  }

  /**
   * The pass keeps every connection record, and deletes a cluster exactly when its sole host probed standalone;
   * that host then stands alone in the cluster's datacenter, and no other host is touched.
   */
  lemma ReconcileConserves(t: Tables, listing: seq<Cluster>, ids: seq<string>, prober: Prober)
    requires Inputs(t, listing, ids)
    ensures var t' := All(t, listing, ids, prober);
            && Valid(t') && t'.dcs == t.dcs
            && Records(t'.hosts) == Records(t.hosts)
            && (forall h :: h in t.hosts && h.cluster.None? ==> h in t'.hosts)
            && (forall c :: c in t.clusters ==> (!HasCluster(t', c.id) <==> SoleStandalone(t, prober, c)))
            && (forall c :: c in t.clusters && SoleStandalone(t, prober, c) ==>
                  c.dc.Some? && |HostsIn(t.hosts, c.id)| == 1 && StandsAlone(t', HostsIn(t.hosts, c.id)[0], c.dc.value))
            && (forall c :: c in t.clusters && !SoleStandalone(t, prober, c) ==> HostsIn(t'.hosts, c.id) == HostsIn(t.hosts, c.id))
  {
    hide Reconciled, Valid, HostsIn, Records, StandsAlone, Fate, Judge, Fresh, SoleStandalone, Initial;
    var t' := All(t, listing, ids, prober);
    ReconcileProgress(t, listing, ids, prober, |listing|);
    assert listing[..|listing|] == listing;
    SameElements(listing, t.clusters);
    hide ClustersAgree;
    forall c | c in t.clusters
      ensures !HasCluster(t', c.id) <==> SoleStandalone(t, prober, c)
      ensures SoleStandalone(t, prober, c) ==> c.dc.Some? && |HostsIn(t.hosts, c.id)| == 1 && StandsAlone(t', HostsIn(t.hosts, c.id)[0], c.dc.value)
      ensures !SoleStandalone(t, prober, c) ==> HostsIn(t'.hosts, c.id) == HostsIn(t.hosts, c.id)
    {
      DeletedIffSole(t, t', listing, prober, c);
      DemotedIffSole(t, prober, c);
      if SoleStandalone(t, prober, c) {
        InitialDemotes(t, prober, c);
      }
    }
  }

  lemma InitialDemotes(t: Tables, prober: Prober, c: Cluster)
    requires Initial(t, prober, c).Demote?
    ensures HostsIn(t.hosts, c.id) == [Initial(t, prober, c).host] && c.dc == Some(Initial(t, prober, c).dc)
  {
    hide HostsIn;
    JudgeDemotes(c, HostsIn(t.hosts, c.id), prober);
  }

  /** A second pass with the same answers changes nothing, however it lists the clusters. */
  lemma ReconcileIdempotent(t: Tables, listing: seq<Cluster>, ids: seq<string>, prober: Prober, listing': seq<Cluster>, ids': seq<string>)
    requires Inputs(t, listing, ids)
    requires var t' := All(t, listing, ids, prober); Inputs(t', listing', ids')
    ensures var t' := All(t, listing, ids, prober); All(t', listing', ids', prober) == t'
  {
    var t' := All(t, listing, ids, prober);
    ReconcileProgress(t, listing, ids, prober, |listing|);
    assert listing[..|listing|] == listing;
    SameElements(listing, t.clusters);
    SameElements(listing', t'.clusters);
    hide Reconciled, Judge, HostsIn, Valid;
    forall c | c in listing' ensures SettledAlready(t', prober, c) {
      SecondVerdict(t, t', prober, listing, c);
    }
    InertRun(t', listing', ids', prober, |listing'|);
  }

  ghost predicate SettledAlready(t: Tables, prober: Prober, c: Cluster) {
    var v := Initial(t, prober, c);
    !v.Demote? && (v.Name? ==> v.pveName == c.pveName)
  }

  lemma SecondVerdict(t: Tables, t': Tables, prober: Prober, listing: seq<Cluster>, c: Cluster)
    requires (forall x :: x in t.clusters ==> x in listing) && ClustersAgree(t, t', prober, listing) && HostsAgree(t, t', prober, listing)
    requires c in t'.clusters
    ensures SettledAlready(t', prober, c)
  {
    hide HostsIn, StandsAlone, Judge, Initial, Final;
    assert Descends(t, prober, listing, c);
    var x :| x in t.clusters && Fate(t, prober, listing, x) == Some(c);
    FateSnoc(t, prober, listing, x, x);
    SettledOnce(t, t', prober, x, c);
  }

  /** The same hosts and answers lead to the same verdict, or to none once the name is set. */
  lemma SettledOnce(t: Tables, t': Tables, prober: Prober, x: Cluster, c: Cluster)
    requires Final(t, prober, x) == Some(c) && HostsIn(t'.hosts, c.id) == HostsIn(t.hosts, x.id)
    ensures SettledAlready(t', prober, c)
  {
    hide HostsIn;
  }

  lemma {:induction false} InertRun(t: Tables, listing: seq<Cluster>, ids: seq<string>, prober: Prober, k: nat)
    requires Valid(t) && k <= |listing| == |ids|
    requires forall c :: c in listing ==> SettledAlready(t, prober, c) && c in t.clusters
    ensures Reconciled(t, listing, ids, prober, k) == t
  {
    hide StepOn, Valid, SettledAlready;
    if k > 0 {
      hide Reconciled;
      assert listing[k - 1] in listing;
      InertRun(t, listing, ids, prober, k - 1);
      ReconciledLast(t, listing, ids, prober, k);
      InertOn(t, listing[k - 1], prober, ids[k - 1]);
    }
  }

  lemma InertOn(t: Tables, c: Cluster, prober: Prober, newId: string)
    requires Valid(t) && c in t.clusters && SettledAlready(t, prober, c)
    ensures StepOn(t, c, prober, newId) == t
  {
    hide Judge, HostsIn;
    if Initial(t, prober, c).Name? {
      RenameToSame(t, c);
    }
  }

  lemma RenameToSame(t: Tables, c: Cluster)
    requires Valid(t) && c in t.clusters
    ensures MapClusters(t.clusters, Rename(c.id, c.pveName)) == t.clusters
  {
    forall i | 0 <= i < |t.clusters| ensures Rename(c.id, c.pveName)(t.clusters[i]) == t.clusters[i] {
      if t.clusters[i].id == c.id {
        SameCluster(t, t.clusters[i], c);
      }
    }
  }

  // ---- The call and its report ----

  datatype Skip = Skip(name: string, why: string)

  datatype Naming = Naming(name: string, pveName: string)

  datatype Report = Report(correlated: seq<Naming>, demoted: seq<string>, deleted: seq<string>, skipped: seq<Skip>, errors: seq<string>)

  function Log(r: Report, c: Cluster, v: Verdict): Report {
    match v
    case Correlated => r
    case NoHosts => r.(skipped := r.skipped + [Skip(c.name, "empty")])
    case NoCredentials => r.(skipped := r.skipped + [Skip(c.name, "no probe credentials")])
    case ProbeError => r.(errors := r.errors + [c.name])
    case Name(n) => r.(correlated := r.correlated + [Naming(c.name, n)])
    case SeveralHosts => r.(skipped := r.skipped + [Skip(c.name, "multi-host, standalone probe")])
    case NoDatacenter => r.(skipped := r.skipped + [Skip(c.name, "orphan cluster, no datacenter")])
    case Demote(h, _) => r.(demoted := r.demoted + [h.conn.address], deleted := r.deleted + [c.name])
  }

  /** The report read off the tables as they stood at the start. */
  function Reported(t: Tables, listing: seq<Cluster>, prober: Prober): Report {
    if listing == [] then Report([], [], [], [], []) else
    var c := listing[|listing| - 1];
    Log(Reported(t, listing[..|listing| - 1], prober), c, Judge(c, HostsIn(t.hosts, c.id), prober))
  }

  method FindProbeHost(hosts: seq<Host>) returns (r: Option<Host>)
    ensures r == FirstWithSecret(hosts)
  {
    var i := 0;
    while i < |hosts| && hosts[i].conn.tokenSecret == ""
      invariant i <= |hosts| && FirstWithSecret(hosts) == FirstWithSecret(hosts[i..])
    {
      i := i + 1;
    }
    r := if i < |hosts| then Some(hosts[i]) else None;
  }

  /** Restoring the status of the re-added row makes it the demoted host and touches no other row. */
  lemma StatusRestored(rows: seq<Host>, h: Host, dc: string, newId: string)
    requires !HasHost(rows, newId)
    ensures MapHosts(rows + [Host(newId, None, Some(dc), h.conn, "staged", "", "")], WithStatus(newId, h.status, h.error, h.node)) ==
            rows + [Demoted(h, dc, newId)]
  {
    assert forall i :: 0 <= i < |rows| ==> rows[i] in rows;
  }

  method ReconcileOne(db: Store, c: Cluster, prober: Prober, newId: string, report: Report) returns (r: Report)
    requires !HasHost(db.hosts, newId)
    modifies db
    ensures db.Contents() == StepOn(old(db.Contents()), c, prober, newId)
    ensures r == Log(report, c, Judge(c, HostsIn(old(db.hosts), c.id), prober))
  {
    hide HostsIn, Filter;
    r := report;
    if c.pveName != "" {
      return;
    }
    var hosts := HostsIn(db.hosts, c.id);
    if |hosts| == 0 {
      r := r.(skipped := r.skipped + [Skip(c.name, "empty")]);
      return;
    }
    var probed := FindProbeHost(hosts);
    if probed.None? {
      r := r.(skipped := r.skipped + [Skip(c.name, "no probe credentials")]);
      return;
    }
    var membership := prober(c.id, probed.value.conn);
    if membership.ProbeFailed? {
      r := r.(errors := r.errors + [c.name]);
      return;
    }
    if membership.Member? {
      db.clusters := MapClusters(db.clusters, Rename(c.id, membership.clusterName));
      r := r.(correlated := r.correlated + [Naming(c.name, membership.clusterName)]);
      return;
    }
    if |hosts| != 1 {
      r := r.(skipped := r.skipped + [Skip(c.name, "multi-host, standalone probe")]);
      return;
    }
    if c.dc.None? {
      r := r.(skipped := r.skipped + [Skip(c.name, "orphan cluster, no datacenter")]);
      return;
    }
    var host := hosts[0];
    FilterIn(db.hosts, NotHost(host.id));
    db.hosts := Filter(db.hosts, NotHost(host.id));
    StatusRestored(db.hosts, host, c.dc.value, newId);
    db.hosts := db.hosts + [Host(newId, None, Some(c.dc.value), host.conn, "staged", "", "")];
    db.hosts := MapHosts(db.hosts, WithStatus(newId, host.status, host.error, host.node));
    db.clusters := Filter(db.clusters, NotCluster(c.id));
    db.hosts := Filter(db.hosts, NotIn(c.id));
    r := r.(demoted := r.demoted + [host.conn.address], deleted := r.deleted + [c.name]);
  }

  /** Works through a snapshot of the clusters, changing the tables as it goes. */
  method ReconcileLegacy(db: Store, listing: seq<Cluster>, ids: seq<string>, prober: Prober) returns (report: Report)
    requires Inputs(db.Contents(), listing, ids)
    modifies db
    ensures Valid(db.Contents())
    ensures db.Contents() == All(old(db.Contents()), listing, ids, prober)
    ensures report == Reported(old(db.Contents()), listing, prober)
  {
    hide Valid, StepOn, Judge, HostsIn, Log, Progress, NoDup;
    ghost var t := db.Contents();
    report := Report([], [], [], [], []);
    assert listing[..0] == [];
    for k := 0 to |listing|
      invariant db.Contents() == Reconciled(t, listing, ids, prober, k)
      invariant report == Reported(t, listing[..k], prober)
    {
      NextCluster(t, listing, ids, prober, k);
      ReconciledLast(t, listing, ids, prober, k + 1);
      assert listing[..k + 1][..k] == listing[..k];
      report := ReconcileOne(db, listing[k], prober, ids[k], report);
    }
    assert listing[..|listing|] == listing;
    ReconcileProgress(t, listing, ids, prober, |listing|);
    ProgressValid(t, db.Contents(), prober, listing[..|listing|], ids[..|ids|]);
  }

  lemma ProgressValid(t0: Tables, t: Tables, prober: Prober, handled: seq<Cluster>, used: seq<string>)
    requires Progress(t0, t, prober, handled, used)
    ensures Valid(t)
  {
  }

  /** When the pass reaches a cluster, its id for a new row is unused and its hosts are those it started with. */
  lemma NextCluster(t: Tables, listing: seq<Cluster>, ids: seq<string>, prober: Prober, k: nat)
    requires Inputs(t, listing, ids) && k < |listing|
    ensures var now := Reconciled(t, listing, ids, prober, k);
            !HasHost(now.hosts, ids[k]) && HostsIn(now.hosts, listing[k].id) == HostsIn(t.hosts, listing[k].id)
  {
    hide Reconciled, HostsIn, Valid;
    ReconcileProgress(t, listing, ids, prober, k);
    Unlisted(t, listing, ids, k);
    StillInitial(t, Reconciled(t, listing, ids, prober, k), prober, listing[..k], ids[..k], listing[k]);
    hide ClustersAgree, HostsAgree;
  }

  /** The report names as deleted exactly the clusters whose sole host probed standalone. */
  lemma {:induction false} ReportTellsDeleted(t: Tables, listing: seq<Cluster>, prober: Prober)
    ensures forall n :: n in Reported(t, listing, prober).deleted <==> exists c :: c in listing && c.name == n && SoleStandalone(t, prober, c)
  {
    if listing != [] {
      var front, c := listing[..|listing| - 1], listing[|listing| - 1];
      assert listing == front + [c];
      ReportTellsDeleted(t, front, prober);
      DemotedIffSole(t, prober, c);
      ReportedLast(t, listing, prober);
      LogDeleted(Reported(t, front, prober), c, Initial(t, prober, c));
      hide SoleStandalone, Initial, Reported, Log;
    }
  }

  lemma {:induction false} CorrelatedIffNamed(t: Tables, listing: seq<Cluster>, prober: Prober)
    ensures Reported(t, listing, prober).correlated == [] <==> forall c :: c in listing ==> !Initial(t, prober, c).Name?
  {
    if listing != [] {
      var front, c := listing[..|listing| - 1], listing[|listing| - 1];
      assert listing == front + [c];
      ReportedLast(t, listing, prober);
      LogCorrelated(Reported(t, front, prober), c, Initial(t, prober, c));
      hide Reported, Initial, Log;
      CorrelatedIffNamed(t, front, prober);
    }
  }

  lemma LogDeleted(r: Report, c: Cluster, v: Verdict)
    ensures Log(r, c, v).deleted == r.deleted + (if v.Demote? then [c.name] else [])
  {
  }

  lemma LogCorrelated(r: Report, c: Cluster, v: Verdict)
    ensures Log(r, c, v).correlated == [] <==> r.correlated == [] && !v.Name?
  {
  }

  lemma ReportedLast(t: Tables, listing: seq<Cluster>, prober: Prober)
    requires listing != []
    ensures var front, c := listing[..|listing| - 1], listing[|listing| - 1];
            Reported(t, listing, prober) == Log(Reported(t, front, prober), c, Initial(t, prober, c))
  {
    hide Log, Judge, HostsIn;
  }

  lemma {:induction false} NothingDemoted(t: Tables, listing: seq<Cluster>, prober: Prober)
    requires forall c :: c in listing ==> !Initial(t, prober, c).Demote?
    ensures var r := Reported(t, listing, prober); r.demoted == [] && r.deleted == []
  {
    if listing != [] {
      var front, c := listing[..|listing| - 1], listing[|listing| - 1];
      NothingDemoted(t, front, prober);
      assert !Initial(t, prober, c).Demote?;
      hide Judge, HostsIn;
    }
  }

  /** After the pass a cluster is probed to be named again exactly when its host answered with an empty name. */
  lemma NamedAgainIff(t: Tables, t': Tables, prober: Prober, listing: seq<Cluster>, x: Cluster, c: Cluster)
    requires x in t.clusters && x in listing && c in t'.clusters && HostsAgree(t, t', prober, listing)
    requires Final(t, prober, x) == Some(c)
    ensures Initial(t', prober, c).Name? <==> Initial(t, prober, x) == Name("")
  {
    hide HostsIn, StandsAlone;
    assert c.id == x.id;
    assert HostsIn(t'.hosts, c.id) == HostsIn(t.hosts, x.id);
  }

  /**
   * A second pass with the same answers reports nothing demoted or deleted, and it reports a correlation
   * exactly when some cluster was answered with an empty name.
   */
  lemma SecondReportQuietIff(t: Tables, listing: seq<Cluster>, ids: seq<string>, prober: Prober, listing': seq<Cluster>)
    requires Inputs(t, listing, ids) && multiset(listing') == multiset(All(t, listing, ids, prober).clusters)
    ensures var r := Reported(All(t, listing, ids, prober), listing', prober);
            && r.demoted == [] && r.deleted == []
            && (r.correlated == [] <==> forall c :: c in t.clusters ==> Initial(t, prober, c) != Name(""))
  {
    var t' := All(t, listing, ids, prober);
    ReconcileProgress(t, listing, ids, prober, |listing|);
    assert listing[..|listing|] == listing;
    SameElements(listing, t.clusters);
    SameElements(listing', t'.clusters);
    hide Reconciled, Judge, HostsIn, Valid, Initial, Final, HostsAgree;
    forall c | c in listing' ensures !Initial(t', prober, c).Demote? {
      SecondVerdict(t, t', prober, listing, c);
      SettledIsKept(t', prober, c);
    }
    NothingDemoted(t', listing', prober);
    CorrelatedIffNamed(t', listing', prober);
    forall c | c in listing' && Initial(t', prober, c).Name? ensures exists x :: x in t.clusters && Initial(t, prober, x) == Name("") {
      assert Descends(t, prober, listing, c);
      var x :| x in t.clusters && Fate(t, prober, listing, x) == Some(c);
      NamedAgainIff(t, t', prober, listing, x, c);
    }
    forall x | x in t.clusters && Initial(t, prober, x) == Name("") ensures exists c :: c in listing' && Initial(t', prober, c).Name? {
      EmptyNameSurvives(t, prober, x);
      assert Fate(t, prober, listing, x) == Final(t, prober, x);
      NamedAgainIff(t, t', prober, listing, x, Final(t, prober, x).value);
    }
  }

  lemma SettledIsKept(t: Tables, prober: Prober, c: Cluster)
    requires SettledAlready(t, prober, c)
    ensures !Initial(t, prober, c).Demote?
  {
  }

  lemma EmptyNameSurvives(t: Tables, prober: Prober, x: Cluster)
    requires Initial(t, prober, x) == Name("")
    ensures Final(t, prober, x) == Some(x.(pveName := ""))
  {
  }

  function AnswersEmpty(cluster: string, conn: Conn): Probe { Member("") }

  lemma NamedEmpty(t: Tables, c: Cluster, h: Host)
    requires t.hosts == [h] && h.cluster == Some(c.id) && h.conn.tokenSecret != "" && c.pveName == ""
    ensures Judge(c, HostsIn(t.hosts, c.id), AnswersEmpty) == Initial(t, AnswersEmpty, c) == Name("")
  {
    FilterSnoc([], h, InCluster(c.id));
    assert [] + [h] == t.hosts;
    assert HostsIn(t.hosts, c.id) == [h] && FirstWithSecret([h]) == Some(h);
  }

  /** An input on which the second pass reports the same correlation once more, having changed nothing. */
  lemma EmptyNameIsReportedAgain()
    ensures var c := Cluster("c", "lab", "", None, Active);
            var t := Tables([], [c], [Host("h", Some("c"), None, Conn("pve1", "root", "secret", false), "online", "", "pve1")]);
            && Inputs(t, [c], ["new"]) && All(t, [c], ["new"], AnswersEmpty) == t
            && Reported(t, [c], AnswersEmpty).correlated == [Naming("lab", "")]
  {
    var c := Cluster("c", "lab", "", None, Active);
    var h := Host("h", Some("c"), None, Conn("pve1", "root", "secret", false), "online", "", "pve1");
    var t := Tables([], [c], [h]);
    assert c in t.clusters && Owned(t, h);
    NamedEmpty(t, c, h);
    hide Judge, HostsIn, FirstWithSecret, Initial;
    RenameToSame(t, c);
    ReconciledLast(t, [c], ["new"], AnswersEmpty, 1);
    assert [c][..0] == [];
    ReportedLast(t, [c], AnswersEmpty);
  }

  // ---- What each verdict means ----

  /** The first host with a secret answered so. */
  ghost predicate Answered(c: Cluster, hosts: seq<Host>, prober: Prober, probe: Probe) {
    exists h :: FirstToProbe(hosts, h) && prober(c.id, h.conn) == probe
  }

  lemma OneToProbe(hosts: seq<Host>, a: Host, b: Host)
    requires FirstToProbe(hosts, a) && FirstToProbe(hosts, b)
    ensures a == b
  {
  }

  lemma AnsweredIs(c: Cluster, hosts: seq<Host>, prober: Prober, probe: Probe)
    ensures Answered(c, hosts, prober, probe) <==>
            FirstWithSecret(hosts).Some? && prober(c.id, FirstWithSecret(hosts).value.conn) == probe
  {
    hide FirstWithSecret;
    if h :| FirstToProbe(hosts, h) && prober(c.id, h.conn) == probe {
      assert h in hosts;
      OneToProbe(hosts, h, FirstWithSecret(hosts).value);
    }
  }

  /** When each verdict is reached, in terms of the cluster, its hosts and the one answer. */
  lemma VerdictMeaning(c: Cluster, hosts: seq<Host>, prober: Prober, n: string, h: Host, dc: string)
    ensures var v, open := Judge(c, hosts, prober), c.pveName == "";
            && (v == Correlated <==> !open)
            && (v == NoHosts <==> open && hosts == [])
            && (v == NoCredentials <==> open && hosts != [] && forall x :: x in hosts ==> x.conn.tokenSecret == "")
            && (v == ProbeError <==> open && Answered(c, hosts, prober, ProbeFailed))
            && (v == Name(n) <==> open && Answered(c, hosts, prober, Member(n)))
            && (v == SeveralHosts <==> open && Answered(c, hosts, prober, Standalone) && |hosts| > 1)
            && (v == NoDatacenter <==> open && Answered(c, hosts, prober, Standalone) && |hosts| == 1 && c.dc.None?)
            && (v == Demote(h, dc) <==> open && Answered(c, hosts, prober, Standalone) && hosts == [h] && c.dc == Some(dc))
  {
    AnsweredIs(c, hosts, prober, ProbeFailed);
    AnsweredIs(c, hosts, prober, Member(n));
    AnsweredIs(c, hosts, prober, Standalone);
    hide FirstWithSecret, Answered;
    assert hosts == [] ==> FirstWithSecret(hosts).None?;
  }

  /** The row that a cluster has after the pass: the name its first host with a secret answered, and otherwise as it was. */
  ghost predicate NamedRight(t: Tables, prober: Prober, c: Cluster, c': Cluster) {
    && c'.id == c.id && c'.name == c.name && c'.dc == c.dc && c'.status == c.status
    && (forall n :: c.pveName == "" && Answered(c, HostsIn(t.hosts, c.id), prober, Member(n)) ==> c'.pveName == n)
    && ((c.pveName != "" || forall n :: !Answered(c, HostsIn(t.hosts, c.id), prober, Member(n))) ==> c'.pveName == c.pveName)
  }

  /** Every cluster that stays is named right: by the answer of its first host with a secret, if that is a member of one. */
  lemma ReconcileNames(t: Tables, listing: seq<Cluster>, ids: seq<string>, prober: Prober, c: Cluster)
    requires Inputs(t, listing, ids) && c in t.clusters && !SoleStandalone(t, prober, c)
    ensures exists c' :: c' in All(t, listing, ids, prober).clusters && NamedRight(t, prober, c, c')
  {
    hide Reconciled, Valid, HostsIn, Records, StandsAlone, Judge, Fresh, SoleStandalone, Answered;
    var t' := All(t, listing, ids, prober);
    ReconcileProgress(t, listing, ids, prober, |listing|);
    assert listing[..|listing|] == listing;
    SameElements(listing, t.clusters);
    DemotedIffSole(t, prober, c);
    assert Fate(t, prober, listing, c).Some?;
    var c' := Fate(t, prober, listing, c).value;
    assert c' in t'.clusters;
    FinalIsNamedRight(t, prober, c, c');
  }

  lemma FinalIsNamedRight(t: Tables, prober: Prober, c: Cluster, c': Cluster)
    requires Final(t, prober, c) == Some(c')
    ensures NamedRight(t, prober, c, c')
  {
    hide HostsIn, Judge, Answered;
    var hosts := HostsIn(t.hosts, c.id);
    forall n ensures Judge(c, hosts, prober) == Name(n) <==> c.pveName == "" && Answered(c, hosts, prober, Member(n)) {
      VerdictMeaning(c, hosts, prober, n, Host("", None, None, Conn("", "", "", false), "", "", ""), "");
    }
    VerdictMeaning(c, hosts, prober, "", Host("", None, None, Conn("", "", "", false), "", "", ""), "");
  }

  // ---- What the report says ----

  /** Some listed cluster of that name got a verdict. */
  ghost predicate Got(t: Tables, listing: seq<Cluster>, prober: Prober, name: string, v: Verdict) {
    exists c :: c in listing && c.name == name && Initial(t, prober, c) == v
  }

  lemma GotSnoc(t: Tables, front: seq<Cluster>, c: Cluster, prober: Prober, name: string, v: Verdict)
    ensures Got(t, front + [c], prober, name, v) <==> Got(t, front, prober, name, v) || (c.name == name && Initial(t, prober, c) == v)
  {
    hide Initial;
    assert c in front + [c];
  }

  /** Each list of the report has exactly the clusters with the verdicts it is for. */
  lemma {:induction false} ReportTells(t: Tables, listing: seq<Cluster>, prober: Prober, x: string, n: string)
    ensures var r := Reported(t, listing, prober);
            && (x in r.errors <==> Got(t, listing, prober, x, ProbeError))
            && (Naming(x, n) in r.correlated <==> Got(t, listing, prober, x, Name(n)))
            && (Skip(x, "empty") in r.skipped <==> Got(t, listing, prober, x, NoHosts))
            && (Skip(x, "no probe credentials") in r.skipped <==> Got(t, listing, prober, x, NoCredentials))
            && (Skip(x, "multi-host, standalone probe") in r.skipped <==> Got(t, listing, prober, x, SeveralHosts))
            && (Skip(x, "orphan cluster, no datacenter") in r.skipped <==> Got(t, listing, prober, x, NoDatacenter))
  {
    if listing != [] {
      var front, c := listing[..|listing| - 1], listing[|listing| - 1];
      assert listing == front + [c];
      ReportTells(t, front, prober, x, n);
      ReportedLast(t, listing, prober);
      forall v ensures Got(t, listing, prober, x, v) <==> Got(t, front, prober, x, v) || (c.name == x && Initial(t, prober, c) == v) {
        GotSnoc(t, front, c, prober, x, v);
      }
      hide Reported, Got, Initial;
      LogTells(Reported(t, front, prober), c, Initial(t, prober, c), x, n);
    }
  }

  /** What one verdict adds to the lists. */
  lemma LogTells(r: Report, c: Cluster, v: Verdict, x: string, n: string)
    ensures var r' := Log(r, c, v);
            && (x in r'.errors <==> x in r.errors || (c.name == x && v == ProbeError))
            && (Naming(x, n) in r'.correlated <==> Naming(x, n) in r.correlated || (c.name == x && v == Name(n)))
            && (Skip(x, "empty") in r'.skipped <==> Skip(x, "empty") in r.skipped || (c.name == x && v == NoHosts))
            && (Skip(x, "no probe credentials") in r'.skipped <==>
                  Skip(x, "no probe credentials") in r.skipped || (c.name == x && v == NoCredentials))
            && (Skip(x, "multi-host, standalone probe") in r'.skipped <==>
                  Skip(x, "multi-host, standalone probe") in r.skipped || (c.name == x && v == SeveralHosts))
            && (Skip(x, "orphan cluster, no datacenter") in r'.skipped <==>
                  Skip(x, "orphan cluster, no datacenter") in r.skipped || (c.name == x && v == NoDatacenter))
  {
    assert |"empty"| == 5 && |"no probe credentials"| == 20 && |"multi-host, standalone probe"| == 28 && |"orphan cluster, no datacenter"| == 29;
  }
}
