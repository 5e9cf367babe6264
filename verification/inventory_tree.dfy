/** The datacenter tree: every cluster and every host is listed once, under its owner. */
module InventoryTree {
  import opened Options
  import opened Seqs
  import opened Inventory

  datatype ClusterNode = ClusterNode(cluster: Cluster, hosts: seq<Host>)

  datatype DatacenterNode = DatacenterNode(dc: Datacenter, clusters: seq<ClusterNode>, hosts: seq<Host>)

  // ---- The queries ----

  /** Standalone hosts of a datacenter: no cluster, or the empty one. */
  function StandaloneAt(dc: string): Host -> bool {
    (h: Host) => h.dc == Some(dc) && (h.cluster.None? || h.cluster == Some(""))
  }

  function Node(t: Tables, c: Cluster): ClusterNode { ClusterNode(c, Filter(t.hosts, InCluster(c.id))) }

  function Nodes(t: Tables, clusters: seq<Cluster>): seq<ClusterNode> {
    if clusters == [] then [] else Nodes(t, clusters[..|clusters| - 1]) + [Node(t, clusters[|clusters| - 1])]
  }

  function NodeDC(n: ClusterNode): Option<string> { n.cluster.dc }

  function Under(dc: Option<string>): ClusterNode -> bool { (n: ClusterNode) => n.cluster.dc == dc }

  /** A missing key reads as the empty list. */
  function Lookup(m: map<string, seq<ClusterNode>>, k: string): seq<ClusterNode> { if k in m then m[k] else [] }

  function Branch(t: Tables, nodes: seq<ClusterNode>, d: Datacenter): DatacenterNode {
    DatacenterNode(d, Filter(nodes, Under(Some(d.id))), Filter(t.hosts, StandaloneAt(d.id)))
  }

  function Branches(t: Tables, nodes: seq<ClusterNode>, dcs: seq<Datacenter>): seq<DatacenterNode> {
    if dcs == [] then [] else Branches(t, nodes, dcs[..|dcs| - 1]) + [Branch(t, nodes, dcs[|dcs| - 1])]
  }

  // ---- Counting what a tree lists ----

  function Sum<T(!new), U>(s: seq<T>, w: T -> multiset<U>): multiset<U> {
    if s == [] then multiset{} else Sum(s[..|s| - 1], w) + w(s[|s| - 1])
  }

  function Itself<T>(x: T): multiset<T> { multiset{x} }

  function ClusterOf(n: ClusterNode): multiset<Cluster> { multiset{n.cluster} }

  function HostsOf(n: ClusterNode): multiset<Host> { multiset(n.hosts) }

  function ClustersBelow(d: DatacenterNode): multiset<Cluster> { Sum(d.clusters, ClusterOf) }

  function HostsBelow(d: DatacenterNode): multiset<Host> { multiset(d.hosts) + Sum(d.clusters, HostsOf) }

  lemma SumSnoc<T(!new), U>(s: seq<T>, x: T, w: T -> multiset<U>)
    ensures Sum(s + [x], w) == Sum(s, w) + w(x)
  {
    assert (s + [x])[..|s|] == s;
  }

  lemma {:induction false} SumItself<T(!new)>(s: seq<T>)
    ensures Sum(s, Itself<T>) == multiset(s)
  {
    if s != [] {
      SumItself(s[..|s| - 1]);
      assert s == s[..|s| - 1] + [s[|s| - 1]];
    }
  }

  lemma {:induction false} SumSplits<T(!new), U>(s: seq<T>, p: T -> bool, q: T -> bool, w: T -> multiset<U>)
    requires forall x :: x in s ==> p(x) == !q(x)
    ensures Sum(Filter(s, p), w) + Sum(Filter(s, q), w) == Sum(s, w)
  {
    if s != [] {
      var front, last := s[..|s| - 1], s[|s| - 1];
      SumSplits(front, p, q, w);
      assert last in s;
      if p(last) {
        SumSnoc(Filter(front, p), last, w);
      } else {
        SumSnoc(Filter(front, q), last, w);
      }
    }
  }

  // ---- Grouping by key loses nothing ----

  function HasKey<T(!new)>(key: T -> Option<string>, k: string): T -> bool { x => key(x) == Some(k) }

  function KeyAmong<T(!new)>(key: T -> Option<string>, ks: seq<string>): T -> bool {
    x => key(x).Some? && key(x).value in ks
  }

  /** The total weight of the groups of `s` with the given keys. */
  function Grouped<T(!new), U>(s: seq<T>, key: T -> Option<string>, ks: seq<string>, w: T -> multiset<U>): multiset<U> {
    if ks == [] then multiset{} else Grouped(s, key, ks[..|ks| - 1], w) + Sum(Filter(s, HasKey(key, ks[|ks| - 1])), w)
  }

  lemma GroupedLast<T(!new), U>(s: seq<T>, key: T -> Option<string>, ks: seq<string>, w: T -> multiset<U>)
    requires ks != []
    ensures Grouped(s, key, ks, w) == Grouped(s, key, ks[..|ks| - 1], w) + Sum(Filter(s, HasKey(key, ks[|ks| - 1])), w)
  {
  }

  /** One more element counts in its own group only. */
  lemma GroupSnoc<T(!new), U>(s: seq<T>, x: T, key: T -> Option<string>, k: string, w: T -> multiset<U>)
    ensures Sum(Filter(s + [x], HasKey(key, k)), w) ==
            Sum(Filter(s, HasKey(key, k)), w) + (if key(x) == Some(k) then w(x) else multiset{})
  {
    FilterSnoc(s, x, HasKey(key, k));
    if key(x) == Some(k) {
      SumSnoc(Filter(s, HasKey(key, k)), x, w);
    } else {
      assert Filter(s, HasKey(key, k)) + [] == Filter(s, HasKey(key, k));
    }
  }

  /** With distinct keys one more element is counted in at most one group. */
  lemma {:induction false} GroupedSnoc<T(!new), U>(s: seq<T>, x: T, key: T -> Option<string>, ks: seq<string>, w: T -> multiset<U>)
    requires NoDup(ks)
    ensures Grouped(s + [x], key, ks, w) == Grouped(s, key, ks, w) + (if KeyAmong(key, ks)(x) then w(x) else multiset{})
  {
    if ks == [] {
      return;
    }
    hide Grouped, Sum, Filter;
    var front, last := ks[..|ks| - 1], ks[|ks| - 1];
    assert ks == front + [last];
    assert last !in front;
    GroupedSnoc(s, x, key, front, w);
    GroupSnoc(s, x, key, last, w);
    GroupedLast(s, key, ks, w);
    GroupedLast(s + [x], key, ks, w);
  }

  lemma {:induction false} GroupedNothing<T(!new), U>(key: T -> Option<string>, ks: seq<string>, w: T -> multiset<U>)
    ensures Grouped([], key, ks, w) == multiset{}
  {
    if ks != [] {
      GroupedNothing(key, ks[..|ks| - 1], w);
    }
  }

  lemma {:induction false} GroupedIsTotal<T(!new), U>(s: seq<T>, key: T -> Option<string>, ks: seq<string>, w: T -> multiset<U>)
    requires NoDup(ks)
    ensures Grouped(s, key, ks, w) == Sum(Filter(s, KeyAmong(key, ks)), w)
  {
    if s == [] {
      GroupedNothing(key, ks, w);
    } else {
      var front, last := s[..|s| - 1], s[|s| - 1];
      assert s == front + [last];
      GroupedIsTotal(front, key, ks, w);
      GroupedSnoc(front, last, key, ks, w);
      if KeyAmong(key, ks)(last) {
        SumSnoc(Filter(front, KeyAmong(key, ks)), last, w);
      }
    }
  }

  // ---- The tree as groupings ----

  function Ids<T>(s: seq<T>, key: T -> string): (r: seq<string>)
    ensures |r| == |s| && forall i :: 0 <= i < |s| ==> r[i] == key(s[i])
  {
    seq(|s|, i requires 0 <= i < |s| => key(s[i]))
  }

  /** Unique keys survive any reordering of the rows, and name exactly the keys of the table. */
  lemma ListedIds<T(!new)>(rows: seq<T>, listing: seq<T>, key: T -> string)
    requires UniqueBy(rows, key) && multiset(rows) == multiset(listing)
    ensures NoDup(Ids(listing, key)) && forall x :: x in rows ==> key(x) in Ids(listing, key)
  {
    SameElements(rows, listing);
    NoDupPermutes(rows, listing);
    forall i, j | 0 <= i < j < |listing| ensures key(listing[i]) != key(listing[j]) {
      assert listing[i] in rows && listing[j] in rows;
    }
    forall x | x in rows ensures key(x) in Ids(listing, key) {
      var i :| 0 <= i < |listing| && listing[i] == x;
      assert Ids(listing, key)[i] == key(x);
    }
  }

  lemma IdsSnoc<T>(s: seq<T>, key: T -> string)
    requires s != []
    ensures Ids(s, key) != [] && Ids(s, key)[|s| - 1] == key(s[|s| - 1]) && Ids(s, key)[..|s| - 1] == Ids(s[..|s| - 1], key)
  {
  }

  lemma {:induction false} ClustersOfNodes(t: Tables, clusters: seq<Cluster>)
    ensures Sum(Nodes(t, clusters), ClusterOf) == multiset(clusters)
  {
    if clusters == [] {
      return;
    }
    hide Sum, Nodes;
    var front, last := clusters[..|clusters| - 1], clusters[|clusters| - 1];
    ClustersOfNodes(t, front);
    NodesLast(t, clusters);
    SumSnoc(Nodes(t, front), Node(t, last), ClusterOf);
    assert clusters == front + [last];
  }

  function HostCluster(h: Host): Option<string> { h.cluster }

  function HostDC(h: Host): Option<string> { if h.cluster.None? || h.cluster == Some("") then h.dc else None }

  lemma NodesLast(t: Tables, clusters: seq<Cluster>)
    requires clusters != []
    ensures Nodes(t, clusters) == Nodes(t, clusters[..|clusters| - 1]) + [Node(t, clusters[|clusters| - 1])]
  {
  }

  lemma HostsOfOne(t: Tables, c: Cluster)
    ensures HostsOf(Node(t, c)) == Sum(Filter(t.hosts, HasKey(HostCluster, c.id)), Itself<Host>)
  {
    hide Sum, Filter;
    assert forall h :: HostCluster(h) == h.cluster;
    FilterAgree(t.hosts, InCluster(c.id), HasKey(HostCluster, c.id));
    SumItself(Filter(t.hosts, InCluster(c.id)));
  }

  lemma {:induction false} HostsOfNodes(t: Tables, clusters: seq<Cluster>)
    ensures Sum(Nodes(t, clusters), HostsOf) == Grouped(t.hosts, HostCluster, Ids(clusters, ClusterId), Itself<Host>)
  {
    if clusters == [] {
      return;
    }
    hide Sum, Filter, Grouped, Ids, Nodes, HasKey, Node, HostsOf;
    var front, last := clusters[..|clusters| - 1], clusters[|clusters| - 1];
    HostsOfNodes(t, front);
    NodesLast(t, clusters);
    SumSnoc(Nodes(t, front), Node(t, last), HostsOf);
    HostsOfOne(t, last);
    IdsSnoc(clusters, ClusterId);
    GroupedLast(t.hosts, HostCluster, Ids(clusters, ClusterId), Itself<Host>);
  }

  lemma BranchesLast(t: Tables, nodes: seq<ClusterNode>, dcs: seq<Datacenter>)
    requires dcs != []
    ensures Branches(t, nodes, dcs) == Branches(t, nodes, dcs[..|dcs| - 1]) + [Branch(t, nodes, dcs[|dcs| - 1])]
  {
  }

  lemma BelowOne(t: Tables, nodes: seq<ClusterNode>, d: Datacenter)
    ensures ClustersBelow(Branch(t, nodes, d)) == Sum(Filter(nodes, HasKey(NodeDC, d.id)), ClusterOf)
    ensures HostsBelow(Branch(t, nodes, d)) ==
            Sum(Filter(nodes, HasKey(NodeDC, d.id)), HostsOf) + Sum(Filter(t.hosts, HasKey(HostDC, d.id)), Itself<Host>)
  {
    hide Sum, Filter;
    assert forall n :: NodeDC(n) == n.cluster.dc;
    assert forall h :: HostDC(h) == if h.cluster.None? || h.cluster == Some("") then h.dc else None;
    FilterAgree(nodes, Under(Some(d.id)), HasKey(NodeDC, d.id));
    FilterAgree(t.hosts, StandaloneAt(d.id), HasKey(HostDC, d.id));
    SumItself(Filter(t.hosts, StandaloneAt(d.id)));
  }

  lemma {:induction false} ClustersBelowBranches(t: Tables, nodes: seq<ClusterNode>, dcs: seq<Datacenter>)
    ensures Sum(Branches(t, nodes, dcs), ClustersBelow) == Grouped(nodes, NodeDC, Ids(dcs, DatacenterId), ClusterOf)
  {
    if dcs == [] {
      return;
    }
    hide Sum, Filter, Grouped, Ids, Branches, Branch, HasKey, ClustersBelow;
    var front, last := dcs[..|dcs| - 1], dcs[|dcs| - 1];
    ClustersBelowBranches(t, nodes, front);
    BranchesLast(t, nodes, dcs);
    BelowOne(t, nodes, last);
    SumSnoc(Branches(t, nodes, front), Branch(t, nodes, last), ClustersBelow);
    IdsSnoc(dcs, DatacenterId);
    GroupedLast(nodes, NodeDC, Ids(dcs, DatacenterId), ClusterOf);
  }

  lemma {:induction false} HostsBelowBranches(t: Tables, nodes: seq<ClusterNode>, dcs: seq<Datacenter>)
    ensures Sum(Branches(t, nodes, dcs), HostsBelow) ==
            Grouped(nodes, NodeDC, Ids(dcs, DatacenterId), HostsOf) + Grouped(t.hosts, HostDC, Ids(dcs, DatacenterId), Itself<Host>)
  {
    if dcs == [] {
      return;
    }
    hide Sum, Filter, Grouped, Ids, Branches, Branch, HasKey, HostsBelow;
    var front, last := dcs[..|dcs| - 1], dcs[|dcs| - 1];
    HostsBelowBranches(t, nodes, front);
    BranchesLast(t, nodes, dcs);
    BelowOne(t, nodes, last);
    SumSnoc(Branches(t, nodes, front), Branch(t, nodes, last), HostsBelow);
    IdsSnoc(dcs, DatacenterId);
    GroupedLast(nodes, NodeDC, Ids(dcs, DatacenterId), HostsOf);
    GroupedLast(t.hosts, HostDC, Ids(dcs, DatacenterId), Itself<Host>);
  }

  lemma {:induction false} NodesIn(t: Tables, clusters: seq<Cluster>)
    ensures forall n :: n in Nodes(t, clusters) ==> n.cluster in clusters
  {
    if clusters != [] {
      NodesIn(t, clusters[..|clusters| - 1]);
    }
  }

  ghost predicate Lists(t: Tables, dcs: seq<Datacenter>, clusters: seq<Cluster>) {
    multiset(dcs) == multiset(t.dcs) && multiset(clusters) == multiset(t.clusters)
  }

  /** Grouping the nodes by datacenter, with the orphans, weighs what all nodes weigh. */
  lemma NodesPartition<U>(t: Tables, dcs: seq<Datacenter>, clusters: seq<Cluster>, w: ClusterNode -> multiset<U>)
    requires Valid(t) && Lists(t, dcs, clusters)
    ensures var nodes := Nodes(t, clusters);
            Grouped(nodes, NodeDC, Ids(dcs, DatacenterId), w) + Sum(Filter(nodes, Under(None)), w) == Sum(nodes, w)
  {
    hide Sum, Filter, Grouped, Nodes;
    var nodes, ids := Nodes(t, clusters), Ids(dcs, DatacenterId);
    ListedIds(t.dcs, dcs, DatacenterId);
    SameElements(clusters, t.clusters);
    NodesIn(t, clusters);
    GroupedIsTotal(nodes, NodeDC, ids, w);
    forall n | n in nodes ensures KeyAmong(NodeDC, ids)(n) == !Under(None)(n) {
      assert n.cluster in t.clusters;
      assert NodeDC(n) == n.cluster.dc;
      assert Under(None)(n) <==> n.cluster.dc.None?;
      if n.cluster.dc.Some? {
        var d :| d in t.dcs && d.id == n.cluster.dc.value;
        assert DatacenterId(d) in ids;
      }
    }
    SumSplits(nodes, KeyAmong(NodeDC, ids), Under(None), w);
  }

  lemma HostsPartition(t: Tables, dcs: seq<Datacenter>, clusters: seq<Cluster>)
    requires Valid(t) && Lists(t, dcs, clusters)
    ensures Grouped(t.hosts, HostCluster, Ids(clusters, ClusterId), Itself<Host>) +
            Grouped(t.hosts, HostDC, Ids(dcs, DatacenterId), Itself<Host>) == multiset(t.hosts)
  {
    hide Sum, Filter, Grouped;
    var cs, ds := Ids(clusters, ClusterId), Ids(dcs, DatacenterId);
    ListedIds(t.dcs, dcs, DatacenterId);
    ListedIds(t.clusters, clusters, ClusterId);
    GroupedIsTotal(t.hosts, HostCluster, cs, Itself<Host>);
    GroupedIsTotal(t.hosts, HostDC, ds, Itself<Host>);
    forall h | h in t.hosts ensures KeyAmong(HostCluster, cs)(h) == !KeyAmong(HostDC, ds)(h) {
      assert Owned(t, h);
      assert HostCluster(h) == h.cluster;
      assert h.cluster.Some? ==> HostDC(h).None?;
      assert h.cluster.None? ==> HostDC(h) == h.dc;
      if h.cluster.Some? {
        var c :| c in t.clusters && c.id == h.cluster.value;
        assert ClusterId(c) in cs;
      } else {
        var d :| d in t.dcs && d.id == h.dc.value;
        assert DatacenterId(d) in ds;
      }
    }
    SumSplits(t.hosts, KeyAmong(HostCluster, cs), KeyAmong(HostDC, ds), Itself<Host>);
    SumItself(t.hosts);
  }

  /** Each cluster and each host appears exactly once in the tree and the orphan list together. */
  lemma TreeListsEverythingOnce(t: Tables, dcs: seq<Datacenter>, clusters: seq<Cluster>)
    requires Valid(t) && Lists(t, dcs, clusters)
    ensures var nodes := Nodes(t, clusters);
            var tree, orphans := Branches(t, nodes, dcs), Filter(nodes, Under(None));
            && Sum(tree, ClustersBelow) + Sum(orphans, ClusterOf) == multiset(t.clusters)
            && Sum(tree, HostsBelow) + Sum(orphans, HostsOf) == multiset(t.hosts)
  {
    ClustersBelowBranches(t, Nodes(t, clusters), dcs);
    HostsBelowBranches(t, Nodes(t, clusters), dcs);
    NodesPartition(t, dcs, clusters, ClusterOf);
    NodesPartition(t, dcs, clusters, HostsOf);
    ClustersOfNodes(t, clusters);
    HostsOfNodes(t, clusters);
    HostsPartition(t, dcs, clusters);
  }

  // ---- The call ----

  lemma {:induction false} BranchAt(t: Tables, nodes: seq<ClusterNode>, dcs: seq<Datacenter>)
    ensures |Branches(t, nodes, dcs)| == |dcs|
    ensures forall i :: 0 <= i < |dcs| ==> Branches(t, nodes, dcs)[i] == Branch(t, nodes, dcs[i])
  {
    if dcs != [] {
      BranchAt(t, nodes, dcs[..|dcs| - 1]);
    }
  }

  lemma {:induction false} NodesHold(t: Tables, clusters: seq<Cluster>)
    ensures forall n :: n in Nodes(t, clusters) ==> HoldsOwn(n)
  {
    if clusters != [] {
      NodesHold(t, clusters[..|clusters| - 1]);
      FilterIn(t.hosts, InCluster(clusters[|clusters| - 1].id));
    }
  }

  ghost predicate HoldsOwn(n: ClusterNode) {
    forall h :: h in n.hosts ==> h.cluster == Some(n.cluster.id)
  }

  /** The branch lists clusters and standalone hosts of its datacenter only, and clusters list their own hosts only. */
  ghost predicate BranchPlaced(d: DatacenterNode) {
    && (forall n :: n in d.clusters ==> n.cluster.dc == Some(d.dc.id) && HoldsOwn(n))
    && (forall h :: h in d.hosts ==> h.dc == Some(d.dc.id) && (h.cluster.None? || h.cluster == Some("")))
  }

  /** Everything listed stands under its own datacenter and its own cluster. */
  ghost predicate Placed(dcs: seq<Datacenter>, tree: seq<DatacenterNode>, orphans: seq<ClusterNode>) {
    && |tree| == |dcs|
    && (forall i :: 0 <= i < |dcs| ==> tree[i].dc == dcs[i] && BranchPlaced(tree[i]))
    && (forall n :: n in orphans ==> n.cluster.dc == None && HoldsOwn(n))
  }

  lemma TreePlacement(t: Tables, dcs: seq<Datacenter>, clusters: seq<Cluster>)
    ensures var nodes := Nodes(t, clusters); Placed(dcs, Branches(t, nodes, dcs), Filter(nodes, Under(None)))
  {
    hide Filter, Nodes, Branches, HoldsOwn;
    var nodes := Nodes(t, clusters);
    BranchAt(t, nodes, dcs);
    NodesHold(t, clusters);
    FilterIn(nodes, Under(None));
    forall i | 0 <= i < |dcs| ensures BranchPlaced(Branch(t, nodes, dcs[i])) {
      FilterIn(nodes, Under(Some(dcs[i].id)));
      FilterIn(t.hosts, StandaloneAt(dcs[i].id));
    }
  }

  /** Groups the listed clusters under their datacenters, and sets the others apart. */
  method GroupClusters(nodes: seq<ClusterNode>) returns (byDC: map<string, seq<ClusterNode>>, orphans: seq<ClusterNode>)
    ensures forall k :: Lookup(byDC, k) == Filter(nodes, Under(Some(k)))
    ensures orphans == Filter(nodes, Under(None))
  {
    byDC, orphans := map[], [];
    for i := 0 to |nodes|
      invariant forall k :: Lookup(byDC, k) == Filter(nodes[..i], Under(Some(k)))
      invariant orphans == Filter(nodes[..i], Under(None))
    {
      assert nodes[..i + 1] == nodes[..i] + [nodes[i]];
      ghost var before := byDC;
      FilterSnoc(nodes[..i], nodes[i], Under(None));
      if nodes[i].cluster.dc.Some? {
        var k := nodes[i].cluster.dc.value;
        byDC := byDC[k := Lookup(byDC, k) + [nodes[i]]];
      } else {
        orphans := orphans + [nodes[i]];
      }
      forall k ensures Lookup(byDC, k) == Filter(nodes[..i + 1], Under(Some(k))) {
        FilterSnoc(nodes[..i], nodes[i], Under(Some(k)));
        assert Lookup(before, k) == Filter(nodes[..i], Under(Some(k)));
      }
    }
    assert nodes[..|nodes|] == nodes;
  }

  /** Lists the tables (in whatever order the queries give) as a tree and the clusters without a datacenter. */
  method GetDatacenterTree(t: Tables, dcs: seq<Datacenter>, clusters: seq<Cluster>)
    returns (tree: seq<DatacenterNode>, orphans: seq<ClusterNode>)
    requires Lists(t, dcs, clusters)
    ensures Placed(dcs, tree, orphans)
    ensures Valid(t) ==> Sum(tree, ClustersBelow) + Sum(orphans, ClusterOf) == multiset(t.clusters)
    ensures Valid(t) ==> Sum(tree, HostsBelow) + Sum(orphans, HostsOf) == multiset(t.hosts)
  {
    hide Valid, Sum, ClustersBelow, HostsBelow, Filter, Placed;
    var nodes := [];
    for i := 0 to |clusters|
      invariant nodes == Nodes(t, clusters[..i])
    {
      assert clusters[..i + 1][..i] == clusters[..i];
      nodes := nodes + [ClusterNode(clusters[i], Filter(t.hosts, InCluster(clusters[i].id)))];
    }
    assert clusters[..|clusters|] == clusters;

    var byDC;
    byDC, orphans := GroupClusters(nodes);

    tree := [];
    for i := 0 to |dcs|
      invariant tree == Branches(t, nodes, dcs[..i])
    {
      assert dcs[..i + 1][..i] == dcs[..i];
      tree := tree + [DatacenterNode(dcs[i], Lookup(byDC, dcs[i].id), Filter(t.hosts, StandaloneAt(dcs[i].id)))];
    }
    assert dcs[..|dcs|] == dcs;
    TreePlacement(t, dcs, clusters);
    if Valid(t) {
      TreeListsEverythingOnce(t, dcs, clusters);
    }
  }
}
