/** What a call does to each host row, and where hosts of a real PVE cluster end up. */
module InventoryFates {
  import opened Options
  import opened Seqs
  import opened Inventory

  // ---- Conservation ----

  /** Only three calls lose a host: its own deletion and that of its owner. */
  predicate Removes(op: Op, h: Host) {
    match op
    case DeleteHost(id) => h.id == id
    case DeleteCluster(id) => h.cluster == Some(id)
    case DeleteDatacenter(id) => h.dc == Some(id)
    case _ => false
  }

  predicate Moves(op: Op, h: Host) {
    match op
    case MoveHost(id, _) => h.id == id
    case Promote(id, _, _, _, _) => h.id == id
    case FormCluster(_, _, _, ids, _) => h.id in ids
    case AddHosts(_, ids, _) => h.id in ids
    case _ => false
  }

  predicate Adds(op: Op, h: Host) {
    match op
    case AddHost(id, cluster, conn) => h.id == id && h.conn == conn && h.cluster == Some(cluster)
    case AddStandalone(id, dc, conn) => h.id == id && h.conn == conn && h.dc == Some(dc)
    case AutoRoute(id, dc, conn, probe, _) => h.id == id && h.conn == conn && (probe.Standalone? ==> h.dc == Some(dc))
    case _ => false
  }

  /** The cluster a move is to, where the call names it. */
  function TargetOf(op: Op): Option<string> {
    match op
    case MoveHost(_, cluster) => Some(cluster)
    case FormCluster(id, _, _, _, _) => Some(id)
    case AddHosts(cluster, _, _) => Some(cluster)
    case _ => None
  }

  /** The token a move gives to a host, where it gives one. */
  function TokenFor(op: Op, h: Host): Option<Token> {
    match op
    case FormCluster(_, _, _, ids, updates) => if h.id in ids && h.id in updates then Some(updates[h.id]) else None
    case AddHosts(_, ids, updates) => if h.id in ids && h.id in updates then Some(updates[h.id]) else None
    case _ => None
  }

  predicate OwnerAfter(op: Op, h: Host, h': Host) {
    if Moves(op, h) then h'.dc.None? && h'.cluster.Some? && (TargetOf(op).Some? ==> h'.cluster == TargetOf(op))
    else h'.cluster == h.cluster && h'.dc == h.dc
  }

  predicate ConnAfter(op: Op, h: Host, h': Host) {
    if op.UpdateHost? && op.id == h.id then
      h'.conn.address == op.address && h'.conn.tokenId == op.tokenId && h'.conn.insecure == op.insecure
      && h'.conn.tokenSecret == h.conn.tokenSecret
    else if TokenFor(op, h).Some? then
      h'.conn.address == h.conn.address && h'.conn.insecure == h.conn.insecure
      && h'.conn.tokenId == TokenFor(op, h).value.id && h'.conn.tokenSecret == TokenFor(op, h).value.secret
    else h'.conn == h.conn
  }

  predicate StatusAfter(op: Op, h: Host, h': Host) {
    if op.SetHostStatus? && op.id == h.id then h'.status == op.hostStatus && h'.error == op.error && h'.node == op.node
    else h'.status == h.status && h'.error == h.error && h'.node == h.node
  }

  /** A move changes the owner, a token update or an edit the connection, a status report the status; nothing else changes. */
  predicate Becomes(op: Op, h: Host, h': Host) {
    h'.id == h.id && OwnerAfter(op, h, h') && ConnAfter(op, h, h') && StatusAfter(op, h, h')
  }

  ghost predicate Kept(rows: seq<Host>, op: Op, h: Host) {
    exists h' :: h' in rows && Becomes(op, h, h')
  }

  /** The rows `rows` give the host `h` its fate under `op`. */
  ghost predicate Meets(rows: seq<Host>, op: Op, h: Host) {
    if Removes(op, h) then !HasHost(rows, h.id) else Kept(rows, op, h)
  }

  lemma FilteredFate(t: Tables, keep: Host -> bool, h: Host)
    requires Valid(t) && h in t.hosts
    ensures if keep(h) then h in Filter(t.hosts, keep) else !HasHost(Filter(t.hosts, keep), h.id)
  {
    FilterIn(t.hosts, keep);
    hide Filter;
    if x :| !keep(h) && x in Filter(t.hosts, keep) && x.id == h.id {
      SameRow(t, x, h);
    }
  }

  lemma MappedFate(rows: seq<Host>, f: Host -> Host, op: Op, h: Host)
    requires h in rows && Becomes(op, h, f(h))
    ensures Kept(MapHosts(rows, f), op, h)
  {
    var i: nat :| i < |rows| && rows[i] == h;
    assert MapHosts(rows, f)[i] in MapHosts(rows, f);
  }

  lemma StaysAsItWas(rows: seq<Host>, op: Op, h: Host)
    requires h in rows && Becomes(op, h, h)
    ensures Kept(rows, op, h)
  {
  }

  /** Every call keeps each host it is not asked to remove, and changes of it exactly what it is asked to. */
  lemma HostFates(t: Tables, op: Op, h: Host)
    requires Valid(t) && h in t.hosts
    ensures if Accepts(t, op) then Meets(Apply(t, op).hosts, op, h) else Apply(t, op).hosts == t.hosts
  {
    if Accepts(t, op) {
      AcceptedFate(t, op, h);
    } else {
      hide Accepts;
    }
  }

  lemma AcceptedFate(t: Tables, op: Op, h: Host)
    requires Valid(t) && Accepts(t, op) && h in t.hosts
    ensures Meets(Effect(t, op).hosts, op, h)
  {
    hide Accepts, Valid, Filter, MapClusters, MapHosts, MapDatacenters, ClusterFor, EmptyIfHostless;
    match op
    case DeleteHost(id) => KeptByFilter(t, NotHost(id), op, h);
    case DeleteCluster(id) => KeptByFilter(t, NotIn(id), op, h);
    case DeleteDatacenter(id) => KeptByFilter(t, NotAt(id), op, h);
    case AutoRoute(_, _, _, _, _) => RoutedKeeps(t, op, h);
    case AddHost(_, _, _) => StaysAsItWas(Effect(t, op).hosts, op, h);
    case AddStandalone(_, _, _) => StaysAsItWas(Effect(t, op).hosts, op, h);
    case _ => MappedFates(t, op, h);
  }

  lemma RoutedKeeps(t: Tables, op: Op, h: Host)
    requires h in t.hosts && op.AutoRoute?
    ensures Meets(Effect(t, op).hosts, op, h)
  {
    hide MapClusters, FindByPVEName, DisplayName;
    StaysAsItWas(Effect(t, op).hosts, op, h);
  }

  lemma MappedFates(t: Tables, op: Op, h: Host)
    requires h in t.hosts && !op.DeleteHost? && !op.DeleteCluster? && !op.DeleteDatacenter? && !op.AutoRoute? && !op.AddHost? && !op.AddStandalone?
    ensures Meets(Effect(t, op).hosts, op, h)
  {
    hide Filter, MapClusters, MapHosts, MapDatacenters, FindByPVEName, DisplayName;
    match op
    case MoveHost(id, cluster) => MappedFate(t.hosts, MoveListed([id], cluster, map[]), op, h);
    case Promote(id, address, dc, pveName, newId) =>
      var (t1, cluster) := ClusterFor(t, dc, pveName, address, newId);
      MappedFate(t.hosts, MoveListed([id], cluster, map[]), op, h);
    case FormCluster(id, _, _, ids, updates) => MappedFate(t.hosts, MoveListed(ids, id, updates), op, h);
    case AddHosts(cluster, ids, updates) => MappedFate(t.hosts, MoveListed(ids, cluster, updates), op, h);
    case UpdateHost(id, address, tokenId, _, insecure) => MappedFate(t.hosts, EditHost(id, address, tokenId, insecure), op, h);
    case SetHostStatus(id, status, error, node) => MappedFate(t.hosts, WithStatus(id, status, error, node), op, h);
    case _ => StaysAsItWas(t.hosts, op, h);
  }

  lemma KeptByFilter(t: Tables, keep: Host -> bool, op: Op, h: Host)
    requires Valid(t) && h in t.hosts && (Removes(op, h) <==> !keep(h)) && Becomes(op, h, h)
    ensures Meets(Filter(t.hosts, keep), op, h)
  {
    FilteredFate(t, keep, h);
    hide Filter, Valid;
  }

  /** The call that adds a host makes a staged row with the given connection and owner. */
  lemma HostAdded(t: Tables, op: Op)
    requires Accepts(t, op) && (op.AddHost? || op.AddStandalone? || op.AutoRoute?)
    ensures exists h :: h in Apply(t, op).hosts && Adds(op, h) && h.status == "staged" && h.error == "" && h.node == ""
  {
    hide Accepts, MapClusters, ClusterFor;
    var t' := Apply(t, op);
    assert t'.hosts[|t'.hosts| - 1] in t'.hosts;
  }

  lemma MovedFrom(rows: seq<Host>, f: Host -> Host, h': Host)
    requires h' in MapHosts(rows, f) && forall h :: f(h).id == h.id
    ensures HasHost(rows, h'.id)
  {
    var i: nat :| i < |rows| && MapHosts(rows, f)[i] == h';
    assert rows[i] in rows;
  }

  /** Every host after the call was there before it, or is the one the call adds. */
  lemma HostOrigins(t: Tables, op: Op, h': Host)
    requires Accepts(t, op) && h' in Apply(t, op).hosts
    ensures HasHost(t.hosts, h'.id) || Adds(op, h')
  {
    hide Accepts, Filter, HasHost, MapClusters, MapHosts, MapDatacenters, EmptyIfHostless, FindByPVEName, DisplayName;
    match op
    case DeleteHost(id) => FilterFrom(t.hosts, NotHost(id), h');
    case DeleteCluster(id) => FilterFrom(t.hosts, NotIn(id), h');
    case DeleteDatacenter(id) => FilterFrom(t.hosts, NotAt(id), h');
    case MoveHost(id, cluster) => MovedFrom(t.hosts, MoveListed([id], cluster, map[]), h');
    case Promote(id, address, dc, pveName, newId) =>
      var (t1, cluster) := ClusterFor(t, dc, pveName, address, newId);
      MovedFrom(t.hosts, MoveListed([id], cluster, map[]), h');
    case UpdateHost(id, address, tokenId, _, insecure) => MovedFrom(t.hosts, EditHost(id, address, tokenId, insecure), h');
    case SetHostStatus(id, status, error, node) => MovedFrom(t.hosts, WithStatus(id, status, error, node), h');
    case FormCluster(id, _, _, ids, updates) => MovedFrom(t.hosts, MoveListed(ids, id, updates), h');
    case AddHosts(cluster, ids, updates) => MovedFrom(t.hosts, MoveListed(ids, cluster, updates), h');
    case _ =>
      if h' in t.hosts {
        RowIsThere(t.hosts, h');
      }
  }

  lemma RowIsThere(rows: seq<Host>, h: Host)
    requires h in rows
    ensures HasHost(rows, h.id)
  {
  }

  lemma FilterFrom(rows: seq<Host>, keep: Host -> bool, h: Host)
    requires h in Filter(rows, keep)
    ensures HasHost(rows, h.id)
  {
    FilterIn(rows, keep);
  }

  // ---- Credentials given to an edit ----

  /** The stored row of a host. */
  ghost predicate Stored(t: Tables, id: string, h: Host) { h in t.hosts && h.id == id }

  predicate HoldsToken(h: Host, tokenId: string, secret: string) { h.conn.tokenId == tokenId && h.conn.tokenSecret == secret }

  lemma EditedRow(t: Tables, id: string, f: Host -> Host, h: Host, h': Host)
    requires Valid(t) && Stored(t, id, h) && h' in MapHosts(t.hosts, f) && h'.id == id && forall x :: f(x).id == x.id
    ensures h' == f(h)
  {
    var i: nat :| i < |t.hosts| && MapHosts(t.hosts, f)[i] == h';
    assert t.hosts[i] in t.hosts;
    SameRow(t, t.hosts[i], h);
  }

  /** After an accepted edit the host holds the given token if and only if it held the given secret before. */
  lemma EditStoresSecretIff(t: Tables, id: string, address: string, tokenId: string, secret: string, insecure: bool, h: Host, h': Host)
    requires Valid(t) && Accepts(t, UpdateHost(id, address, tokenId, secret, insecure)) && Stored(t, id, h)
    requires Stored(Apply(t, UpdateHost(id, address, tokenId, secret, insecure)), id, h')
    ensures HoldsToken(h', tokenId, secret) <==> h.conn.tokenSecret == secret
  {
    EditedRow(t, id, EditHost(id, address, tokenId, insecure), h, h');
  }

  /** The edit by which a node that joined is given the token of its cluster. */
  function JoinEdit(h: Host, token: Token): Op {
    UpdateHost(h.id, h.conn.address, token.id, token.secret, h.conn.insecure)
  }

  /** The move into the cluster that follows, with the token read back from the stored row. */
  function JoinMove(stored: Host, cluster: string): Op {
    AddHosts(cluster, [stored.id], map[stored.id := Token(stored.conn.tokenId, stored.conn.tokenSecret)])
  }

  /**
   * A node that joined a cluster ends up with the token of the cluster if and only if it had its secret already: the
   * edit drops the secret, and the move writes back what is stored.
   */
  lemma JoinedTokenIff(t: Tables, h: Host, cluster: string, token: Token, stored: Host, h': Host)
    requires Valid(t) && h in t.hosts && h.conn.address != "" && token.id != "" && cluster != "" && HasCluster(t, cluster)
    requires var t1 := Apply(t, JoinEdit(h, token)); Stored(t1, h.id, stored) && Stored(Apply(t1, JoinMove(stored, cluster)), h.id, h')
    ensures h'.cluster == Some(cluster) && h'.dc.None?
    ensures HoldsToken(h', token.id, token.secret) <==> h.conn.tokenSecret == token.secret
  {
    hide Valid, Apply, HasCluster, Stored;
    JoinedConn(t, h, cluster, token, stored, h');
  }

  /** A standalone host with a token of its own, and a cluster beside it. */
  function Joiner(): Host { Host("h", None, Some("d"), Conn("pve2", "root!old", "old", false), "online", "", "pve2") }

  function JoinTables(): Tables {
    Tables([Datacenter("d", "dc")], [Cluster("c", "lab", "lab", Some("d"), Active)], [Joiner()])
  }

  lemma JoinTablesValid()
    ensures Valid(JoinTables()) && HasCluster(JoinTables(), "c")
  {
    var t := JoinTables();
    assert t.dcs[0] in t.dcs && t.clusters[0] in t.clusters;
    assert HasDC(t, "d") && Owned(t, Joiner());
  }

  /** An input: a joined node is left with the token id of the cluster and its own old secret. */
  lemma JoinLeavesOldSecret(stored: Host, h': Host)
    requires var t1 := Apply(JoinTables(), JoinEdit(Joiner(), Token("root!new", "new")));
             Stored(t1, "h", stored) && Stored(Apply(t1, JoinMove(stored, "c")), "h", h')
    ensures Valid(JoinTables()) && h'.cluster == Some("c")
    ensures h'.conn == Conn("pve2", "root!new", "old", false) && !HoldsToken(h', "root!new", "new")
  {
    JoinTablesValid();
    hide Valid, Apply, JoinTables;
    assert Joiner() in JoinTables().hosts by {
      JoinerIsThere();
    }
    JoinedConn(JoinTables(), Joiner(), "c", Token("root!new", "new"), stored, h');
  }

  lemma JoinerIsThere()
    ensures Joiner() in JoinTables().hosts
  {
  }

  /** What a joined node holds in the end. */
  lemma JoinedConn(t: Tables, h: Host, cluster: string, token: Token, stored: Host, h': Host)
    requires Valid(t) && h in t.hosts && h.conn.address != "" && token.id != "" && cluster != "" && HasCluster(t, cluster)
    requires var t1 := Apply(t, JoinEdit(h, token)); Stored(t1, h.id, stored) && Stored(Apply(t1, JoinMove(stored, cluster)), h.id, h')
    ensures h'.cluster == Some(cluster) && h'.dc.None? && h'.conn == h.conn.(tokenId := token.id)
  {
    var edit, move := JoinEdit(h, token), JoinMove(stored, cluster);
    var t1 := Apply(t, edit);
    assert Accepts(t, edit);
    ApplyKeepsValid(t, edit);
    EditedRow(t, h.id, EditHost(h.id, h.conn.address, token.id, h.conn.insecure), h, stored);
    assert move.hosts[0] == h.id && HasHost(t1.hosts, h.id);
    assert Accepts(t1, move);
    EditedRow(t1, h.id, MoveListed([h.id], cluster, move.updates), stored, h');
  }

  // ---- Routing by PVE cluster name ----

  /** The host is in a cluster correlated to that PVE cluster. */
  ghost predicate RoutedTo(t: Tables, host: string, pveName: string) {
    exists h, c :: h in t.hosts && h.id == host && c in t.clusters && h.cluster == Some(c.id) && c.pveName == pveName
  }

  lemma CorrelatedCluster(t: Tables, dc: string, pveName: string, address: string, newId: string)
    ensures var (t1, cluster) := ClusterFor(t, dc, pveName, address, newId);
            exists c :: c in t1.clusters && c.id == cluster && c.pveName == pveName
  {
    var (t1, cluster) := ClusterFor(t, dc, pveName, address, newId);
    if FindByPVEName(t.clusters, pveName).None? {
      assert t1.clusters[|t1.clusters| - 1] in t1.clusters;
    }
  }

  /** A host that probes as a member of a PVE cluster ends up in the cluster correlated to it. */
  lemma AutoRouteLands(t: Tables, id: string, dc: string, conn: Conn, pveName: string, newId: string)
    requires Accepts(t, AutoRoute(id, dc, conn, Member(pveName), newId))
    ensures RoutedTo(Apply(t, AutoRoute(id, dc, conn, Member(pveName), newId)), id, pveName)
  {
    var t' := Apply(t, AutoRoute(id, dc, conn, Member(pveName), newId));
    var (t1, cluster) := ClusterFor(t, dc, pveName, conn.address, newId);
    CorrelatedCluster(t, dc, pveName, conn.address, newId);
    var c :| c in t1.clusters && c.id == cluster && c.pveName == pveName;
    var i: nat :| i < |t1.clusters| && t1.clusters[i] == c;
    assert t'.clusters[i] in t'.clusters;
    assert t'.hosts[|t'.hosts| - 1] in t'.hosts;
  }

  lemma PromoteLands(t: Tables, id: string, address: string, dc: string, pveName: string, newId: string)
    requires Accepts(t, Promote(id, address, dc, pveName, newId))
    ensures RoutedTo(Apply(t, Promote(id, address, dc, pveName, newId)), id, pveName)
  {
    hide FindByPVEName, DisplayName;
    var t' := Apply(t, Promote(id, address, dc, pveName, newId));
    var (t1, cluster) := ClusterFor(t, dc, pveName, address, newId);
    CorrelatedCluster(t, dc, pveName, address, newId);
    var c :| c in t1.clusters && c.id == cluster && c.pveName == pveName;
    var i: nat :| i < |t1.clusters| && t1.clusters[i] == c;
    assert t'.clusters[i] in t'.clusters;
    var h :| h in t.hosts && h.id == id;
    var j: nat :| j < |t.hosts| && t.hosts[j] == h;
    assert t'.hosts[j] in t'.hosts;
  }

  /** No real PVE cluster has two inventory clusters. */
  ghost predicate OnePerPVEName(clusters: seq<Cluster>) {
    forall i, j :: 0 <= i < j < |clusters| && clusters[i].pveName != "" ==> clusters[i].pveName != clusters[j].pveName
  }

  lemma {:induction false} FoundIffPresent(clusters: seq<Cluster>, pveName: string)
    ensures FindByPVEName(clusters, pveName).Some? <==> pveName != "" && exists c :: c in clusters && c.pveName == pveName
  {
    if clusters != [] && pveName != "" {
      FoundIffPresent(clusters[1..], pveName);
      assert clusters == [clusters[0]] + clusters[1..];
    }
  }

  lemma AppendName(clusters: seq<Cluster>, c: Cluster)
    requires OnePerPVEName(clusters)
    ensures OnePerPVEName(clusters + [c]) <==> c.pveName == "" || !exists x :: x in clusters && x.pveName == c.pveName
  {
    var all := clusters + [c];
    if c.pveName != "" {
      if x :| x in clusters && x.pveName == c.pveName {
        var i: nat :| i < |clusters| && clusters[i] == x;
        assert all[i] == x && all[|clusters|] == c;
      }
    }
    forall i, j | 0 <= i < j < |all| && all[i].pveName != "" && all[i].pveName == all[j].pveName
      ensures j == |clusters| && all[i] in clusters
    {
    }
  }

  lemma {:induction false} FilterNames(clusters: seq<Cluster>, keep: Cluster -> bool)
    requires OnePerPVEName(clusters)
    ensures OnePerPVEName(Filter(clusters, keep))
  {
    if clusters != [] {
      var front, last := clusters[..|clusters| - 1], clusters[|clusters| - 1];
      FilterNames(front, keep);
      FilterIn(front, keep);
      assert clusters == front + [last];
      AppendName(front, last);
      if keep(last) {
        AppendName(Filter(front, keep), last);
      }
    }
  }

  /** Whether a call asks outright for a second cluster of the same PVE name. */
  ghost predicate Duplicates(t: Tables, op: Op) {
    op.CreateCluster? && op.pveName != "" && exists c :: c in t.clusters && c.pveName == op.pveName
  }

  lemma RoutingNames(t: Tables, dc: string, pveName: string, address: string, newId: string)
    requires OnePerPVEName(t.clusters)
    ensures OnePerPVEName(ClusterFor(t, dc, pveName, address, newId).0.clusters)
  {
    FoundIffPresent(t.clusters, pveName);
    if FindByPVEName(t.clusters, pveName).None? {
      AppendName(t.clusters, Cluster(newId, DisplayName(t, pveName, address), pveName, Some(dc), Empty));
    }
  }

  lemma MapNames(clusters: seq<Cluster>, f: Cluster -> Cluster)
    requires forall c :: f(c).pveName == c.pveName
    ensures OnePerPVEName(MapClusters(clusters, f)) <==> OnePerPVEName(clusters)
  {
    var r := MapClusters(clusters, f);
    assert forall i :: 0 <= i < |r| ==> r[i].pveName == clusters[i].pveName;
  }

  lemma AcceptedNames(t: Tables, op: Op)
    requires OnePerPVEName(t.clusters)
    ensures OnePerPVEName(Effect(t, op).clusters) <==> !Duplicates(t, op)
  {
    hide OnePerPVEName, Filter, MapClusters, MapHosts, MapDatacenters, ClusterFor;
    match op
    case CreateCluster(id, name, dc, pveName) => AppendName(t.clusters, Cluster(id, name, pveName, dc, Empty));
    case FormCluster(id, name, dc, _, _) => AppendName(t.clusters, Cluster(id, name, "", dc, Active));
    case DeleteCluster(id) => FilterNames(t.clusters, NotCluster(id));
    case AutoRoute(_, dc, conn, probe, newId) =>
      if probe.Member? {
        RoutingNames(t, dc, probe.clusterName, conn.address, newId);
        var (t1, cluster) := ClusterFor(t, dc, probe.clusterName, conn.address, newId);
        MapNames(t1.clusters, SetStatus(cluster, Empty, PendingHosts));
      }
    case Promote(id, address, dc, pveName, newId) =>
      RoutingNames(t, dc, pveName, address, newId);
      var (t1, cluster) := ClusterFor(t, dc, pveName, address, newId);
      MapNames(t1.clusters, SetStatus(cluster, Empty, Active));
    case AddHost(_, cluster, _) => MapNames(t.clusters, SetStatus(cluster, Empty, PendingHosts));
    case MoveHost(_, cluster) => MapNames(t.clusters, SetStatus(cluster, Empty, PendingHosts));
    case DeleteHost(id) => MapNames(t.clusters, EmptyIfHostless(t.hosts, id, Filter(t.hosts, NotHost(id))));
    case DeleteDatacenter(id) => MapNames(t.clusters, Orphan(id));
    case MoveCluster(name, dc) => MapNames(t.clusters, Relocate(name, dc));
    case UpdateCluster(id, name, dc) => MapNames(t.clusters, EditCluster(id, name, dc));
    case SetClusterStatus(id, status) => MapNames(t.clusters, ForceStatus(id, status));
    case _ =>
  }

  /** Among the inventory calls only an explicit request can correlate two clusters to one PVE cluster. */
  lemma NamesStayUnique(t: Tables, op: Op)
    requires OnePerPVEName(t.clusters)
    ensures OnePerPVEName(Apply(t, op).clusters) <==> !(Accepts(t, op) && Duplicates(t, op))
  {
    hide OnePerPVEName, Accepts, Effect, Duplicates, ClusterFor;
    AcceptedNames(t, op);
    if op.Promote? {
      RoutingNames(t, op.datacenter, op.pveName, op.address, op.newCluster);
    }
  }

  // ---- Clusters ----

  /** The cluster that a routed or promoted host goes to, when it is there already. */
  function RouteTo(t: Tables, op: Op): Option<string> {
    match op
    case AutoRoute(_, _, _, probe, _) => if probe.Member? then FindByPVEName(t.clusters, probe.clusterName) else None
    case Promote(_, _, _, pveName, _) => FindByPVEName(t.clusters, pveName)
    case _ => None
  }

  /** The call brings a host into that cluster. */
  predicate Fills(t: Tables, op: Op, c: Cluster) {
    (op.AddHost? && op.cluster == c.id) || (op.MoveHost? && op.cluster == c.id) || RouteTo(t, op) == Some(c.id)
  }

  /** The call deletes the last host of that cluster. */
  ghost predicate Drains(t: Tables, op: Op, c: Cluster) {
    && op.DeleteHost? && (exists h :: h in t.hosts && h.id == op.id && h.cluster == Some(c.id))
    && forall h :: h in t.hosts && h.cluster == Some(c.id) ==> h.id == op.id
  }

  function NameAfter(op: Op, c: Cluster): string { if op.UpdateCluster? && op.id == c.id then op.name else c.name }

  function PlaceAfter(op: Op, c: Cluster): Option<string> {
    if op.UpdateCluster? && op.id == c.id then op.dc
    else if op.MoveCluster? && op.name == c.name then op.dc
    else if op.DeleteDatacenter? && c.dc == Some(op.id) then None
    else c.dc
  }

  ghost function ClusterStatusAfter(t: Tables, op: Op, c: Cluster): ClusterStatus {
    if op.SetClusterStatus? && op.id == c.id then op.status
    else if Drains(t, op, c) then Empty
    else if c.status == Empty && Fills(t, op, c) then (if op.Promote? then Active else PendingHosts)
    else c.status
  }

  ghost predicate ClusterMeets(rows: seq<Cluster>, t: Tables, op: Op, c: Cluster) {
    if op == DeleteCluster(c.id) then forall x :: x in rows ==> x.id != c.id
    else Cluster(c.id, NameAfter(op, c), c.pveName, PlaceAfter(op, c), ClusterStatusAfter(t, op, c)) in rows
  }

  lemma MappedCluster(clusters: seq<Cluster>, f: Cluster -> Cluster, c: Cluster)
    requires c in clusters
    ensures f(c) in MapClusters(clusters, f)
  {
    var i: nat :| i < |clusters| && clusters[i] == c;
    assert MapClusters(clusters, f)[i] == f(c);
  }

  /** Every call keeps each cluster it is not asked to delete, and changes of it exactly what it is asked to. */
  lemma ClusterFates(t: Tables, op: Op, c: Cluster)
    requires Valid(t) && Accepts(t, op) && c in t.clusters
    ensures ClusterMeets(Apply(t, op).clusters, t, op, c)
  {
    hide Accepts, Valid, ClusterMeets, Effect;
    if op.DeleteCluster? {
      DeletedCluster(t, op.id, c);
    } else if op.DeleteHost? {
      DrainedCluster(t, op.id, c);
    } else if op.AutoRoute? {
      RoutedCluster(t, op, c);
    } else if op.Promote? {
      PromotedCluster(t, op, c);
    } else {
      PlainCluster(t, op, c);
    }
  }

  lemma PlainCluster(t: Tables, op: Op, c: Cluster)
    requires c in t.clusters && !op.DeleteCluster? && !op.DeleteHost? && !op.AutoRoute? && !op.Promote?
    ensures ClusterMeets(Effect(t, op).clusters, t, op, c)
  {
    hide Filter, MapClusters, MapHosts, MapDatacenters, FindByPVEName, ClusterFor;
    match op
    case DeleteDatacenter(id) => MappedCluster(t.clusters, Orphan(id), c);
    case MoveCluster(name, dc) => MappedCluster(t.clusters, Relocate(name, dc), c);
    case UpdateCluster(id, name, dc) => MappedCluster(t.clusters, EditCluster(id, name, dc), c);
    case SetClusterStatus(id, status) => MappedCluster(t.clusters, ForceStatus(id, status), c);
    case AddHost(_, cluster, _) => MappedCluster(t.clusters, SetStatus(cluster, Empty, PendingHosts), c);
    case MoveHost(_, cluster) => MappedCluster(t.clusters, SetStatus(cluster, Empty, PendingHosts), c);
    case _ =>
  }

  lemma RoutedCluster(t: Tables, op: Op, c: Cluster)
    requires Accepts(t, op) && c in t.clusters && op.AutoRoute?
    ensures ClusterMeets(Effect(t, op).clusters, t, op, c)
  {
    if op.probe.Member? {
      NewIdDiffers(t, op, c);
      hide Accepts, MapClusters, FindByPVEName, DisplayName;
      var (t1, cluster) := ClusterFor(t, op.datacenter, op.probe.clusterName, op.conn.address, op.newCluster);
      MappedCluster(t1.clusters, SetStatus(cluster, Empty, PendingHosts), c);
    }
  }

  lemma PromotedCluster(t: Tables, op: Op, c: Cluster)
    requires Accepts(t, op) && c in t.clusters && op.Promote?
    ensures ClusterMeets(Effect(t, op).clusters, t, op, c)
  {
    NewIdDiffers(t, op, c);
    hide Accepts, MapClusters, MapHosts, FindByPVEName, DisplayName;
    var (t1, cluster) := ClusterFor(t, op.datacenter, op.pveName, op.address, op.newCluster);
    MappedCluster(t1.clusters, SetStatus(cluster, Empty, Active), c);
  }

  /** A cluster that routing creates has an id of its own. */
  lemma NewIdDiffers(t: Tables, op: Op, c: Cluster)
    requires Accepts(t, op) && c in t.clusters && (op.Promote? || (op.AutoRoute? && op.probe.Member?))
    ensures RouteTo(t, op).None? ==> c.id != op.newCluster
  {
    hide FindByPVEName, DisplayName;
  }

  lemma DeletedCluster(t: Tables, id: string, c: Cluster)
    requires c in t.clusters
    ensures ClusterMeets(Effect(t, DeleteCluster(id)).clusters, t, DeleteCluster(id), c)
  {
    FilterIn(t.clusters, NotCluster(id));
    hide Filter;
  }

  lemma DrainedCluster(t: Tables, id: string, c: Cluster)
    requires c in t.clusters
    ensures ClusterMeets(Effect(t, DeleteHost(id)).clusters, t, DeleteHost(id), c)
  {
    var rest := Filter(t.hosts, NotHost(id));
    FilterIn(t.hosts, NotHost(id));
    hide Filter, MapClusters;
    MappedCluster(t.clusters, EmptyIfHostless(t.hosts, id, rest), c);
    assert Drains(t, DeleteHost(id), c) <==>
           (exists h :: h in t.hosts && h.id == id && h.cluster == Some(c.id)) && !(exists h :: h in rest && h.cluster == Some(c.id));
  }

  /** The call creates that cluster, under the name its PVE cluster has unless another cluster has it already. */
  predicate Creates(t: Tables, op: Op, c: Cluster) {
    match op
    case CreateCluster(id, name, dc, pveName) => c == Cluster(id, name, pveName, dc, Empty)
    case FormCluster(id, name, dc, _, _) => c == Cluster(id, name, "", dc, Active)
    case AutoRoute(_, dc, conn, probe, newId) =>
      probe.Member? && c.id == newId && c.pveName == probe.clusterName && c.dc == Some(dc) && c.status == PendingHosts
      && c.name == probe.clusterName + (if HasClusterNamed(t, probe.clusterName) then " (" + conn.address + ")" else "")
    case Promote(_, address, dc, pveName, newId) =>
      c.id == newId && c.pveName == pveName && c.dc == Some(dc) && c.status == Active
      && c.name == pveName + (if HasClusterNamed(t, pveName) then " (" + address + ")" else "")
    case _ => false
  }

  /** Every cluster after the call was there before it, or is the one the call creates. */
  lemma ClusterOrigins(t: Tables, op: Op, c': Cluster)
    requires Accepts(t, op) && c' in Apply(t, op).clusters
    ensures HasCluster(t, c'.id) || Creates(t, op, c')
  {
    hide Accepts, Filter, MapHosts, MapDatacenters, FindByPVEName, HasCluster;
    var rows := Apply(t, op).clusters;
    var i: nat :| i < |rows| && rows[i] == c';
    match op
    case DeleteCluster(id) => FilterIn(t.clusters, NotCluster(id)); ClusterIsThere(t, c');
    case CreateCluster(_, _, _, _) => if i < |t.clusters| { ClusterIsThere(t, t.clusters[i]); }
    case FormCluster(_, _, _, _, _) => if i < |t.clusters| { ClusterIsThere(t, t.clusters[i]); }
    case AutoRoute(_, dc, conn, probe, newId) =>
      if probe.Member? {
        RoutedOrigin(t, dc, probe.clusterName, conn.address, newId, PendingHosts, i);
      } else {
        ClusterIsThere(t, t.clusters[i]);
      }
    case Promote(_, address, dc, pveName, newId) => RoutedOrigin(t, dc, pveName, address, newId, Active, i);
    case _ => ClusterIsThere(t, t.clusters[i]);
  }

  /** A row after routing was there before, or is the created one. */
  lemma RoutedOrigin(t: Tables, dc: string, pveName: string, address: string, newId: string, status: ClusterStatus, i: nat)
    requires i < |ClusterFor(t, dc, pveName, address, newId).0.clusters|
    ensures var (t1, cluster) := ClusterFor(t, dc, pveName, address, newId);
            var c := SetStatus(cluster, Empty, status)(t1.clusters[i]);
            || HasCluster(t, c.id)
            || (c.id == newId && c.pveName == pveName && c.dc == Some(dc) && c.status == status
                && c.name == pveName + (if HasClusterNamed(t, pveName) then " (" + address + ")" else ""))
  {
    hide FindByPVEName, HasClusterNamed, HasCluster;
    var (t1, cluster) := ClusterFor(t, dc, pveName, address, newId);
    if i < |t.clusters| {
      ClusterIsThere(t, t.clusters[i]);
    }
  }

  lemma ClusterIsThere(t: Tables, c: Cluster)
    requires c in t.clusters
    ensures HasCluster(t, c.id)
  {
  }

  /** Datacenters come and go and are renamed only by the calls for that. */
  lemma DatacenterFates(t: Tables, op: Op, id: string, name: string)
    requires Accepts(t, op)
    ensures Datacenter(id, name) in Apply(t, op).dcs <==>
            || (op.CreateDatacenter? && op.id == id && op.name == name)
            || (op.UpdateDatacenter? && op.id == id && op.name == name)
            || (Datacenter(id, name) in t.dcs && op != DeleteDatacenter(id) && !(op.UpdateDatacenter? && op.id == id))
  {
    assert op.UpdateDatacenter? ==> HasDC(t, op.id);
    hide Accepts, Filter, MapHosts, MapClusters, FindByPVEName, HasDC;
    match op
    case DeleteDatacenter(x) => FilterIn(t.dcs, NotDC(x));
    case UpdateDatacenter(x, n) => RenamedDatacenter(t, x, n, id, name);
    case _ =>
  }

  lemma RenamedDatacenter(t: Tables, x: string, n: string, id: string, name: string)
    requires HasDC(t, x)
    ensures Datacenter(id, name) in MapDatacenters(t.dcs, RenameDC(x, n)) <==>
            (x == id && n == name) || (Datacenter(id, name) in t.dcs && x != id)
  {
    var f := RenameDC(x, n);
    var rows := MapDatacenters(t.dcs, f);
    if Datacenter(id, name) in rows {
      var i: nat :| i < |rows| && rows[i] == Datacenter(id, name);
      assert t.dcs[i] in t.dcs;
    }
    if x == id && n == name {
      var d :| d in t.dcs && d.id == x;
      var i: nat :| i < |t.dcs| && t.dcs[i] == d;
      assert rows[i] == Datacenter(id, name);
    }
    if Datacenter(id, name) in t.dcs && x != id {
      var i: nat :| i < |t.dcs| && t.dcs[i] == Datacenter(id, name);
      assert rows[i] == t.dcs[i];
    }
  }
}
