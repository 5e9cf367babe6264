/** From the cluster state to loads and placement, and the effect of a recommendation on rule violations. */
module DrsAnalysis {
  import opened Seqs
  import opened DrsRules
  import opened DrsScheduler

  datatype StoredGuest = StoredGuest(guest: Guest, node: string, running: bool)

  /** A node's share of CPU in use, and its memory in use and in all. */
  datatype StoredNode = StoredNode(name: string, online: bool, cpu: real, mem: nat, maxMem: nat)

  datatype Cluster = Cluster(nodes: seq<StoredNode>, vms: seq<StoredGuest>, cts: seq<StoredGuest>)

  // ---- Loads ----

  function RunsOn(node: string): StoredGuest -> bool {
    (s: StoredGuest) => s.running && s.node == node
  }

  function Guests(ss: seq<StoredGuest>): (r: seq<Guest>)
    ensures |r| == |ss| && forall i :: 0 <= i < |ss| ==> r[i] == ss[i].guest
  {
    seq(|ss|, i requires 0 <= i < |ss| => ss[i].guest)
  }

  function GuestsOn(ss: seq<StoredGuest>, node: string): seq<Guest> {
    Guests(Filter(ss, RunsOn(node)))
  }

  /** The share of memory in use; none for a node that reports no memory. */
  function MemShare(n: StoredNode): real { if n.maxMem > 0 then n.mem as real / n.maxMem as real else 0.0 }

  function LoadOf(c: Cluster, n: StoredNode): NodeLoad {
    NodeLoad(n.name, n.cpu, MemShare(n), GuestsOn(c.vms, n.name), GuestsOn(c.cts, n.name))
  }

  /** Group running guests by node, then build one load per online node. */
  method CalculateNodeLoads(c: Cluster) returns (loads: seq<NodeLoad>)
    ensures AllLoads(c, loads)
    ensures WellFormed(c) ==> UniqueLoads(loads)
    ensures LoadsMatch(c, loads)
  {
    hide GuestsOn, WellFormed, UniqueLoads, LoadsMatch;
    var vmsByNode := GroupByNode(c.vms);
    var ctsByNode := GroupByNode(c.cts);
    loads := [];
    for i := 0 to |c.nodes|
      invariant forall l :: l in loads <==> exists j :: 0 <= j < i && c.nodes[j].online && l == LoadOf(c, c.nodes[j])
      invariant WellFormed(c) ==> NoDup(loads)
    {
      var n := c.nodes[i];
      if WellFormed(c) {
        EarlierNamesDiffer(c, i);
      }
      if !n.online {
        continue;
      }
      assert WellFormed(c) ==> forall k :: 0 <= k < |loads| ==> loads[k].node != n.name by {
        forall k | 0 <= k < |loads| ensures exists j :: 0 <= j < i && loads[k].node == c.nodes[j].name {
          assert loads[k] in loads;
        }
      }
      var memory := 0.0;
      if n.maxMem > 0 {
        memory := n.mem as real / n.maxMem as real;
      }
      loads := loads + [NodeLoad(n.name, n.cpu, memory,
                                 if n.name in vmsByNode then vmsByNode[n.name] else [],
                                 if n.name in ctsByNode then ctsByNode[n.name] else [])];
    }
    forall l | l in loads ensures exists n :: n in c.nodes && n.online && l == LoadOf(c, n) {
      var j :| 0 <= j < |c.nodes| && c.nodes[j].online && l == LoadOf(c, c.nodes[j]);
      assert c.nodes[j] in c.nodes;
    }
    AllLoadsMatch(c, loads);
    if WellFormed(c) {
      LoadsAreUnique(c, loads);
    }
  }

  /** The loads are those of the online nodes. */
  ghost predicate LoadsMatch(c: Cluster, loads: seq<NodeLoad>) {
    && (forall n :: n in c.nodes && n.online ==> exists l :: l in loads && LoadIs(c, n, l))
    && (forall l :: l in loads ==> exists n :: n in c.nodes && n.online && LoadIs(c, n, l))
  }

  lemma AllLoadsMatch(c: Cluster, loads: seq<NodeLoad>)
    requires AllLoads(c, loads)
    ensures LoadsMatch(c, loads)
  {
    hide LoadIs, LoadOf;
    forall n | n in c.nodes && n.online ensures LoadOf(c, n) in loads && LoadIs(c, n, LoadOf(c, n)) {
      LoadOfIs(c, n);
    }
    forall l | l in loads ensures exists n :: n in c.nodes && n.online && LoadIs(c, n, l) {
      var n :| n in c.nodes && n.online && l == LoadOf(c, n);
      LoadOfIs(c, n);
    }
  }

  /** The load shows the node's CPU and memory shares and exactly its running guests. */
  ghost predicate LoadIs(c: Cluster, n: StoredNode, l: NodeLoad) {
    && l.node == n.name && l.cpu == n.cpu && l.mem * n.maxMem as real == (if n.maxMem > 0 then n.mem as real else 0.0)
    && (n.maxMem == 0 ==> l.mem == 0.0)
    && (forall g :: g in l.vms <==> exists s :: s in c.vms && s.running && s.node == n.name && s.guest == g)
    && (forall g :: g in l.cts <==> exists s :: s in c.cts && s.running && s.node == n.name && s.guest == g)
  }

  lemma LoadOfIs(c: Cluster, n: StoredNode)
    ensures LoadIs(c, n, LoadOf(c, n))
  {
    forall g ensures g in GuestsOn(c.vms, n.name) <==> exists s :: s in c.vms && s.running && s.node == n.name && s.guest == g {
      OnNodeIff(c.vms, n.name, g);
    }
    forall g ensures g in GuestsOn(c.cts, n.name) <==> exists s :: s in c.cts && s.running && s.node == n.name && s.guest == g {
      OnNodeIff(c.cts, n.name, g);
    }
    hide GuestsOn;
    if n.maxMem > 0 {
      Share(n.mem as real, n.maxMem as real);
    }
  }

  lemma Share(a: real, b: real)
    requires b > 0.0
    ensures a / b * b == a
  {
  }

  lemma EarlierNamesDiffer(c: Cluster, i: nat)
    requires WellFormed(c) && i < |c.nodes|
    ensures forall j :: 0 <= j < i ==> c.nodes[j].name != c.nodes[i].name
  {
    forall j | 0 <= j < i ensures c.nodes[j].name != c.nodes[i].name {
      assert c.nodes[j] in c.nodes && c.nodes[i] in c.nodes && c.nodes[j] != c.nodes[i];
    }
  }

  method GroupByNode(ss: seq<StoredGuest>) returns (byNode: map<string, seq<Guest>>)
    ensures forall n :: (if n in byNode then byNode[n] else []) == GuestsOn(ss, n)
  {
    hide GuestsOn;
    byNode := map[];
    NobodyOn();
    assert ss[..0] == [];
    for i := 0 to |ss|
      invariant forall n :: (if n in byNode then byNode[n] else []) == GuestsOn(ss[..i], n)
    {
      var s := ss[i];
      forall n ensures GuestsOn(ss[..i + 1], n) == GuestsOn(ss[..i], n) + (if s.running && s.node == n then [s.guest] else []) {
        OneMoreOn(ss, i, n);
      }
      if s.running {
        byNode := byNode[s.node := (if s.node in byNode then byNode[s.node] else []) + [s.guest]];
      }
    }
    assert ss[..|ss|] == ss;
  }

  lemma NobodyOn()
    ensures forall n :: GuestsOn([], n) == []
  {
    forall n ensures GuestsOn([], n) == [] {
      FilterNone<StoredGuest>([], RunsOn(n));
    }
  }

  lemma OneMoreOn(ss: seq<StoredGuest>, i: nat, n: string)
    requires i < |ss|
    ensures GuestsOn(ss[..i + 1], n) == GuestsOn(ss[..i], n) + (if ss[i].running && ss[i].node == n then [ss[i].guest] else [])
  {
    assert ss[..i + 1] == ss[..i] + [ss[i]];
    FilterSnoc(ss[..i], ss[i], RunsOn(n));
    hide Filter;
  }

  /** The vmid-to-node map the detector builds; later rows win. */
  function PlaceAll(ss: seq<StoredGuest>, base: Placement): Placement {
    if ss == [] then base else PlaceAll(ss[..|ss| - 1], base)[ss[|ss| - 1].guest.vmid := ss[|ss| - 1].node]
  }

  function PlacementOf(c: Cluster): Placement {
    PlaceAll(c.cts, PlaceAll(c.vms, map[]))
  }

  ghost predicate UniqueIds(ss: seq<StoredGuest>) {
    forall s, t :: s in ss && t in ss && s.guest.vmid == t.guest.vmid ==> s == t
  }

  lemma {:induction false} PlaceAllMeaning(ss: seq<StoredGuest>, base: Placement, v: int)
    requires UniqueIds(ss)
    ensures forall s :: s in ss && s.guest.vmid == v ==> v in PlaceAll(ss, base) && PlaceAll(ss, base)[v] == s.node
    ensures (forall s :: s in ss ==> s.guest.vmid != v) ==>
      (v in PlaceAll(ss, base) <==> v in base) && (v in base ==> PlaceAll(ss, base)[v] == base[v])
  {
    if ss != [] {
      var front, last := ss[..|ss| - 1], ss[|ss| - 1];
      assert ss == front + [last];
      PlaceAllMeaning(front, base, v);
      assert last in ss;
    }
  }

  /** Guests have unique ids across both lists and nodes have unique, non-empty names. */
  ghost predicate WellFormed(c: Cluster) {
    && UniqueIds(c.vms) && UniqueIds(c.cts) && NoDup(c.vms) && NoDup(c.cts)
    && (forall s, t :: s in c.vms && t in c.cts ==> s.guest.vmid != t.guest.vmid)
    && (forall m, n :: m in c.nodes && n in c.nodes && m.name == n.name ==> m == n)
    && NoDup(c.nodes)
    && forall n :: n in c.nodes ==> n.name != ""
  }

  lemma StoredIsPlaced(c: Cluster, s: StoredGuest)
    requires WellFormed(c) && (s in c.vms || s in c.cts)
    ensures s.guest.vmid in PlacementOf(c) && PlacementOf(c)[s.guest.vmid] == s.node
  {
    var v := s.guest.vmid;
    PlaceAllMeaning(c.vms, map[], v);
    PlaceAllMeaning(c.cts, PlaceAll(c.vms, map[]), v);
  }

  lemma PlacedIsStored(c: Cluster, v: int) returns (s: StoredGuest)
    requires WellFormed(c) && v in PlacementOf(c)
    ensures (s in c.vms || s in c.cts) && s.guest.vmid == v && s.node == PlacementOf(c)[v]
  {
    PlaceAllMeaning(c.vms, map[], v);
    PlaceAllMeaning(c.cts, PlaceAll(c.vms, map[]), v);
    if t :| t in c.cts && t.guest.vmid == v {
      s := t;
    } else {
      s :| s in c.vms && s.guest.vmid == v;
    }
  }

  lemma OnNodeIff(ss: seq<StoredGuest>, node: string, g: Guest)
    ensures g in GuestsOn(ss, node) <==> exists s :: s in ss && s.running && s.node == node && s.guest == g
  {
    var f := Filter(ss, RunsOn(node));
    FilterIn(ss, RunsOn(node));
    hide Filter;
    if g in Guests(f) {
      var i :| 0 <= i < |f| && Guests(f)[i] == g;
      assert f[i] in f;
    }
    if s :| s in ss && s.running && s.node == node && s.guest == g {
      assert s in f;
      var i :| 0 <= i < |f| && f[i] == s;
      assert Guests(f)[i] == g;
    }
  }

  /** The stored guest behind an id of a load. */
  lemma LoadedIdIsStored(c: Cluster, n: StoredNode, v: int) returns (s: StoredGuest)
    requires v in Ids(LoadOf(c, n))
    ensures (s in c.vms || s in c.cts) && s.node == n.name && s.guest.vmid == v
  {
    var l := LoadOf(c, n);
    hide Filter, GuestsOn;
    var i :| 0 <= i < |Ids(l)| && Ids(l)[i] == v;
    var g := if i < |l.vms| then l.vms[i] else l.cts[i - |l.vms|];
    var ss := if i < |l.vms| then c.vms else c.cts;
    assert g in GuestsOn(ss, n.name);
    OnNodeIff(ss, n.name, g);
    s :| s in ss && s.running && s.node == n.name && s.guest == g;
  }

  lemma LoadsAreUnique(c: Cluster, loads: seq<NodeLoad>)
    requires WellFormed(c) && AllLoads(c, loads) && NoDup(loads)
    ensures UniqueLoads(loads)
  {
    hide Ids, LoadOf;
    forall a, b, v | a in loads && b in loads && a != b && v in Ids(a) ensures v !in Ids(b) {
      var m :| m in c.nodes && m.online && a == LoadOf(c, m);
      var n :| n in c.nodes && n.online && b == LoadOf(c, n);
      var s := LoadedIdIsStored(c, m, v);
      if v in Ids(b) {
        var t := LoadedIdIsStored(c, n, v);
      }
    }
    forall a, b | a in loads && b in loads && a != b ensures a.node != b.node {
      var m :| m in c.nodes && m.online && a == LoadOf(c, m);
      var n :| n in c.nodes && n.online && b == LoadOf(c, n);
      LoadName(c, m);
      LoadName(c, n);
    }
    forall a | a in loads ensures NoDup(Ids(a)) {
      var m :| m in c.nodes && m.online && a == LoadOf(c, m);
      LoadIdsDistinct(c, m);
    }
  }

  lemma LoadName(c: Cluster, n: StoredNode)
    ensures LoadOf(c, n).node == n.name
  {
  }

  lemma LoadIdsDistinct(c: Cluster, n: StoredNode)
    requires WellFormed(c)
    ensures NoDup(Ids(LoadOf(c, n)))
  {
    var l := LoadOf(c, n);
    var vs, cs := Filter(c.vms, RunsOn(n.name)), Filter(c.cts, RunsOn(n.name));
    FilterNoDup(c.vms, RunsOn(n.name));
    FilterNoDup(c.cts, RunsOn(n.name));
    FilterIn(c.vms, RunsOn(n.name));
    FilterIn(c.cts, RunsOn(n.name));
    hide Filter;
    var ids := Ids(l);
    forall i, j | 0 <= i < j < |ids| ensures ids[i] != ids[j] {
      var s := if i < |vs| then vs[i] else cs[i - |vs|];
      var t := if j < |vs| then vs[j] else cs[j - |vs|];
      assert s.guest.vmid == ids[i] && t.guest.vmid == ids[j];
      assert if i < |vs| then s in vs else s in cs;
      assert if j < |vs| then t in vs else t in cs;
    }
  }

  // ---- Rules ----

  /** The rules a cluster honours: no repeated members, and every placed member is running. */
  ghost predicate Tidy(c: Cluster, rules: seq<Rule>) {
    forall r :: r in rules ==>
      && NoDup(r.members)
      && forall s :: (s in c.vms || s in c.cts) && s.guest.vmid in r.members ==> s.running
  }

  /** Every enabled pin with a host agrees with the first enabled pin of the guest. */
  ghost predicate FirstPinDecides(rules: seq<Rule>, vmid: int) {
    forall r :: r in rules && r.enabled && r.kind == HostPin && vmid in r.members && r.host != "" ==>
      r.host == PinnedHost(vmid, rules)
  }

  ghost predicate AllLoads(c: Cluster, loads: seq<NodeLoad>) {
    forall l :: l in loads <==> exists n :: n in c.nodes && n.online && l == LoadOf(c, n)
  }

  /** A recommended guest sits on the node it is moved from. */
  lemma RecommendedGuestIsPlaced(c: Cluster, src: NodeLoad, rules: seq<Rule>, cand: Candidate)
    requires WellFormed(c) && Migratable(src, rules, cand)
    requires exists n :: n in c.nodes && n.online && src == LoadOf(c, n)
    ensures cand.vmid in PlacementOf(c) && PlacementOf(c)[cand.vmid] == src.node
  {
    hide Filter, GuestsOn, PlaceAll, Ids;
    var ss := if cand.isVM then c.vms else c.cts;
    var gs := if cand.isVM then src.vms else src.cts;
    var g :| g in gs && g.vmid == cand.vmid;
    OnNodeIff(ss, src.node, g);
    var s :| s in ss && s.running && s.node == src.node && s.guest == g;
    StoredIsPlaced(c, s);
  }

  /** A placed, running guest on an online node appears in that node's load. */
  lemma PlacedGuestIsLoaded(c: Cluster, loads: seq<NodeLoad>, dst: NodeLoad, v: int)
    requires WellFormed(c) && AllLoads(c, loads) && dst in loads
    requires v in PlacementOf(c) && PlacementOf(c)[v] == dst.node
    requires forall s :: (s in c.vms || s in c.cts) && s.guest.vmid == v ==> s.running
    ensures Holds(dst.vms, v) || Holds(dst.cts, v)
  {
    hide Filter, GuestsOn, PlaceAll;
    var s := PlacedIsStored(c, v);
    OnNodeIff(c.vms, dst.node, s.guest);
    OnNodeIff(c.cts, dst.node, s.guest);
  }

  /** The rule is an enabled pin of the guest to that node. */
  predicate Pins(rule: Rule, vmid: int, node: string) {
    rule.enabled && rule.kind == HostPin && vmid in rule.members && rule.host == node
  }

  /** Carrying out a recommendation adds a report exactly to the enabled pins that name the node the guest leaves. */
  lemma RuleWorseIff(cfg: Settings, c: Cluster, rules: seq<Rule>, loads: seq<NodeLoad>, under: seq<NodeLoad>,
                     r: Recommendation, rule: Rule)
    requires WellFormed(c) && Tidy(c, rules) && AllLoads(c, loads) && UnderloadedOf(cfg, loads, under)
    requires Justified(cfg, rules, loads, under, r) && rule in rules && rule.kind != Affinity
    ensures Count(rule, PlacementOf(c)[r.vmid := r.to]) > Count(rule, PlacementOf(c)) <==> Pins(rule, r.vmid, r.from)
  {
    hide PlaceAll, Filter, Ids, LoadOf;
    var placement := PlacementOf(c);
    var src, dst :| src in loads && Overloaded(cfg, src) && src.node == r.from
                    && dst in under && dst.node == r.to && r.from != r.to
                    && Migratable(src, rules, Candidate(r.vmid, r.isVM, 0.0))
                    && Allowed(r.vmid, r.to, rules, under);
    RecommendedGuestIsPlaced(c, src, rules, Candidate(r.vmid, r.isVM, 0.0));
    if rule.enabled && rule.kind == AntiAffinity {
      if r.vmid in rule.members {
        forall m | m in rule.members && m != r.vmid && m in placement ensures placement[m] != r.to {
          if placement[m] == r.to {
            PlacedGuestIsLoaded(c, loads, dst, m);
            MemberCrowds(r.vmid, rules, under, rule, m, dst);
          }
        }
      }
      AntiAffinityNeverWorse(rule, placement, r.vmid, r.to);
    } else if rule.enabled {
      PinWorseIff(rule, placement, r.vmid, r.to);
    }
  }

  /** A recommendation never increases the anti-affinity and host-pin reports, unless a pin names the node the guest leaves. */
  lemma RecommendationNeverWorseIff(cfg: Settings, c: Cluster, rules: seq<Rule>, loads: seq<NodeLoad>, under: seq<NodeLoad>, r: Recommendation)
    requires WellFormed(c) && Tidy(c, rules) && AllLoads(c, loads) && UnderloadedOf(cfg, loads, under)
    requires Justified(cfg, rules, loads, under, r)
    ensures (forall rule :: rule in rules && rule.kind != Affinity ==>
               Count(rule, PlacementOf(c)[r.vmid := r.to]) <= Count(rule, PlacementOf(c)))
            <==> (forall rule :: rule in rules ==> !Pins(rule, r.vmid, r.from))
  {
    hide Justified, Count, PlacementOf, Tidy, WellFormed, AllLoads, UnderloadedOf;
    forall rule | rule in rules && rule.kind != Affinity
      ensures Count(rule, PlacementOf(c)[r.vmid := r.to]) > Count(rule, PlacementOf(c)) <==> Pins(rule, r.vmid, r.from)
    {
      RuleWorseIff(cfg, c, rules, loads, under, r, rule);
    }
  }

  /** When all pins of the guest that name a host agree with its first enabled pin, no recommendation makes a rule worse. */
  lemma RecommendationNeverWorse(cfg: Settings, c: Cluster, rules: seq<Rule>, loads: seq<NodeLoad>, under: seq<NodeLoad>,
                                 r: Recommendation, rule: Rule)
    requires WellFormed(c) && Tidy(c, rules) && AllLoads(c, loads) && UnderloadedOf(cfg, loads, under)
    requires Justified(cfg, rules, loads, under, r) && FirstPinDecides(rules, r.vmid)
    requires rule in rules && rule.kind != Affinity
    ensures Count(rule, PlacementOf(c)[r.vmid := r.to]) <= Count(rule, PlacementOf(c))
  {
    hide Count, PlacementOf, Tidy, LoadOf, Ids, Crowds;
    RuleWorseIff(cfg, c, rules, loads, under, r, rule);
    var src :| src in loads && Overloaded(cfg, src) && src.node == r.from && r.from != r.to && Allowed(r.vmid, r.to, rules, under);
    NodeNamed(c, src);
  }

  lemma MemberCrowds(vmid: int, rules: seq<Rule>, loads: seq<NodeLoad>, rule: Rule, other: int, load: NodeLoad)
    requires rule in rules && rule.enabled && rule.kind == AntiAffinity && vmid in rule.members
    requires other in rule.members && other != vmid && load in loads && (Holds(load.vms, other) || Holds(load.cts, other))
    ensures Crowds(vmid, load.node, rules, loads)
  {
  }

  lemma NodeNamed(c: Cluster, l: NodeLoad)
    requires WellFormed(c) && exists n :: n in c.nodes && n.online && l == LoadOf(c, n)
    ensures l.node != ""
  {
  }
}
