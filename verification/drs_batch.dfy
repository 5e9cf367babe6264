/** All recommendations of one run together, and a cluster on which the scheduler breaks a pin. */
module DrsBatch {
  import opened Options
  import opened Seqs
  import opened DrsRules
  import opened DrsScheduler
  import opened DrsAnalysis

  // ---- Carrying out a whole batch ----

  /** Where the batch sends a guest, if anywhere. */
  function Destination(recs: seq<Recommendation>, vmid: int): (to: Option<string>)
    ensures to.None? <==> forall r :: r in recs ==> r.vmid != vmid
    ensures to.Some? ==> exists r :: r in recs && r.vmid == vmid && r.to == to.value
  {
    if recs == [] then None
    else if recs[0].vmid == vmid then Some(recs[0].to)
    else Destination(recs[1..], vmid)
  }

  function AfterBatch(placement: Placement, recs: seq<Recommendation>): Placement {
    map v | v in placement :: if Destination(recs, v).Some? then Destination(recs, v).value else placement[v]
  }

  /** What a run on a well-formed cluster hands out. */
  ghost predicate Batch(cfg: Settings, c: Cluster, rules: seq<Rule>, loads: seq<NodeLoad>, under: seq<NodeLoad>, recs: seq<Recommendation>) {
    && WellFormed(c) && Tidy(c, rules) && AllLoads(c, loads) && UnderloadedOf(cfg, loads, under)
    && DistinctGuests(recs) && forall r :: r in recs ==> Justified(cfg, rules, loads, under, r)
  }

  lemma DestinationIs(recs: seq<Recommendation>, r: Recommendation)
    requires DistinctGuests(recs) && r in recs
    ensures Destination(recs, r.vmid) == Some(r.to)
  {
    hide Destination;
    var d := Destination(recs, r.vmid);
    var q :| q in recs && q.vmid == r.vmid && q.to == d.value;
    var i: nat :| i < |recs| && recs[i] == r;
    var j: nat :| j < |recs| && recs[j] == q;
  }

  /** The rule keeps the two guests on different nodes. */
  predicate Separates(rule: Rule, a: int, b: int) {
    rule.enabled && rule.kind == AntiAffinity && a in rule.members && b in rule.members
  }

  /** A recommended guest sits on the node it leaves, and before the batch no other member of its rules is where it goes. */
  lemma TargetIsFree(cfg: Settings, c: Cluster, rules: seq<Rule>, loads: seq<NodeLoad>, under: seq<NodeLoad>, r: Recommendation)
    requires WellFormed(c) && Tidy(c, rules) && AllLoads(c, loads) && UnderloadedOf(cfg, loads, under)
    requires Justified(cfg, rules, loads, under, r)
    ensures r.vmid in PlacementOf(c) && PlacementOf(c)[r.vmid] == r.from && r.from != r.to
    ensures forall rule, m :: rule in rules && Separates(rule, r.vmid, m) && m in PlacementOf(c) ==> PlacementOf(c)[m] != r.to
  {
    hide PlaceAll, Filter, Ids, LoadOf;
    var placement := PlacementOf(c);
    var src, dst :| src in loads && Overloaded(cfg, src) && src.node == r.from
                    && dst in under && dst.node == r.to && r.from != r.to
                    && Migratable(src, rules, Candidate(r.vmid, r.isVM, 0.0))
                    && Allowed(r.vmid, r.to, rules, under);
    RecommendedGuestIsPlaced(c, src, rules, Candidate(r.vmid, r.isVM, 0.0));
    forall rule, m | rule in rules && Separates(rule, r.vmid, m) && m in placement ensures placement[m] != r.to {
      if placement[m] == r.to {
        PlacedGuestIsLoaded(c, loads, dst, m);
        MemberCrowds(r.vmid, rules, under, rule, m, dst);
      }
    }
  }

  /** Two guests of one rule are sent to one node. */
  ghost predicate Collide(recs: seq<Recommendation>, rule: Rule) {
    exists r, q :: r in recs && q in recs && r.vmid != q.vmid && r.vmid in rule.members && q.vmid in rule.members && r.to == q.to
  }

  lemma TwoSit(rule: Rule, placement: Placement, a: int, b: int)
    requires a in rule.members && b in rule.members && a != b && a in placement && b in placement && placement[a] == placement[b]
    ensures placement[a] in Crowded(rule, placement)
  {
    var on := OnNode(rule, placement, placement[a]);
    FilterIn(rule.members, Sits(placement, placement[a]));
    hide Filter;
    var i: nat :| i < |on| && on[i] == a;
    var j: nat :| j < |on| && on[j] == b;
  }

  lemma CrowdedHasTwo(rule: Rule, placement: Placement, node: string) returns (a: int, b: int)
    requires NoDup(rule.members) && node in Crowded(rule, placement)
    ensures a in rule.members && b in rule.members && a != b && a in placement && b in placement
    ensures placement[a] == node && placement[b] == node
  {
    var on := OnNode(rule, placement, node);
    FilterIn(rule.members, Sits(placement, node));
    FilterNoDup(rule.members, Sits(placement, node));
    hide Filter;
    a, b := on[0], on[1];
    assert a in on && b in on;
  }

  /**
   * A whole batch crowds no new node of an enabled anti-affinity rule if and only if it sends no two members of the
   * rule to one node: each recommendation is checked against the placement before the batch, not against the others.
   */
  lemma BatchCrowdsIff(cfg: Settings, c: Cluster, rules: seq<Rule>, loads: seq<NodeLoad>, under: seq<NodeLoad>, recs: seq<Recommendation>, rule: Rule)
    requires Batch(cfg, c, rules, loads, under, recs)
    requires rule in rules && rule.enabled && rule.kind == AntiAffinity
    ensures Crowded(rule, AfterBatch(PlacementOf(c), recs)) <= Crowded(rule, PlacementOf(c)) <==> !Collide(recs, rule)
  {
    var before := PlacementOf(c);
    var after := AfterBatch(before, recs);
    hide PlacementOf, WellFormed, AllLoads, UnderloadedOf, Justified;
    if Collide(recs, rule) {
      CollisionCrowds(cfg, c, rules, loads, under, recs, rule);
    } else {
      forall node | node in Crowded(rule, after) ensures node in Crowded(rule, before) {
        var a, b := CrowdedHasTwo(rule, after, node);
        StayedPut(cfg, c, rules, loads, under, recs, rule, a, b);
        StayedPut(cfg, c, rules, loads, under, recs, rule, b, a);
        TwoSit(rule, before, a, b);
      }
    }
  }

  lemma CollisionCrowds(cfg: Settings, c: Cluster, rules: seq<Rule>, loads: seq<NodeLoad>, under: seq<NodeLoad>, recs: seq<Recommendation>, rule: Rule)
    requires Batch(cfg, c, rules, loads, under, recs) && Collide(recs, rule)
    requires rule in rules && rule.enabled && rule.kind == AntiAffinity
    ensures !(Crowded(rule, AfterBatch(PlacementOf(c), recs)) <= Crowded(rule, PlacementOf(c)))
  {
    hide PlacementOf, WellFormed, AllLoads, UnderloadedOf, Justified, Destination, Crowded, Tidy;
    var before := PlacementOf(c);
    var after := AfterBatch(before, recs);
    var r, q :| r in recs && q in recs && r.vmid != q.vmid && r.vmid in rule.members && q.vmid in rule.members && r.to == q.to;
    TargetIsFree(cfg, c, rules, loads, under, r);
    TargetIsFree(cfg, c, rules, loads, under, q);
    DestinationIs(recs, r);
    DestinationIs(recs, q);
    assert r.vmid in after && q.vmid in after && after[r.vmid] == r.to && after[q.vmid] == r.to;
    TwoSit(rule, after, r.vmid, q.vmid);
    forall m | m in rule.members && m in before ensures before[m] != r.to {
      assert Separates(rule, r.vmid, m);
    }
    FreeIsNotCrowded(rule, before, r.to);
  }

  lemma FreeIsNotCrowded(rule: Rule, placement: Placement, node: string)
    requires forall m :: m in rule.members && m in placement ==> placement[m] != node
    ensures node !in Crowded(rule, placement)
  {
  }

  /** Without collisions, a member that shares a node with another after the batch was there before it. */
  lemma StayedPut(cfg: Settings, c: Cluster, rules: seq<Rule>, loads: seq<NodeLoad>, under: seq<NodeLoad>, recs: seq<Recommendation>, rule: Rule, a: int, b: int)
    requires Batch(cfg, c, rules, loads, under, recs) && !Collide(recs, rule)
    requires rule in rules && rule.enabled && rule.kind == AntiAffinity && a in rule.members && b in rule.members && a != b
    requires var after := AfterBatch(PlacementOf(c), recs); a in after && b in after && after[a] == after[b]
    ensures PlacementOf(c)[a] == AfterBatch(PlacementOf(c), recs)[a]
  {
    var before := PlacementOf(c);
    hide WellFormed, AllLoads, UnderloadedOf, Justified, Destination, PlacementOf;
    if Destination(recs, a).Some? {
      var r :| r in recs && r.vmid == a && r.to == Destination(recs, a).value;
      TargetIsFree(cfg, c, rules, loads, under, r);
      assert Separates(rule, a, b);
      NoOtherArrives(recs, rule, r, b);
    }
  }

  lemma NoOtherArrives(recs: seq<Recommendation>, rule: Rule, r: Recommendation, b: int)
    requires !Collide(recs, rule) && r in recs && r.vmid in rule.members && b in rule.members && r.vmid != b
    ensures Destination(recs, b) != Some(r.to)
  {
    hide Destination;
    if Destination(recs, b).Some? {
      var q :| q in recs && q.vmid == b && q.to == Destination(recs, b).value;
    }
  }

  /** The members that stray from a pin after a batch strayed before it, if and only if no recommendation takes a member off the host. */
  lemma BatchStraysIff(cfg: Settings, c: Cluster, rules: seq<Rule>, loads: seq<NodeLoad>, under: seq<NodeLoad>, recs: seq<Recommendation>, rule: Rule)
    requires Batch(cfg, c, rules, loads, under, recs) && rule in rules && rule.enabled && rule.kind == HostPin
    ensures (forall m :: m in rule.members && Strays(AfterBatch(PlacementOf(c), recs), rule.host)(m) ==> Strays(PlacementOf(c), rule.host)(m))
            <==> (forall r :: r in recs ==> !Pins(rule, r.vmid, r.from))
  {
    hide PlacementOf, WellFormed, AllLoads, UnderloadedOf, Justified, Destination, AfterBatch, Tidy;
    forall r | r in recs ensures Moved(PlacementOf(c), recs, r) {
      TargetIsFree(cfg, c, rules, loads, under, r);
      DestinationIs(recs, r);
    }
    StraysIff(PlacementOf(c), recs, rule);
  }

  ghost predicate Moved(placement: Placement, recs: seq<Recommendation>, r: Recommendation) {
    Destination(recs, r.vmid) == Some(r.to) && r.vmid in placement && placement[r.vmid] == r.from && r.from != r.to
  }

  lemma StraysIff(before: Placement, recs: seq<Recommendation>, rule: Rule)
    requires rule.enabled && rule.kind == HostPin && forall r :: r in recs ==> Moved(before, recs, r)
    ensures (forall m :: m in rule.members && Strays(AfterBatch(before, recs), rule.host)(m) ==> Strays(before, rule.host)(m))
            <==> (forall r :: r in recs ==> !Pins(rule, r.vmid, r.from))
  {
    hide Destination;
    var after := AfterBatch(before, recs);
    if r :| r in recs && Pins(rule, r.vmid, r.from) {
      assert Moved(before, recs, r);
      assert Strays(after, rule.host)(r.vmid) && !Strays(before, rule.host)(r.vmid);
    }
    forall m | m in rule.members && Strays(after, rule.host)(m) && !Strays(before, rule.host)(m)
      ensures exists r :: r in recs && Pins(rule, r.vmid, r.from)
    {
      var r :| r in recs && r.vmid == m && r.to == Destination(recs, m).value;
      assert Moved(before, recs, r);
    }
  }

  // ---- A pin shadowed by an empty one ----

  /** Node "a" is overloaded with one running VM, node "b" is idle. */
  function ShadowCluster(): Cluster {
    Cluster([StoredNode("a", true, 0.9, 1, 10), StoredNode("b", true, 0.1, 1, 10)], [StoredGuest(Guest(7, 1.0, false), "a", true)], [])
  }

  /** An enabled pin naming no host in front of the one pin that names a host. */
  function ShadowRules(): seq<Rule> { [Rule(HostPin, true, [7], ""), Rule(HostPin, true, [7], "a")] }

  function ShadowMove(): Recommendation { Recommendation(7, true, "a", "b") }

  function LoadA(): NodeLoad { NodeLoad("a", 0.9, 0.1, [Guest(7, 1.0, false)], []) }

  function LoadB(): NodeLoad { NodeLoad("b", 0.1, 0.1, [], []) }

  lemma ShadowIsWellFormed()
    ensures WellFormed(ShadowCluster()) && Tidy(ShadowCluster(), ShadowRules())
  {
  }

  lemma ShadowPlacement()
    ensures PlacementOf(ShadowCluster()) == map[7 := "a"]
  {
    var vms := ShadowCluster().vms;
    assert vms[..0] == [];
    assert PlaceAll(vms, map[]) == map[7 := "a"];
  }

  lemma ShadowGuests()
    ensures GuestsOn(ShadowCluster().vms, "a") == [Guest(7, 1.0, false)] && GuestsOn(ShadowCluster().vms, "b") == []
    ensures GuestsOn(ShadowCluster().cts, "a") == [] && GuestsOn(ShadowCluster().cts, "b") == []
  {
    var c := ShadowCluster();
    FilterAll(c.vms, RunsOn("a"));
    FilterNone(c.vms, RunsOn("b"));
    FilterNone(c.cts, RunsOn("a"));
    FilterNone(c.cts, RunsOn("b"));
    hide Filter;
  }

  /** The loads of that cluster are these two. */
  lemma ShadowLoads(loads: seq<NodeLoad>, l: NodeLoad)
    requires AllLoads(ShadowCluster(), loads)
    ensures l in loads <==> l == LoadA() || l == LoadB()
  {
    var c := ShadowCluster();
    ShadowGuests();
    hide GuestsOn;
    assert LoadOf(c, c.nodes[0]) == LoadA() && LoadOf(c, c.nodes[1]) == LoadB();
    assert c.nodes[0] in c.nodes && c.nodes[1] in c.nodes;
    assert forall n :: n in c.nodes ==> n == c.nodes[0] || n == c.nodes[1];
  }

  lemma ShadowCounts()
    ensures var pin, before := ShadowRules()[1], map[7 := "a"];
            Count(pin, before) == 0 && Count(pin, before[7 := "b"]) == 1
  {
    var before: Placement := map[7 := "a"];
    FilterNone([7], Strays(before, "a"));
    FilterAll([7], Strays(before[7 := "b"], "a"));
  }

  /** Every justified move on that cluster is the one that breaks the pin. */
  lemma OnlyMove(cfg: Settings, loads: seq<NodeLoad>, under: seq<NodeLoad>, r: Recommendation)
    requires cfg.cpuThreshold == 0.8 && cfg.memThreshold == 0.8
    requires AllLoads(ShadowCluster(), loads) && UnderloadedOf(cfg, loads, under)
    requires Justified(cfg, ShadowRules(), loads, under, r)
    ensures r == ShadowMove()
  {
    hide Allowed, AllLoads;
    var src, dst :| src in loads && Overloaded(cfg, src) && src.node == r.from && dst in under && dst.node == r.to
                    && Migratable(src, ShadowRules(), Candidate(r.vmid, r.isVM, 0.0));
    ShadowLoads(loads, src);
    ShadowLoads(loads, dst);
    assert src == LoadA() && dst == LoadB();
    assert Ids(src) == [7];
  }

  /** The guest is offered, and the rules allow it on the idle node: the first pin hides the second. */
  lemma ShadowAllowed()
    ensures PinnedHost(7, ShadowRules()) == "" && forall loads :: Allowed(7, "b", ShadowRules(), loads)
    ensures Offered([Guest(7, 1.0, false)], [], ShadowRules(), Candidate(7, true, 1.0))
  {
    assert Guest(7, 1.0, false) in [Guest(7, 1.0, false)];
  }

  /**
   * Whatever a run on that cluster returns, it contains the move off the pinned host, and carrying it out adds
   * a report to the only pin that names a host.
   */
  lemma EmptyPinShadowsPin(cfg: Settings, loads: seq<NodeLoad>, recs: seq<Recommendation>, under: seq<NodeLoad>)
    requires cfg.cpuThreshold == 0.8 && cfg.memThreshold == 0.8
    requires AllLoads(ShadowCluster(), loads) && Proposal(cfg, loads, ShadowRules(), recs, under)
    ensures WellFormed(ShadowCluster()) && Tidy(ShadowCluster(), ShadowRules())
    ensures ShadowMove() in recs
    ensures var pin, before := ShadowRules()[1], PlacementOf(ShadowCluster());
            Count(pin, before[7 := "b"]) > Count(pin, before)
  {
    ShadowIsWellFormed();
    ShadowPlacement();
    ShadowCounts();
    ShadowLoads(loads, LoadA());
    ShadowLoads(loads, LoadB());
    assert LoadB() in under && Overloaded(cfg, LoadA());
    hide Justified, WellFormed, Tidy, Count, PlacementOf, ShadowRules, Allowed, AllLoads;
    if recs == [] {
      assert Exhausted(ShadowRules(), under, recs, LoadA());
      NotExhausted(under);
    } else {
      assert recs[0] in recs;
      OnlyMove(cfg, loads, under, recs[0]);
    }
  }

  lemma SelectedIsOffered(rules: seq<Rule>, cs: seq<Candidate>)
    requires Selection(LoadA(), rules, cs) && Offered(LoadA().vms, [], rules, Candidate(7, true, 1.0))
    ensures cs != [] && cs[0] in cs && cs[0].vmid == 7
  {
    hide SortedBy, DistinctCandidates, PinnedHost;
  }

  lemma NotExhausted(under: seq<NodeLoad>)
    requires LoadB() in under
    ensures !Exhausted(ShadowRules(), under, [], LoadA())
  {
    ShadowAllowed();
    hide Allowed, ShadowRules, PinnedHost, Selection, Offered;
    var rules := ShadowRules();
    forall cs: seq<Candidate> | Selection(LoadA(), rules, cs) ensures exists x :: x in cs && !Served(rules, under, [], x.vmid) {
      SelectedIsOffered(rules, cs);
      assert !Served(rules, under, [], cs[0].vmid);
    }
  }

  // ---- When a batch raises the count ----

  /** The guests the batch leaves where they are. */
  function Staying(placement: Placement, recs: seq<Recommendation>): Placement {
    map v | v in placement && Destination(recs, v).None? :: placement[v]
  }

  predicate Shares(recs: seq<Recommendation>, rule: Rule, r: Recommendation) {
    r.vmid in rule.members && exists q :: q in recs && q.vmid != r.vmid && q.vmid in rule.members && q.to == r.to
  }

  /** The nodes to which the batch sends two members of the rule. */
  function Collisions(recs: seq<Recommendation>, rule: Rule): set<string> {
    set r | r in recs && Shares(recs, rule, r) :: r.to
  }

  /** The crowded nodes that the batch leaves with at most one member. */
  function Relieved(rule: Rule, placement: Placement, recs: seq<Recommendation>): set<string> {
    Crowded(rule, placement) - Crowded(rule, Staying(placement, recs))
  }

  /** A member that is where another member is after the batch: both stayed, or both were sent there. */
  lemma AfterIsStayingOrCollision(cfg: Settings, c: Cluster, rules: seq<Rule>, loads: seq<NodeLoad>, under: seq<NodeLoad>, recs: seq<Recommendation>,
                                  rule: Rule, a: int, b: int)
    requires Batch(cfg, c, rules, loads, under, recs) && rule in rules && Separates(rule, a, b) && a != b
    requires var after := AfterBatch(PlacementOf(c), recs); a in after && b in after && after[a] == after[b]
    ensures Destination(recs, a).Some? <==> Destination(recs, b).Some?
    ensures Destination(recs, a).Some? ==> AfterBatch(PlacementOf(c), recs)[a] in Collisions(recs, rule)
  {
    hide WellFormed, AllLoads, UnderloadedOf, Justified, Destination, PlacementOf, Tidy;
    if Destination(recs, a).Some? {
      var r :| r in recs && r.vmid == a && r.to == Destination(recs, a).value;
      TargetIsFree(cfg, c, rules, loads, under, r);
      if Destination(recs, b).Some? {
        var q :| q in recs && q.vmid == b && q.to == Destination(recs, b).value;
        assert Shares(recs, rule, r);
      }
    }
    if Destination(recs, b).Some? {
      var q :| q in recs && q.vmid == b && q.to == Destination(recs, b).value;
      TargetIsFree(cfg, c, rules, loads, under, q);
      assert Separates(rule, b, a);
    }
  }

  lemma CollisionNode(cfg: Settings, c: Cluster, rules: seq<Rule>, loads: seq<NodeLoad>, under: seq<NodeLoad>, recs: seq<Recommendation>, rule: Rule, node: string)
    requires Batch(cfg, c, rules, loads, under, recs) && rule in rules && rule.enabled && rule.kind == AntiAffinity
    requires node in Collisions(recs, rule)
    ensures node in Crowded(rule, AfterBatch(PlacementOf(c), recs))
    ensures node !in Crowded(rule, PlacementOf(c)) && node !in Crowded(rule, Staying(PlacementOf(c), recs))
  {
    hide PlacementOf, WellFormed, AllLoads, UnderloadedOf, Justified, Destination, Crowded, Tidy;
    var before := PlacementOf(c);
    var after := AfterBatch(before, recs);
    var r :| r in recs && Shares(recs, rule, r) && r.to == node;
    var q :| q in recs && q.vmid != r.vmid && q.vmid in rule.members && q.to == r.to;
    TargetIsFree(cfg, c, rules, loads, under, r);
    TargetIsFree(cfg, c, rules, loads, under, q);
    DestinationIs(recs, r);
    DestinationIs(recs, q);
    assert r.vmid in after && q.vmid in after && after[r.vmid] == node && after[q.vmid] == node;
    TwoSit(rule, after, r.vmid, q.vmid);
    forall m | m in rule.members && m in before ensures before[m] != node {
      assert Separates(rule, r.vmid, m);
    }
    FreeIsNotCrowded(rule, before, node);
    FreeIsNotCrowded(rule, Staying(before, recs), node);
  }

  lemma StayingNode(rule: Rule, before: Placement, recs: seq<Recommendation>, node: string)
    requires NoDup(rule.members) && node in Crowded(rule, Staying(before, recs))
    ensures node in Crowded(rule, before) && node in Crowded(rule, AfterBatch(before, recs))
  {
    hide Destination, Crowded;
    var a, b := CrowdedHasTwo(rule, Staying(before, recs), node);
    TwoSit(rule, before, a, b);
    TwoSit(rule, AfterBatch(before, recs), a, b);
  }

  /** The crowded nodes after a batch: those still crowded by guests that stay, and the collisions. */
  lemma CrowdedAfterBatch(cfg: Settings, c: Cluster, rules: seq<Rule>, loads: seq<NodeLoad>, under: seq<NodeLoad>, recs: seq<Recommendation>, rule: Rule)
    requires Batch(cfg, c, rules, loads, under, recs) && rule in rules && rule.enabled && rule.kind == AntiAffinity
    ensures var before := PlacementOf(c);
            var stay := Crowded(rule, Staying(before, recs));
            && Crowded(rule, AfterBatch(before, recs)) == stay + Collisions(recs, rule)
            && stay <= Crowded(rule, before) && Collisions(recs, rule) !! Crowded(rule, before)
  {
    hide PlacementOf, WellFormed, AllLoads, UnderloadedOf, Justified, Destination, Crowded, Collisions;
    var before := PlacementOf(c);
    var after := AfterBatch(before, recs);
    forall node | node in Crowded(rule, Staying(before, recs)) ensures node in Crowded(rule, before) && node in Crowded(rule, after) {
      StayingNode(rule, before, recs, node);
    }
    forall node | node in Collisions(recs, rule) ensures node in Crowded(rule, after) && node !in Crowded(rule, before) {
      CollisionNode(cfg, c, rules, loads, under, recs, rule, node);
    }
    forall node | node in Crowded(rule, after) ensures node in Crowded(rule, Staying(before, recs)) || node in Collisions(recs, rule) {
      var a, b := CrowdedHasTwo(rule, after, node);
      AfterIsStayingOrCollision(cfg, c, rules, loads, under, recs, rule, a, b);
      if Destination(recs, a).None? {
        TwoSit(rule, Staying(before, recs), a, b);
      }
    }
  }

  lemma Sizes(stay: set<string>, before: set<string>, hits: set<string>)
    requires stay <= before && hits !! before
    ensures |stay + hits| > |before| <==> |hits| > |before - stay|
  {
    assert before == stay + (before - stay);
    assert stay !! hits && stay !! (before - stay);
  }

  /** A whole batch raises the reports of an enabled anti-affinity rule if and only if it collides on more nodes than it relieves. */
  lemma BatchRaisesCountIff(cfg: Settings, c: Cluster, rules: seq<Rule>, loads: seq<NodeLoad>, under: seq<NodeLoad>, recs: seq<Recommendation>, rule: Rule)
    requires Batch(cfg, c, rules, loads, under, recs) && rule in rules && rule.enabled && rule.kind == AntiAffinity
    ensures Count(rule, AfterBatch(PlacementOf(c), recs)) > Count(rule, PlacementOf(c)) <==>
            |Collisions(recs, rule)| > |Relieved(rule, PlacementOf(c), recs)|
  {
    CrowdedAfterBatch(cfg, c, rules, loads, under, recs, rule);
    hide Batch, Crowded, Collisions, AfterBatch, PlacementOf, Staying;
    Sizes(Crowded(rule, Staying(PlacementOf(c), recs)), Crowded(rule, PlacementOf(c)), Collisions(recs, rule));
  }

  // ---- A batch that collides ----

  /** The two members of a rule sit apart on two overloaded nodes; node "b" is idle. */
  function PairCluster(): Cluster {
    Cluster([StoredNode("a", true, 0.9, 1, 10), StoredNode("c", true, 0.9, 1, 10), StoredNode("b", true, 0.1, 1, 10)],
            [StoredGuest(Guest(7, 1.0, false), "a", true), StoredGuest(Guest(8, 1.0, false), "c", true)], [])
  }

  function PairRule(): Rule { Rule(AntiAffinity, true, [7, 8], "") }

  function LoadC(): NodeLoad { NodeLoad("c", 0.9, 0.1, [Guest(8, 1.0, false)], []) }

  /** One of the two guests running on a node. */
  lemma PairGuests(node: string)
    ensures GuestsOn(PairCluster().vms, node) ==
            if node == "a" then [Guest(7, 1.0, false)] else if node == "c" then [Guest(8, 1.0, false)] else []
    ensures GuestsOn(PairCluster().cts, node) == []
  {
    var seven, eight := StoredGuest(Guest(7, 1.0, false), "a", true), StoredGuest(Guest(8, 1.0, false), "c", true);
    assert PairCluster().vms == ([] + [seven]) + [eight];
    FilterSnoc([] + [seven], eight, RunsOn(node));
    FilterSnoc([], seven, RunsOn(node));
    FilterNone<StoredGuest>([], RunsOn(node));
    hide Filter;
  }

  lemma PairLoads(loads: seq<NodeLoad>, l: NodeLoad)
    requires AllLoads(PairCluster(), loads)
    ensures l in loads <==> l == LoadA() || l == LoadC() || l == LoadB()
  {
    var c := PairCluster();
    PairGuests("a");
    PairGuests("b");
    PairGuests("c");
    hide GuestsOn;
    assert LoadOf(c, c.nodes[0]) == LoadA() && LoadOf(c, c.nodes[1]) == LoadC() && LoadOf(c, c.nodes[2]) == LoadB();
    assert c.nodes[0] in c.nodes && c.nodes[1] in c.nodes && c.nodes[2] in c.nodes;
    assert forall n :: n in c.nodes ==> n == c.nodes[0] || n == c.nodes[1] || n == c.nodes[2];
  }

  /** Every justified move takes one of the two to the idle node. */
  lemma PairMoves(cfg: Settings, loads: seq<NodeLoad>, under: seq<NodeLoad>, r: Recommendation)
    requires cfg.cpuThreshold == 0.8 && cfg.memThreshold == 0.8
    requires AllLoads(PairCluster(), loads) && UnderloadedOf(cfg, loads, under)
    requires Justified(cfg, [PairRule()], loads, under, r)
    ensures r.to == "b" && (r.vmid == 7 || r.vmid == 8)
  {
    hide Allowed, AllLoads;
    var src, dst :| src in loads && Overloaded(cfg, src) && src.node == r.from && dst in under && dst.node == r.to
                    && Migratable(src, [PairRule()], Candidate(r.vmid, r.isVM, 0.0));
    PairLoads(loads, src);
    PairLoads(loads, dst);
    assert dst == LoadB() && (src == LoadA() || src == LoadC());
    assert Ids(LoadA()) == [7] && Ids(LoadC()) == [8];
  }

  lemma PairAllowed(loads: seq<NodeLoad>, under: seq<NodeLoad>, cfg: Settings, vmid: int)
    requires cfg.cpuThreshold == 0.8 && cfg.memThreshold == 0.8
    requires AllLoads(PairCluster(), loads) && UnderloadedOf(cfg, loads, under)
    ensures Allowed(vmid, "b", [PairRule()], under)
  {
    hide AllLoads;
    forall l | l in under ensures l == LoadB() {
      PairLoads(loads, l);
    }
    hide UnderloadedOf;
    assert PinnedHost(vmid, [PairRule()]) == PinnedHost(vmid, []);
  }

  /** The one guest of a node is selected. */
  lemma OnlyGuestSelected(node: NodeLoad, vmid: int, cs: seq<Candidate>)
    requires node.vms == [Guest(vmid, 1.0, false)] && node.cts == [] && Selection(node, [PairRule()], cs)
    ensures cs != [] && cs[0] in cs && cs[0].vmid == vmid
  {
    assert PinnedHost(vmid, [PairRule()]) == PinnedHost(vmid, []);
    assert Guest(vmid, 1.0, false) in node.vms;
    assert Offered(node.vms, node.cts, [PairRule()], Candidate(vmid, true, 1.0));
    hide SortedBy, DistinctCandidates, PinnedHost;
  }

  lemma GuestServed(cfg: Settings, loads: seq<NodeLoad>, recs: seq<Recommendation>, under: seq<NodeLoad>, node: NodeLoad, vmid: int) returns (r: Recommendation)
    requires cfg.cpuThreshold == 0.8 && cfg.memThreshold == 0.8 && node.vms == [Guest(vmid, 1.0, false)] && node.cts == []
    requires AllLoads(PairCluster(), loads) && UnderloadedOf(cfg, loads, under) && LoadB() in under
    requires Exhausted([PairRule()], under, recs, node)
    ensures r in recs && r.vmid == vmid
  {
    PairAllowed(loads, under, cfg, vmid);
    hide AllLoads, UnderloadedOf, Allowed, Selection;
    var rules := [PairRule()];
    var cs: seq<Candidate> :| Selection(node, rules, cs) && forall x :: x in cs ==> Served(rules, under, recs, x.vmid);
    OnlyGuestSelected(node, vmid, cs);
    assert Served(rules, under, recs, cs[0].vmid);
    assert LoadB().node == "b";
    r :| r in recs && r.vmid == vmid;
  }

  lemma PairUnder(cfg: Settings, loads: seq<NodeLoad>, under: seq<NodeLoad>)
    requires cfg.cpuThreshold == 0.8 && cfg.memThreshold == 0.8
    requires AllLoads(PairCluster(), loads) && UnderloadedOf(cfg, loads, under)
    ensures LoadB() in under && LoadA() in loads && LoadC() in loads && Overloaded(cfg, LoadA()) && Overloaded(cfg, LoadC())
  {
    hide AllLoads, PairCluster;
    PairLoads(loads, LoadA());
    PairLoads(loads, LoadB());
    PairLoads(loads, LoadC());
  }

  /** With room for two, whatever a run on that cluster returns sends both members of the rule to the idle node. */
  lemma PairCollides(cfg: Settings, loads: seq<NodeLoad>, recs: seq<Recommendation>, under: seq<NodeLoad>)
    requires cfg.cpuThreshold == 0.8 && cfg.memThreshold == 0.8 && cfg.migrationRate >= 2
    requires AllLoads(PairCluster(), loads) && Proposal(cfg, loads, [PairRule()], recs, under)
    ensures Collide(recs, PairRule())
  {
    hide Justified, AllLoads, UnderloadedOf, Exhausted, HighestFirst, PairCluster, Overloaded;
    PairUnder(cfg, loads, under);
    var r, q;
    if Full(cfg, recs) {
      r, q := recs[0], recs[1];
    } else {
      r := GuestServed(cfg, loads, recs, under, LoadA(), 7);
      q := GuestServed(cfg, loads, recs, under, LoadC(), 8);
    }
    assert r in recs && q in recs && r.vmid != q.vmid;
    PairMoves(cfg, loads, under, r);
    PairMoves(cfg, loads, under, q);
  }

  lemma PairIsWellFormed()
    ensures WellFormed(PairCluster()) && Tidy(PairCluster(), [PairRule()])
  {
    var c := PairCluster();
    assert c.cts == [] && |c.vms| == 2 && |c.nodes| == 3;
    assert forall s :: s in c.vms ==> s == c.vms[0] || s == c.vms[1];
    assert forall n :: n in c.nodes ==> n == c.nodes[0] || n == c.nodes[1] || n == c.nodes[2];
    assert c.vms[0].running && c.vms[1].running && c.vms[0].guest.vmid != c.vms[1].guest.vmid;
    assert c.nodes[0].name == "a" && c.nodes[1].name == "c" && c.nodes[2].name == "b";
    assert PairRule().members[0] != PairRule().members[1];
    hide PairCluster;
  }

  lemma PairApart()
    ensures Count(PairRule(), PlacementOf(PairCluster())) == 0
  {
    var vms, before := PairCluster().vms, map[7 := "a", 8 := "c"];
    assert vms[..1] == [vms[0]] && vms[..1][..0] == [];
    assert PlaceAll(vms[..1], map[]) == map[7 := "a"];
    assert PlacementOf(PairCluster()) == before;
    hide PlacementOf, PlaceAll;
    if node :| node in Crowded(PairRule(), before) {
      var x, y := CrowdedHasTwo(PairRule(), before, node);
    }
  }

  /** On that cluster the detector reports nothing before, and at least one crowded node after every batch. */
  lemma BatchCanCollide(cfg: Settings, loads: seq<NodeLoad>, recs: seq<Recommendation>, under: seq<NodeLoad>)
    requires cfg.cpuThreshold == 0.8 && cfg.memThreshold == 0.8 && cfg.migrationRate >= 2
    requires AllLoads(PairCluster(), loads) && Proposal(cfg, loads, [PairRule()], recs, under)
    ensures var rule, before := PairRule(), PlacementOf(PairCluster());
            Count(rule, before) == 0 && Count(rule, AfterBatch(before, recs)) > 0
  {
    hide Justified, PlacementOf, AllLoads, UnderloadedOf, Crowded, Count, AfterBatch, WellFormed, Tidy, Exhausted, Collide, HighestFirst, PairCluster;
    PairCollides(cfg, loads, recs, under);
    PairIsWellFormed();
    PairApart();
    assert PairRule() in [PairRule()];
    BatchCrowdsIff(cfg, PairCluster(), [PairRule()], loads, under, recs, PairRule());
    NewCrowdIsReported(PairRule(), AfterBatch(PlacementOf(PairCluster()), recs), PlacementOf(PairCluster()));
  }

  lemma NewCrowdIsReported(rule: Rule, after: Placement, before: Placement)
    requires rule.enabled && rule.kind == AntiAffinity && !(Crowded(rule, after) <= Crowded(rule, before))
    ensures Count(rule, after) > 0
  {
    hide Crowded;
    assert Crowded(rule, after) != {};
  }
}
