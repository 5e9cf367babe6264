/** The DRS scheduler: greedy choice of migrations from overloaded to underloaded nodes. */
module DrsScheduler {
  import opened Seqs
  import opened DrsRules

  datatype Settings = Settings(cpuThreshold: real, memThreshold: real, migrationRate: int)

  datatype Candidate = Candidate(vmid: int, isVM: bool, mem: real)

  datatype Recommendation = Recommendation(vmid: int, isVM: bool, from: string, to: string)

  predicate Overloaded(cfg: Settings, l: NodeLoad) {
    l.cpu > cfg.cpuThreshold || l.mem > cfg.memThreshold
  }

  predicate Underloaded(cfg: Settings, l: NodeLoad) {
    !Overloaded(cfg, l) && l.cpu < cfg.cpuThreshold * 0.5 && l.mem < cfg.memThreshold * 0.5
  }

  function Combined(l: NodeLoad): real { l.cpu + l.mem }

  function Positive(cfg: Settings): bool { cfg.cpuThreshold > 0.0 && cfg.memThreshold > 0.0 }

  // ---- Sorting ----

  ghost predicate SortedBy<T(!new)>(s: seq<T>, key: T -> real) {
    forall i, j :: 0 <= i < j < |s| ==> key(s[i]) <= key(s[j])
  }

  /** The library sort: some permutation in key order. */
  method SortBy<T(==,!new)>(s: seq<T>, key: T -> real) returns (r: seq<T>)
    ensures SortedBy(r, key) && multiset(r) == multiset(s)
  {
    r := [];
    for i := 0 to |s|
      invariant SortedBy(r, key) && multiset(r) == multiset(s[..i])
    {
      assert s[..i + 1] == s[..i] + [s[i]];
      r := Insert(r, key, s[i]);
    }
    assert s[..|s|] == s;
  }

  method Insert<T(==,!new)>(s: seq<T>, key: T -> real, x: T) returns (r: seq<T>)
    requires SortedBy(s, key)
    ensures SortedBy(r, key) && multiset(r) == multiset(s) + multiset{x}
  {
    var k := 0;
    while k < |s| && key(s[k]) <= key(x)
      invariant 0 <= k <= |s| && forall j :: 0 <= j < k ==> key(s[j]) <= key(x)
    {
      k := k + 1;
    }
    InsertSorted(s, key, k, x);
    r := s[..k] + [x] + s[k..];
    assert s == s[..k] + s[k..];
  }

  lemma InsertSorted<T(!new)>(r: seq<T>, key: T -> real, k: nat, x: T)
    requires SortedBy(r, key) && k <= |r| && (forall j :: 0 <= j < k ==> key(r[j]) <= key(x))
    requires k < |r| ==> key(x) < key(r[k])
    ensures SortedBy(r[..k] + [x] + r[k..], key)
  {
    var t := r[..k] + [x] + r[k..];
    forall i, j | 0 <= i < j < |t| ensures key(t[i]) <= key(t[j]) {
      if i == k && j > k {
        assert t[j] == r[j - 1] && key(r[k]) <= key(r[j - 1]);
      }
    }
  }

  // ---- Guests ----

  function Ids(l: NodeLoad): seq<int> {
    seq(|l.vms|, i requires 0 <= i < |l.vms| => l.vms[i].vmid) + seq(|l.cts|, i requires 0 <= i < |l.cts| => l.cts[i].vmid)
  }

  /** Node names and guests are unique across the loads. */
  ghost predicate UniqueLoads(loads: seq<NodeLoad>) {
    && NoDup(loads)
    && (forall a, b :: a in loads && b in loads && a != b ==> a.node != b.node)
    && (forall a :: a in loads ==> NoDup(Ids(a)))
    && (forall a, b, v :: a in loads && b in loads && a != b && v in Ids(a) ==> v !in Ids(b))
  }

  /** A candidate is a guest of the source; a VM candidate is neither a template nor pinned. */
  ghost predicate Migratable(src: NodeLoad, rules: seq<Rule>, c: Candidate) {
    && c.vmid in Ids(src)
    && (if c.isVM then PinnedHost(c.vmid, rules) == "" && exists g :: g in src.vms && g.vmid == c.vmid && !g.template
        else exists g :: g in src.cts && g.vmid == c.vmid)
  }

  ghost predicate DistinctCandidates(cs: seq<Candidate>) {
    forall i, j :: 0 <= i < j < |cs| ==> cs[i].vmid != cs[j].vmid
  }

  /** The guests a node offers for migration: its VMs that are neither templates nor pinned, and its containers. */
  ghost predicate Offered(vms: seq<Guest>, cts: seq<Guest>, rules: seq<Rule>, c: Candidate) {
    if c.isVM then PinnedHost(c.vmid, rules) == "" && exists g :: g in vms && !g.template && c == Candidate(g.vmid, true, g.mem)
    else exists g :: g in cts && c == Candidate(g.vmid, false, g.mem)
  }

  function MemOf(c: Candidate): real { c.mem }

  /** The five smallest of the offered guests by memory, or all of them, smallest first. */
  ghost predicate Selection(src: NodeLoad, rules: seq<Rule>, cs: seq<Candidate>) {
    && |cs| <= 5 && DistinctCandidates(cs) && SortedBy(cs, MemOf)
    && (forall c :: c in cs ==> Offered(src.vms, src.cts, rules, c))
    && (forall c, d :: Offered(src.vms, src.cts, rules, c) && c !in cs && d in cs ==> |cs| == 5 && d.mem <= c.mem)
    && (cs == [] ==> forall c :: !Offered(src.vms, src.cts, rules, c))
  }

  lemma OfferedIsMigratable(src: NodeLoad, rules: seq<Rule>, c: Candidate)
    requires Offered(src.vms, src.cts, rules, c)
    ensures Migratable(src, rules, c)
  {
    var gs := if c.isVM then src.vms else src.cts;
    var g :| g in gs && g.vmid == c.vmid && (c.isVM ==> !g.template);
    var i :| 0 <= i < |gs| && gs[i] == g;
    assert Ids(src)[if c.isVM then i else |src.vms| + i] == c.vmid;
  }

  method SelectMigrationCandidates(src: NodeLoad, rules: seq<Rule>) returns (cs: seq<Candidate>)
    requires NoDup(Ids(src))
    ensures Selection(src, rules, cs)
  {
    var all := OfferVMs(src, rules);
    all := OfferCTs(src, rules, all);
    var sorted := SortBy(all, MemOf);
    SameElements(all, sorted);
    DistinctPermutes(all, sorted);
    assert forall c :: MemOf(c) == c.mem;
    cs := if |sorted| > 5 then sorted[..5] else sorted;
    SmallestFive(src, rules, sorted, cs);
  }

  lemma SmallestFive(src: NodeLoad, rules: seq<Rule>, sorted: seq<Candidate>, cs: seq<Candidate>)
    requires DistinctCandidates(sorted) && SortedBy(sorted, MemOf)
    requires forall c :: c in sorted <==> Offered(src.vms, src.cts, rules, c)
    requires cs == if |sorted| > 5 then sorted[..5] else sorted
    ensures Selection(src, rules, cs)
  {
    hide Offered;
    forall c, d | Offered(src.vms, src.cts, rules, c) && c !in cs && d in cs ensures |cs| == 5 && d.mem <= c.mem {
      assert c in sorted;
      var i :| 0 <= i < |sorted| && sorted[i] == c;
      var j :| 0 <= j < |cs| && cs[j] == d;
      assert i >= 5 ==> MemOf(sorted[j]) <= MemOf(sorted[i]);
    }
  }

  method OfferVMs(src: NodeLoad, rules: seq<Rule>) returns (all: seq<Candidate>)
    requires NoDup(Ids(src))
    ensures DistinctCandidates(all) && forall c :: c in all <==> Offered(src.vms, [], rules, c)
    ensures forall c :: c in all ==> c.vmid in Ids(src)[..|src.vms|]
  {
    var ids := Ids(src);
    all := [];
    for i := 0 to |src.vms|
      invariant forall c :: c in all ==> c.vmid in ids[..i]
      invariant forall c :: c in all <==> Offered(src.vms[..i], [], rules, c)
      invariant DistinctCandidates(all)
    {
      var vm := src.vms[i];
      assert ids[i] == vm.vmid && ids[..i + 1] == ids[..i] + [vm.vmid];
      assert src.vms[..i + 1] == src.vms[..i] + [vm];
      assert vm.vmid !in ids[..i];
      var host := GetPinnedHost(vm.vmid, rules);
      if vm.template || host != "" {
        continue;
      }
      all := all + [Candidate(vm.vmid, true, vm.mem)];
    }
    assert src.vms[..|src.vms|] == src.vms;
  }

  method OfferCTs(src: NodeLoad, rules: seq<Rule>, vms: seq<Candidate>) returns (all: seq<Candidate>)
    requires NoDup(Ids(src)) && DistinctCandidates(vms)
    requires forall c :: c in vms <==> Offered(src.vms, [], rules, c)
    requires forall c :: c in vms ==> c.vmid in Ids(src)[..|src.vms|]
    ensures DistinctCandidates(all) && forall c :: c in all <==> Offered(src.vms, src.cts, rules, c)
  {
    var ids, n := Ids(src), |src.vms|;
    all := vms;
    for i := 0 to |src.cts|
      invariant forall c :: c in all ==> c.vmid in ids[..n + i]
      invariant forall c :: c in all <==> Offered(src.vms, src.cts[..i], rules, c)
      invariant DistinctCandidates(all)
    {
      var ct := src.cts[i];
      assert ids[n + i] == ct.vmid && ids[..n + i + 1] == ids[..n + i] + [ct.vmid];
      assert src.cts[..i + 1] == src.cts[..i] + [ct];
      assert ct.vmid !in ids[..n + i];
      all := all + [Candidate(ct.vmid, false, ct.mem)];
    }
    assert src.cts[..|src.cts|] == src.cts;
  }

  lemma DistinctPermutes(a: seq<Candidate>, b: seq<Candidate>)
    requires multiset(a) == multiset(b) && DistinctCandidates(a)
    ensures DistinctCandidates(b)
  {
    NoDupPermutes(a, b);
    SameElements(a, b);
    forall i, j | 0 <= i < j < |b| ensures b[i].vmid != b[j].vmid {
      assert b[i] in a && b[j] in a && b[i] != b[j];
    }
  }

  /** The node has the capacity and the rules allow it. */
  ghost predicate Suits(cfg: Settings, vmid: int, l: NodeLoad, rules: seq<Rule>, loads: seq<NodeLoad>) {
    l.cpu < cfg.cpuThreshold * 0.8 && l.mem < cfg.memThreshold * 0.8 && Allowed(vmid, l.node, rules, loads)
  }

  /** Underloaded nodes have the capacity, so only the rules decide. */
  lemma UnderloadedSuits(cfg: Settings, loads: seq<NodeLoad>, rules: seq<Rule>, targets: seq<NodeLoad>)
    requires Positive(cfg) && UnderloadedOf(cfg, loads, targets)
    ensures forall vmid, i :: 0 <= i < |targets| ==>
              (Suits(cfg, vmid, targets[i], rules, targets) <==> Allowed(vmid, targets[i].node, rules, targets))
  {
    hide Allowed;
    forall i | 0 <= i < |targets| ensures targets[i].cpu < cfg.cpuThreshold * 0.8 && targets[i].mem < cfg.memThreshold * 0.8 {
      assert targets[i] in targets;
    }
  }

  /** The first suitable node in load order; none when there is none. */
  method SelectTargetNode(cfg: Settings, vmid: int, targets: seq<NodeLoad>, rules: seq<Rule>) returns (found: bool, target: nat)
    ensures found ==> target < |targets| && Suits(cfg, vmid, targets[target], rules, targets)
    ensures found ==> forall i :: 0 <= i < target ==> !Suits(cfg, vmid, targets[i], rules, targets)
    ensures !found ==> forall i :: 0 <= i < |targets| ==> !Suits(cfg, vmid, targets[i], rules, targets)
  {
    target := 0;
    for i := 0 to |targets|
      invariant forall j :: 0 <= j < i ==> !Suits(cfg, vmid, targets[j], rules, targets)
    {
      var t := targets[i];
      if t.cpu >= cfg.cpuThreshold * 0.8 || t.mem >= cfg.memThreshold * 0.8 {
        continue;
      }
      var crowds := ViolatesAntiAffinity(vmid, t.node, rules, targets);
      if crowds {
        continue;
      }
      var pinned := GetPinnedHost(vmid, rules);
      if pinned != "" && t.node != pinned {
        continue;
      }
      return true, i;
    }
    found := false;
  }

  // ---- What a recommendation guarantees ----

  /** The underloaded nodes, in any order. */
  ghost predicate UnderloadedOf(cfg: Settings, loads: seq<NodeLoad>, under: seq<NodeLoad>) {
    forall l :: l in under <==> l in loads && Underloaded(cfg, l)
  }

  /**
   * The recommendation takes a migratable guest from an overloaded node to a different, underloaded node that the
   * rules allow, and no allowed underloaded node has less combined load.
   */
  ghost predicate Justified(cfg: Settings, rules: seq<Rule>, loads: seq<NodeLoad>, under: seq<NodeLoad>, r: Recommendation) {
    exists src, dst ::
      && src in loads && Overloaded(cfg, src) && src.node == r.from
      && dst in under && dst.node == r.to && r.from != r.to
      && Migratable(src, rules, Candidate(r.vmid, r.isVM, 0.0))
      && Allowed(r.vmid, r.to, rules, under)
      && (forall u :: u in under && Allowed(r.vmid, u.node, rules, under) ==> dst.cpu + dst.mem <= u.cpu + u.mem)
  }

  ghost predicate DistinctGuests(rs: seq<Recommendation>) {
    forall i, j :: 0 <= i < j < |rs| ==> rs[i].vmid != rs[j].vmid
  }

  /** The candidate was recommended, or the rules allow it on no underloaded node. */
  ghost predicate Served(rules: seq<Rule>, under: seq<NodeLoad>, recs: seq<Recommendation>, vmid: int) {
    (exists r :: r in recs && r.vmid == vmid) || forall u :: u in under ==> !Allowed(vmid, u.node, rules, under)
  }

  /** Every candidate of the source was served. */
  ghost predicate Exhausted(rules: seq<Rule>, under: seq<NodeLoad>, recs: seq<Recommendation>, src: NodeLoad) {
    exists cs: seq<Candidate> :: Selection(src, rules, cs) && forall c :: c in cs ==> Served(rules, under, recs, c.vmid)
  }

  /** The limit of one run: the migration rate, but at least one. */
  predicate Full(cfg: Settings, recs: seq<Recommendation>) { recs != [] && |recs| >= cfg.migrationRate }

  /**
   * What a run returns: at most max(1, rate) justified moves of distinct guests; and below that limit every
   * selected guest of every overloaded node was served.
   */
  ghost predicate Proposal(cfg: Settings, loads: seq<NodeLoad>, rules: seq<Rule>, recs: seq<Recommendation>, under: seq<NodeLoad>) {
    && UnderloadedOf(cfg, loads, under)
    && |recs| <= (if cfg.migrationRate > 1 then cfg.migrationRate else 1)
    && DistinctGuests(recs)
    && (forall r :: r in recs ==> Justified(cfg, rules, loads, under, r))
    && (Full(cfg, recs) || under == [] || forall src :: src in loads && Overloaded(cfg, src) ==> Exhausted(rules, under, recs, src))
    && HighestFirst(cfg, loads, rules, recs, under)
  }

  /** The move is from that node. */
  predicate From(r: Recommendation, l: NodeLoad) { r.from == l.node }

  /**
   * The most loaded nodes are served first: moves come in the order of their sources' combined load, and no guest of a
   * node is moved before every selected guest of every more loaded node was served.
   */
  ghost predicate HighestFirst(cfg: Settings, loads: seq<NodeLoad>, rules: seq<Rule>, recs: seq<Recommendation>, under: seq<NodeLoad>) {
    && (forall i, j, a, b :: 0 <= i < j < |recs| && a in loads && b in loads && From(recs[i], a) && From(recs[j], b) ==>
          a.cpu + a.mem >= b.cpu + b.mem)
    && (forall r, a, b :: r in recs && a in loads && From(r, a) && b in loads && Overloaded(cfg, b) && b.cpu + b.mem > a.cpu + a.mem ==>
          Exhausted(rules, under, recs, b))
  }

  /** The moves up to here come from the first `n` sources, in their order. */
  ghost predicate Sourced(sources: seq<NodeLoad>, n: nat, recs: seq<Recommendation>, at: seq<nat>) {
    && |at| == |recs|
    && (forall i :: 0 <= i < |recs| ==> at[i] < n && at[i] < |sources| && From(recs[i], sources[at[i]]))
    && (forall i, j :: 0 <= i < j < |recs| ==> at[i] <= at[j])
  }

  function Neg(l: NodeLoad): real { -Combined(l) }

  lemma HighestFirstHolds(cfg: Settings, loads: seq<NodeLoad>, rules: seq<Rule>, recs: seq<Recommendation>, under: seq<NodeLoad>,
                          sources: seq<NodeLoad>, n: nat, at: seq<nat>)
    requires UniqueLoads(loads) && SortedBy(sources, Neg) && forall l :: l in sources <==> l in loads && Overloaded(cfg, l)
    requires Sourced(sources, n, recs, at)
    requires forall j :: 0 <= j < n - 1 && j < |sources| ==> Exhausted(rules, under, recs, sources[j])
    ensures HighestFirst(cfg, loads, rules, recs, under)
  {
    hide Exhausted, Ids;
    assert forall l :: Neg(l) == -Combined(l);
    forall i, a | 0 <= i < |recs| && a in loads && From(recs[i], a) ensures a == sources[at[i]] {
      assert sources[at[i]] in sources;
    }
    forall r, a, b | r in recs && a in loads && From(r, a) && b in loads && Overloaded(cfg, b) && Combined(b) > Combined(a)
      ensures Exhausted(rules, under, recs, b)
    {
      var i :| 0 <= i < |recs| && recs[i] == r;
      assert b in sources;
      var k :| 0 <= k < |sources| && sources[k] == b;
      assert k < at[i];
    }
  }

  method GenerateRecommendations(cfg: Settings, loads: seq<NodeLoad>, rules: seq<Rule>)
    returns (recs: seq<Recommendation>, ghost under: seq<NodeLoad>)
    requires Positive(cfg) && UniqueLoads(loads)
    ensures Proposal(cfg, loads, rules, recs, under)
  {
    hide Justified, SortedBy, Ids, Exhausted, Sourced, HighestFirst;
    recs := [];
    var overloaded, underloaded := Classify(cfg, loads);
    under := underloaded;
    NoMoves(cfg, loads, rules, under);
    if |overloaded| == 0 || |underloaded| == 0 {
      return;
    }
    var sources := SortBy(overloaded, Neg);
    SameElements(overloaded, sources);
    NoDupPermutes(overloaded, sources);
    var targets := SortBy(underloaded, Combined);
    SameElements(underloaded, targets);
    under := targets;
    ghost var at: seq<nat> := [];
    SourcedNothing(sources);
    for i := 0 to |sources|
      invariant Sourced(sources, i, recs, at)
      invariant DistinctGuests(recs) && !Full(cfg, recs)
      invariant forall r :: r in recs ==> Justified(cfg, rules, loads, targets, r) && exists j :: 0 <= j < i && r.vmid in Ids(sources[j])
      invariant forall j :: 0 <= j < i ==> Exhausted(rules, targets, recs, sources[j])
    {
      EarlierSourcesDiffer(loads, sources, i, recs);
      assert sources[i] in loads;
      ghost var before := recs;
      recs := RecommendFrom(cfg, loads, rules, targets, sources[i], recs);
      at := SourcedMore(sources, i, before, at, recs);
      forall j | 0 <= j < i ensures Exhausted(rules, targets, recs, sources[j]) {
        MoreIsServed(rules, targets, before, recs, sources[j]);
      }
      HighestFirstHolds(cfg, loads, rules, recs, targets, sources, i + 1, at);
      if |recs| > 0 && |recs| >= cfg.migrationRate {
        return;
      }
    }
    HighestFirstHolds(cfg, loads, rules, recs, targets, sources, |sources|, at);
  }

  lemma NoMoves(cfg: Settings, loads: seq<NodeLoad>, rules: seq<Rule>, under: seq<NodeLoad>)
    ensures HighestFirst(cfg, loads, rules, [], under)
  {
  }

  lemma SourcedNothing(sources: seq<NodeLoad>)
    ensures Sourced(sources, 0, [], [])
  {
  }

  lemma SourcedMore(sources: seq<NodeLoad>, i: nat, recs: seq<Recommendation>, at: seq<nat>, more: seq<Recommendation>) returns (at': seq<nat>)
    requires Sourced(sources, i, recs, at) && i < |sources| && |recs| <= |more| && more[..|recs|] == recs
    requires forall k :: |recs| <= k < |more| ==> From(more[k], sources[i])
    ensures Sourced(sources, i + 1, more, at')
  {
    at' := at + seq(|more| - |recs|, _ => i);
    forall k | 0 <= k < |recs| ensures more[k] == recs[k] && at'[k] == at[k] {
      assert more[..|recs|][k] == more[k];
    }
  }

  lemma MoreIsServed(rules: seq<Rule>, under: seq<NodeLoad>, recs: seq<Recommendation>, more: seq<Recommendation>, src: NodeLoad)
    requires Exhausted(rules, under, recs, src) && forall r :: r in recs ==> r in more
    ensures Exhausted(rules, under, more, src)
  {
    hide Selection, Allowed;
    var cs: seq<Candidate> :| Selection(src, rules, cs) && forall c :: c in cs ==> Served(rules, under, recs, c.vmid);
    forall c | c in cs ensures Served(rules, under, more, c.vmid) {
      assert Served(rules, under, recs, c.vmid);
    }
  }

  /** The recommendations with those of one overloaded node added, up to the limit. */
  method RecommendFrom(cfg: Settings, loads: seq<NodeLoad>, rules: seq<Rule>, targets: seq<NodeLoad>, src: NodeLoad, recs0: seq<Recommendation>)
    returns (recs: seq<Recommendation>)
    requires Positive(cfg) && UniqueLoads(loads) && UnderloadedOf(cfg, loads, targets) && SortedBy(targets, Combined)
    requires src in loads && Overloaded(cfg, src)
    requires DistinctGuests(recs0) && !Full(cfg, recs0) && forall r :: r in recs0 ==> r.vmid !in Ids(src)
    ensures |recs| <= (if cfg.migrationRate > 1 then cfg.migrationRate else 1)
    ensures DistinctGuests(recs) && |recs0| <= |recs| && recs[..|recs0|] == recs0 && forall r :: r in recs0 ==> r in recs
    ensures forall k :: |recs0| <= k < |recs| ==> From(recs[k], src)
    ensures forall r :: r in recs ==> r in recs0 || (Justified(cfg, rules, loads, targets, r) && r.vmid in Ids(src))
    ensures Full(cfg, recs) || Exhausted(rules, targets, recs, src)
  {
    hide Justified, Ids, Selection, SortedBy;
    recs := recs0;
    UnderloadedSuits(cfg, loads, rules, targets);
    hide Suits;
    var cs := SelectMigrationCandidates(src, rules);
    SelectedFacts(src, rules, cs);
    for k := 0 to |cs|
      invariant DistinctGuests(recs) && !Full(cfg, recs) && forall r :: r in recs0 ==> r in recs
      invariant |recs0| <= |recs| && recs[..|recs0|] == recs0 && forall k :: |recs0| <= k < |recs| ==> From(recs[k], src)
      invariant forall r :: r in recs ==> r in recs0 || (Justified(cfg, rules, loads, targets, r) && exists j :: 0 <= j < k && r.vmid == cs[j].vmid)
      invariant forall j :: 0 <= j < k ==> Served(rules, targets, recs, cs[j].vmid)
    {
      assert cs[k] in cs;
      ghost var before := recs;
      var found, t := SelectTargetNode(cfg, cs[k].vmid, targets, rules);
      if !found {
        assert Served(rules, targets, recs, cs[k].vmid);
        continue;
      }
      var rec := Recommendation(cs[k].vmid, cs[k].isVM, src.node, targets[t].node);
      TargetIsBest(cfg, rules, loads, targets, src, t, cs[k]);
      assert forall r :: r in recs ==> r.vmid != rec.vmid;
      recs := recs + [rec];
      assert rec in recs;
      forall j | 0 <= j < k ensures Served(rules, targets, recs, cs[j].vmid) {
        assert Served(rules, targets, before, cs[j].vmid);
      }
      if |recs| >= cfg.migrationRate {
        return;
      }
    }
    assert forall c :: c in cs ==> Served(rules, targets, recs, c.vmid);
  }

  lemma SelectedFacts(src: NodeLoad, rules: seq<Rule>, cs: seq<Candidate>)
    requires Selection(src, rules, cs)
    ensures DistinctCandidates(cs) && forall c :: c in cs ==> Migratable(src, rules, c) && c.vmid in Ids(src)
  {
    forall c | c in cs ensures Migratable(src, rules, c) {
      OfferedIsMigratable(src, rules, c);
    }
  }

  method Classify(cfg: Settings, loads: seq<NodeLoad>) returns (overloaded: seq<NodeLoad>, underloaded: seq<NodeLoad>)
    requires NoDup(loads)
    ensures NoDup(overloaded) && forall l :: l in overloaded <==> l in loads && Overloaded(cfg, l)
    ensures UnderloadedOf(cfg, loads, underloaded)
    ensures forall l :: l in overloaded <==> l in loads && (l.cpu > cfg.cpuThreshold || l.mem > cfg.memThreshold)
    ensures forall l :: l in underloaded <==>
              l in loads && l !in overloaded && 2.0 * l.cpu < cfg.cpuThreshold && 2.0 * l.mem < cfg.memThreshold
  {
    overloaded, underloaded := [], [];
    for i := 0 to |loads|
      invariant NoDup(overloaded)
      invariant forall l :: l in overloaded <==> l in loads[..i] && Overloaded(cfg, l)
      invariant forall l :: l in underloaded <==> l in loads[..i] && Underloaded(cfg, l)
    {
      var l := loads[i];
      assert loads[..i + 1] == loads[..i] + [l] && l !in loads[..i];
      if l.cpu > cfg.cpuThreshold || l.mem > cfg.memThreshold {
        overloaded := overloaded + [l];
      } else if l.cpu < cfg.cpuThreshold * 0.5 && l.mem < cfg.memThreshold * 0.5 {
        underloaded := underloaded + [l];
      }
    }
    assert loads[..|loads|] == loads;
  }

  lemma EarlierSourcesDiffer(loads: seq<NodeLoad>, sources: seq<NodeLoad>, i: nat, recs: seq<Recommendation>)
    requires UniqueLoads(loads) && NoDup(sources) && i < |sources| && forall l :: l in sources ==> l in loads
    requires forall r :: r in recs ==> exists j :: 0 <= j < i && r.vmid in Ids(sources[j])
    ensures forall r :: r in recs ==> r.vmid !in Ids(sources[i])
  {
    forall r | r in recs ensures r.vmid !in Ids(sources[i]) {
      var j :| 0 <= j < i && r.vmid in Ids(sources[j]);
      assert sources[j] in loads && sources[i] in loads && sources[j] != sources[i];
    }
  }

  lemma TargetIsBest(cfg: Settings, rules: seq<Rule>, loads: seq<NodeLoad>, targets: seq<NodeLoad>, src: NodeLoad, t: nat, c: Candidate)
    requires UniqueLoads(loads) && UnderloadedOf(cfg, loads, targets) && SortedBy(targets, Combined)
    requires src in loads && Overloaded(cfg, src) && Migratable(src, rules, c)
    requires t < |targets| && Allowed(c.vmid, targets[t].node, rules, targets)
    requires forall i :: 0 <= i < t ==> !Allowed(c.vmid, targets[i].node, rules, targets)
    ensures Justified(cfg, rules, loads, targets, Recommendation(c.vmid, c.isVM, src.node, targets[t].node))
  {
    hide Ids;
    var dst := targets[t];
    assert dst in targets && dst in loads && dst != src;
    forall u | u in targets && Allowed(c.vmid, u.node, rules, targets) ensures Combined(dst) <= Combined(u) {
      var i :| 0 <= i < |targets| && targets[i] == u;
    }
    assert Migratable(src, rules, Candidate(c.vmid, c.isVM, 0.0));
  }
}
