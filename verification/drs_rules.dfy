/** DRS placement rules: the checks the scheduler makes, and the violation detector. */
module DrsRules {
  import opened Seqs

  datatype RuleType = Affinity | AntiAffinity | HostPin

  datatype Rule = Rule(kind: RuleType, enabled: bool, members: seq<int>, host: string)

  datatype Guest = Guest(vmid: int, mem: real, template: bool)

  datatype NodeLoad = NodeLoad(node: string, cpu: real, mem: real, vms: seq<Guest>, cts: seq<Guest>)

  /** Where every guest of the cluster is, as CheckViolations collects it. */
  type Placement = map<int, string>

  // ---- The scheduler's checks ----

  ghost predicate Holds(guests: seq<Guest>, vmid: int) {
    exists g :: g in guests && g.vmid == vmid
  }

  method HasGuest(guests: seq<Guest>, vmid: int) returns (r: bool)
    ensures r <==> Holds(guests, vmid)
  {
    for i := 0 to |guests|
      invariant forall j :: 0 <= j < i ==> guests[j].vmid != vmid
    {
      if guests[i].vmid == vmid {
        assert guests[i] in guests;
        return true;
      }
    }
    r := false;
  }

  /** Some other member of an enabled anti-affinity rule of `vmid` runs on `node`. */
  ghost predicate Crowds(vmid: int, node: string, rules: seq<Rule>, loads: seq<NodeLoad>) {
    exists rule, other, load ::
      && rule in rules && rule.enabled && rule.kind == AntiAffinity && vmid in rule.members
      && other in rule.members && other != vmid
      && load in loads && load.node == node && (Holds(load.vms, other) || Holds(load.cts, other))
  }

  /** One rule's part of the anti-affinity check. */
  ghost predicate RuleCrowds(vmid: int, node: string, rule: Rule, loads: seq<NodeLoad>) {
    exists other, load ::
      && other in rule.members && other != vmid
      && load in loads && load.node == node && (Holds(load.vms, other) || Holds(load.cts, other))
  }

  method ViolatesAntiAffinity(vmid: int, node: string, rules: seq<Rule>, loads: seq<NodeLoad>) returns (r: bool)
    ensures r <==> Crowds(vmid, node, rules, loads)
  {
    for i := 0 to |rules|
      invariant forall j :: 0 <= j < i ==>
        !(rules[j].enabled && rules[j].kind == AntiAffinity && vmid in rules[j].members && RuleCrowds(vmid, node, rules[j], loads))
    {
      var rule := rules[i];
      if !rule.enabled || rule.kind != AntiAffinity || vmid !in rule.members {
        continue;
      }
      var found := OtherMemberOn(vmid, node, rule, loads);
      if found {
        assert rule in rules;
        return true;
      }
    }
    r := false;
  }

  method OtherMemberOn(vmid: int, node: string, rule: Rule, loads: seq<NodeLoad>) returns (r: bool)
    ensures r <==> RuleCrowds(vmid, node, rule, loads)
  {
    for i := 0 to |rule.members|
      invariant forall j, load :: 0 <= j < i && rule.members[j] != vmid && load in loads && load.node == node ==>
        !Holds(load.vms, rule.members[j]) && !Holds(load.cts, rule.members[j])
    {
      var other := rule.members[i];
      if other == vmid {
        continue;
      }
      for k := 0 to |loads|
        invariant forall j :: 0 <= j < k && loads[j].node == node ==> !Holds(loads[j].vms, other) && !Holds(loads[j].cts, other)
      {
        if loads[k].node != node {
          continue;
        }
        var v := HasGuest(loads[k].vms, other);
        var c := HasGuest(loads[k].cts, other);
        if v || c {
          assert loads[k] in loads && other in rule.members;
          return true;
        }
      }
    }
    r := false;
  }

  /** The host named by the first enabled pin of `vmid`, or the empty name. */
  function PinnedHost(vmid: int, rules: seq<Rule>): string {
    if rules == [] then ""
    else if rules[0].enabled && rules[0].kind == HostPin && vmid in rules[0].members then rules[0].host
    else PinnedHost(vmid, rules[1..])
  }

  method GetPinnedHost(vmid: int, rules: seq<Rule>) returns (host: string)
    ensures host == PinnedHost(vmid, rules)
  {
    for i := 0 to |rules|
      invariant PinnedHost(vmid, rules) == PinnedHost(vmid, rules[i..])
    {
      assert rules[i..][1..] == rules[i + 1..];
      var rule := rules[i];
      if !rule.enabled || rule.kind != HostPin {
        continue;
      }
      if vmid in rule.members {
        return rule.host;
      }
    }
    host := "";
  }

  /** A rule-allowed destination. */
  ghost predicate Allowed(vmid: int, node: string, rules: seq<Rule>, loads: seq<NodeLoad>) {
    !Crowds(vmid, node, rules, loads) && (PinnedHost(vmid, rules) == "" || node == PinnedHost(vmid, rules))
  }

  // ---- The violation detector ----

  function Sits(placement: Placement, node: string): int -> bool {
    m => m in placement && placement[m] == node
  }

  function Strays(placement: Placement, host: string): int -> bool {
    m => m in placement && placement[m] != host
  }

  function OnNode(rule: Rule, placement: Placement, node: string): seq<int> {
    Filter(rule.members, Sits(placement, node))
  }

  /** Nodes holding two or more members of a rule. */
  function Crowded(rule: Rule, placement: Placement): set<string> {
    set m | m in rule.members && m in placement && |OnNode(rule, placement, placement[m])| > 1 :: placement[m]
  }

  function Spread(rule: Rule, placement: Placement): set<string> {
    set m | m in rule.members && m in placement :: placement[m]
  }

  /** How many violations CheckViolations reports for one rule. */
  function Count(rule: Rule, placement: Placement): nat {
    if !rule.enabled then 0 else
    match rule.kind
    case AntiAffinity => |Crowded(rule, placement)|
    case Affinity => if |Spread(rule, placement)| > 1 then 1 else 0
    case HostPin => |Filter(rule.members, Strays(placement, rule.host))|
  }

  /** A report names the rule it is about, by position. */
  datatype Violation = Violation(rule: nat)

  function About(r: nat): Violation -> bool {
    (v: Violation) => v.rule == r
  }

  method CheckViolations(rules: seq<Rule>, placement: Placement) returns (violations: seq<Violation>)
    ensures forall r :: 0 <= r < |rules| ==> |Filter(violations, About(r))| == Count(rules[r], placement)
    ensures forall v :: v in violations ==> v.rule < |rules|
    ensures forall r :: 0 <= r < |rules| ==> Deserves(rules[r], placement, |Filter(violations, About(r))|)
  {
    hide Deserves, Count;
    violations := [];
    for i := 0 to |rules|
      invariant forall r :: 0 <= r < i ==> |Filter(violations, About(r))| == Count(rules[r], placement)
      invariant forall v :: v in violations ==> v.rule < i
    {
      var rule := rules[i];
      var n := RuleViolations(rule, placement);
      var reports := seq(n, _ => Violation(i));
      AppendReports(violations, i, n);
      forall r | 0 <= r < i ensures |Filter(violations + reports, About(r))| == |Filter(violations, About(r))| {
        AppendOthers(violations, i, n, r);
      }
      violations := violations + reports;
    }
    forall r | 0 <= r < |rules| ensures Deserves(rules[r], placement, |Filter(violations, About(r))|) {
      CountIsDeserved(rules[r], placement);
    }
  }

  lemma {:induction false} AppendReports(vs: seq<Violation>, i: nat, n: nat)
    requires forall v :: v in vs ==> v.rule < i
    ensures |Filter(vs + seq(n, _ => Violation(i)), About(i))| == n
  {
    if n == 0 {
      assert vs + seq(n, _ => Violation(i)) == vs;
      NoneAbout(vs, i);
    } else {
      AppendReports(vs, i, n - 1);
      assert vs + seq(n, _ => Violation(i)) == (vs + seq(n - 1, _ => Violation(i))) + [Violation(i)];
      FilterSnoc(vs + seq(n - 1, _ => Violation(i)), Violation(i), About(i));
    }
  }

  lemma {:induction false} AppendOthers(vs: seq<Violation>, i: nat, n: nat, r: nat)
    requires r < i
    ensures Filter(vs + seq(n, _ => Violation(i)), About(r)) == Filter(vs, About(r))
  {
    if n == 0 {
      assert vs + seq(n, _ => Violation(i)) == vs;
    } else {
      AppendOthers(vs, i, n - 1, r);
      assert vs + seq(n, _ => Violation(i)) == (vs + seq(n - 1, _ => Violation(i))) + [Violation(i)];
      FilterSnoc(vs + seq(n - 1, _ => Violation(i)), Violation(i), About(r));
    }
  }

  lemma {:induction false} NoneAbout(vs: seq<Violation>, i: nat)
    requires forall v :: v in vs ==> v.rule < i
    ensures Filter(vs, About(i)) == []
  {
    if vs != [] {
      NoneAbout(vs[..|vs| - 1], i);
      assert vs[|vs| - 1] in vs;
    }
  }

  /** The reports of one rule, counted the way the detector groups them. */
  method RuleViolations(rule: Rule, placement: Placement) returns (n: nat)
    ensures n == Count(rule, placement) && Deserves(rule, placement, n)
  {
    CountIsDeserved(rule, placement);
    hide Deserves;
    if !rule.enabled { return 0; }
    match rule.kind {
      case AntiAffinity =>
        var byNode := MembersByNode(rule, placement);
        var crowded := set node | node in byNode && |byNode[node]| > 1;
        CrowdedByNode(rule, placement, byNode, crowded);
        n := |crowded|;
      case Affinity =>
        var nodes := set m | m in rule.members && m in placement :: placement[m];
        n := if |nodes| > 1 then 1 else 0;
      case HostPin =>
        n := CountStrays(rule, placement);
    }
  }

  /** The members of the rule on each node, in rule order. */
  method MembersByNode(rule: Rule, placement: Placement) returns (byNode: map<string, seq<int>>)
    ensures forall node :: node in byNode <==> exists j :: 0 <= j < |rule.members| && rule.members[j] in placement && placement[rule.members[j]] == node
    ensures forall node :: node in byNode ==> byNode[node] == OnNode(rule, placement, node)
  {
    byNode := map[];
    for i := 0 to |rule.members|
      invariant forall node :: node in byNode <==> exists j :: 0 <= j < i && rule.members[j] in placement && placement[rule.members[j]] == node
      invariant forall node :: node in byNode ==> byNode[node] == Filter(rule.members[..i], Sits(placement, node))
    {
      var m := rule.members[i];
      assert rule.members[..i + 1] == rule.members[..i] + [m];
      forall node ensures Filter(rule.members[..i + 1], Sits(placement, node)) ==
        Filter(rule.members[..i], Sits(placement, node)) + (if Sits(placement, node)(m) then [m] else [])
      {
        FilterSnoc(rule.members[..i], m, Sits(placement, node));
      }
      if m in placement {
        var node := placement[m];
        if node !in byNode {
          FilterIn(rule.members[..i], Sits(placement, node));
          NothingSits(rule.members[..i], placement, node);
        }
        byNode := byNode[node := (if node in byNode then byNode[node] else []) + [m]];
      }
    }
    assert rule.members[..|rule.members|] == rule.members;
  }

  method CountStrays(rule: Rule, placement: Placement) returns (n: nat)
    ensures n == |Filter(rule.members, Strays(placement, rule.host))|
  {
    n := 0;
    for i := 0 to |rule.members|
      invariant n == |Filter(rule.members[..i], Strays(placement, rule.host))|
    {
      var m := rule.members[i];
      assert rule.members[..i + 1] == rule.members[..i] + [m];
      FilterSnoc(rule.members[..i], m, Strays(placement, rule.host));
      if m in placement && placement[m] != rule.host {
        n := n + 1;
      }
    }
    assert rule.members[..|rule.members|] == rule.members;
  }

  lemma NothingSits(ms: seq<int>, placement: Placement, node: string)
    requires forall j :: 0 <= j < |ms| && ms[j] in placement ==> placement[ms[j]] != node
    ensures Filter(ms, Sits(placement, node)) == []
  {
    FilterNone(ms, Sits(placement, node));
  }

  lemma CrowdedByNode(rule: Rule, placement: Placement, byNode: map<string, seq<int>>, crowded: set<string>)
    requires forall node :: node in byNode <==>
      exists j :: 0 <= j < |rule.members| && rule.members[j] in placement && placement[rule.members[j]] == node
    requires forall node :: node in byNode ==> byNode[node] == OnNode(rule, placement, node)
    requires crowded == set node | node in byNode && |byNode[node]| > 1
    ensures crowded == Crowded(rule, placement)
  {
    hide OnNode;
    forall node | node in crowded ensures node in Crowded(rule, placement) {
      var j :| 0 <= j < |rule.members| && rule.members[j] in placement && placement[rule.members[j]] == node;
      var m := rule.members[j];
      assert m in rule.members && |OnNode(rule, placement, placement[m])| > 1;
      assert placement[m] in Crowded(rule, placement);
    }
    forall node | node in Crowded(rule, placement) ensures node in crowded {
      var m :| m in rule.members && m in placement && |OnNode(rule, placement, placement[m])| > 1 && placement[m] == node;
      var j :| 0 <= j < |rule.members| && rule.members[j] == m;
    }
  }

  // ---- The effect of one migration on each rule's count ----

  lemma {:induction false} FilterWeaker(ms: seq<int>, p: int -> bool, q: int -> bool)
    requires forall m :: m in ms && p(m) ==> q(m)
    ensures |Filter(ms, p)| <= |Filter(ms, q)|
  {
    if ms != [] {
      var front, last := ms[..|ms| - 1], ms[|ms| - 1];
      assert ms == front + [last];
      FilterWeaker(front, p, q);
      assert last in ms;
    }
  }

  lemma {:induction false} FilterStrictlyWeaker(ms: seq<int>, p: int -> bool, q: int -> bool, g: int)
    requires forall m :: m in ms && p(m) ==> q(m)
    requires g in ms && !p(g) && q(g)
    ensures |Filter(ms, p)| < |Filter(ms, q)|
  {
    var front, last := ms[..|ms| - 1], ms[|ms| - 1];
    assert ms == front + [last];
    FilterWeaker(front, p, q);
    if last != g {
      FilterStrictlyWeaker(front, p, q, g);
    }
  }

  lemma {:induction false} FilterAtMost(ms: seq<int>, p: int -> bool, g: int)
    requires NoDup(ms) && forall m :: m in ms && p(m) ==> m == g
    ensures |Filter(ms, p)| <= 1
  {
    if ms != [] {
      var front, last := ms[..|ms| - 1], ms[|ms| - 1];
      assert ms == front + [last];
      FilterAtMost(front, p, g);
      if p(last) {
        assert last in ms && last !in front;
        FilterNone(front, p);
      }
    }
  }

  lemma SubsetSize(a: set<string>, b: set<string>)
    requires a <= b
    ensures |a| <= |b|
  {
    assert b == a + (b - a);
  }

  /** Moving a guest to a node with no other member of the rule never adds a crowded node. */
  lemma AntiAffinityNeverWorse(rule: Rule, placement: Placement, g: int, to: string)
    requires NoDup(rule.members)
    requires g in rule.members ==> forall m :: m in rule.members && m != g && m in placement ==> placement[m] != to
    ensures |Crowded(rule, placement[g := to])| <= |Crowded(rule, placement)|
  {
    var after := placement[g := to];
    forall n | n in Crowded(rule, after) ensures n in Crowded(rule, placement) {
      var m :| m in rule.members && m in after && |OnNode(rule, after, after[m])| > 1 && after[m] == n;
      if g in rule.members && n == to {
        FilterAtMost(rule.members, Sits(after, to), g);
      } else {
        FilterWeaker(rule.members, Sits(after, n), Sits(placement, n));
        assert m != g;
        assert |OnNode(rule, placement, placement[m])| > 1;
      }
    }
    SubsetSize(Crowded(rule, after), Crowded(rule, placement));
  }

  /** A pin rule reports more violations after a migration exactly when it pinned the guest to the node it left. */
  lemma PinWorseIff(rule: Rule, placement: Placement, g: int, to: string)
    requires g in placement && placement[g] != to
    ensures |Filter(rule.members, Strays(placement[g := to], rule.host))| > |Filter(rule.members, Strays(placement, rule.host))|
            <==> g in rule.members && rule.host == placement[g]
  {
    var after := placement[g := to];
    var p, p' := Strays(placement, rule.host), Strays(after, rule.host);
    if g in rule.members && rule.host == placement[g] {
      FilterStrictlyWeaker(rule.members, p, p', g);
    } else {
      FilterWeaker(rule.members, p', p);
    }
  }

  // ---- What the reports say ----

  /** The member at that position of the rule is placed. */
  predicate PlacedAt(rule: Rule, placement: Placement, i: nat)
    requires i < |rule.members|
  {
    rule.members[i] in placement
  }

  function NodeAt(rule: Rule, placement: Placement, i: nat): string
    requires i < |rule.members| && PlacedAt(rule, placement, i)
  {
    placement[rule.members[i]]
  }

  ghost predicate Together(rule: Rule, placement: Placement, i: nat, j: nat) {
    && i < |rule.members| && j < |rule.members| && i != j && PlacedAt(rule, placement, i) && PlacedAt(rule, placement, j)
    && NodeAt(rule, placement, i) == NodeAt(rule, placement, j)
  }

  ghost predicate Apart(rule: Rule, placement: Placement, i: nat, j: nat) {
    && i < |rule.members| && j < |rule.members| && PlacedAt(rule, placement, i) && PlacedAt(rule, placement, j)
    && NodeAt(rule, placement, i) != NodeAt(rule, placement, j)
  }

  ghost predicate Shared(rule: Rule, placement: Placement, node: string) {
    exists i: nat, j: nat :: Together(rule, placement, i, j) && NodeAt(rule, placement, i) == node
  }

  /** The positions of the members that are placed off the host of a pin. */
  ghost function OffHost(rule: Rule, placement: Placement): set<nat> {
    set i | 0 <= i < |rule.members| && PlacedAt(rule, placement, i) && NodeAt(rule, placement, i) != rule.host
  }

  /**
   * The number of reports a rule deserves: none when it is disabled; one for each node that two members of an
   * anti-affinity rule share; one when two members of an affinity rule are apart; one for each member off its host.
   */
  ghost predicate Deserves(rule: Rule, placement: Placement, n: nat) {
    if !rule.enabled then n == 0
    else match rule.kind
      case AntiAffinity =>
        && (exists nodes: set<string> :: |nodes| == n && forall node :: node in nodes <==> Shared(rule, placement, node))
        && (n > 0 <==> exists i: nat, j: nat :: Together(rule, placement, i, j))
      case Affinity => n == if exists i: nat, j: nat :: Apart(rule, placement, i, j) then 1 else 0
      case HostPin => n == |OffHost(rule, placement)|
  }

  ghost function Positions(ms: seq<int>, p: int -> bool): set<nat> {
    set i | 0 <= i < |ms| && p(ms[i])
  }

  lemma {:induction false} FilterCounts(ms: seq<int>, p: int -> bool)
    ensures |Filter(ms, p)| == |Positions(ms, p)|
  {
    if ms == [] {
      assert Positions(ms, p) == {};
    } else {
      var front, n := ms[..|ms| - 1], |ms| - 1;
      FilterCounts(front, p);
      assert Positions(ms, p) == Positions(front, p) + (if p(ms[n]) then {n} else {});
    }
  }

  lemma MoreThanOne(u: set<nat>)
    ensures |u| > 1 <==> exists i, j :: i in u && j in u && i != j
  {
    if |u| > 1 {
      var i :| i in u;
      assert |u - {i}| == |u| - 1;
      var j :| j in u - {i};
    }
    if i, j :| i in u && j in u && i != j {
      assert {i, j} <= u;
      SmallerSet({i, j}, u);
    }
  }

  lemma SmallerSet(a: set<nat>, b: set<nat>)
    requires a <= b
    ensures |a| <= |b|
  {
    assert b == a + (b - a);
  }

  lemma OnNodeTwice(rule: Rule, placement: Placement, node: string)
    ensures |OnNode(rule, placement, node)| > 1 <==> Shared(rule, placement, node)
  {
    var u := Positions(rule.members, Sits(placement, node));
    FilterCounts(rule.members, Sits(placement, node));
    MoreThanOne(u);
    hide Filter;
    if Shared(rule, placement, node) {
      var i: nat, j: nat :| Together(rule, placement, i, j) && NodeAt(rule, placement, i) == node;
      assert i in u && j in u;
    }
    if i, j :| i in u && j in u && i != j {
      assert Together(rule, placement, i, j) && NodeAt(rule, placement, i) == node;
    }
  }

  lemma CrowdedIsShared(rule: Rule, placement: Placement, node: string)
    ensures node in Crowded(rule, placement) <==> Shared(rule, placement, node)
  {
    OnNodeTwice(rule, placement, node);
    hide OnNode;
    if Shared(rule, placement, node) {
      var i: nat, j: nat :| Together(rule, placement, i, j) && NodeAt(rule, placement, i) == node;
      var m := rule.members[i];
      assert m in rule.members && m in placement && placement[m] == node && |OnNode(rule, placement, placement[m])| > 1;
    }
  }

  lemma AntiAffinityDeserves(rule: Rule, placement: Placement)
    requires rule.enabled && rule.kind == AntiAffinity
    ensures Deserves(rule, placement, |Crowded(rule, placement)|)
  {
    var nodes := Crowded(rule, placement);
    forall node ensures node in nodes <==> Shared(rule, placement, node) {
      CrowdedIsShared(rule, placement, node);
    }
    hide Crowded;
    if i: nat, j: nat :| Together(rule, placement, i, j) {
      assert Shared(rule, placement, NodeAt(rule, placement, i));
      assert NodeAt(rule, placement, i) in nodes;
    }
    if nodes != {} {
      var node :| node in nodes;
      assert Shared(rule, placement, node);
    }
  }

  lemma SpreadOverTwo(rule: Rule, placement: Placement)
    ensures |Spread(rule, placement)| > 1 <==> exists i: nat, j: nat :: Apart(rule, placement, i, j)
  {
    var nodes := Spread(rule, placement);
    if i: nat, j: nat :| Apart(rule, placement, i, j) {
      var a, b := NodeAt(rule, placement, i), NodeAt(rule, placement, j);
      var m, n := rule.members[i], rule.members[j];
      assert m in rule.members && m in placement && placement[m] == a && a in nodes;
      assert n in rule.members && n in placement && placement[n] == b && b in nodes;
      SubsetSize({a, b}, nodes);
    }
    if |nodes| > 1 {
      var a :| a in nodes;
      assert |nodes - {a}| == |nodes| - 1;
      var b :| b in nodes - {a};
      var i: nat :| i < |rule.members| && rule.members[i] in placement && placement[rule.members[i]] == a;
      var j: nat :| j < |rule.members| && rule.members[j] in placement && placement[rule.members[j]] == b;
      assert Apart(rule, placement, i, j);
    }
  }

  /** The count of a rule is what its members' places deserve. */
  lemma CountIsDeserved(rule: Rule, placement: Placement)
    ensures Deserves(rule, placement, Count(rule, placement))
  {
    hide Filter, Crowded, Spread;
    if rule.enabled {
      match rule.kind
      case AntiAffinity => AntiAffinityDeserves(rule, placement);
      case Affinity => SpreadOverTwo(rule, placement);
      case HostPin =>
        FilterCounts(rule.members, Strays(placement, rule.host));
        assert Positions(rule.members, Strays(placement, rule.host)) == OffHost(rule, placement);
    }
  }

  /** A pinned host is that of the first enabled pin listing the guest; without one there is none. */
  lemma {:induction false} PinnedHostIsFirst(vmid: int, rules: seq<Rule>)
    ensures (exists i :: 0 <= i < |rules| && IsFirstPin(vmid, rules, i) && PinnedHost(vmid, rules) == rules[i].host) ||
            ((forall r :: r in rules ==> !PinsGuest(vmid, r)) && PinnedHost(vmid, rules) == "")
  {
    if rules != [] && !PinsGuest(vmid, rules[0]) {
      var rest := rules[1..];
      PinnedHostIsFirst(vmid, rest);
      assert rules == [rules[0]] + rest;
      if i :| 0 <= i < |rest| && IsFirstPin(vmid, rest, i) && PinnedHost(vmid, rest) == rest[i].host {
        assert IsFirstPin(vmid, rules, i + 1);
      }
    } else if rules != [] {
      assert IsFirstPin(vmid, rules, 0);
    }
  }

  predicate PinsGuest(vmid: int, r: Rule) { r.enabled && r.kind == HostPin && vmid in r.members }

  ghost predicate IsFirstPin(vmid: int, rules: seq<Rule>, i: nat)
    requires i < |rules|
  {
    PinsGuest(vmid, rules[i]) && forall j :: 0 <= j < i ==> !PinsGuest(vmid, rules[j])
  }
}
