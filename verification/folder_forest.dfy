/** The folders table as a parent-pointer graph: ancestors, acyclicity and subtrees. */
module FolderForest {
  import opened Options

  datatype Folder = Folder(name: string, parent: Option<string>, view: string)

  /** The folders table, keyed by its primary key. */
  type Table = map<string, Folder>

  /** The folder k parent links above `id`, if there are that many links. */
  ghost function Walk(t: Table, id: string, k: nat): Option<string>
    decreases k
  {
    if k == 0 then Some(id)
    else if id in t && t[id].parent.Some? then Walk(t, t[id].parent.value, k - 1)
    else None
  }

  /** `a` is a proper ancestor of `d`. */
  ghost predicate Above(t: Table, a: string, d: string) {
    exists k: nat :: k > 0 && Walk(t, d, k) == Some(a)
  }

  ghost predicate Acyclic(t: Table) {
    forall id :: id in t ==> !Above(t, id, id)
  }

  /** Parents exist and lie in the same tree view. */
  ghost predicate Closed(t: Table) {
    forall id :: id in t && t[id].parent.Some? ==>
      t[id].parent.value in t && t[t[id].parent.value].view == t[id].view
  }

  ghost predicate Forest(t: Table) {
    Closed(t) && Acyclic(t)
  }

  lemma AboveUnfold(t: Table, a: string, d: string)
    ensures Above(t, a, d) <==>
            d in t && t[d].parent.Some? && (t[d].parent.value == a || Above(t, a, t[d].parent.value))
  {
    if Above(t, a, d) {
      var k: nat :| k > 0 && Walk(t, d, k) == Some(a);
      var p := t[d].parent.value;
      assert Walk(t, p, k - 1) == Some(a);
    }
    if d in t && t[d].parent.Some? {
      var p := t[d].parent.value;
      assert Walk(t, d, 1) == Walk(t, p, 0);
      if Above(t, a, p) {
        var k: nat :| k > 0 && Walk(t, p, k) == Some(a);
        assert Walk(t, d, k + 1) == Some(a);
      }
    }
  }

  lemma {:induction false} WalkCompose(t: Table, d: string, j: nat, k: nat)
    requires Walk(t, d, j).Some?
    ensures Walk(t, d, j + k) == Walk(t, Walk(t, d, j).value, k)
    decreases j
  {
    if j > 0 {
      WalkCompose(t, t[d].parent.value, j - 1, k);
    }
  }

  lemma AboveTransitive(t: Table, a: string, b: string, c: string)
    requires Above(t, a, b) && Above(t, b, c)
    ensures Above(t, a, c)
  {
    var j: nat :| j > 0 && Walk(t, c, j) == Some(b);
    var k: nat :| k > 0 && Walk(t, b, k) == Some(a);
    WalkCompose(t, c, j, k);
  }

  /** Two ancestors of one folder are comparable: the ancestors form a chain. */
  lemma AncestorsFormChain(t: Table, a: string, b: string, d: string)
    requires Above(t, a, d) && Above(t, b, d)
    ensures a == b || Above(t, a, b) || Above(t, b, a)
  {
    var j: nat :| j > 0 && Walk(t, d, j) == Some(a);
    var k: nat :| k > 0 && Walk(t, d, k) == Some(b);
    if j < k {
      WalkCompose(t, d, j, k - j);
    } else if k < j {
      WalkCompose(t, d, k, j - k);
    }
  }

  lemma {:induction false} WalkStaysInside(t: Table, d: string, k: nat)
    requires Closed(t) && d in t
    ensures Walk(t, d, k).Some? ==> Walk(t, d, k).value in t && t[Walk(t, d, k).value].view == t[d].view
    decreases k
  {
    if k > 0 && t[d].parent.Some? {
      WalkStaysInside(t, t[d].parent.value, k - 1);
    }
  }

  /** Ancestors of a stored folder are stored, in the same view. */
  lemma AboveStaysInside(t: Table, a: string, d: string)
    requires Closed(t) && Above(t, a, d)
    ensures d in t && a in t && t[a].view == t[d].view
  {
    var k: nat :| k > 0 && Walk(t, d, k) == Some(a);
    WalkStaysInside(t, d, k);
  }

  ghost function Ancestors(t: Table, d: string): set<string> {
    set a | a in t && Above(t, a, d)
  }

  ghost function Descendants(t: Table, a: string): set<string> {
    set d | d in t && Above(t, a, d)
  }

  lemma AncestorsShrink(t: Table, d: string)
    requires Forest(t) && d in t && t[d].parent.Some?
    ensures Ancestors(t, t[d].parent.value) < Ancestors(t, d)
  {
    var p := t[d].parent.value;
    AboveUnfold(t, p, d);
    forall a | a in Ancestors(t, p) ensures a in Ancestors(t, d) {
      AboveUnfold(t, a, d);
    }
    assert p in Ancestors(t, d) && p !in Ancestors(t, p);
  }

  lemma DescendantsShrink(t: Table, a: string, d: string)
    requires Forest(t) && Above(t, a, d)
    ensures d in Descendants(t, a) && Descendants(t, d) < Descendants(t, a)
  {
    AboveStaysInside(t, a, d);
    forall x | x in Descendants(t, d) ensures x in Descendants(t, a) {
      AboveTransitive(t, a, d, x);
    }
    assert d in Descendants(t, a) && d !in Descendants(t, d);
  }

  // ---- Acyclicity and rank functions ----

  /** `rank` strictly grows from parent to child. */
  ghost predicate Ranked(t: Table, rank: map<string, nat>) {
    && t.Keys <= rank.Keys
    && forall id :: id in t && t[id].parent.Some? && t[id].parent.value in t ==>
         rank[t[id].parent.value] < rank[id]
  }

  lemma {:induction false} RankDropsAlongWalk(t: Table, rank: map<string, nat>, d: string, k: nat)
    requires Closed(t) && Ranked(t, rank) && d in t && k > 0 && Walk(t, d, k).Some?
    ensures Walk(t, d, k).value in t && rank[Walk(t, d, k).value] < rank[d]
    decreases k
  {
    if k > 1 {
      RankDropsAlongWalk(t, rank, t[d].parent.value, k - 1);
    } else {
      assert Walk(t, d, 1) == Walk(t, t[d].parent.value, 0);
    }
  }

  lemma RankedIsAcyclic(t: Table, rank: map<string, nat>)
    requires Closed(t) && Ranked(t, rank)
    ensures Acyclic(t)
  {
    forall id | id in t && Above(t, id, id) ensures false {
      var k: nat :| k > 0 && Walk(t, id, k) == Some(id);
      RankDropsAlongWalk(t, rank, id, k);
    }
  }

  lemma ProperSubsetIsSmaller(a: set<string>, b: set<string>)
    requires a < b
    ensures |a| < |b|
  {
    assert b == a + (b - a);
  }

  /** Conversely every forest has a rank: the number of ancestors. */
  lemma ForestIsRanked(t: Table) returns (rank: map<string, nat>)
    requires Forest(t)
    ensures Ranked(t, rank) && rank.Keys == t.Keys
  {
    rank := map id | id in t :: |Ancestors(t, id)|;
    forall id | id in t && t[id].parent.Some? ensures rank[t[id].parent.value] < rank[id] {
      AncestorsShrink(t, id);
      ProperSubsetIsSmaller(Ancestors(t, t[id].parent.value), Ancestors(t, id));
    }
  }

  // ---- The ancestor walk that guards moves ----

  /** isDescendant: the upward walk terminates on a forest and is true exactly for proper descendants. */
  function IsDescendant(t: Table, candidate: string, ancestor: string): (r: bool)
    requires Forest(t)
    ensures r <==> Above(t, ancestor, candidate)
    decreases Ancestors(t, candidate)
  {
    AboveUnfold(t, ancestor, candidate);
    if candidate !in t then false
    else if t[candidate].parent.None? then false
    else if t[candidate].parent.value == ancestor then true
    else
      AncestorsShrink(t, candidate);
      IsDescendant(t, t[candidate].parent.value, ancestor)
  }

  // ---- Effects of table updates on the forest ----

  lemma InsertKeepsForest(t: Table, id: string, f: Folder)
    requires Forest(t) && id !in t
    requires f.parent.Some? ==> f.parent.value in t && t[f.parent.value].view == f.view
    ensures Forest(t[id := f])
  {
    var rank := ForestIsRanked(t);
    var r := if f.parent.Some? then rank[f.parent.value] + 1 else 0;
    RankedIsAcyclic(t[id := f], rank[id := r]);
  }

  /** Re-parenting keeps the forest when the new parent is neither the folder nor below it. */
  lemma MoveKeepsForest(t: Table, id: string, f: Folder)
    requires Forest(t) && id in t && f.view == t[id].view
    requires f.parent.Some? ==>
               f.parent.value in t && t[f.parent.value].view == f.view &&
               f.parent.value != id && !Above(t, id, f.parent.value)
    ensures Forest(t[id := f])
  {
    var rank := ForestIsRanked(t);
    var lift := if f.parent.Some? then rank[f.parent.value] + 1 else 0;
    var rank' := map x | x in t :: if x == id || Above(t, id, x) then rank[x] + lift else rank[x];
    var t' := t[id := f];
    forall x | x in t' && t'[x].parent.Some? && t'[x].parent.value in t'
      ensures rank'[t'[x].parent.value] < rank'[x]
    {
      AboveUnfold(t, id, x);
    }
    RankedIsAcyclic(t', rank');
  }

  /** Moving under itself or under a descendant does create a cycle, so the guard is exact. */
  lemma {:induction false} ForbiddenMoveMakesCycle(t: Table, id: string, f: Folder)
    requires Forest(t) && id in t && f.parent.Some?
    requires f.parent.value == id || Above(t, id, f.parent.value)
    ensures !Acyclic(t[id := f])
  {
    var t' := t[id := f];
    var p := f.parent.value;
    if p == id {
      assert Walk(t', id, 1) == Walk(t', id, 0);
    } else {
      var k: nat :| k > 0 && Walk(t, p, k) == Some(id);
      WalkBelowUnchanged(t, id, f, p, k);
      assert Walk(t', id, k + 1) == Walk(t', p, k);
    }
    assert Above(t', id, id);
  }

  lemma {:induction false} WalkBelowUnchanged(t: Table, id: string, f: Folder, d: string, k: nat)
    requires Forest(t) && id in t && Walk(t, d, k) == Some(id)
    ensures Walk(t[id := f], d, k) == Some(id)
    decreases k
  {
    if k > 0 {
      assert Above(t, id, d);
      WalkBelowUnchanged(t, id, f, t[d].parent.value, k - 1);
    }
  }

  ghost function Subtree(t: Table, id: string): set<string> {
    Descendants(t, id) + (if id in t then {id} else {})
  }

  lemma DeleteKeepsForest(t: Table, id: string)
    requires Forest(t)
    ensures Forest(t - Subtree(t, id))
  {
    var t' := t - Subtree(t, id);
    forall x | x in t' ensures t'[x].parent.Some? ==> t'[x].parent.value in t' {
      AboveUnfold(t, id, x);
    }
    var rank := ForestIsRanked(t);
    RankedIsAcyclic(t', rank);
  }
}
