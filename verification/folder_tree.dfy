/** GetFolderTree: the two-pass construction of the nested tree of one view. */
module FolderTree {
  import opened Options
  import opened Seqs
  import opened FolderForest

  datatype Member = Member(folder: string, kind: string, resource: string, cluster: string)

  /** A folder of the response, with its computed fields. */
  datatype Node = Node(id: string, row: Folder, members: seq<Member>, children: seq<Node>)

  function Ids(ns: seq<Node>): (r: seq<string>)
    ensures |r| == |ns| && forall i :: 0 <= i < |ns| ==> r[i] == ns[i].id
  {
    seq(|ns|, i requires 0 <= i < |ns| => ns[i].id)
  }

  /** The memberships of a folder, in row order. */
  function MembersOf(members: seq<Member>, id: string): (r: seq<Member>)
    ensures forall m :: m in r <==> m in members && m.folder == id
  {
    var p := (m: Member) => m.folder == id;
    FilterIn(members, p);
    Filter(members, p)
  }

  lemma MembersOfNone(id: string)
    ensures MembersOf([], id) == []
  {
  }

  lemma MembersOfSnoc(members: seq<Member>, m: Member, id: string)
    ensures MembersOf(members + [m], id) == MembersOf(members, id) + (if m.folder == id then [m] else [])
  {
    FilterSnoc(members, m, (x: Member) => x.folder == id);
  }

  /** `ids` is the query result for one view: its folders, once each, in the order the query chose. */
  ghost predicate Lists(ids: seq<string>, t: Table, view: string) {
    NoDup(ids) && forall id :: id in ids <==> id in t && t[id].view == view
  }

  function HasParent(t: Table, parent: Option<string>): string -> bool {
    id => id in t && t[id].parent == parent
  }

  /** The folders with the given parent, in query order. */
  function Kids(t: Table, ids: seq<string>, parent: Option<string>): (r: seq<string>)
    ensures forall id :: id in r <==> id in ids && id in t && t[id].parent == parent
  {
    FilterIn(ids, HasParent(t, parent));
    Filter(ids, HasParent(t, parent))
  }

  /** A node carries its own row and members, and below it exactly its children in query order. */
  ghost predicate Faithful(t: Table, members: seq<Member>, ids: seq<string>, n: Node) {
    && n.id in t
    && n.row == t[n.id]
    && n.members == MembersOf(members, n.id)
    && Ids(n.children) == Kids(t, ids, Some(n.id))
    && forall i :: 0 <= i < |n.children| ==> Faithful(t, members, ids, n.children[i])
  }

  ghost predicate AllFaithful(t: Table, members: seq<Member>, ids: seq<string>, ns: seq<Node>) {
    forall i :: 0 <= i < |ns| ==> Faithful(t, members, ids, ns[i])
  }

  /** All folder ids of a response, parents before children. */
  function Preorder(ns: seq<Node>): seq<string> {
    if ns == [] then [] else [ns[0].id] + Preorder(ns[0].children) + Preorder(ns[1..])
  }

  // ---- Faithful responses list every folder exactly once ----

  /** What lies at or below the given folders. */
  ghost function Cover(t: Table, roots: seq<string>): set<string> {
    set x | x in t && (x in roots || exists r :: r in roots && Above(t, r, x))
  }

  ghost predicate Antichain(t: Table, roots: seq<string>) {
    NoDup(roots) && forall a, b :: a in roots && b in roots ==> !Above(t, a, b)
  }

  lemma SiblingsAreAntichain(t: Table, view: string, ids: seq<string>, parent: Option<string>)
    requires Forest(t) && Lists(ids, t, view)
    ensures Antichain(t, Kids(t, ids, parent))
  {
    var kids := Kids(t, ids, parent);
    FilterNoDup(ids, HasParent(t, parent));
    forall a, b | a in kids && b in kids ensures !Above(t, a, b) {
      AboveUnfold(t, a, b);
      AboveUnfold(t, a, a);
    }
  }

  lemma KidsCoverDescendants(t: Table, view: string, ids: seq<string>, id: string)
    requires Forest(t) && Lists(ids, t, view) && id in ids
    ensures Cover(t, Kids(t, ids, Some(id))) == Descendants(t, id)
  {
    var kids := Kids(t, ids, Some(id));
    forall x | x in Cover(t, kids) ensures x in Descendants(t, id) {
      if x in kids {
        AboveUnfold(t, id, x);
      } else {
        var k :| k in kids && Above(t, k, x);
        AboveUnfold(t, id, k);
        AboveTransitive(t, id, k, x);
      }
    }
    forall x | x in Descendants(t, id) ensures x in Cover(t, kids) {
      DescendantHasKid(t, view, ids, id, x);
    }
  }

  lemma {:induction false} DescendantHasKid(t: Table, view: string, ids: seq<string>, id: string, x: string)
    requires Forest(t) && Lists(ids, t, view) && id in ids && x in t && Above(t, id, x)
    ensures x in Cover(t, Kids(t, ids, Some(id)))
    decreases Ancestors(t, x)
  {
    AboveStaysInside(t, id, x);
    AboveUnfold(t, id, x);
    var p := t[x].parent.value;
    if p != id {
      AncestorsShrink(t, x);
      DescendantHasKid(t, view, ids, id, p);
      var kids := Kids(t, ids, Some(id));
      var k :| k in kids && (p == k || Above(t, k, p));
      AboveUnfold(t, k, x);
    } else {
      assert x in Kids(t, ids, Some(id));
    }
  }

  lemma {:induction false} RootsCoverView(t: Table, view: string, ids: seq<string>, x: string)
    requires Forest(t) && Lists(ids, t, view) && x in ids
    ensures x in Cover(t, Kids(t, ids, None))
    decreases Ancestors(t, x)
  {
    if t[x].parent.Some? {
      var p := t[x].parent.value;
      AncestorsShrink(t, x);
      RootsCoverView(t, view, ids, p);
      var roots := Kids(t, ids, None);
      var r :| r in roots && (p == r || Above(t, r, p));
      AboveUnfold(t, r, x);
    } else {
      assert x in Kids(t, ids, None);
    }
  }

  /** Splitting the first folder off an antichain splits its cover into three disjoint parts. */
  lemma CoverSplit(t: Table, roots: seq<string>)
    requires Forest(t) && roots != [] && Antichain(t, roots) && roots[0] in t
    ensures Cover(t, roots) == {roots[0]} + Descendants(t, roots[0]) + Cover(t, roots[1..])
    ensures roots[0] !in Descendants(t, roots[0]) && roots[0] !in Cover(t, roots[1..])
    ensures Descendants(t, roots[0]) !! Cover(t, roots[1..])
  {
    var h, rest := roots[0], roots[1..];
    assert roots == [h] + rest;
    assert forall r :: r in rest ==> r in roots;
    forall x | x in Descendants(t, h) && x in Cover(t, rest) ensures false {
      if x !in rest {
        var r :| r in rest && Above(t, r, x);
        AncestorsFormChain(t, h, r, x);
      }
    }
    forall x | x in Cover(t, roots) ensures x == h || x in Descendants(t, h) || x in Cover(t, rest) {
      if x !in roots {
        var r :| r in roots && Above(t, r, x);
      }
    }
    forall x | x in Cover(t, rest) ensures x in Cover(t, roots) {
      if x !in rest {
        var r :| r in rest && Above(t, r, x);
        assert r in roots;
      }
    }
  }

  lemma {:induction false} PreorderCounts(t: Table, view: string, members: seq<Member>, ids: seq<string>, ns: seq<Node>)
    requires Forest(t) && Lists(ids, t, view)
    requires AllFaithful(t, members, ids, ns) && forall i :: 0 <= i < |ns| ==> ns[i].id in ids
    requires Antichain(t, Ids(ns))
    ensures multiset(Preorder(ns)) == multiset(Cover(t, Ids(ns)))
  {
    if ns == [] {
      assert Cover(t, Ids(ns)) == {};
    } else {
      var h, rest := ns[0], ns[1..];
      FirstAndRest(t, view, members, ids, ns);
      hide Forest, Antichain, AllFaithful, Ids;
      PreorderCounts(t, view, members, ids, h.children);
      PreorderCounts(t, view, members, ids, rest);
      KidsCoverDescendants(t, view, ids, h.id);
      CoverSplit(t, Ids(ns));
      DisjointUnionCounts(h.id, Descendants(t, h.id), Cover(t, Ids(rest)));
      assert multiset(Preorder(ns)) ==
             multiset{h.id} + multiset(Preorder(h.children)) + multiset(Preorder(rest));
    }
  }

  /** The parts of a faithful list: the children of its first folder, and the folders after it. */
  lemma FirstAndRest(t: Table, view: string, members: seq<Member>, ids: seq<string>, ns: seq<Node>)
    requires Forest(t) && Lists(ids, t, view) && ns != []
    requires AllFaithful(t, members, ids, ns) && forall i :: 0 <= i < |ns| ==> ns[i].id in ids
    requires Antichain(t, Ids(ns))
    ensures var h, rest := ns[0], ns[1..];
            && Ids(ns) != [] && Ids(ns)[0] == h.id && Ids(ns)[1..] == Ids(rest)
            && AllFaithful(t, members, ids, rest) && Antichain(t, Ids(rest))
            && AllFaithful(t, members, ids, h.children) && Antichain(t, Ids(h.children))
            && Ids(h.children) == Kids(t, ids, Some(h.id))
            && (forall i :: 0 <= i < |h.children| ==> h.children[i].id in ids)
  {
    var h, rest := ns[0], ns[1..];
    assert Ids(ns)[1..] == Ids(rest);
    assert forall r :: r in Ids(rest) ==> r in Ids(ns);
    SiblingsAreAntichain(t, view, ids, Some(h.id));
    forall i | 0 <= i < |h.children| ensures h.children[i].id in ids {
      assert h.children[i].id == Ids(h.children)[i];
    }
  }

  lemma DisjointUnionCounts(h: string, a: set<string>, b: set<string>)
    requires h !in a && h !in b && a !! b
    ensures multiset({h} + a + b) == multiset{h} + multiset(a) + multiset(b)
  {
  }

  /** A faithful response over all roots lists every folder of the view exactly once. */
  lemma FaithfulListsAll(t: Table, view: string, members: seq<Member>, ids: seq<string>, out: seq<Node>)
    requires Forest(t) && Lists(ids, t, view)
    requires Ids(out) == Kids(t, ids, None)
    requires AllFaithful(t, members, ids, out)
    ensures multiset(Preorder(out)) == multiset(ids)
  {
    SiblingsAreAntichain(t, view, ids, None);
    forall i | 0 <= i < |out| ensures out[i].id in ids {
      assert out[i].id == Ids(out)[i];
    }
    PreorderCounts(t, view, members, ids, out);
    var roots := Kids(t, ids, None);
    forall x | x in ids ensures x in Cover(t, roots) {
      RootsCoverView(t, view, ids, x);
    }
    forall x | x in Cover(t, roots) ensures x in ids {
      if x !in roots {
        var r :| r in roots && Above(t, r, x);
        AboveStaysInside(t, r, x);
      }
    }
    NoDupMultiset(ids, Cover(t, roots));
  }

  // ---- The construction ----

  /** After the two passes every entry of the folder map has its own row, members and child ids. */
  ghost predicate Linked(t: Table, members: seq<Member>, ids: seq<string>, nodes: seq<Node>, index: map<string, nat>) {
    forall id :: id in ids ==>
      && id in t && id in index && index[id] < |nodes|
      && nodes[index[id]].id == id
      && nodes[index[id]].row == t[id]
      && nodes[index[id]].members == MembersOf(members, id)
      && Ids(nodes[index[id]].children) == Kids(t, ids, Some(id))
  }

  /** Every folder in `fs`, and everything below it, lies in `below`. */
  ghost predicate Bounded(t: Table, ids: seq<string>, fs: seq<Node>, below: set<string>) {
    forall f :: f in fs ==> f.id in ids && f.id in below && Descendants(t, f.id) <= below
  }

  /**
   * buildTreeFromMap: the copies in `fs` may carry stale children, so each is looked up again by id.
   * `below` bounds the folders still reachable and shrinks at every nesting level.
   */
  function BuildTree(nodes: seq<Node>, index: map<string, nat>, fs: seq<Node>,
                     ghost t: Table, ghost view: string, ghost members: seq<Member>, ghost ids: seq<string>,
                     ghost below: set<string>): seq<Node>
    requires Forest(t) && Lists(ids, t, view) && Linked(t, members, ids, nodes, index)
    requires Bounded(t, ids, fs, below)
    decreases below, |fs|
  {
    if fs == [] then [] else
    var folder := nodes[index[fs[0].id]];
    ChildrenAreBelow(t, view, ids, folder);
    var folder' :=
      if |folder.children| > 0 then
        folder.(children := BuildTree(nodes, index, folder.children, t, view, members, ids, Descendants(t, folder.id)))
      else folder;
    [folder'] + BuildTree(nodes, index, fs[1..], t, view, members, ids, below)
  }

  /** The rebuilt list has the same folders in the same order, each with its complete subtree. */
  lemma {:induction false} BuildTreeFaithful(nodes: seq<Node>, index: map<string, nat>, fs: seq<Node>,
                                             t: Table, view: string, members: seq<Member>, ids: seq<string>,
                                             below: set<string>)
    requires Forest(t) && Lists(ids, t, view) && Linked(t, members, ids, nodes, index)
    requires Bounded(t, ids, fs, below)
    ensures var r := BuildTree(nodes, index, fs, t, view, members, ids, below);
            Ids(r) == Ids(fs) && AllFaithful(t, members, ids, r)
    decreases below, |fs|
  {
    if fs != [] {
      var folder := nodes[index[fs[0].id]];
      ChildrenAreBelow(t, view, ids, folder);
      BuildTreeFaithful(nodes, index, folder.children, t, view, members, ids, Descendants(t, folder.id));
      BuildTreeFaithful(nodes, index, fs[1..], t, view, members, ids, below);
      var kids := BuildTree(nodes, index, folder.children, t, view, members, ids, Descendants(t, folder.id));
      var rest := BuildTree(nodes, index, fs[1..], t, view, members, ids, below);
      assert |folder.children| == 0 ==> kids == folder.children;
      RelinkedFaithful(t, members, ids, folder, kids, fs, rest);
    }
  }

  lemma RelinkedFaithful(t: Table, members: seq<Member>, ids: seq<string>, folder: Node, kids: seq<Node>,
                         fs: seq<Node>, rest: seq<Node>)
    requires fs != [] && folder.id == fs[0].id && folder.id in t && folder.row == t[folder.id]
    requires folder.members == MembersOf(members, folder.id)
    requires Ids(kids) == Ids(folder.children) == Kids(t, ids, Some(folder.id)) && AllFaithful(t, members, ids, kids)
    requires Ids(rest) == Ids(fs[1..]) && AllFaithful(t, members, ids, rest)
    ensures var r := [folder.(children := kids)] + rest;
            Ids(r) == Ids(fs) && AllFaithful(t, members, ids, r)
  {
    var r := [folder.(children := kids)] + rest;
    assert Faithful(t, members, ids, r[0]);
    forall i | 0 <= i < |fs| ensures Ids(r)[i] == Ids(fs)[i] {
      if i > 0 {
        assert Ids(rest)[i - 1] == Ids(fs[1..])[i - 1];
      }
    }
  }

  lemma ChildrenAreBelow(t: Table, view: string, ids: seq<string>, n: Node)
    requires Forest(t) && Lists(ids, t, view) && n.id in ids && Ids(n.children) == Kids(t, ids, Some(n.id))
    ensures n.id !in Descendants(t, n.id)
    ensures Bounded(t, ids, n.children, Descendants(t, n.id))
  {
    forall c | c in n.children
      ensures c.id in ids && c.id in Descendants(t, n.id) && Descendants(t, c.id) <= Descendants(t, n.id)
    {
      assert c.id in Ids(n.children);
      AboveUnfold(t, n.id, c.id);
      DescendantsShrink(t, n.id, c.id);
    }
  }
}
