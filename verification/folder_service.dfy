/** The folder service over its two tables, one call at a time. */
module FolderService {
  import opened Options
  import opened Seqs
  import opened FolderForest
  import opened FolderTree

  const HOSTS := "hosts"
  const VMS := "vms"

  datatype Store = Store(folders: Table, members: seq<Member>)

  datatype Op =
    | Create(id: string, name: string, parent: Option<string>, view: string)
    | Rename(id: string, name: string)
    | Move(id: string, parent: Option<string>)
    | Delete(id: string)
    | AddMember(m: Member)
    | RemoveMember(m: Member)
    | MoveResource(kind: string, resource: string, cluster: string, to: Option<string>, view: string)

  datatype Reply =
    | Done | InvalidView | NameRequired | ParentNotFound | OtherView | FolderNotFound
    | IntoItself | IntoDescendant | ConstraintViolated | InvalidKind

  predicate KnownKind(kind: string) {
    kind == "vm" || kind == "ct" || kind == "node" || kind == "storage"
  }

  /** UNIQUE(parent_id, name, tree_view); NULL parents never clash. */
  predicate Clash(t: Table, id: string, parent: Option<string>, name: string, view: string) {
    && parent.Some?
    && exists other :: && other in t && other != id
                       && t[other].parent == parent && t[other].name == name && t[other].view == view
  }

  // ---- Specification of each call ----

  ghost function ReplyTo(s: Store, op: Op): Reply {
    var t := s.folders;
    match op
    case Create(id, name, parent, view) =>
      if view != HOSTS && view != VMS then InvalidView
      else if name == "" then NameRequired
      else if parent.Some? && parent.value !in t then ParentNotFound
      else if parent.Some? && t[parent.value].view != view then OtherView
      else if id in t || Clash(t, id, parent, name, view) then ConstraintViolated
      else Done
    case Rename(id, name) =>
      if name == "" then NameRequired
      else if id !in t then FolderNotFound
      else if Clash(t, id, t[id].parent, name, t[id].view) then ConstraintViolated
      else Done
    case Move(id, parent) =>
      if id !in t then FolderNotFound
      else if parent == Some(id) then IntoItself
      else if parent.Some? && parent.value !in t then ParentNotFound
      else if parent.Some? && t[parent.value].view != t[id].view then OtherView
      else if parent.Some? && Above(t, id, parent.value) then IntoDescendant
      else if Clash(t, id, parent, t[id].name, t[id].view) then ConstraintViolated
      else Done
    case Delete(id) => if id !in t then FolderNotFound else Done
    case AddMember(m) =>
      if m.folder !in t then FolderNotFound else if !KnownKind(m.kind) then InvalidKind else Done
    case RemoveMember(m) => Done
    case MoveResource(kind, resource, cluster, to, view) =>
      if !KnownKind(kind) then InvalidKind
      else if to.Some? && to.value !in t then FolderNotFound
      else if to.Some? && t[to.value].view != view then OtherView
      else Done
  }

  function WithoutRow(ms: seq<Member>, m: Member): (r: seq<Member>)
    requires NoDup(ms)
    ensures NoDup(r) && forall x :: x in r <==> x in ms && x != m
  {
    var p := (x: Member) => x != m;
    FilterIn(ms, p);
    FilterNoDup(ms, p);
    Filter(ms, p)
  }

  /** Memberships left after a resource leaves every folder of one view. */
  function WithoutResource(t: Table, ms: seq<Member>, kind: string, resource: string, cluster: string, view: string): (r: seq<Member>)
    requires NoDup(ms)
    ensures NoDup(r)
    ensures forall x :: x in r <==> x in ms && !(x.kind == kind && x.resource == resource && x.cluster == cluster &&
                                                 x.folder in t && t[x.folder].view == view)
  {
    var p := (x: Member) => !(x.kind == kind && x.resource == resource && x.cluster == cluster &&
                              x.folder in t && t[x.folder].view == view);
    FilterIn(ms, p);
    FilterNoDup(ms, p);
    Filter(ms, p)
  }

  /** Memberships left after a set of folders is deleted. */
  function WithoutFolders(ms: seq<Member>, gone: set<string>): (r: seq<Member>)
    requires NoDup(ms)
    ensures NoDup(r) && forall x :: x in r <==> x in ms && x.folder !in gone
  {
    var p := (x: Member) => x.folder !in gone;
    FilterIn(ms, p);
    FilterNoDup(ms, p);
    Filter(ms, p)
  }

  ghost function Effect(s: Store, op: Op): (r: Store)
    requires ReplyTo(s, op) == Done && NoDup(s.members)
    ensures NoDup(r.members)
  {
    var t := s.folders;
    match op
    case Create(id, name, parent, view) => s.(folders := t[id := Folder(name, parent, view)])
    case Rename(id, name) => s.(folders := t[id := t[id].(name := name)])
    case Move(id, parent) => s.(folders := t[id := t[id].(parent := parent)])
    case Delete(id) =>
      Store(t - Subtree(t, id), WithoutFolders(s.members, Subtree(t, id)))
    case AddMember(m) =>
      assert m !in WithoutRow(s.members, m);
      s.(members := WithoutRow(s.members, m) + [m])
    case RemoveMember(m) => s.(members := WithoutRow(s.members, m))
    case MoveResource(kind, resource, cluster, to, view) =>
      var rest := WithoutResource(t, s.members, kind, resource, cluster, view);
      assert to.Some? ==> Member(to.value, kind, resource, cluster) !in rest;
      s.(members := if to.Some? then rest + [Member(to.value, kind, resource, cluster)] else rest)
  }

  ghost function Apply(s: Store, op: Op): (r: Store)
    requires NoDup(s.members)
    ensures NoDup(r.members)
  {
    if ReplyTo(s, op) == Done then Effect(s, op) else s
  }

  ghost function Run(s: Store, ops: seq<Op>): Store
    requires NoDup(s.members)
    decreases |ops|
  {
    if ops == [] then s else Run(Apply(s, ops[0]), ops[1..])
  }

  // ---- What every run keeps ----

  ghost predicate NamesUnique(t: Table) {
    forall a, b | a in t && b in t && a != b && t[a].parent.Some? ::
      t[a].parent == t[b].parent && t[a].view == t[b].view ==> t[a].name != t[b].name
  }

  ghost predicate Valid(s: Store) {
    && Forest(s.folders)
    && NamesUnique(s.folders)
    && (forall id :: id in s.folders ==> s.folders[id].view == HOSTS || s.folders[id].view == VMS)
    && NoDup(s.members)
    && forall m :: m in s.members ==> m.folder in s.folders && KnownKind(m.kind)
  }

  lemma ApplyKeepsValid(s: Store, op: Op)
    requires Valid(s)
    ensures Valid(Apply(s, op))
  {
    if ReplyTo(s, op) == Done {
      match op
      case Create(id, name, parent, view) => InsertKeepsForest(s.folders, id, Folder(name, parent, view));
      case Rename(id, name) => RenameKeepsForest(s.folders, id, name);
      case Move(id, parent) => MoveKeepsForest(s.folders, id, s.folders[id].(parent := parent));
      case Delete(id) => DeleteKeepsForest(s.folders, id);
      case AddMember(m) =>
      case RemoveMember(m) =>
      case MoveResource(kind, resource, cluster, to, view) =>
    }
  }

  lemma RenameKeepsForest(t: Table, id: string, name: string)
    requires Forest(t) && id in t
    ensures Forest(t[id := t[id].(name := name)])
  {
    var rank := ForestIsRanked(t);
    RankedIsAcyclic(t[id := t[id].(name := name)], rank);
  }

  /** Every run of service calls from a valid store keeps the table a forest and the tables consistent. */
  lemma {:induction false} RunKeepsValid(s: Store, ops: seq<Op>)
    requires Valid(s)
    ensures Valid(Run(s, ops))
    decreases |ops|
  {
    if ops != [] {
      ApplyKeepsValid(s, ops[0]);
      RunKeepsValid(Apply(s, ops[0]), ops[1..]);
    }
  }

  /** After a successful MoveResource the resource sits in the target folder of that view and nowhere else in it. */
  lemma MoveResourceIsExclusive(s: Store, kind: string, resource: string, cluster: string, to: Option<string>, view: string, m: Member)
    requires Valid(s) && ReplyTo(s, MoveResource(kind, resource, cluster, to, view)) == Done
    ensures var s' := Apply(s, MoveResource(kind, resource, cluster, to, view));
            if m.kind == kind && m.resource == resource && m.cluster == cluster &&
               m.folder in s.folders && s.folders[m.folder].view == view
            then m in s'.members <==> to == Some(m.folder)
            else m in s'.members <==> m in s.members
  {
  }

  // ---- The service object ----

  class Service {
    var folders: Table
    var members: seq<Member>

    ghost function Contents(): Store
      reads this
    {
      Store(folders, members)
    }

    constructor ()
      ensures Valid(Contents()) && folders == map[] && members == []
    {
      folders, members := map[], [];
    }

    method CreateFolder(id: string, name: string, parent: Option<string>, view: string) returns (r: Reply)
      requires Valid(Contents())
      modifies this
      ensures r == old(ReplyTo(Contents(), Create(id, name, parent, view)))
      ensures Contents() == old(Apply(Contents(), Create(id, name, parent, view))) && Valid(Contents())
    {
      ApplyKeepsValid(Contents(), Create(id, name, parent, view));
      if view != HOSTS && view != VMS { return InvalidView; }
      if name == "" { return NameRequired; }
      if parent.Some? {
        if parent.value !in folders { return ParentNotFound; }
        if folders[parent.value].view != view { return OtherView; }
      }
      if id in folders || Clash(folders, id, parent, name, view) { return ConstraintViolated; }
      folders := folders[id := Folder(name, parent, view)];
      r := Done;
    }

    method RenameFolder(id: string, name: string) returns (r: Reply)
      requires Valid(Contents())
      modifies this
      ensures r == old(ReplyTo(Contents(), Rename(id, name)))
      ensures Contents() == old(Apply(Contents(), Rename(id, name))) && Valid(Contents())
    {
      ApplyKeepsValid(Contents(), Rename(id, name));
      if name == "" { return NameRequired; }
      if id !in folders { return FolderNotFound; }
      if Clash(folders, id, folders[id].parent, name, folders[id].view) { return ConstraintViolated; }
      folders := folders[id := folders[id].(name := name)];
      r := Done;
    }

    method MoveFolder(id: string, parent: Option<string>) returns (r: Reply)
      requires Valid(Contents())
      modifies this
      ensures r == old(ReplyTo(Contents(), Move(id, parent)))
      ensures Contents() == old(Apply(Contents(), Move(id, parent))) && Valid(Contents())
    {
      ApplyKeepsValid(Contents(), Move(id, parent));
      if id !in folders { return FolderNotFound; }
      if parent.Some? {
        if parent.value == id { return IntoItself; }
        if parent.value !in folders { return ParentNotFound; }
        if folders[parent.value].view != folders[id].view { return OtherView; }
        if IsDescendant(folders, parent.value, id) { return IntoDescendant; }
      }
      if Clash(folders, id, parent, folders[id].name, folders[id].view) { return ConstraintViolated; }
      folders := folders[id := folders[id].(parent := parent)];
      r := Done;
    }

    /** Deletes a folder; the cascade removes referencing rows until none refers to a removed one. */
    method DeleteFolder(id: string) returns (r: Reply)
      requires Valid(Contents())
      modifies this
      ensures r == old(ReplyTo(Contents(), Delete(id)))
      ensures Contents() == old(Apply(Contents(), Delete(id))) && Valid(Contents())
    {
      ApplyKeepsValid(Contents(), Delete(id));
      if id !in folders { return FolderNotFound; }
      var doomed := Cascade(id);
      folders := folders - doomed;
      members := WithoutFolders(members, doomed);
      r := Done;
    }

    /** The foreign-key cascade as repeated removal of rows whose parent is already doomed. */
    method Cascade(id: string) returns (doomed: set<string>)
      requires Forest(folders) && id in folders
      ensures doomed == Subtree(folders, id)
    {
      doomed := {id};
      var referring := set x | x in folders && folders[x].parent == Some(id);
      while !(referring <= doomed)
        invariant id in doomed && doomed <= Subtree(folders, id)
        invariant referring == set x | x in folders && folders[x].parent.Some? && folders[x].parent.value in doomed
        decreases folders.Keys - doomed
      {
        forall x | x in referring ensures x in Subtree(folders, id) {
          AboveUnfold(folders, id, x);
        }
        doomed := doomed + referring;
        referring := set x | x in folders && folders[x].parent.Some? && folders[x].parent.value in doomed;
      }
      forall x | x in Subtree(folders, id) ensures x in doomed {
        if x != id {
          DescendantIsDoomed(folders, id, doomed, x);
        }
      }
    }

    method AddMember(m: Member) returns (r: Reply)
      requires Valid(Contents())
      modifies this
      ensures r == old(ReplyTo(Contents(), Op.AddMember(m)))
      ensures Contents() == old(Apply(Contents(), Op.AddMember(m))) && Valid(Contents())
    {
      ApplyKeepsValid(Contents(), Op.AddMember(m));
      if m.folder !in folders { return FolderNotFound; }
      if !KnownKind(m.kind) { return InvalidKind; }
      members := WithoutRow(members, m) + [m];
      r := Done;
    }

    method RemoveMember(m: Member) returns (r: Reply)
      requires Valid(Contents())
      modifies this
      ensures r == Done && Contents() == old(Apply(Contents(), Op.RemoveMember(m))) && Valid(Contents())
    {
      ApplyKeepsValid(Contents(), Op.RemoveMember(m));
      members := WithoutRow(members, m);
      r := Done;
    }

    method MoveResource(kind: string, resource: string, cluster: string, to: Option<string>, view: string) returns (r: Reply)
      requires Valid(Contents())
      modifies this
      ensures r == old(ReplyTo(Contents(), Op.MoveResource(kind, resource, cluster, to, view)))
      ensures Contents() == old(Apply(Contents(), Op.MoveResource(kind, resource, cluster, to, view)))
      ensures Valid(Contents())
    {
      ApplyKeepsValid(Contents(), Op.MoveResource(kind, resource, cluster, to, view));
      if !KnownKind(kind) { return InvalidKind; }
      if to.Some? {
        if to.value !in folders { return FolderNotFound; }
        if folders[to.value].view != view { return OtherView; }
      }
      members := WithoutResource(folders, members, kind, resource, cluster, view);
      if to.Some? {
        members := members + [Member(to.value, kind, resource, cluster)];
      }
      r := Done;
    }

    /** All memberships of one view, grouped by folder in row order. */
    method GetAllMembers(view: string) returns (byFolder: map<string, seq<Member>>)
      requires Valid(Contents())
      ensures forall id :: id in folders && folders[id].view == view ==>
        (if id in byFolder then byFolder[id] else []) == MembersOf(members, id)
    {
      hide MembersOf, Forest, NamesUnique, KnownKind;
      byFolder := map[];
      forall id ensures MembersOf(members[..0], id) == [] {
        MembersOfNone(id);
      }
      for i := 0 to |members|
        invariant forall id :: id in folders && folders[id].view == view ==>
          (if id in byFolder then byFolder[id] else []) == MembersOf(members[..i], id)
      {
        var m := members[i];
        assert members[..i + 1] == members[..i] + [m];
        forall id ensures MembersOf(members[..i + 1], id) ==
                          MembersOf(members[..i], id) + (if m.folder == id then [m] else [])
        {
          MembersOfSnoc(members[..i], m, id);
        }
        if folders[m.folder].view == view {
          byFolder := byFolder[m.folder := (if m.folder in byFolder then byFolder[m.folder] else []) + [m]];
        }
      }
      assert members[..|members|] == members;
    }

    /**
     * The nested tree of one view, from the rows `ids` the query returned. Every folder of the view
     * appears exactly once, under its parent, siblings in query order, with exactly its members.
     */
    method GetFolderTree(view: string, ids: seq<string>) returns (out: seq<Node>)
      requires Valid(Contents()) && Lists(ids, folders, view)
      ensures Ids(out) == Kids(folders, ids, None)
      ensures AllFaithful(folders, members, ids, out)
      ensures multiset(Preorder(out)) == multiset(ids)
    {
      var byFolder := GetAllMembers(view);
      var nodes, index := FirstPass(view, ids, byFolder);
      var roots: seq<Node>;
      nodes, roots := SecondPass(view, ids, nodes, index);
      assert Linked(folders, members, ids, nodes, index);
      assert Bounded(folders, ids, roots, folders.Keys) by {
        forall f | f in roots ensures f.id in ids {
          assert f.id in Ids(roots);
        }
      }
      out := BuildTree(nodes, index, roots, folders, view, members, ids, folders.Keys);
      BuildTreeFaithful(nodes, index, roots, folders, view, members, ids, folders.Keys);
      FaithfulListsAll(folders, view, members, ids, out);
    }

    /** First pass: attach members, clear children, and index every row by id. */
    method FirstPass(view: string, ids: seq<string>, byFolder: map<string, seq<Member>>)
      returns (nodes: seq<Node>, index: map<string, nat>)
      requires Valid(Contents()) && Lists(ids, folders, view)
      requires forall id :: id in folders && folders[id].view == view ==>
        (if id in byFolder then byFolder[id] else []) == MembersOf(members, id)
      ensures |nodes| == |ids| && Indexes(index, ids)
      ensures forall i :: 0 <= i < |ids| ==>
        nodes[i] == Node(ids[i], folders[ids[i]], MembersOf(members, ids[i]), [])
    {
      hide MembersOf, Forest, NamesUnique, KnownKind;
      nodes, index := [], map[];
      for i := 0 to |ids|
        invariant |nodes| == i && Indexes(index, ids[..i])
        invariant forall j :: 0 <= j < i ==>
          nodes[j] == Node(ids[j], folders[ids[j]], MembersOf(members, ids[j]), [])
      {
        assert ids[i] in ids;
        nodes := nodes + [Node(ids[i], folders[ids[i]], if ids[i] in byFolder then byFolder[ids[i]] else [], [])];
        index := index[ids[i] := i];
      }
      assert ids[..|ids|] == ids;
    }

    /** Second pass: append a copy of each row to its parent's children, or to the roots. */
    method SecondPass(view: string, ids: seq<string>, start: seq<Node>, index: map<string, nat>)
      returns (nodes: seq<Node>, roots: seq<Node>)
      requires Valid(Contents()) && Lists(ids, folders, view)
      requires |start| == |ids| && Indexes(index, ids)
      requires forall i :: 0 <= i < |ids| ==>
        start[i] == Node(ids[i], folders[ids[i]], MembersOf(members, ids[i]), [])
      ensures Linked(folders, members, ids, nodes, index)
      ensures Ids(roots) == Kids(folders, ids, None)
    {
      nodes, roots := start, [];
      for i := 0 to |ids|
        invariant PartlyLinked(folders, ids, start, i, nodes)
        invariant Ids(roots) == Kids(folders, ids[..i], None)
      {
        var f := nodes[i];
        assert f.(children := []) == start[i] && ids[i] in ids;
        KidsSnoc(folders, ids, i, None);
        if f.row.parent.None? {
          IdsSnoc(roots, f);
          roots := roots + [f];
          LinkStep(folders, ids, start, i, nodes, index, nodes);
        } else {
          var parent := f.row.parent.value;
          assert parent in ids;
          if parent in index {
            var p := index[parent];
            ghost var before := nodes;
            nodes := nodes[p := nodes[p].(children := nodes[p].children + [f])];
            LinkStep(folders, ids, start, i, before, index, nodes);
          } else {
            assert false;
          }
        }
      }
      assert ids[..|ids|] == ids;
    }
  }

  /** The second pass after i rows: each entry has its row and members, and its children among those rows. */
  ghost predicate PartlyLinked(t: Table, ids: seq<string>, start: seq<Node>, i: nat, nodes: seq<Node>) {
    && |start| == |nodes| == |ids| && i <= |ids|
    && forall j :: 0 <= j < |ids| ==>
         nodes[j].(children := []) == start[j] && Ids(nodes[j].children) == Kids(t, ids[..i], Some(ids[j]))
  }

  lemma LinkStep(t: Table, ids: seq<string>, start: seq<Node>, i: nat, nodes: seq<Node>, index: map<string, nat>, nodes': seq<Node>)
    requires PartlyLinked(t, ids, start, i, nodes) && i < |ids| && NoDup(ids) && Indexes(index, ids)
    requires ids[i] in t && nodes[i].id == ids[i] && nodes[i].row == t[ids[i]]
    requires t[ids[i]].parent.Some? ==> t[ids[i]].parent.value in ids
    requires nodes' == if t[ids[i]].parent.None? then nodes else
                         var p := index[t[ids[i]].parent.value];
                         nodes[p := nodes[p].(children := nodes[p].children + [nodes[i]])]
    ensures PartlyLinked(t, ids, start, i + 1, nodes')
  {
    forall j | 0 <= j < |ids|
      ensures nodes'[j].(children := []) == start[j]
      ensures Ids(nodes'[j].children) == Kids(t, ids[..i + 1], Some(ids[j]))
    {
      KidsSnoc(t, ids, i, Some(ids[j]));
      IdsSnoc(nodes[j].children, nodes[i]);
    }
  }

  lemma KidsSnoc(t: Table, ids: seq<string>, i: nat, parent: Option<string>)
    requires i < |ids| && ids[i] in t
    ensures Kids(t, ids[..i + 1], parent) ==
            Kids(t, ids[..i], parent) + (if t[ids[i]].parent == parent then [ids[i]] else [])
  {
    assert ids[..i + 1] == ids[..i] + [ids[i]];
    FilterSnoc(ids[..i], ids[i], HasParent(t, parent));
  }

  ghost predicate Indexes(index: map<string, nat>, ids: seq<string>) {
    && (forall id :: id in ids ==> id in index && index[id] < |ids| && ids[index[id]] == id)
    && (forall i :: 0 <= i < |ids| ==> index[ids[i]] == i)
  }

  lemma IdsSnoc(ns: seq<Node>, n: Node)
    ensures Ids(ns + [n]) == Ids(ns) + [n.id]
  {
  }

  lemma {:induction false} DescendantIsDoomed(t: Table, id: string, doomed: set<string>, x: string)
    requires Forest(t) && id in doomed && Above(t, id, x)
    requires forall y :: y in t && t[y].parent.Some? && t[y].parent.value in doomed ==> y in doomed
    ensures x in doomed
    decreases Ancestors(t, x)
  {
    AboveUnfold(t, id, x);
    var p := t[x].parent.value;
    if p != id {
      AncestorsShrink(t, x);
      DescendantIsDoomed(t, id, doomed, p);
    }
  }
}
