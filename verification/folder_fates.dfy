/** What each folder call achieves, and when it is let through. */
module FolderFates {
  import opened Options
  import opened Seqs
  import opened FolderForest
  import opened FolderTree
  import opened FolderService

  // ---- What a call achieves ----

  /** Every folder but `id` is as it was, and none came or went but `id`. */
  ghost predicate OthersKept(t: Table, t': Table, id: string) {
    forall x :: x != id ==> (x in t' <==> x in t) && (x in t ==> t'[x] == t[x])
  }

  ghost predicate InSubtree(t: Table, id: string, x: string) { x == id || Above(t, id, x) }

  /** The memberships are those of `s` that satisfy `kept`, and `m` if one is added, last in row order. */
  ghost predicate MembersAre(s: Store, s': Store, kept: Member -> bool, added: Option<Member>) {
    && (forall x :: x in s'.members <==> (x in s.members && kept(x)) || added == Some(x))
    && (added.Some? ==> s'.members != [] && s'.members[|s'.members| - 1] == added.value)
    && NoDup(s'.members)
  }

  /** The resource is what the membership is about, in a folder of that view. */
  predicate Concerns(t: Table, m: Member, kind: string, resource: string, cluster: string, view: string) {
    m.kind == kind && m.resource == resource && m.cluster == cluster && m.folder in t && t[m.folder].view == view
  }

  ghost predicate Achieves(s: Store, op: Op, s': Store) {
    var t, t' := s.folders, s'.folders;
    match op
    case Create(id, name, parent, view) =>
      && id !in t && id in t' && OthersKept(t, t', id) && s'.members == s.members
      && t'[id].name == name && t'[id].parent == parent && t'[id].view == view
    case Rename(id, name) =>
      && id in t && id in t' && OthersKept(t, t', id) && s'.members == s.members
      && t'[id].name == name && t'[id].parent == t[id].parent && t'[id].view == t[id].view
    case Move(id, parent) =>
      && id in t && id in t' && OthersKept(t, t', id) && s'.members == s.members
      && t'[id].parent == parent && t'[id].name == t[id].name && t'[id].view == t[id].view
    case Delete(id) =>
      && id in t && (forall x :: x in t' <==> x in t && !InSubtree(t, id, x)) && (forall x :: x in t' ==> t'[x] == t[x])
      && MembersAre(s, s', (m: Member) => m.folder in t', None)
    case AddMember(m) => t' == t && MembersAre(s, s', (x: Member) => true, Some(m))
    case RemoveMember(m) => t' == t && MembersAre(s, s', (x: Member) => x != m, None)
    case MoveResource(kind, resource, cluster, to, view) =>
      && t' == t
      && MembersAre(s, s', (x: Member) => !Concerns(t, x, kind, resource, cluster, view),
                    if to.Some? then Some(Member(to.value, kind, resource, cluster)) else None)
  }

  /** An accepted call does what it is for and nothing else; a refused one changes nothing. */
  lemma CallAchieves(s: Store, op: Op)
    requires Valid(s)
    ensures if ReplyTo(s, op) == Done then Achieves(s, op, Apply(s, op)) else Apply(s, op) == s
  {
    if ReplyTo(s, op) == Done {
      match op
      case Delete(id) => DeleteAchieves(s, id);
      case _ =>
        hide Above, Forest;
    }
  }

  lemma DeleteAchieves(s: Store, id: string)
    requires Valid(s) && id in s.folders
    ensures Achieves(s, Delete(id), Apply(s, Delete(id)))
  {
    var t, s' := s.folders, Apply(s, Delete(id));
    forall x ensures x in s'.folders <==> x in t && !InSubtree(t, id, x) {
      if Above(t, id, x) {
        AboveUnfold(t, id, x);
      }
    }
    hide Above, Forest;
  }

  // ---- When a call is let through ----

  /** The store with the row in place. */
  function WithRow(s: Store, id: string, f: Folder): Store { s.(folders := s.folders[id := f]) }

  lemma ClashIsNameTwice(s: Store, id: string, f: Folder)
    requires Valid(s) && Clash(s.folders, id, f.parent, f.name, f.view)
    ensures !NamesUnique(WithRow(s, id, f).folders)
  {
    hide Forest;
    var t' := WithRow(s, id, f).folders;
    var other :| other in s.folders && other != id && s.folders[other].parent == f.parent
                 && s.folders[other].name == f.name && s.folders[other].view == f.view;
    assert t'[other] == s.folders[other] && t'[id] == f;
  }

  /** A folder is created exactly when it has a name and a new id and its row breaks no constraint. */
  lemma CreateAcceptedIff(s: Store, id: string, name: string, parent: Option<string>, view: string)
    requires Valid(s)
    ensures ReplyTo(s, Create(id, name, parent, view)) == Done <==>
            name != "" && id !in s.folders && Valid(WithRow(s, id, Folder(name, parent, view)))
  {
    var f := Folder(name, parent, view);
    var s' := WithRow(s, id, f);
    if ReplyTo(s, Create(id, name, parent, view)) == Done {
      ApplyKeepsValid(s, Create(id, name, parent, view));
    } else if name != "" && id !in s.folders && Valid(s') {
      assert s'.folders[id] == f;
      if Clash(s.folders, id, parent, name, view) {
        ClashIsNameTwice(s, id, f);
      } else if parent == Some(id) {
        SelfParentIsCycle(s'.folders, id);
      }
    }
  }

  lemma SelfParentIsCycle(t: Table, id: string)
    requires id in t && t[id].parent == Some(id)
    ensures !Acyclic(t)
  {
    assert Walk(t, id, 1) == Walk(t, id, 0);
    assert Above(t, id, id);
  }

  /** A folder is renamed exactly when it is there, the name is not empty and the row breaks no constraint. */
  lemma RenameAcceptedIff(s: Store, id: string, name: string)
    requires Valid(s)
    ensures ReplyTo(s, Rename(id, name)) == Done <==>
            name != "" && id in s.folders && Valid(WithRow(s, id, s.folders[id].(name := name)))
  {
    if ReplyTo(s, Rename(id, name)) == Done {
      ApplyKeepsValid(s, Rename(id, name));
    } else if name != "" && id in s.folders {
      ClashIsNameTwice(s, id, s.folders[id].(name := name));
    }
  }

  /** A folder is moved exactly when it is there and the row breaks no constraint: no guard is missing and none is idle. */
  lemma MoveAcceptedIff(s: Store, id: string, parent: Option<string>)
    requires Valid(s)
    ensures ReplyTo(s, Move(id, parent)) == Done <==>
            id in s.folders && Valid(WithRow(s, id, s.folders[id].(parent := parent)))
  {
    if ReplyTo(s, Move(id, parent)) == Done {
      ApplyKeepsValid(s, Move(id, parent));
    } else if id in s.folders {
      var f := s.folders[id].(parent := parent);
      var t' := WithRow(s, id, f).folders;
      assert t'[id] == f;
      if Clash(s.folders, id, parent, f.name, f.view) {
        ClashIsNameTwice(s, id, f);
      } else if parent.value == id || Above(s.folders, id, parent.value) {
        ForbiddenMoveMakesCycle(s.folders, id, f);
      } else {
        hide Above, Acyclic;
        assert parent.value != id;
      }
    }
  }

  /** A membership is accepted exactly when it names a stored folder and a known kind of resource. */
  lemma MemberAcceptedIff(s: Store, m: Member)
    requires Valid(s)
    ensures ReplyTo(s, AddMember(m)) == Done <==> Valid(s.(members := WithoutRow(s.members, m) + [m]))
  {
    hide Forest;
    var s' := s.(members := WithoutRow(s.members, m) + [m]);
    assert m in s'.members;
    if ReplyTo(s, AddMember(m)) == Done {
      ApplyKeepsValid(s, AddMember(m));
    }
  }
}
