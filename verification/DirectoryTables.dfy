/**
 The operations of server/controllers/folder.js and server/controllers/entry.js as the source runs
 them: one row or one query at a time, recursing into subfolders and walking up parent pointers.
 Each method ends in the state that module `Directory` gives for it.
 */
module DirectoryTables {
  import opened Wrappers
  import opened Forest
  import opened Lists
  import opened Directory

  // ---------------------------------------------------------------- composing partial effects

  lemma OwnFoldersCompose(folders: map<Id, Folder>, s: set<Id>, t: set<Id>, org: Option<Id>, owner: Option<Id>)
    ensures OwnFolders(OwnFolders(folders, s, org, owner), t, org, owner) == OwnFolders(folders, s + t, org, owner)
  {
  }

  lemma OwnEntriesCompose(entries: map<Id, Entry>, s: set<Id>, t: set<Id>, org: Option<Id>, owner: Option<Id>)
    ensures OwnEntries(OwnEntries(entries, s, org, owner), t, org, owner) == OwnEntries(entries, s + t, org, owner)
  {
  }

  lemma UnlinkCompose(db: Db, mid: Db, s: set<Id>, t: set<Id>, left: Option<Id>)
    requires mid.identities == db.identities
    ensures WithoutIdentitiesOf(mid, WithoutIdentitiesOf(db, db.links, s, left), t, left)
            == WithoutIdentitiesOf(db, db.links, s + t, left)
    ensures WithoutSessionsOn(WithoutSessionsOn(db.sessions, s), t) == WithoutSessionsOn(db.sessions, s + t)
  {
  }

  lemma ReownedCompose(db: Db, s: set<Id>, t: set<Id>, org: Option<Id>, owner: Option<Id>, left: Option<Id>)
    ensures Reowned(Reowned(db, s, org, owner, left), t, org, owner, left) == Reowned(db, s + t, org, owner, left)
  {
    var mid := Reowned(db, s, org, owner, left);
    var a, b := EntriesIn(db, s), EntriesIn(db, t);
    assert EntriesIn(mid, t) == b;
    assert EntriesIn(db, s + t) == a + b;
    OwnFoldersCompose(db.folders, s, t, org, owner);
    OwnEntriesCompose(db.entries, a, b, org, owner);
    UnlinkCompose(db, mid, a, b, left);
  }

  lemma RemovedCompose(db: Db, s: set<Id>, t: set<Id>)
    ensures Removed(Removed(db, s), t) == Removed(db, s + t)
  {
    assert (db.folders - s) - t == db.folders - (s + t);
    assert (db.entries - EntriesIn(db, s)) - EntriesIn(Removed(db, s), t) == db.entries - EntriesIn(db, s + t);
  }

  lemma SubtreesExtend(p: Parents<Id>, done: set<Id>, c: Id)
    ensures Subtrees(p, done + {c}) == Subtrees(p, done) + Subtree(p, c)
  {
  }

  lemma ReownedParents(db: Db, s: set<Id>, org: Option<Id>, owner: Option<Id>, left: Option<Id>)
    ensures ParentsOf(Reowned(db, s, org, owner, left).folders) == ParentsOf(db.folders)
  {
  }

  /** The subtrees already deleted do not reach into a sibling's subtree. */
  lemma SiblingUntouched(p: Parents<Id>, q: Parents<Id>, id: Id, done: set<Id>, c: Id)
    requires Acyclic(p) && id in p && done + {c} <= Children(p, id) && c !in done
    requires q.Keys <= p.Keys && q == p - (p.Keys - q.Keys)
    ensures Subtrees(q, done) !! Subtree(p, c) && Subtrees(q, done) !! Subtree(q, c)
  {
    forall x | x in Subtrees(q, done)
      ensures x !in Subtree(p, c)
    {
      var d :| d in done && x in q && Below(q, d, x);
      RestrictedBelow(p, q, d, x);
      SiblingsDisjoint(p, id, c, d);
      assert x in Subtree(p, d);
    }
    forall x | x in Subtree(q, c)
      ensures x in Subtree(p, c)
    {
      RestrictedBelow(p, q, c, x);
    }
  }

  lemma RestrictedBelow(p: Parents<Id>, q: Parents<Id>, root: Id, id: Id)
    requires q.Keys <= p.Keys && q == p - (p.Keys - q.Keys) && Below(q, root, id)
    ensures Below(p, root, id)
  {
    var n: nat :| Up(q, id, n) == Some(root);
    UpOfRestriction(p, p.Keys - q.Keys, id, n);
  }

  /** One turn of the loop over subfolders in `updateFolderContext`. */
  lemma ContextStep(db: Db, id: Id, done: set<Id>, c: Id, org: Option<Id>, owner: Option<Id>, left: Option<Id>)
    requires var p := ParentsOf(db.folders);
             Acyclic(p) && id in p && c in Children(p, id)
    ensures var p := ParentsOf(db.folders);
            var mid := Reowned(db, {id} + Subtrees(p, done), org, owner, left);
            && ParentsOf(mid.folders) == p
            && Subtree(p, c) < Subtree(p, id)
            && Reowned(mid, Subtree(p, c), org, owner, left) == Reowned(db, {id} + Subtrees(p, done + {c}), org, owner, left)
  {
    var p := ParentsOf(db.folders);
    ReownedParents(db, {id} + Subtrees(p, done), org, owner, left);
    SubtreeShrinks(p, id, c);
    ReownedCompose(db, {id} + Subtrees(p, done), Subtree(p, c), org, owner, left);
    SubtreesExtend(p, done, c);
    assert {id} + Subtrees(p, done) + Subtree(p, c) == {id} + Subtrees(p, done + {c});
  }

  /** One turn of the loop over subfolders in `deleteFolder`. */
  lemma DeleteStep(db: Db, account: Id, id: Id, done: set<Id>, c: Id)
    requires var p := ParentsOf(db.folders);
             Acyclic(p) && id in p && done + {c} <= Children(p, id) && c !in done
    ensures var p, q := ParentsOf(db.folders), Deletable(db, account);
            var mid := Removed(db, Subtrees(q, done));
            && Acyclic(ParentsOf(mid.folders))
            && Subtree(ParentsOf(mid.folders), c) < Subtree(p, id)
            && Directory.DeleteFolder(mid, account, c).0 == Removed(db, Subtrees(q, done + {c}))
  {
    var p, q := ParentsOf(db.folders), Deletable(db, account);
    var gone := Subtrees(q, done);
    var mid := Removed(db, gone);
    assert q == p - (p.Keys - q.Keys);
    SiblingUntouched(p, q, id, done, c);
    assert ParentsOf(mid.folders) == p - gone;
    assert Deletable(mid, account) == q - gone;
    AcyclicAfterRemove(p, gone);
    SubtreeAfterRemove(p, gone, c);
    SubtreeAfterRemove(q, gone, c);
    SubtreeShrinks(p, id, c);
    BelowSelf(p, c);
    assert c in Subtree(p, c);
    RemovedCompose(db, gone, Subtree(q, c));
    SubtreesExtend(q, done, c);
    if c !in q {
      assert Subtree(q, c) == {};
      assert gone + Subtree(q, c) == gone;
    }
  }

  /** The subtree of a deletable folder, child by child: other children have no deletable subtree. */
  lemma DeletableUnfold(db: Db, account: Id, id: Id)
    requires id in Deletable(db, account)
    ensures var q := Deletable(db, account);
            Subtree(q, id) == Subtrees(q, Children(ParentsOf(db.folders), id)) + {id}
  {
    var p, q := ParentsOf(db.folders), Deletable(db, account);
    SubtreeUnfold(q, id);
    forall x | x in Subtrees(q, Children(p, id))
      ensures x in Subtrees(q, Children(q, id))
    {
      var c :| c in Children(p, id) && x in q && Below(q, c, x);
      assert c in Children(q, id);
    }
  }

  /** Updating the rows of `order` one after the other. */
  ghost predicate PlacedUpTo(entries: map<Id, Entry>, before: map<Id, Entry>, placed: map<Id, Entry>, order: seq<Id>, i: nat)
    requires i <= |order| && placed.Keys == before.Keys
  {
    && entries.Keys == before.Keys
    && forall x :: x in entries ==> entries[x] == if x in order[..i] then placed[x] else before[x]
  }

  lemma PlaceNext(entries: map<Id, Entry>, before: map<Id, Entry>, order: seq<Id>, i: nat, e: Id, s: Scope, row: Entry)
    requires s.Scope? && Distinct(order) && i < |order| && order[i] in before
    requires PlacedUpTo(entries, before, Placed(before, order, e, s), order, i)
    requires var moved := entries[order[i]].(position := i, folderId := s.folderId);
             row == if order[i] == e then moved.(organizationId := s.organizationId, accountId := s.accountId) else moved
    ensures PlacedUpTo(entries[order[i] := row], before, Placed(before, order, e, s), order, i + 1)
  {
    IndexOfUnique(order, i);
    assert order[..i + 1] == order[..i] + [order[i]];
    assert order[i] !in order[..i];
  }

  class Tables {
    var folders: map<Id, Folder>
    var entries: map<Id, Entry>
    var identities: map<Id, Identity>
    var links: set<(Id, Id)>
    var active: set<(Id, Id)>
    var organizations: set<Id>
    var sessions: map<Id, Id>
    var nextFolder: Id
    var nextEntry: Id

    ghost function State(): Db
      reads this
    {
      Db(folders, entries, identities, links, active, organizations, sessions, nextFolder, nextEntry)
    }

    constructor ()
      ensures State() == Db(map[], map[], map[], {}, {}, {}, map[], 1, 1)
    {
      folders, entries, identities, links, active, organizations := map[], map[], map[], {}, {}, {};
      sessions, nextFolder, nextEntry := map[], 1, 1;
    }

    /** A value copy of the tables for the reading checks. */
    function Snapshot(): (db: Db)
      reads this
      ensures db == State()
    {
      Db(folders, entries, identities, links, active, organizations, sessions, nextFolder, nextEntry)
    }

    method CreateFolder(account: Id, c: NewFolder) returns (r: Response)
      modifies this
      ensures (State(), r) == Directory.CreateFolder(old(State()), account, c)
    {
      var organizationId := c.organizationId;
      if c.parentId.Some? && organizationId.None? {
        if c.parentId.value !in folders { return Failure(404); }
        if folders[c.parentId.value].organizationId.Some? {
          organizationId := folders[c.parentId.value].organizationId;
        }
      }
      if organizationId.Some? && !HasAccess(Snapshot(), account, organizationId.value) { return Failure(403); }
      if c.parentId.Some? {
        if c.parentId.value !in folders { return Failure(404); }
        var parent := folders[c.parentId.value];
        if organizationId.Some? && parent.organizationId != organizationId {
          return Failure(403);
        } else if organizationId.None? && parent.accountId != Some(account) {
          return Failure(403);
        }
      }
      var id := nextFolder;
      var row := Folder(c.name, if organizationId.Some? then None else Some(account), organizationId, c.parentId);
      folders, nextFolder := folders[id := row], id + 1;
      return Created(id);
    }

    method CleanupOrganizationIdentities(entryIds: set<Id>, oldOrganizationId: Id)
      modifies this`sessions, this`links
      ensures sessions == WithoutSessionsOn(old(sessions), entryIds)
      ensures links == WithoutIdentitiesOf(State(), old(links), entryIds, Some(oldOrganizationId))
    {
      ghost var sessions0 := sessions;
      if entryIds == {} { return; }
      var rest := entryIds;
      while rest != {}
        invariant rest <= entryIds && links == old(links)
        invariant sessions == WithoutSessionsOn(sessions0, entryIds - rest)
      {
        var e :| e in rest;
        sessions := map s | s in sessions && sessions[s] != e :: sessions[s];
        rest := rest - {e};
      }
      assert entryIds - rest == entryIds;
      var linked := set l | l in links && l.0 in entryIds :: l.1;
      var oldOrgIdentities := set i | i in linked && i in identities && identities[i].organizationId == Some(oldOrganizationId);
      links := set l | l in links && !(l.0 in entryIds && l.1 in oldOrgIdentities);
    }

    /** The folder itself and the entries directly in it. */
    method UpdateOneFolder(id: Id, organizationId: Option<Id>, accountId: Option<Id>, oldOrganizationId: Option<Id>)
      requires id in folders
      modifies this
      ensures State() == Reowned(old(State()), {id}, organizationId, accountId, oldOrganizationId)
    {
      var entryIds := set e | e in entries && entries[e].folderId == Some(id);
      assert entryIds == EntriesIn(State(), {id});
      folders := folders[id := folders[id].(organizationId := organizationId, accountId := accountId)];
      assert folders == OwnFolders(old(folders), {id}, organizationId, accountId);
      entries := OwnEntries(entries, entryIds, organizationId, accountId);
      if oldOrganizationId.Some? && oldOrganizationId != organizationId {
        CleanupOrganizationIdentities(entryIds, oldOrganizationId.value);
      }
    }

    method UpdateFolderContext(id: Id, organizationId: Option<Id>, accountId: Option<Id>, oldOrganizationId: Option<Id>)
      requires Acyclic(ParentsOf(folders)) && id in folders
      modifies this
      ensures State() == Reowned(old(State()), Subtree(old(ParentsOf(folders)), id), organizationId, accountId, oldOrganizationId)
      decreases Subtree(ParentsOf(folders), id)
    {
      ghost var before := State();
      ghost var p := ParentsOf(folders);
      UpdateOneFolder(id, organizationId, accountId, oldOrganizationId);
      ghost var done: set<Id> := {};
      assert {id} + Subtrees(p, done) == {id};
      ReownedParents(before, {id}, organizationId, accountId, oldOrganizationId);
      var rest := Children(ParentsOf(folders), id);
      while rest != {}
        invariant done !! rest && done + rest == Children(p, id)
        invariant State() == Reowned(before, {id} + Subtrees(p, done), organizationId, accountId, oldOrganizationId)
        decreases rest
      {
        var c :| c in rest;
        ContextStep(before, id, done, c, organizationId, accountId, oldOrganizationId);
        UpdateFolderContext(c, organizationId, accountId, oldOrganizationId);
        rest, done := rest - {c}, done + {c};
      }
      SubtreeUnfold(p, id);
    }

    method EditFolder(account: Id, id: Id, c: FolderPatch) returns (r: Response)
      requires Acyclic(ParentsOf(folders))
      modifies this
      ensures (State(), r) == Directory.EditFolder(old(State()), account, id, c)
    {
      if id !in folders { return Failure(404); }
      var folder := folders[id];
      if folder.accountId.Some? && folder.accountId != Some(account) {
        return Failure(403);
      } else if folder.organizationId.Some? && !HasAccess(Snapshot(), account, folder.organizationId.value) {
        return Failure(403);
      }
      if c.parentId.Null? {
        if c.organizationId.Value? {
          if !HasAccess(Snapshot(), account, c.organizationId.value) { return Failure(403); }
          if folder.organizationId != Some(c.organizationId.value) {
            UpdateFolderContext(id, Some(c.organizationId.value), None, folder.organizationId);
          }
        } else if folder.organizationId != None {
          UpdateFolderContext(id, None, Some(account), folder.organizationId);
        }
      } else if c.parentId.Value? {
        var t := c.parentId.value;
        if t !in folders { return Failure(404); }
        var target := folders[t];
        var check := TargetCheck(Snapshot(), account, folder, target);
        if check.Failure? { return check; }
        var inside := IsInside(id, t);
        if inside { return Failure(400); }
        var newAccountId := if target.organizationId.Some? then None else Some(account);
        if folder.organizationId != target.organizationId {
          UpdateFolderContext(id, target.organizationId, newAccountId, folder.organizationId);
        }
      }
      folders := folders[id := PatchFolder(folders[id], c)];
      return Success;
    }

    /** The ancestor walk: from `t` upwards, stopping at a root or at a parent row that is gone. */
    method IsInside(id: Id, t: Id) returns (inside: bool)
      requires Acyclic(ParentsOf(folders)) && t in folders
      ensures inside <==> Below(ParentsOf(folders), id, t)
    {
      ghost var p := ParentsOf(folders);
      var current := Some(t);
      BelowSelf(p, t);
      while current.Some?
        invariant current.Some? ==> current.value in folders
        invariant Below(p, id, t) <==> current.Some? && Below(p, id, current.value)
        decreases current.Some?, if current.Some? then Ancestors(p, current.value) else {}
      {
        var here := current.value;
        BelowStep(p, id, here);
        if here == id { return true; }
        if folders[here].parentId.None? { break; }
        var up := folders[here].parentId.value;
        if up in folders {
          AncestorsShrink(p, here);
          current := Some(up);
        } else {
          current := None;
        }
      }
      inside := false;
    }

    method DeleteFolder(account: Id, id: Id) returns (r: Response)
      requires Acyclic(ParentsOf(folders))
      modifies this
      ensures (State(), r) == Directory.DeleteFolder(old(State()), account, id)
      decreases Subtree(ParentsOf(folders), id)
    {
      ghost var before := State();
      ghost var p, q := ParentsOf(folders), Deletable(State(), account);
      if id !in folders { return Failure(404); }
      var folder := folders[id];
      if folder.accountId.Some? && folder.accountId != Some(account) {
        return Failure(403);
      } else if folder.organizationId.Some? && !HasAccess(Snapshot(), account, folder.organizationId.value) {
        return Failure(403);
      }
      ghost var done: set<Id> := {};
      var rest := Children(ParentsOf(folders), id);
      assert Subtrees(q, done) == {} && Removed(before, {}) == before;
      while rest != {}
        invariant done !! rest && done + rest == Children(p, id)
        invariant State() == Removed(before, Subtrees(q, done))
        decreases rest
      {
        var c :| c in rest;
        DeleteStep(before, account, id, done, c);
        var ignored := DeleteFolder(account, c);
        rest, done := rest - {c}, done + {c};
      }
      ghost var gone := Subtrees(q, Children(p, id));
      DeletableUnfold(before, account, id);
      RemovedCompose(before, gone, {id});
      DestroyFolder(id);
      return Success;
    }

    /** The last two queries of a delete: the entries of the folder, then its row. */
    method DestroyFolder(id: Id)
      modifies this`folders, this`entries
      ensures State() == Removed(old(State()), {id})
    {
      var inside := set e | e in entries && entries[e].folderId == Some(id);
      assert inside == EntriesIn(State(), {id});
      entries := entries - inside;
      folders := folders - {id};
    }

    // -------------------------------------------------------------- entries

    method LinkIdentities(e: Id, ids: seq<Id>)
      modifies this`links
      ensures links == old(links) + (set i | i in ids :: (e, i))
    {
      for k := 0 to |ids|
        invariant links == old(links) + (set i | i in ids[..k] :: (e, i))
      {
        assert ids[..k + 1] == ids[..k] + [ids[k]];
        links := links + {(e, ids[k])};
      }
      assert ids[..|ids|] == ids;
    }

    method CreateEntry(account: Id, c: NewEntry) returns (r: Response)
      modifies this
      ensures (State(), r) == Directory.CreateEntry(old(State()), account, c)
    {
      var organizationId := c.organizationId;
      if c.folderId.Some? {
        var check := FolderAccess(Snapshot(), account, c.folderId.value);
        if check.Failure? { return check; }
        organizationId := folders[c.folderId.value].organizationId;
      } else if organizationId.Some? && !HasAccess(Snapshot(), account, organizationId.value) {
        return Failure(403);
      }
      if |c.identities| > 0 && !IdentitiesAllowed(Snapshot(), account, c.identities, organizationId) {
        return Failure(403);
      }
      var e := nextEntry;
      entries := entries[e := Entry(c.name, if organizationId.Some? then None else Some(account), organizationId,
                                    c.folderId, c.position)];
      nextEntry := e + 1;
      LinkIdentities(e, c.identities);
      return Created(e);
    }

    method EditEntry(account: Id, e: Id, c: EntryPatch) returns (r: Response)
      modifies this
      ensures (State(), r) == Directory.EditEntry(old(State()), account, e, c)
    {
      if e !in entries { return Failure(404); }
      var entry := entries[e];
      if !EntryAllowed(Snapshot(), account, entry) { return Failure(403); }
      var organizationId, accountId := entry.organizationId, entry.accountId;
      if c.folderId.Value? {
        var check := FolderAccess(Snapshot(), account, c.folderId.value);
        if check.Failure? { return check; }
        organizationId := folders[c.folderId.value].organizationId;
        accountId := if organizationId.Some? then None else Some(account);
      }
      if c.identities.Some? {
        if !IdentitiesAllowed(Snapshot(), account, c.identities.value, organizationId) { return Failure(403); }
        var accessible := set i | i in identities && IdentityAccessible(Snapshot(), account, i);
        links := set l | l in links && !(l.0 == e && l.1 in accessible);
        assert links == set l | l in old(links) && !(l.0 == e && IdentityAccessible(old(State()), account, l.1));
        LinkIdentities(e, c.identities.value);
      }
      var folderId := match c.folderId case Absent => entry.folderId case Null => None case Value(f) => Some(f);
      entries := entries[e := entry.(name := if c.name.Some? then c.name.value else entry.name, folderId := folderId,
                                     organizationId := organizationId, accountId := accountId)];
      return Success;
    }

    method DuplicateEntry(account: Id, e: Id) returns (r: Response)
      modifies this
      ensures (State(), r) == Directory.DuplicateEntry(old(State()), account, e)
    {
      if e !in entries { return Failure(404); }
      if !EntryAllowed(Snapshot(), account, entries[e]) { return Failure(403); }
      var copy := nextEntry;
      entries, nextEntry := entries[copy := entries[e].(name := entries[e].name + " (Copy)")], copy + 1;
      links := links + (set l | l in links && l.0 == e :: (copy, l.1));
      return Created(copy);
    }

    method DeleteEntry(account: Id, e: Id) returns (r: Response)
      modifies this
      ensures (State(), r) == Directory.DeleteEntry(old(State()), account, e)
    {
      if e !in entries { return Failure(404); }
      if !EntryAllowed(Snapshot(), account, entries[e]) { return Failure(403); }
      entries := entries - {e};
      return Success;
    }

    /** The query answers with its rows in some position order; `rows` is that answer. */
    method RepositionEntry(account: Id, e: Id, c: Placement) returns (r: Response, ghost rows: seq<Id>)
      modifies this
      ensures ValidRows(old(State()), account, e, c, rows)
      ensures (State(), r) == Directory.RepositionEntry(old(State()), account, e, c, rows)
    {
      rows := [];
      if e !in entries { return Failure(404), []; }
      ghost var before := State();
      var entry := entries[e];
      var scope := TargetScope(Snapshot(), account, entry, c);
      var order: seq<Id> := [];
      if scope.Scope? {
        order := FindAllOrdered(InScope(Snapshot(), scope), Positions(Snapshot()));
      }
      rows := order;
      if !EntryAllowed(Snapshot(), account, entry) { return Failure(403), rows; }
      if scope.Refused? { return Failure(scope.code), rows; }
      NewOrderDistinctIfAny(rows, e, c);
      order := Without(order, e);
      var targetIndex := |order|;
      if c.targetId.Some? {
        if c.targetId.value !in order { return Failure(404), rows; }
        targetIndex := IndexOf(order, c.targetId.value);
        if c.after { targetIndex := targetIndex + 1; }
      }
      order := InsertAt(order, targetIndex, e);
      assert Some(order) == NewOrder(rows, e, c);
      assert forall x :: x in order ==> x in rows || x == e;
      WritePositions(order, e, scope);
      if entry.organizationId != scope.organizationId {
        LeaveOrganization(e, entry.organizationId);
      }
      return Success, rows;
    }

    method WritePositions(order: seq<Id>, e: Id, scope: Scope)
      requires scope.Scope? && Distinct(order) && forall x :: x in order ==> x in entries
      modifies this`entries
      ensures entries == Placed(old(entries), order, e, scope)
    {
      ghost var placed := Placed(entries, order, e, scope);
      for i := 0 to |order|
        invariant PlacedUpTo(entries, old(entries), placed, order, i)
      {
        var x := order[i];
        var row := entries[x].(position := i, folderId := scope.folderId);
        if x == e {
          row := row.(organizationId := scope.organizationId, accountId := scope.accountId);
        }
        PlaceNext(entries, old(entries), order, i, e, scope, row);
        entries := entries[x := row];
      }
      assert order[..|order|] == order;
    }

    method LeaveOrganization(e: Id, oldOrganizationId: Option<Id>)
      modifies this`links, this`sessions
      ensures links == WithoutIdentitiesOf(old(State()), old(links), {e}, oldOrganizationId)
      ensures sessions == WithoutSessionsOn(old(sessions), {e})
    {
      var linked := set l | l in links && l.0 == e :: l.1;
      var stale := set i | i in linked && i in identities && identities[i].organizationId == oldOrganizationId;
      links := links - set i | i in stale :: (e, i);
      sessions := map s | s in sessions && sessions[s] != e :: sessions[s];
      forall l | l in old(links)
        ensures l in links <==> l in WithoutIdentitiesOf(old(State()), old(links), {e}, oldOrganizationId)
      {
        assert l.0 == e ==> l.1 in linked;
        assert l == (l.0, l.1);
      }
    }

    static lemma NewOrderDistinctIfAny(rows: seq<Id>, e: Id, c: Placement)
      requires Distinct(rows)
      ensures NewOrder(rows, e, c).Some? ==>
                Distinct(NewOrder(rows, e, c).value)
                && forall x :: x in NewOrder(rows, e, c).value <==> x in rows || x == e
    {
      if NewOrder(rows, e, c).Some? {
        NewOrderDistinct(rows, e, c);
      }
    }
  }
}
