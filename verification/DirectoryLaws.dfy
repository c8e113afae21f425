/**
 What every run of folder and entry operations keeps, and what single operations guarantee.
 */
module DirectoryLaws {
  import opened Wrappers
  import opened Forest
  import opened Lists
  import opened Directory

  // ---------------------------------------------------------------- the invariant

  ghost predicate FreshIds(db: Db) {
    && (forall f :: f in db.folders ==> f < db.nextFolder)
    && (forall f :: f in db.folders && db.folders[f].parentId.Some? ==> db.folders[f].parentId.value < db.nextFolder)
    && (forall e :: e in db.entries ==> e < db.nextEntry)
  }

  /** A folder belongs to the organization of its parent, whenever the parent row exists. */
  ghost predicate UniformFolders(folders: map<Id, Folder>) {
    forall f :: f in folders && folders[f].parentId.Some? && folders[f].parentId.value in folders
      ==> folders[f].organizationId == folders[folders[f].parentId.value].organizationId
  }

  /** An entry in a folder: the folder exists and has the entry's organization. */
  ghost predicate UniformEntries(db: Db) {
    forall e :: e in db.entries && db.entries[e].folderId.Some? ==>
      && db.entries[e].folderId.value in db.folders
      && db.entries[e].organizationId == db.folders[db.entries[e].folderId.value].organizationId
  }

  /** Each row belongs to an account or to an organization, never to both or to none. */
  ghost predicate OneOwner(db: Db) {
    && (forall f :: f in db.folders ==> db.folders[f].accountId.Some? != db.folders[f].organizationId.Some?)
    && (forall e :: e in db.entries ==> db.entries[e].accountId.Some? != db.entries[e].organizationId.Some?)
  }

  ghost predicate WellFormed(db: Db) {
    && Acyclic(ParentsOf(db.folders))
    && FreshIds(db)
    && UniformFolders(db.folders)
    && UniformEntries(db)
    && OneOwner(db)
  }

  // ---------------------------------------------------------------- one operation

  lemma CreateFolderKeeps(db: Db, account: Id, c: NewFolder)
    requires WellFormed(db)
    ensures WellFormed(CreateFolder(db, account, c).0)
  {
    var (after, r) := CreateFolder(db, account, c);
    if r.Created? {
      AcyclicAfterAdd(ParentsOf(db.folders), db.nextFolder, c.parentId);
      assert ParentsOf(after.folders) == ParentsOf(db.folders)[db.nextFolder := c.parentId];
    }
  }

  /** Every entry of a subtree. */
  ghost predicate EntryBelow(db: Db, root: Id, e: Id) {
    && e in db.entries && db.entries[e].folderId.Some?
    && Below(ParentsOf(db.folders), root, db.entries[e].folderId.value)
  }

  /** What a successful edit decided: a target outside the subtree, whose organization is taken over. */
  ghost predicate Decided(db: Db, account: Id, id: Id, c: FolderPatch, v: Verdict) {
    && id in db.folders && !v.Refuse?
    && (v.Reown? ==> v.organizationId != db.folders[id].organizationId
                     && v.accountId == if v.organizationId.Some? then None else Some(account))
    && (c.parentId.Absent? ==> v.Keep?)
    && (c.parentId.Value? ==>
          && c.parentId.value in db.folders && !Below(ParentsOf(db.folders), id, c.parentId.value)
          && db.folders[c.parentId.value].organizationId
             == (if v.Reown? then v.organizationId else db.folders[id].organizationId)
          && (db.folders[id].organizationId.None? && v.Keep? ==> db.folders[c.parentId.value].accountId == Some(account)))
    && (db.folders[id].accountId.Some? ==> db.folders[id].accountId == Some(account))
  }

  lemma VerdictIs(db: Db, account: Id, id: Id, c: FolderPatch)
    requires EditFolder(db, account, id, c).1.Success?
    ensures Decided(db, account, id, c, EditVerdict(db, account, id, c))
  {
  }

  function FolderUnder(folder: Folder, v: Verdict): Folder {
    if v.Reown? then folder.(organizationId := v.organizationId, accountId := v.accountId) else folder
  }

  function EntryUnder(entry: Entry, v: Verdict): Entry {
    if v.Reown? then entry.(organizationId := v.organizationId, accountId := v.accountId) else entry
  }

  /** The rows of the `folders` and `entries` tables after a successful edit. */
  ghost predicate EditedRows(db: Db, after: Db, id: Id, c: FolderPatch, v: Verdict) {
    var p := ParentsOf(db.folders);
    && id in db.folders
    && after.folders.Keys == db.folders.Keys && after.entries.Keys == db.entries.Keys
    && after.nextFolder == db.nextFolder && after.nextEntry == db.nextEntry
    && (forall f :: f in db.folders && f != id ==>
          after.folders[f] == if Below(p, id, f) then FolderUnder(db.folders[f], v) else db.folders[f])
    && after.folders[id] == PatchFolder(FolderUnder(db.folders[id], v), c)
    && (forall e :: e in db.entries ==>
          after.entries[e] == if EntryBelow(db, id, e) then EntryUnder(db.entries[e], v) else db.entries[e])
  }

  lemma EditFolderRows(db: Db, account: Id, id: Id, c: FolderPatch)
    requires EditFolder(db, account, id, c).1.Success?
    ensures EditedRows(db, EditFolder(db, account, id, c).0, id, c, EditVerdict(db, account, id, c))
  {
    BelowSelf(ParentsOf(db.folders), id);
    assert forall e :: e in db.entries ==>
      (e in EntriesIn(db, Subtree(ParentsOf(db.folders), id)) <==> EntryBelow(db, id, e));
  }

  lemma EditedRowsUniform(db: Db, after: Db, account: Id, id: Id, c: FolderPatch, v: Verdict)
    requires WellFormed(db) && Decided(db, account, id, c, v) && EditedRows(db, after, id, c, v)
    ensures UniformFolders(after.folders) && UniformEntries(after) && OneOwner(after)
  {
    EditedFoldersUniform(db, after, account, id, c, v);
    EditedEntriesUniform(db, after, account, id, c, v);
    EditedOwners(db, after, account, id, c, v);
  }

  lemma EditedEntriesUniform(db: Db, after: Db, account: Id, id: Id, c: FolderPatch, v: Verdict)
    requires WellFormed(db) && Decided(db, account, id, c, v) && EditedRows(db, after, id, c, v)
    ensures UniformEntries(after)
  {
    BelowSelf(ParentsOf(db.folders), id);
  }

  lemma EditedOwners(db: Db, after: Db, account: Id, id: Id, c: FolderPatch, v: Verdict)
    requires WellFormed(db) && Decided(db, account, id, c, v) && EditedRows(db, after, id, c, v)
    ensures OneOwner(after)
  {
    BelowSelf(ParentsOf(db.folders), id);
  }

  lemma EditedFoldersUniform(db: Db, after: Db, account: Id, id: Id, c: FolderPatch, v: Verdict)
    requires WellFormed(db) && Decided(db, account, id, c, v) && EditedRows(db, after, id, c, v)
    ensures UniformFolders(after.folders)
  {
    var p := ParentsOf(db.folders);
    BelowSelf(p, id);
    forall f | f in after.folders && after.folders[f].parentId.Some? && after.folders[f].parentId.value in after.folders
      ensures after.folders[f].organizationId == after.folders[after.folders[f].parentId.value].organizationId
    {
      BelowStep(p, id, f);
    }
  }

  lemma EditedRowsAcyclic(db: Db, after: Db, account: Id, id: Id, c: FolderPatch, v: Verdict)
    requires WellFormed(db) && Decided(db, account, id, c, v) && EditedRows(db, after, id, c, v)
    ensures Acyclic(ParentsOf(after.folders)) && FreshIds(after)
  {
    var p := ParentsOf(db.folders);
    var parent := PatchFolder(db.folders[id], c).parentId;
    assert ParentsOf(after.folders) == p[id := parent];
    if c.parentId.Absent? {
      assert p[id := parent] == p;
    } else {
      AcyclicAfterMove(p, id, parent);
    }
  }

  lemma EditFolderKeeps(db: Db, account: Id, id: Id, c: FolderPatch)
    requires WellFormed(db)
    ensures WellFormed(EditFolder(db, account, id, c).0)
  {
    var (after, r) := EditFolder(db, account, id, c);
    if r.Success? {
      var v := EditVerdict(db, account, id, c);
      VerdictIs(db, account, id, c);
      EditFolderRows(db, account, id, c);
      EditedRowsUniform(db, after, account, id, c, v);
      EditedRowsAcyclic(db, after, account, id, c, v);
    }
  }

  lemma RemovedKeeps(db: Db, ids: set<Id>)
    requires WellFormed(db)
    ensures WellFormed(Removed(db, ids))
  {
    AcyclicAfterRemove(ParentsOf(db.folders), ids);
    assert ParentsOf(Removed(db, ids).folders) == ParentsOf(db.folders) - ids;
  }

  lemma EditEntryKeeps(db: Db, account: Id, e: Id, c: EntryPatch)
    requires WellFormed(db)
    ensures WellFormed(EditEntry(db, account, e, c).0)
  {
  }

  lemma CreateEntryKeeps(db: Db, account: Id, c: NewEntry)
    requires WellFormed(db)
    ensures WellFormed(CreateEntry(db, account, c).0)
  {
  }

  lemma DuplicateEntryKeeps(db: Db, account: Id, e: Id)
    requires WellFormed(db)
    ensures WellFormed(DuplicateEntry(db, account, e).0)
  {
  }

  lemma RepositionEntryKeeps(db: Db, account: Id, e: Id, c: Placement, rows: seq<Id>)
    requires WellFormed(db) && ValidRows(db, account, e, c, rows)
    ensures WellFormed(RepositionEntry(db, account, e, c, rows).0)
  {
    var r := RepositionEntry(db, account, e, c, rows).1;
    if r.Success? {
      NewOrderDistinct(rows, e, c);
      var s := TargetScope(db, account, db.entries[e], c);
      ScopeConsistent(db, account, e, c);
      PlacedKeeps(db, NewOrder(rows, e, c).value, e, s);
    }
  }

  /** The target of an accepted reposition has one owner and agrees with its folder. */
  ghost predicate ConsistentScope(db: Db, s: Scope) {
    && s.Scope? && s.accountId.Some? != s.organizationId.Some?
    && (s.folderId.Some? ==> s.folderId.value in db.folders
                             && db.folders[s.folderId.value].organizationId == s.organizationId)
  }

  lemma ScopeConsistent(db: Db, account: Id, e: Id, c: Placement)
    requires WellFormed(db) && e in db.entries && TargetScope(db, account, db.entries[e], c).Scope?
    ensures ConsistentScope(db, TargetScope(db, account, db.entries[e], c))
  {
  }

  lemma PlacedKeeps(db: Db, order: seq<Id>, e: Id, s: Scope)
    requires WellFormed(db) && Distinct(order) && ConsistentScope(db, s)
    requires forall x :: x in order && x != e ==> x in InScope(db, s)
    ensures WellFormed(db.(entries := Placed(db.entries, order, e, s)))
  {
  }

  // ---------------------------------------------------------------- runs

  datatype Op =
    | OpCreateFolder(account: Id, newFolder: NewFolder)
    | OpEditFolder(account: Id, id: Id, folderPatch: FolderPatch)
    | OpDeleteFolder(account: Id, id: Id)
    | OpCreateEntry(account: Id, newEntry: NewEntry)
    | OpEditEntry(account: Id, id: Id, entryPatch: EntryPatch)
    | OpDeleteEntry(account: Id, id: Id)
    | OpDuplicateEntry(account: Id, id: Id)
    | OpReposition(account: Id, id: Id, placement: Placement, rows: seq<Id>)
    | Memberships(active: set<(Id, Id)>, organizations: set<Id>)  // any change made by other controllers
    | Identities(identities: map<Id, Identity>)

  ghost predicate Enabled(db: Db, op: Op) {
    op.OpReposition? ==> ValidRows(db, op.account, op.id, op.placement, op.rows)
  }

  ghost function Apply(db: Db, op: Op): Db
    requires Enabled(db, op)
  {
    match op
    case OpCreateFolder(a, c) => CreateFolder(db, a, c).0
    case OpEditFolder(a, id, c) => EditFolder(db, a, id, c).0
    case OpDeleteFolder(a, id) => DeleteFolder(db, a, id).0
    case OpCreateEntry(a, c) => CreateEntry(db, a, c).0
    case OpEditEntry(a, id, c) => EditEntry(db, a, id, c).0
    case OpDeleteEntry(a, id) => DeleteEntry(db, a, id).0
    case OpDuplicateEntry(a, id) => DuplicateEntry(db, a, id).0
    case OpReposition(a, id, c, rows) => RepositionEntry(db, a, id, c, rows).0
    case Memberships(m, o) => db.(active := m, organizations := o)
    case Identities(i) => db.(identities := i)
  }

  /** `after` can be reached from `db` by the operations `ops`. */
  ghost predicate Run(db: Db, ops: seq<Op>, after: Db)
    decreases |ops|
  {
    if ops == [] then after == db
    else Enabled(db, ops[0]) && Run(Apply(db, ops[0]), ops[1..], after)
  }

  const Empty := Db(map[], map[], map[], {}, {}, {}, map[], 1, 1)

  lemma StepKeeps(db: Db, op: Op)
    requires WellFormed(db) && Enabled(db, op)
    ensures WellFormed(Apply(db, op))
  {
    match op
    case OpCreateFolder(a, c) => CreateFolderKeeps(db, a, c);
    case OpEditFolder(a, id, c) => EditFolderKeeps(db, a, id, c);
    case OpDeleteFolder(a, id) => RemovedKeeps(db, Subtree(Deletable(db, a), id));
    case OpCreateEntry(a, c) => CreateEntryKeeps(db, a, c);
    case OpEditEntry(a, id, c) => EditEntryKeeps(db, a, id, c);
    case OpDeleteEntry(a, id) =>
    case OpDuplicateEntry(a, id) => DuplicateEntryKeeps(db, a, id);
    case OpReposition(a, id, c, rows) => RepositionEntryKeeps(db, a, id, c, rows);
    case Memberships(m, o) =>
    case Identities(i) =>
  }

  lemma {:induction false} RunKeeps(db: Db, ops: seq<Op>, after: Db)
    requires WellFormed(db) && Run(db, ops, after)
    ensures WellFormed(after)
    decreases |ops|
  {
    if ops != [] {
      StepKeeps(db, ops[0]);
      RunKeeps(Apply(db, ops[0]), ops[1..], after);
    }
  }

  /** Every state reachable from the empty tables is well-formed. */
  lemma ReachableWellFormed(ops: seq<Op>, db: Db)
    requires Run(Empty, ops, db)
    ensures WellFormed(db)
  {
    assert WellFormed(Empty);
    RunKeeps(Empty, ops, db);
  }

  // ---------------------------------------------------------------- moving a subtree

  /** A move that changes the organization re-owns the folders and entries of the subtree, and no other row. */
  lemma MoveChangesExactlyTheSubtree(db: Db, account: Id, id: Id, c: FolderPatch)
    requires EditFolder(db, account, id, c).1.Success?
    ensures var after := EditFolder(db, account, id, c).0;
            var p := ParentsOf(db.folders);
            var org, owner := after.folders[id].organizationId, after.folders[id].accountId;
            && after.folders.Keys == db.folders.Keys && after.entries.Keys == db.entries.Keys
            && (forall f :: f in db.folders && f != id ==>
                  after.folders[f] == if Below(p, id, f) && org != db.folders[id].organizationId
                    then db.folders[f].(organizationId := org, accountId := owner) else db.folders[f])
            && (forall e :: e in db.entries ==>
                  after.entries[e] == if EntryBelow(db, id, e) && org != db.folders[id].organizationId
                    then db.entries[e].(organizationId := org, accountId := owner) else db.entries[e])
  {
    VerdictIs(db, account, id, c);
    EditFolderRows(db, account, id, c);
  }

  lemma MoveUnlinksExactlyTheSubtree(db: Db, account: Id, id: Id, c: FolderPatch)
    requires EditFolder(db, account, id, c).1.Success?
    ensures var after := EditFolder(db, account, id, c).0;
            var left := db.folders[id].organizationId;
            var leaves := left.Some? && after.folders[id].organizationId != left;
            && after.links <= db.links && after.sessions.Keys <= db.sessions.Keys
            && (forall l :: l in db.links ==>
                  (l in after.links <==>
                    !(leaves && EntryBelow(db, id, l.0) && l.1 in db.identities && db.identities[l.1].organizationId == left)))
            && (forall s :: s in db.sessions ==>
                  (s in after.sessions <==> !(leaves && EntryBelow(db, id, db.sessions[s]))))
            && (forall s :: s in after.sessions ==> after.sessions[s] == db.sessions[s])
  {
    var v := EditVerdict(db, account, id, c);
    var p := ParentsOf(db.folders);
    VerdictIs(db, account, id, c);
    EditFolderRows(db, account, id, c);
    assert forall e :: e in EntriesIn(db, Subtree(p, id)) <==> EntryBelow(db, id, e);
  }

  // ---------------------------------------------------------------- owners

  ghost predicate OwnersAgree(folders: map<Id, Folder>) {
    forall f :: f in folders && folders[f].parentId.Some? && folders[f].parentId.value in folders
      ==> folders[f].accountId == folders[folders[f].parentId.value].accountId
  }

  /** An organization's folder goes under a personal folder of somebody else. */
  predicate ForeignTarget(db: Db, account: Id, id: Id, c: FolderPatch)
    requires id in db.folders
  {
    && c.parentId.Value? && c.parentId.value in db.folders
    && db.folders[id].organizationId.Some?
    && db.folders[c.parentId.value].organizationId.None?
    && db.folders[c.parentId.value].accountId != Some(account)
  }

  /** The exact condition under which an edit keeps folders and parents with one owner. */
  lemma EditKeepsOwnersIff(db: Db, account: Id, id: Id, c: FolderPatch)
    requires WellFormed(db) && OwnersAgree(db.folders)
    requires EditFolder(db, account, id, c).1.Success?
    ensures OwnersAgree(EditFolder(db, account, id, c).0.folders) <==> !ForeignTarget(db, account, id, c)
  {
    var after := EditFolder(db, account, id, c).0;
    var p := ParentsOf(db.folders);
    VerdictIs(db, account, id, c);
    EditFolderRows(db, account, id, c);
    BelowSelf(p, id);
    if ForeignTarget(db, account, id, c) {
      assert after.folders[id].accountId == Some(account);
      assert after.folders[c.parentId.value] == db.folders[c.parentId.value];
    } else {
      forall f | f in after.folders && after.folders[f].parentId.Some? && after.folders[f].parentId.value in after.folders
        ensures after.folders[f].accountId == after.folders[after.folders[f].parentId.value].accountId
      {
        BelowStep(p, id, f);
      }
    }
  }

  /** Folder 1 belongs to organization 3, of which account 7 is a member; folder 2 is private to account 8. */
  const ForeignDb := Empty.(
    folders := map[1 := Folder("shared", None, Some(3), None), 2 := Folder("private", Some(8), None, None)],
    active := {(7, 3)}, nextFolder := 3)

  lemma ForeignDbWellFormed()
    ensures WellFormed(ForeignDb) && OwnersAgree(ForeignDb.folders)
    ensures !Below(ParentsOf(ForeignDb.folders), 1, 2)
  {
    FlatForest(ParentsOf(ForeignDb.folders));
  }

  /** Account 7 moves folder 1 under folder 2: accepted, and a folder of account 7 now has a parent of account 8. */
  lemma OwnersNeedNotAgree() returns (c: FolderPatch)
    ensures EditFolder(ForeignDb, 7, 1, c).1.Success?
    ensures !OwnersAgree(EditFolder(ForeignDb, 7, 1, c).0.folders)
  {
    c := FolderPatch(None, Value(2), Absent);
    ForeignDbWellFormed();
    assert EditVerdict(ForeignDb, 7, 1, c) == Reown(None, Some(7)) by {
      assert TargetCheck(ForeignDb, 7, ForeignDb.folders[1], ForeignDb.folders[2]) == Success;
    }
    EditKeepsOwnersIff(ForeignDb, 7, 1, c);
  }

  // ---------------------------------------------------------------- deleting a subtree

  /** A delete takes the whole subtree exactly when every folder of the subtree may be deleted. */
  lemma DeleteIsCompleteIff(db: Db, account: Id, id: Id)
    requires Acyclic(ParentsOf(db.folders))
    requires DeleteFolder(db, account, id).1.Success?
    ensures Subtree(Deletable(db, account), id) <= Subtree(ParentsOf(db.folders), id)
    ensures Subtree(Deletable(db, account), id) == Subtree(ParentsOf(db.folders), id)
            <==> forall f :: f in db.folders && Below(ParentsOf(db.folders), id, f)
                   ==> FolderAllowed(db, account, db.folders[f])
  {
    var p, q := ParentsOf(db.folders), Deletable(db, account);
    var refused := p.Keys - q.Keys;
    assert p - refused == q;
    forall f | f in Subtree(q, id)
      ensures f in Subtree(p, id)
    {
      var n: nat :| Up(q, f, n) == Some(id);
      UpOfRestriction(p, refused, f, n);
    }
    if forall f :: f in db.folders && Below(p, id, f) ==> FolderAllowed(db, account, db.folders[f]) {
      SubtreeAfterRemove(p, refused, id);
    } else {
      var f :| f in db.folders && Below(p, id, f) && !FolderAllowed(db, account, db.folders[f]);
      assert f in Subtree(p, id) && f !in q;
    }
  }

  /** While owners agree, a permitted delete takes the whole subtree and its entries, and leaves no orphan. */
  lemma DeleteTakesSubtree(db: Db, account: Id, id: Id)
    requires WellFormed(db) && OwnersAgree(db.folders)
    requires DeleteFolder(db, account, id).1.Success?
    ensures var after := DeleteFolder(db, account, id).0;
            && (forall f :: f in after.folders <==> f in db.folders && !Below(ParentsOf(db.folders), id, f))
            && (forall e :: e in after.entries <==> e in db.entries && !EntryBelow(db, id, e))
            && (forall f :: f in after.folders ==> after.folders[f] == db.folders[f])
            && (forall f :: f in after.folders && db.folders[f].parentId.Some? && db.folders[f].parentId.value in db.folders
                  ==> db.folders[f].parentId.value in after.folders)
  {
    var p := ParentsOf(db.folders);
    forall f | f in db.folders && Below(p, id, f)
      ensures FolderAllowed(db, account, db.folders[f])
    {
      SameOwnerBelow(db, id, f);
    }
    DeleteIsCompleteIff(db, account, id);
    forall f | f in db.folders && !Below(p, id, f) && db.folders[f].parentId.Some? && db.folders[f].parentId.value in db.folders
      ensures !Below(p, id, db.folders[f].parentId.value)
    {
      BelowStep(p, id, f);
    }
  }

  lemma SameOwnerBelow(db: Db, root: Id, f: Id)
    requires WellFormed(db) && OwnersAgree(db.folders)
    requires Below(ParentsOf(db.folders), root, f)
    ensures db.folders[f].accountId == db.folders[root].accountId
    ensures db.folders[f].organizationId == db.folders[root].organizationId
  {
    var n: nat :| Up(ParentsOf(db.folders), f, n) == Some(root);
    SameOwnerUp(db, root, f, n);
  }

  lemma {:induction false} SameOwnerUp(db: Db, root: Id, f: Id, n: nat)
    requires WellFormed(db) && OwnersAgree(db.folders)
    requires Up(ParentsOf(db.folders), f, n) == Some(root)
    ensures db.folders[f].accountId == db.folders[root].accountId
    ensures db.folders[f].organizationId == db.folders[root].organizationId
    decreases n
  {
    if n > 0 {
      SameOwnerUp(db, root, db.folders[f].parentId.value, n - 1);
    }
  }

  /** A delete that passes over another account's subfolder leaves that subfolder without a parent row. */
  const MixedDb := Empty.(
    folders := map[1 := Folder("mine", Some(7), None, None), 2 := Folder("theirs", Some(8), None, Some(1))],
    nextFolder := 3)

  lemma DeleteCanOrphan()
    ensures WellFormed(MixedDb) && DeleteFolder(MixedDb, 7, 1).1.Success?
    ensures var after := DeleteFolder(MixedDb, 7, 1).0;
            1 !in after.folders && 2 in after.folders && after.folders[2].parentId == Some(1)
  {
    var p, q := ParentsOf(MixedDb.folders), Deletable(MixedDb, 7);
    FlatForest(p[2 := None]);
    assert p[2 := None][2 := Some(1)] == p;
    AcyclicAfterMove(p[2 := None], 2, Some(1));
    assert 1 in q && 2 !in q;
    BelowSelf(q, 1);
  }

  // ---------------------------------------------------------------- an entry leaving its organization

  /** No link leads from `e` to an identity of `organization`. */
  ghost predicate NoLinkInto(db: Db, links: set<(Id, Id)>, e: Id, organization: Id) {
    forall i :: (e, i) in links ==> !(i in db.identities && db.identities[i].organizationId == Some(organization))
  }

  /** Repositioning an entry out of its organization drops its links and sessions there, and only those. */
  lemma RepositionUnlinks(db: Db, account: Id, e: Id, c: Placement, rows: seq<Id>)
    requires WellFormed(db) && ValidRows(db, account, e, c, rows)
    requires RepositionEntry(db, account, e, c, rows).1.Success?
    requires db.entries[e].organizationId.Some?
    requires RepositionEntry(db, account, e, c, rows).0.entries[e].organizationId != db.entries[e].organizationId
    ensures var after := RepositionEntry(db, account, e, c, rows).0;
            && NoLinkInto(db, after.links, e, db.entries[e].organizationId.value)
            && (forall s :: s in after.sessions ==> after.sessions[s] != e)
            && (forall l :: l in db.links && l.0 != e ==> l in after.links)
  {
    NewOrderDistinct(rows, e, c);
  }

  /**
   Editing the folder of an entry does not unlink: the entry is clean afterwards exactly when it
   was clean already, or when the request replaces the identities by ones of other scopes.
   */
  lemma EditEntryUnlinksIff(db: Db, account: Id, e: Id, c: EntryPatch)
    requires WellFormed(db) && EditEntry(db, account, e, c).1.Success?
    requires db.entries[e].organizationId.Some?
    ensures var organization := db.entries[e].organizationId.value;
            NoLinkInto(db, EditEntry(db, account, e, c).0.links, e, organization)
            <==> if c.identities.None? then NoLinkInto(db, db.links, e, organization)
                 else forall i :: i in c.identities.value ==> db.identities[i].organizationId != Some(organization)
  {
    var organization := db.entries[e].organizationId.value;
    var after := EditEntry(db, account, e, c).0;
    assert HasAccess(db, account, organization);
    if c.identities.Some? {
      assert forall i :: i in c.identities.value ==> IdentityAccessible(db, account, i);
      assert forall i :: i in c.identities.value ==> (e, i) in after.links;
    } else {
      assert after.links == db.links;
    }
  }

  /** Entry 1 of organization 3 is linked to the organization's identity 5; folder 1 is private to account 7. */
  const LinkedDb := Empty.(
    folders := map[1 := Folder("mine", Some(7), None, None)],
    entries := map[1 := Entry("host", None, Some(3), None, 0)],
    identities := map[5 := Identity(None, Some(3))], links := {(1, 5)},
    active := {(7, 3)}, nextFolder := 2, nextEntry := 2)

  /** Account 7 edits entry 1 into folder 1: the entry leaves the organization and keeps the link. */
  lemma EditEntryKeepsStaleLinks() returns (c: EntryPatch)
    ensures WellFormed(LinkedDb) && EditEntry(LinkedDb, 7, 1, c).1.Success?
    ensures EditEntry(LinkedDb, 7, 1, c).0.entries[1].organizationId.None?
    ensures !NoLinkInto(LinkedDb, EditEntry(LinkedDb, 7, 1, c).0.links, 1, 3)
  {
    c := EntryPatch(None, Value(1), None);
    FlatForest(ParentsOf(LinkedDb.folders));
    assert (1, 5) in LinkedDb.links;
  }

  // ---------------------------------------------------------------- positions after a reposition

  /**
   After a reposition the scope reads back, in position order, as the old order with the entry taken
   out and put where it was asked for, and the positions are 0..n-1.
   */
  lemma RepositionOrder(db: Db, account: Id, e: Id, c: Placement, rows: seq<Id>, reread: seq<Id>)
    requires ValidRows(db, account, e, c, rows)
    requires RepositionEntry(db, account, e, c, rows).1.Success?
    requires var after := RepositionEntry(db, account, e, c, rows).0;
             var s := TargetScope(db, account, db.entries[e], c);
             Enumerates(reread, InScope(after, s)) && SortedBy(reread, Positions(after))
    ensures var after := RepositionEntry(db, account, e, c, rows).0;
            && e in reread
            && Without(reread, e) == Without(rows, e)
            && (forall i :: 0 <= i < |reread| ==> reread[i] in after.entries && after.entries[reread[i]].position == i)
            && (c.targetId.None? ==> reread[|reread| - 1] == e)
            && (c.targetId.Some? ==>
                  && c.targetId.value in reread
                  && IndexOf(reread, e) == IndexOf(reread, c.targetId.value) + (if c.after then 1 else -1))
  {
    var after := RepositionEntry(db, account, e, c, rows).0;
    var s := TargetScope(db, account, db.entries[e], c);
    var order := NewOrder(rows, e, c).value;
    PlacedScope(db, account, e, c, rows);
    PlacedPositions(db, account, e, c, rows);
    SortedUnique(reread, order, InScope(after, s), Positions(after));
    NewOrderIs(rows, e, c);
  }

  lemma NewOrderIs(rows: seq<Id>, e: Id, c: Placement)
    requires Distinct(rows) && NewOrder(rows, e, c).Some?
    ensures var order := NewOrder(rows, e, c).value;
            && e in order
            && Without(order, e) == Without(rows, e)
            && (c.targetId.None? ==> order[|order| - 1] == e)
            && (c.targetId.Some? ==>
                  && c.targetId.value in order
                  && IndexOf(order, e) == IndexOf(order, c.targetId.value) + (if c.after then 1 else -1))
  {
    WithoutDistinct(rows, e);
    var others := Without(rows, e);
    if c.targetId.None? {
      InsertIndex(others, |others|, e);
    } else {
      var t := IndexOf(others, c.targetId.value);
      var at := t + (if c.after then 1 else 0);
      InsertIndex(others, at, e);
      InsertOtherIndex(others, at, e, t);
    }
  }

  lemma PlacedPositions(db: Db, account: Id, e: Id, c: Placement, rows: seq<Id>)
    requires ValidRows(db, account, e, c, rows)
    requires RepositionEntry(db, account, e, c, rows).1.Success?
    ensures var after := RepositionEntry(db, account, e, c, rows).0;
            var order := NewOrder(rows, e, c).value;
            && Distinct(order)
            && forall i :: 0 <= i < |order| ==> order[i] in after.entries && after.entries[order[i]].position == i
  {
    NewOrderDistinct(rows, e, c);
    var s := TargetScope(db, account, db.entries[e], c);
    var order := NewOrder(rows, e, c).value;
    forall i | 0 <= i < |order|
      ensures IndexOf(order, order[i]) == i && order[i] in db.entries
    {
      IndexOfUnique(order, i);
      assert order[i] in order;
      assert order[i] != e ==> order[i] in InScope(db, s);
    }
  }

  lemma PlacedScope(db: Db, account: Id, e: Id, c: Placement, rows: seq<Id>)
    requires ValidRows(db, account, e, c, rows)
    requires RepositionEntry(db, account, e, c, rows).1.Success?
    ensures var after := RepositionEntry(db, account, e, c, rows).0;
            Enumerates(NewOrder(rows, e, c).value, InScope(after, TargetScope(db, account, db.entries[e], c)))
  {
    NewOrderDistinct(rows, e, c);
    var s := TargetScope(db, account, db.entries[e], c);
    var after := RepositionEntry(db, account, e, c, rows).0;
    var order := NewOrder(rows, e, c).value;
    assert forall x :: x in rows ==> x in InScope(db, s);
    assert forall x :: x in InScope(db, s) ==> x in rows;
    forall x | x in InScope(after, s)
      ensures x in order
    {
    }
  }
}
