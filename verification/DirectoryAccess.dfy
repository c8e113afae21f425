/**
 Who may do what with folders and entries, read off the membership table, the owners and the parents: exactly
 when each operation is accepted, and which row it leaves.
 */
module DirectoryAccess {
  import opened Wrappers
  import opened Forest
  import opened Lists
  import opened Directory
  import opened DirectoryLaws

  /** An active member of the folder's organization, or the owner of a personal one. */
  predicate MayUse(db: Db, account: Id, folder: Folder) {
    if folder.organizationId.Some? then (account, folder.organizationId.value) in db.active
    else folder.accountId == Some(account)
  }

  /** Without an organization the folder's owner counts, and without a folder the entry's. */
  predicate MayUseEntry(db: Db, account: Id, entry: Entry) {
    if entry.organizationId.Some? then (account, entry.organizationId.value) in db.active
    else if entry.folderId.Some? && entry.folderId.value in db.folders
    then db.folders[entry.folderId.value].accountId == Some(account)
    else entry.accountId == Some(account)
  }

  predicate MayLink(db: Db, account: Id, identity: Id) {
    && identity in db.identities
    && if db.identities[identity].organizationId.Some? then (account, db.identities[identity].organizationId.value) in db.active
       else db.identities[identity].accountId == Some(account)
  }

  predicate MayLinkAll(db: Db, account: Id, identities: seq<Id>) {
    forall i :: i in identities ==> MayLink(db, account, i)
  }

  lemma LinksAllowed(db: Db, account: Id, identities: seq<Id>, organizationId: Option<Id>)
    requires organizationId.Some? ==> (account, organizationId.value) in db.active
    ensures IdentitiesAllowed(db, account, identities, organizationId) <==> MayLinkAll(db, account, identities)
  {
    assert forall i :: i in identities ==> IdentityAccessible(db, account, i) == MayLink(db, account, i);
  }

  lemma EntryUse(db: Db, account: Id, e: Id)
    requires WellFormed(db) && e in db.entries
    ensures EntryAllowed(db, account, db.entries[e]) <==> MayUseEntry(db, account, db.entries[e])
  {
  }

  lemma FolderUse(db: Db, account: Id, id: Id)
    requires WellFormed(db) && id in db.folders
    ensures FolderAllowed(db, account, db.folders[id]) <==> MayUse(db, account, db.folders[id])
  {
  }

  // ---------------------------------------------------------------- editing a folder

  /**
   The account may put the folder where the request says: an organization takes members only, a personal
   folder takes its owner's folders and those that leave an organization.
   */
  ghost predicate MayMoveTo(db: Db, account: Id, id: Id, c: FolderPatch)
    requires id in db.folders
  {
    match c.parentId
    case Absent => true
    case Null => c.organizationId.Value? ==> (account, c.organizationId.value) in db.active
    case Value(t) =>
      && t in db.folders
      && if db.folders[t].organizationId.Some? then (account, db.folders[t].organizationId.value) in db.active
         else db.folders[id].organizationId.Some? || db.folders[t].accountId == Some(account)
  }

  ghost predicate IntoItself(db: Db, id: Id, c: FolderPatch) {
    c.parentId.Value? && c.parentId.value in db.folders && Below(ParentsOf(db.folders), id, c.parentId.value)
  }

  lemma VerdictRefusesIff(db: Db, account: Id, id: Id, c: FolderPatch)
    requires id in db.folders && MayUse(db, account, db.folders[id])
    ensures EditVerdict(db, account, id, c).Refuse? <==> !MayMoveTo(db, account, id, c) || IntoItself(db, id, c)
    ensures EditVerdict(db, account, id, c) == Refuse(400) <==> MayMoveTo(db, account, id, c) && IntoItself(db, id, c)
  {
  }

  /**
   An edit is accepted exactly when the account may use the folder and put it where it asks, outside the
   folder itself; only that last reason is answered with 400.
   */
  lemma EditAcceptedIff(db: Db, account: Id, id: Id, c: FolderPatch)
    requires WellFormed(db)
    ensures EditFolder(db, account, id, c).1.Success? <==>
              id in db.folders && MayUse(db, account, db.folders[id]) && MayMoveTo(db, account, id, c) && !IntoItself(db, id, c)
    ensures EditFolder(db, account, id, c).1 == Failure(400) <==>
              id in db.folders && MayUse(db, account, db.folders[id]) && MayMoveTo(db, account, id, c) && IntoItself(db, id, c)
    ensures !EditFolder(db, account, id, c).1.Success? ==> EditFolder(db, account, id, c).0 == db
  {
    if id in db.folders {
      FolderUse(db, account, id);
      if MayUse(db, account, db.folders[id]) {
        VerdictRefusesIff(db, account, id, c);
      }
    }
  }

  /** The organization that the request leads to. */
  function OrganizationAsked(db: Db, id: Id, c: FolderPatch): Option<Id>
    requires id in db.folders
  {
    match c.parentId
    case Absent => db.folders[id].organizationId
    case Null => if c.organizationId.Value? then Some(c.organizationId.value) else None
    case Value(t) => if t in db.folders then db.folders[t].organizationId else None
  }

  /** The row that an accepted edit leaves. */
  lemma EditedFolderIs(db: Db, account: Id, id: Id, c: FolderPatch)
    requires EditFolder(db, account, id, c).1.Success?
    ensures var was, org := db.folders[id], OrganizationAsked(db, id, c);
            EditFolder(db, account, id, c).0.folders[id]
            == Folder(if c.name.Some? then c.name.value else was.name,
                      if org == was.organizationId then was.accountId else if org.Some? then None else Some(account),
                      org,
                      match c.parentId case Absent => was.parentId case Null => None case Value(t) => Some(t))
  {
    EditFolderRows(db, account, id, c);
  }

  /** Neither a folder of an organization nor one that gets into it is edited by somebody who is no active member. */
  lemma EditNeedsMembership(db: Db, account: Id, id: Id, c: FolderPatch, o: Id)
    requires WellFormed(db) && EditFolder(db, account, id, c).1.Success?
    requires db.folders[id].organizationId == Some(o) || EditFolder(db, account, id, c).0.folders[id].organizationId == Some(o)
    ensures (account, o) in db.active
  {
    EditAcceptedIff(db, account, id, c);
    EditedFolderIs(db, account, id, c);
  }

  // ---------------------------------------------------------------- creating and deleting a folder

  /** A folder is created exactly where the account may: in a folder it may use, or at the top of its organizations. */
  lemma CreateFolderAcceptedIff(db: Db, account: Id, c: NewFolder)
    requires WellFormed(db)
    ensures CreateFolder(db, account, c).1.Created? <==>
              if c.parentId.Some?
              then c.parentId.value in db.folders && MayUse(db, account, db.folders[c.parentId.value])
                   && (c.organizationId.Some? ==> db.folders[c.parentId.value].organizationId == c.organizationId)
              else c.organizationId.Some? ==> (account, c.organizationId.value) in db.active
    ensures !CreateFolder(db, account, c).1.Created? ==> CreateFolder(db, account, c).0 == db
    ensures CreateFolder(db, account, c).1.Created? ==>
              var org := if c.parentId.Some? then db.folders[c.parentId.value].organizationId else c.organizationId;
              var row := Folder(c.name, if org.Some? then None else Some(account), org, c.parentId);
              CreateFolder(db, account, c)
              == (db.(folders := db.folders[db.nextFolder := row], nextFolder := db.nextFolder + 1), Created(db.nextFolder))
  {
  }

  /**
   A delete is accepted exactly when the account may use the folder. The rows that go are the folder and, from
   parent to child, each folder the account may use; entries go with their folder.
   */
  lemma DeletedRowsAre(db: Db, account: Id, id: Id)
    requires WellFormed(db)
    ensures var (after, r) := DeleteFolder(db, account, id);
            && (r.Success? <==> id in db.folders && MayUse(db, account, db.folders[id]))
            && (!r.Success? ==> after == db)
            && after.folders.Keys <= db.folders.Keys
            && (forall f :: f in after.folders ==> after.folders[f] == db.folders[f])
            && (forall e :: e in db.entries ==>
                  (e in after.entries <==> !(db.entries[e].folderId.Some? && db.entries[e].folderId.value !in after.folders)))
            && (r.Success? ==>
                  && id !in after.folders
                  && forall f :: f in db.folders && f != id ==>
                       (f !in after.folders <==>
                          && MayUse(db, account, db.folders[f])
                          && db.folders[f].parentId.Some? && db.folders[f].parentId.value in db.folders
                          && db.folders[f].parentId.value !in after.folders))
  {
    var (after, r) := DeleteFolder(db, account, id);
    forall f | f in db.folders
      ensures FolderAllowed(db, account, db.folders[f]) <==> MayUse(db, account, db.folders[f])
    {
      FolderUse(db, account, f);
    }
    if r.Success? {
      var p := Deletable(db, account);
      BelowSelf(p, id);
      forall f | f in db.folders && f != id
        ensures f !in after.folders <==>
                  && MayUse(db, account, db.folders[f])
                  && db.folders[f].parentId.Some? && db.folders[f].parentId.value in db.folders
                  && db.folders[f].parentId.value !in after.folders
      {
        DeletedStep(db, account, id, f);
      }
    }
  }

  lemma DeletedStep(db: Db, account: Id, id: Id, f: Id)
    requires WellFormed(db) && id in db.folders && f in db.folders && f != id
    requires FolderAllowed(db, account, db.folders[id])
    ensures var gone := Subtree(Deletable(db, account), id);
            f in gone <==>
              && FolderAllowed(db, account, db.folders[f])
              && db.folders[f].parentId.Some? && db.folders[f].parentId.value in db.folders
              && db.folders[f].parentId.value in gone
  {
    var p := Deletable(db, account);
    if f in p {
      BelowStep(p, id, f);
    }
  }

  // ---------------------------------------------------------------- entries

  /** An entry is created exactly in a folder that the account may use, or in its own organizations, with identities it may use. */
  lemma CreateEntryAcceptedIff(db: Db, account: Id, c: NewEntry)
    requires WellFormed(db)
    ensures CreateEntry(db, account, c).1.Created? <==>
              && MayLinkAll(db, account, c.identities)
              && if c.folderId.Some? then c.folderId.value in db.folders && MayUse(db, account, db.folders[c.folderId.value])
                 else c.organizationId.Some? ==> (account, c.organizationId.value) in db.active
    ensures !CreateEntry(db, account, c).1.Created? ==> CreateEntry(db, account, c).0 == db
    ensures CreateEntry(db, account, c).1.Created? ==>
              var org := if c.folderId.Some? then db.folders[c.folderId.value].organizationId else c.organizationId;
              var (after, e) := (CreateEntry(db, account, c).0, db.nextEntry);
              && CreateEntry(db, account, c).1 == Created(e)
              && after.entries == db.entries[e := Entry(c.name, if org.Some? then None else Some(account), org, c.folderId, c.position)]
              && after.folders == db.folders && after.sessions == db.sessions && after.nextEntry == e + 1
              && forall l :: l in after.links <==> l in db.links || (l.0 == e && l.1 in c.identities)
  {
    var org := if c.folderId.Some? && c.folderId.value in db.folders then db.folders[c.folderId.value].organizationId else c.organizationId;
    if org.Some? ==> (account, org.value) in db.active {
      LinksAllowed(db, account, c.identities, org);
    }
  }

  /** An entry is deleted exactly by an account that may use it, and nothing else goes. */
  lemma DeleteEntryAcceptedIff(db: Db, account: Id, e: Id)
    requires WellFormed(db)
    ensures DeleteEntry(db, account, e).1.Success? <==> e in db.entries && MayUseEntry(db, account, db.entries[e])
    ensures DeleteEntry(db, account, e).0
            == if DeleteEntry(db, account, e).1.Success? then db.(entries := db.entries - {e}) else db
  {
    if e in db.entries {
      EntryUse(db, account, e);
    }
  }

  /** A copy is made exactly by an account that may use the entry, with the entry's place, owner and links. */
  lemma DuplicateAcceptedIff(db: Db, account: Id, e: Id)
    requires WellFormed(db)
    ensures var (after, r) := DuplicateEntry(db, account, e);
            && (r.Created? <==> e in db.entries && MayUseEntry(db, account, db.entries[e]))
            && (!r.Created? ==> after == db)
            && (r.Created? ==>
                  && r.id == db.nextEntry && r.id !in db.entries && after.entries.Keys == db.entries.Keys + {r.id}
                  && (forall x :: x in db.entries ==> after.entries[x] == db.entries[x])
                  && after.entries[r.id].name == db.entries[e].name + " (Copy)"
                  && after.entries[r.id].(name := "") == db.entries[e].(name := "")
                  && forall l :: l in after.links <==> l in db.links || (l.0 == r.id && (e, l.1) in db.links))
  {
    if e in db.entries {
      EntryUse(db, account, e);
    }
    var (after, r) := DuplicateEntry(db, account, e);
    if r.Created? {
      forall l
        ensures l in after.links <==> l in db.links || (l.0 == r.id && (e, l.1) in db.links)
      {
        if l.0 == r.id && (e, l.1) in db.links {
          assert (e, l.1).0 == e;
        }
      }
    }
  }

  /** An edit is accepted exactly when the account may use the entry, the folder it goes to, and the identities it gets. */
  lemma EditEntryAcceptedIff(db: Db, account: Id, e: Id, c: EntryPatch)
    requires WellFormed(db)
    ensures EditEntry(db, account, e, c).1.Success? <==>
              && e in db.entries && MayUseEntry(db, account, db.entries[e])
              && (c.folderId.Value? ==> c.folderId.value in db.folders && MayUse(db, account, db.folders[c.folderId.value]))
              && (c.identities.Some? ==> MayLinkAll(db, account, c.identities.value))
    ensures !EditEntry(db, account, e, c).1.Success? ==> EditEntry(db, account, e, c).0 == db
  {
    if e in db.entries {
      EntryUse(db, account, e);
      var org := if c.folderId.Value? && c.folderId.value in db.folders then db.folders[c.folderId.value].organizationId
                 else db.entries[e].organizationId;
      if c.identities.Some? && (org.Some? ==> (account, org.value) in db.active) {
        LinksAllowed(db, account, c.identities.value, org);
      }
    }
  }

  /** The row and the links that an accepted edit leaves: only links that the account may use are replaced. */
  lemma EditedEntryIs(db: Db, account: Id, e: Id, c: EntryPatch)
    requires EditEntry(db, account, e, c).1.Success?
    ensures var after, was := EditEntry(db, account, e, c).0, db.entries[e];
            var org := if c.folderId.Value? then db.folders[c.folderId.value].organizationId else was.organizationId;
            && after.entries == db.entries[e := Entry(
                 if c.name.Some? then c.name.value else was.name,
                 if c.folderId.Value? then (if org.Some? then None else Some(account)) else was.accountId,
                 org,
                 match c.folderId case Absent => was.folderId case Null => None case Value(f) => Some(f),
                 was.position)]
            && after.folders == db.folders && after.sessions == db.sessions
            && forall l :: l in after.links <==>
                 if l.0 == e && c.identities.Some? then l.1 in c.identities.value || (l in db.links && !MayLink(db, account, l.1))
                 else l in db.links
  {
  }

  // ---------------------------------------------------------------- repositioning

  /** The folder that the request leads to. */
  function FolderAsked(entry: Entry, c: Placement): Option<Id> {
    match c.folderId case Absent => entry.folderId case Null => None case Value(f) => Some(f)
  }

  function PlaceAsked(db: Db, account: Id, entry: Entry, c: Placement): (Option<Id>, Option<Id>, Option<Id>) {
    var f := FolderAsked(entry, c);
    var org := if f.Some? && f.value in db.folders then db.folders[f.value].organizationId
               else if c.organizationId.Value? then Some(c.organizationId.value) else None;
    (f, org, if org.Some? then None else Some(account))
  }

  predicate SitsAt(entry: Entry, place: (Option<Id>, Option<Id>, Option<Id>)) {
    (entry.folderId, entry.organizationId, entry.accountId) == place
  }

  /** The account may put entries there. */
  predicate MayPlace(db: Db, account: Id, entry: Entry, c: Placement) {
    && (c.folderId.Value? ==> c.folderId.value in db.folders && MayUse(db, account, db.folders[c.folderId.value]))
    && (FolderAsked(entry, c).None? && c.organizationId.Value? ==> (account, c.organizationId.value) in db.active)
  }

  lemma ScopeIs(db: Db, account: Id, e: Id, c: Placement)
    requires WellFormed(db) && e in db.entries
    ensures var s, place := TargetScope(db, account, db.entries[e], c), PlaceAsked(db, account, db.entries[e], c);
            && (s.Scope? <==> MayPlace(db, account, db.entries[e], c))
            && (s.Scope? ==> s == Scope(place.0, place.1, place.2))
  {
  }

  lemma TargetListed(db: Db, e: Id, c: Placement, rows: seq<Id>, s: Scope)
    requires s.Scope? && Enumerates(rows, InScope(db, s))
    ensures NewOrder(rows, e, c).Some? <==>
              c.targetId.Some? ==> c.targetId.value != e && c.targetId.value in InScope(db, s)
  {
    WithoutDistinct(rows, e);
  }

  /**
   A reposition is accepted exactly when the account may use the entry and the place it asks for, and the target
   is another entry of that place; the entry then sits there.
   */
  lemma RepositionAcceptedIff(db: Db, account: Id, e: Id, c: Placement, rows: seq<Id>)
    requires WellFormed(db) && ValidRows(db, account, e, c, rows)
    ensures RepositionEntry(db, account, e, c, rows).1.Success? <==>
              && e in db.entries && MayUseEntry(db, account, db.entries[e]) && MayPlace(db, account, db.entries[e], c)
              && (c.targetId.Some? ==>
                    && c.targetId.value != e && c.targetId.value in db.entries
                    && SitsAt(db.entries[c.targetId.value], PlaceAsked(db, account, db.entries[e], c)))
    ensures !RepositionEntry(db, account, e, c, rows).1.Success? ==> RepositionEntry(db, account, e, c, rows).0 == db
    ensures RepositionEntry(db, account, e, c, rows).1.Success? ==>
              var after := RepositionEntry(db, account, e, c, rows).0;
              && after.entries.Keys == db.entries.Keys
              && SitsAt(after.entries[e], PlaceAsked(db, account, db.entries[e], c))
              && after.entries[e].name == db.entries[e].name
              && forall x :: x in db.entries && x != e ==> after.entries[x].(position := 0) == db.entries[x].(position := 0)
  {
    if e in db.entries {
      EntryUse(db, account, e);
      ScopeIs(db, account, e, c);
      var s := TargetScope(db, account, db.entries[e], c);
      if s.Scope? {
        TargetListed(db, e, c, rows, s);
        if NewOrder(rows, e, c).Some? {
          NewOrderDistinct(rows, e, c);
        }
      }
    }
  }
}
