/** Who is shown what, and where, read off the memberships, the owners and the parents. */
module ListingLaws {
  import opened Wrappers
  import opened Forest
  import opened Directory
  import opened DirectoryLaws
  import opened DirectoryAccess
  import opened Lists
  import opened Listing

  /**
   An account is shown exactly the folders and entries that it may use, and the organizations in which it is an
   active member.
   */
  lemma ShownIff(db: Db, account: Id, id: Id)
    requires WellFormed(db)
    ensures FolderNode(id) in FullTree(db, account) <==> id in db.folders && MayUse(db, account, db.folders[id])
    ensures EntryNode(id) in FullTree(db, account) <==> id in db.entries && MayUseEntry(db, account, db.entries[id])
    ensures OrgNode(id) in FullTree(db, account) <==> id in db.organizations && (account, id) in db.active
  {
    if id in db.entries {
      EntryUse(db, account, id);
    }
  }

  /** A folder hangs under its parent if the account may use that, else under its organization, else at the top. */
  lemma FolderHangs(db: Db, account: Id, f: Id)
    requires WellFormed(db) && f in db.folders && MayUse(db, account, db.folders[f])
    ensures FolderNode(f) in FullTree(db, account)
    ensures var place, folder := FullTree(db, account)[FolderNode(f)], db.folders[f];
            var under := folder.parentId.Some? && folder.parentId.value in db.folders
                         && MayUse(db, account, db.folders[folder.parentId.value]);
            && (place == (if under then Some(FolderNode(folder.parentId.value))
                          else if folder.organizationId.Some? then Some(OrgNode(folder.organizationId.value)) else None))
            && (under ==> place.value in FullTree(db, account))
  {
    ShownIff(db, account, f);
    if db.folders[f].parentId.Some? {
      ShownIff(db, account, db.folders[f].parentId.value);
    }
  }

  /** An entry hangs in its folder, which is shown too, else under its organization, else at the top. */
  lemma EntryHangs(db: Db, account: Id, e: Id)
    requires WellFormed(db) && e in db.entries && MayUseEntry(db, account, db.entries[e])
    ensures EntryNode(e) in FullTree(db, account)
    ensures var place, entry := FullTree(db, account)[EntryNode(e)], db.entries[e];
            && (place == (if entry.folderId.Some? then Some(FolderNode(entry.folderId.value))
                          else if entry.organizationId.Some? then Some(OrgNode(entry.organizationId.value)) else None))
            && (entry.folderId.Some? ==> place.value in FullTree(db, account))
  {
    ShownIff(db, account, e);
    if db.entries[e].folderId.Some? {
      ShownIff(db, account, db.entries[e].folderId.value);
    }
  }
}
