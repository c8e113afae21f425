/**
 The `folders`, `entries` and `entries_identities` tables, and what each operation of
 server/controllers/folder.js and server/controllers/entry.js does to them.

 The functions here say what the final tables are; class `Tables` (DirectoryTables.dfy) reaches
 them row by row, with the loops and recursions of the source.
 */
module Directory {
  import opened Wrappers
  import opened Forest
  import opened Lists

  datatype Folder = Folder(name: string, accountId: Option<Id>, organizationId: Option<Id>, parentId: Option<Id>)

  datatype Entry = Entry(name: string, accountId: Option<Id>, organizationId: Option<Id>, folderId: Option<Id>,
                         position: int)

  datatype Identity = Identity(accountId: Option<Id>, organizationId: Option<Id>)

  datatype Db = Db(
    folders: map<Id, Folder>,
    entries: map<Id, Entry>,
    identities: map<Id, Identity>,
    links: set<(Id, Id)>,       // (entryId, identityId)
    active: set<(Id, Id)>,      // (accountId, organizationId) of the active memberships
    organizations: set<Id>,
    sessions: map<Id, Id>,      // live session -> entryId
    nextFolder: Id,             // ids are handed out in ascending order and never again
    nextEntry: Id)

  /** A property of a JSON request body: missing, null, or present. */
  datatype Field<+T> = Absent | Null | Value(value: T)

  datatype Response = Success | Created(id: Id) | Failure(code: nat)

  // ---------------------------------------------------------------- access

  predicate HasAccess(db: Db, account: Id, organization: Id) {
    (account, organization) in db.active
  }

  /** The check before a folder is edited or deleted. */
  predicate FolderAllowed(db: Db, account: Id, folder: Folder) {
    if folder.accountId.Some? && folder.accountId != Some(account) then false
    else if folder.organizationId.Some? then HasAccess(db, account, folder.organizationId.value)
    else true
  }

  /** `validateFolderAccess` */
  function FolderAccess(db: Db, account: Id, id: Id): Response {
    if id !in db.folders then Failure(404)
    else
      var folder := db.folders[id];
      if folder.organizationId.Some?
      then if HasAccess(db, account, folder.organizationId.value) then Success else Failure(403)
      else if folder.accountId == Some(account) then Success else Failure(403)
  }

  /** `validateEntryAccess` on a row that exists: an existing folder decides, else the row itself. */
  predicate EntryAllowed(db: Db, account: Id, entry: Entry) {
    var (organizationId, ownerId) :=
      if entry.folderId.Some? && entry.folderId.value in db.folders
      then (db.folders[entry.folderId.value].organizationId, db.folders[entry.folderId.value].accountId)
      else (entry.organizationId, entry.accountId);
    if organizationId.Some? then HasAccess(db, account, organizationId.value) else ownerId == Some(account)
  }

  predicate IdentityAccessible(db: Db, account: Id, id: Id) {
    && id in db.identities
    && if db.identities[id].organizationId.None? then db.identities[id].accountId == Some(account)
       else HasAccess(db, account, db.identities[id].organizationId.value)
  }

  /** `validateIdentities` */
  predicate IdentitiesAllowed(db: Db, account: Id, ids: seq<Id>, organizationId: Option<Id>) {
    ids == [] ||
    ((forall i :: i in ids ==> IdentityAccessible(db, account, i))
     && (organizationId.Some? ==> HasAccess(db, account, organizationId.value)))
  }

  // ---------------------------------------------------------------- folders

  function ParentsOf(folders: map<Id, Folder>): Parents<Id> {
    map id | id in folders :: folders[id].parentId
  }

  function EntriesIn(db: Db, folderIds: set<Id>): set<Id> {
    set e | e in db.entries && db.entries[e].folderId.Some? && db.entries[e].folderId.value in folderIds
  }

  function WithoutIdentitiesOf(db: Db, links: set<(Id, Id)>, entryIds: set<Id>, organizationId: Option<Id>): set<(Id, Id)> {
    set l | l in links
            && !(l.0 in entryIds && l.1 in db.identities && db.identities[l.1].organizationId == organizationId)
  }

  function WithoutSessionsOn(sessions: map<Id, Id>, entryIds: set<Id>): map<Id, Id> {
    map s | s in sessions && sessions[s] !in entryIds :: sessions[s]
  }

  function OwnFolders(folders: map<Id, Folder>, ids: set<Id>, organizationId: Option<Id>, accountId: Option<Id>): map<Id, Folder> {
    map id | id in folders ::
      if id in ids then folders[id].(organizationId := organizationId, accountId := accountId) else folders[id]
  }

  function OwnEntries(entries: map<Id, Entry>, ids: set<Id>, organizationId: Option<Id>, accountId: Option<Id>): map<Id, Entry> {
    map e | e in entries ::
      if e in ids then entries[e].(organizationId := organizationId, accountId := accountId) else entries[e]
  }

  /** What `updateFolderContext` does, when started on a folder whose subtree is `ids`. */
  function Reowned(db: Db, ids: set<Id>, organizationId: Option<Id>, accountId: Option<Id>,
                   oldOrganizationId: Option<Id>): Db
  {
    var touched := EntriesIn(db, ids);
    var leaves := oldOrganizationId.Some? && oldOrganizationId != organizationId;
    db.(folders := OwnFolders(db.folders, ids, organizationId, accountId),
        entries := OwnEntries(db.entries, touched, organizationId, accountId),
        links := if leaves then WithoutIdentitiesOf(db, db.links, touched, oldOrganizationId) else db.links,
        sessions := if leaves then WithoutSessionsOn(db.sessions, touched) else db.sessions)
  }

  function Removed(db: Db, ids: set<Id>): Db {
    db.(folders := db.folders - ids, entries := db.entries - EntriesIn(db, ids))
  }

  datatype NewFolder = NewFolder(name: string, parentId: Option<Id>, organizationId: Option<Id>)

  function CreateFolderCheck(db: Db, account: Id, c: NewFolder): (r: Response) {
    if c.parentId.Some? && c.organizationId.None? && c.parentId.value !in db.folders then Failure(404)
    else
      var org := FolderOrganization(db, c);
      if org.Some? && !HasAccess(db, account, org.value) then Failure(403)
      else if c.parentId.None? then Success
      else if c.parentId.value !in db.folders then Failure(404)
      else if org.Some? && db.folders[c.parentId.value].organizationId != org then Failure(403)
      else if org.None? && db.folders[c.parentId.value].accountId != Some(account) then Failure(403)
      else Success
  }

  /** The organization asked for, else the parent's. */
  function FolderOrganization(db: Db, c: NewFolder): Option<Id> {
    if c.parentId.Some? && c.organizationId.None? && c.parentId.value in db.folders
    then db.folders[c.parentId.value].organizationId
    else c.organizationId
  }

  function CreateFolder(db: Db, account: Id, c: NewFolder): (Db, Response) {
    var check := CreateFolderCheck(db, account, c);
    if check.Failure? then (db, check)
    else
      var org := FolderOrganization(db, c);
      var row := Folder(c.name, if org.Some? then None else Some(account), org, c.parentId);
      (db.(folders := db.folders[db.nextFolder := row], nextFolder := db.nextFolder + 1), Created(db.nextFolder))
  }

  datatype FolderPatch = FolderPatch(name: Option<string>, parentId: Field<Id>, organizationId: Field<Id>)

  /** Whether an edit is refused, keeps the owner, or re-owns the whole subtree. */
  datatype Verdict = Refuse(code: nat) | Keep | Reown(organizationId: Option<Id>, accountId: Option<Id>)

  function TargetCheck(db: Db, account: Id, folder: Folder, target: Folder): Response {
    if folder.organizationId.Some? && target.organizationId.None?
       && !HasAccess(db, account, folder.organizationId.value) then Failure(403)
    else if target.organizationId.Some? && folder.organizationId.None?
            && !HasAccess(db, account, target.organizationId.value) then Failure(403)
    else if folder.organizationId.Some? && target.organizationId.Some? && folder.organizationId != target.organizationId
    then
      if HasAccess(db, account, folder.organizationId.value) && HasAccess(db, account, target.organizationId.value)
      then Success else Failure(403)
    else if folder.organizationId.None? && target.organizationId.None? && target.accountId != Some(account)
    then Failure(403)
    else Success
  }

  function ReownUnlessSame(folder: Folder, organizationId: Option<Id>, account: Id): Verdict {
    if folder.organizationId == organizationId then Keep
    else Reown(organizationId, if organizationId.Some? then None else Some(account))
  }

  ghost function EditVerdict(db: Db, account: Id, id: Id, c: FolderPatch): Verdict
    requires id in db.folders
  {
    var folder := db.folders[id];
    match c.parentId
    case Absent => Keep
    case Null =>
      if c.organizationId.Value? then
        if !HasAccess(db, account, c.organizationId.value) then Refuse(403)
        else ReownUnlessSame(folder, Some(c.organizationId.value), account)
      else ReownUnlessSame(folder, None, account)
    case Value(t) =>
      if t !in db.folders then Refuse(404)
      else
        var check := TargetCheck(db, account, folder, db.folders[t]);
        if check.Failure? then Refuse(check.code)
        else if Below(ParentsOf(db.folders), id, t) then Refuse(400)
        else ReownUnlessSame(folder, db.folders[t].organizationId, account)
  }

  function PatchFolder(folder: Folder, c: FolderPatch): Folder {
    folder.(
      name := if c.name.Some? then c.name.value else folder.name,
      parentId := match c.parentId case Absent => folder.parentId case Null => None case Value(t) => Some(t))
  }

  ghost function EditFolder(db: Db, account: Id, id: Id, c: FolderPatch): (Db, Response) {
    if id !in db.folders then (db, Failure(404))
    else if !FolderAllowed(db, account, db.folders[id]) then (db, Failure(403))
    else
      var v := EditVerdict(db, account, id, c);
      if v.Refuse? then (db, Failure(v.code))
      else
        var moved :=
          if v.Keep? then db
          else Reowned(db, Subtree(ParentsOf(db.folders), id), v.organizationId, v.accountId,
                       db.folders[id].organizationId);
        (moved.(folders := moved.folders[id := PatchFolder(moved.folders[id], c)]), Success)
  }

  /** The rows a recursive delete may pass through: a refused subfolder is skipped with all below it. */
  function Deletable(db: Db, account: Id): Parents<Id> {
    map id | id in db.folders && FolderAllowed(db, account, db.folders[id]) :: db.folders[id].parentId
  }

  ghost function DeleteFolder(db: Db, account: Id, id: Id): (Db, Response) {
    if id !in db.folders then (db, Failure(404))
    else if !FolderAllowed(db, account, db.folders[id]) then (db, Failure(403))
    else (Removed(db, Subtree(Deletable(db, account), id)), Success)
  }

  // ---------------------------------------------------------------- entries

  datatype NewEntry = NewEntry(name: string, folderId: Option<Id>, organizationId: Option<Id>, position: int,
                               identities: seq<Id>)

  function CreateEntry(db: Db, account: Id, c: NewEntry): (Db, Response) {
    var check := if c.folderId.Some? then FolderAccess(db, account, c.folderId.value) else Success;
    if check.Failure? then (db, check)
    else
      var org := if c.folderId.Some? then db.folders[c.folderId.value].organizationId else c.organizationId;
      if c.folderId.None? && org.Some? && !HasAccess(db, account, org.value) then (db, Failure(403))
      else if !IdentitiesAllowed(db, account, c.identities, org) then (db, Failure(403))
      else
        var e := db.nextEntry;
        var row := Entry(c.name, if org.Some? then None else Some(account), org, c.folderId, c.position);
        (db.(entries := db.entries[e := row], nextEntry := e + 1,
             links := db.links + (set i | i in c.identities :: (e, i))),
         Created(e))
  }

  function DeleteEntry(db: Db, account: Id, e: Id): (Db, Response) {
    if e !in db.entries then (db, Failure(404))
    else if !EntryAllowed(db, account, db.entries[e]) then (db, Failure(403))
    else (db.(entries := db.entries - {e}), Success)
  }

  function DuplicateEntry(db: Db, account: Id, e: Id): (Db, Response) {
    if e !in db.entries then (db, Failure(404))
    else if !EntryAllowed(db, account, db.entries[e]) then (db, Failure(403))
    else
      var copy := db.nextEntry;
      (db.(entries := db.entries[copy := db.entries[e].(name := db.entries[e].name + " (Copy)")],
           nextEntry := copy + 1,
           links := db.links + (set l | l in db.links && l.0 == e :: (copy, l.1))),
       Created(copy))
  }

  datatype EntryPatch = EntryPatch(name: Option<string>, folderId: Field<Id>, identities: Option<seq<Id>>)

  function EditEntry(db: Db, account: Id, e: Id, c: EntryPatch): (Db, Response) {
    if e !in db.entries then (db, Failure(404))
    else if !EntryAllowed(db, account, db.entries[e]) then (db, Failure(403))
    else
      var check := if c.folderId.Value? then FolderAccess(db, account, c.folderId.value) else Success;
      if check.Failure? then (db, check)
      else
        var entry := db.entries[e];
        var (org, owner) :=
          if c.folderId.Value?
          then
            var o := db.folders[c.folderId.value].organizationId;
            (o, if o.Some? then None else Some(account))
          else (entry.organizationId, entry.accountId);
        if c.identities.Some? && !IdentitiesAllowed(db, account, c.identities.value, org) then (db, Failure(403))
        else
          var row := entry.(
            name := if c.name.Some? then c.name.value else entry.name,
            folderId := (match c.folderId case Absent => entry.folderId case Null => None case Value(f) => Some(f)),
            organizationId := org, accountId := owner);
          var links :=
            if c.identities.None? then db.links
            else (set l | l in db.links && !(l.0 == e && IdentityAccessible(db, account, l.1)))
                 + (set i | i in c.identities.value :: (e, i));
          (db.(entries := db.entries[e := row], links := links), Success)
  }

  datatype Placement = Placement(targetId: Option<Id>, after: bool, folderId: Field<Id>, organizationId: Field<Id>)

  /** Where a repositioned entry goes: folder, organization and account, or a refusal. */
  datatype Scope = Scope(folderId: Option<Id>, organizationId: Option<Id>, accountId: Option<Id>) | Refused(code: nat)

  function TargetScope(db: Db, account: Id, entry: Entry, c: Placement): Scope {
    var check := if c.folderId.Value? then FolderAccess(db, account, c.folderId.value) else Success;
    if check.Failure? then Refused(check.code)
    else
      var folderId :=
        match c.folderId case Absent => entry.folderId case Null => None case Value(f) => Some(f);
      var asked := if c.organizationId.Value? then Some(c.organizationId.value) else None;
      if folderId.Some? then
        if folderId.value in db.folders then
          var org := db.folders[folderId.value].organizationId;
          Scope(folderId, org, if org.Some? then None else Some(account))
        else Scope(folderId, asked, Some(account))
      else if asked.Some? then
        if HasAccess(db, account, asked.value) then Scope(None, asked, None) else Refused(403)
      else Scope(None, None, Some(account))
  }

  function InScope(db: Db, s: Scope): set<Id>
    requires s.Scope?
  {
    set e | e in db.entries && db.entries[e].folderId == s.folderId
            && db.entries[e].organizationId == s.organizationId && db.entries[e].accountId == s.accountId
  }

  function Positions(db: Db): map<Id, int> {
    map e | e in db.entries :: db.entries[e].position
  }

  /** The new order of the scope, when the query listed it as `rows`; `None` when the target is not in it. */
  function NewOrder(rows: seq<Id>, e: Id, c: Placement): Option<seq<Id>> {
    var others := Without(rows, e);
    if c.targetId.None? then Some(InsertAt(others, |others|, e))
    else if c.targetId.value !in others then None
    else Some(InsertAt(others, IndexOf(others, c.targetId.value) + (if c.after then 1 else 0), e))
  }

  /** Rows of `order` get their index as position; the moved row also gets the scope's owner. */
  function Placed(entries: map<Id, Entry>, order: seq<Id>, e: Id, s: Scope): map<Id, Entry>
    requires s.Scope? && Distinct(order)
  {
    map x | x in entries ::
      if x in order then
        var moved := entries[x].(position := IndexOf(order, x), folderId := s.folderId);
        if x == e then moved.(organizationId := s.organizationId, accountId := s.accountId) else moved
      else entries[x]
  }

  predicate ValidRows(db: Db, account: Id, e: Id, c: Placement, rows: seq<Id>) {
    e in db.entries ==>
      var s := TargetScope(db, account, db.entries[e], c);
      s.Scope? ==> Enumerates(rows, InScope(db, s)) && SortedBy(rows, Positions(db))
  }

  /** `rows` is the answer of the ordered query over the target scope. */
  function RepositionEntry(db: Db, account: Id, e: Id, c: Placement, rows: seq<Id>): (Db, Response)
    requires ValidRows(db, account, e, c, rows)
  {
    if e !in db.entries then (db, Failure(404))
    else if !EntryAllowed(db, account, db.entries[e]) then (db, Failure(403))
    else
      var s := TargetScope(db, account, db.entries[e], c);
      if s.Refused? then (db, Failure(s.code))
      else
        var order := NewOrder(rows, e, c);
        if order.None? then (db, Failure(404))
        else
          NewOrderDistinct(rows, e, c);
          var leaves := db.entries[e].organizationId != s.organizationId;
          (db.(entries := Placed(db.entries, order.value, e, s),
               links := if leaves then WithoutIdentitiesOf(db, db.links, {e}, db.entries[e].organizationId) else db.links,
               sessions := if leaves then WithoutSessionsOn(db.sessions, {e}) else db.sessions),
           Success)
  }

  lemma NewOrderDistinct(rows: seq<Id>, e: Id, c: Placement)
    requires Distinct(rows) && NewOrder(rows, e, c).Some?
    ensures Distinct(NewOrder(rows, e, c).value)
    ensures forall x :: x in NewOrder(rows, e, c).value <==> x in rows || x == e
  {
    WithoutDistinct(rows, e);
    var others := Without(rows, e);
    var at := if c.targetId.None? then |others| else IndexOf(others, c.targetId.value) + (if c.after then 1 else 0);
    InsertDistinct(others, at, e);
  }
}
