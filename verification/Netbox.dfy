/**
 Reconciling an integration's hosts with a NetBox inventory (server/utils/netboxSyncService.js): hosts
 are matched by external id, and large unapproved removals are held back for review.
 */
module Netbox {
  import opened Wrappers
  import opened Lists

  /** A host of the filtered inventory; `details` stands for the columns computed from it. */
  datatype Item = Item(externalId: string, name: string, details: string)

  /** The integration being synced, and the account that syncs it. */
  datatype Job = Job(integration: Id, organizationId: Option<Id>, folderId: Option<Id>, accountId: Id)

  /** `position` and `osName` are columns a sync leaves alone. */
  datatype Entry = Entry(
    name: string, details: string, accountId: Option<Id>, organizationId: Option<Id>, folderId: Option<Id>,
    integrationId: Option<Id>, managedBy: Option<string>, externalId: Option<string>, managedDisabled: bool,
    position: int, osName: Option<string>)

  datatype Status = Fine | Held

  /** `notices` lists the integrations for which a held removal was announced. */
  datatype Db = Db(entries: map<Id, Entry>, next: Id, status: map<Id, Status>, notices: seq<Id>)

  datatype Report = Report(held: bool, pendingRemovals: nat, created: nat, updated: nat, deleted: nat)

  datatype Preview = Preview(create: seq<string>, update: seq<string>, remove: seq<string>, needsReview: bool)

  const REMOVAL_LIMIT := 5

  /** `removals > managed * 0.1`, without the floating point. */
  predicate NeedsReview(removals: nat, managed: nat) {
    removals > 0 && (removals == managed || (removals > REMOVAL_LIMIT && 10 * removals > managed))
  }

  predicate Valid(db: Db) {
    forall id :: id in db.entries ==> id < db.next
  }

  predicate IsManaged(e: Entry, integration: Id) {
    e.integrationId == Some(integration) && e.managedBy == Some("netbox") && e.externalId != None
  }

  function Managed(entries: map<Id, Entry>, integration: Id): set<Id> {
    set id | id in entries && IsManaged(entries[id], integration)
  }

  function ExternalIds(entries: map<Id, Entry>, integration: Id): set<string> {
    set id | id in Managed(entries, integration) :: entries[id].externalId.value
  }

  function Matched(items: seq<Item>): set<string> {
    set item | item in items :: item.externalId
  }

  /** Managed hosts that the inventory no longer lists. */
  function Removals(entries: map<Id, Entry>, integration: Id, items: seq<Item>): set<Id> {
    set id | id in Managed(entries, integration) && entries[id].externalId.value !in Matched(items)
  }

  /** The columns a sync writes. */
  function Written(job: Job, item: Item, position: int, osName: Option<string>): Entry {
    Entry(item.name, item.details,
          if job.organizationId != None then None else Some(job.accountId), job.organizationId, job.folderId,
          Some(job.integration), Some("netbox"), Some(item.externalId), false, position, osName)
  }

  /**
   A lookup table from external ids to rows. Of several rows with one external id it holds any one: the
   one the database happened to return last.
   */
  predicate Indexes(index: map<string, Id>, entries: map<Id, Entry>, integration: Id) {
    && index.Keys == ExternalIds(entries, integration)
    && forall e :: e in index ==> index[e] in Managed(entries, integration) && entries[index[e]].externalId == Some(e)
  }

  function WriteItem(db: Db, job: Job, index: map<string, Id>, item: Item): Db {
    if item.externalId in index then
      var id := index[item.externalId];
      if id in db.entries
      then db.(entries := db.entries[id := Written(job, item, db.entries[id].position, db.entries[id].osName)])
      else db
    else
      db.(entries := db.entries[db.next := Written(job, item, 0, None)], next := db.next + 1)
  }

  function WriteItems(db: Db, job: Job, index: map<string, Id>, items: seq<Item>): Db
    decreases |items|
  {
    if items == [] then db
    else WriteItem(WriteItems(db, job, index, items[..|items| - 1]), job, index, items[|items| - 1])
  }

  /** The items without a row yet, in inventory order. */
  function News(index: map<string, Id>, items: seq<Item>): (r: seq<Item>)
    ensures |r| <= |items|
    ensures forall x :: x in r <==> x in items && x.externalId !in index
    decreases |items|
  {
    if items == [] then []
    else
      var last := items[|items| - 1];
      assert items == items[..|items| - 1] + [last];
      News(index, items[..|items| - 1]) + if last.externalId in index then [] else [last]
  }

  predicate IsHeld(entries: map<Id, Entry>, integration: Id, items: seq<Item>, allowRemovals: bool) {
    && !allowRemovals
    && NeedsReview(|Removals(entries, integration, items)|, |Managed(entries, integration)|)
  }

  function Sync(db: Db, job: Job, index: map<string, Id>, items: seq<Item>, allowRemovals: bool): (Db, Report) {
    var gone := Removals(db.entries, job.integration, items);
    var held := IsHeld(db.entries, job.integration, items, allowRemovals);
    var created := |News(index, items)|;
    var mid := WriteItems(db, job, index, items);
    var first := held && !(job.integration in db.status && db.status[job.integration] == Held);
    (mid.(entries := if held then mid.entries else mid.entries - gone,
          status := mid.status[job.integration := if held then Held else Fine],
          notices := if first then mid.notices + [job.integration] else mid.notices),
     Report(held, if held then |gone| else 0, created, |items| - created, if held then 0 else |gone|))
  }

  // ---------------------------------------------------------------- what writing the items does

  function LastItem(items: seq<Item>, externalId: string): (r: Option<Item>)
    ensures r == None <==> externalId !in Matched(items)
    ensures r != None ==> r.value in items && r.value.externalId == externalId
    decreases |items|
  {
    if items == [] then None
    else
      var last := items[|items| - 1];
      assert items == items[..|items| - 1] + [last];
      if last.externalId == externalId then Some(last) else LastItem(items[..|items| - 1], externalId)
  }

  /** A row after the sync wrote its items: rewritten from the last item that names it, or unchanged. */
  function Rewritten(id: Id, e: Entry, job: Job, index: map<string, Id>, items: seq<Item>): Entry {
    if e.externalId != None && e.externalId.value in index && index[e.externalId.value] == id
       && LastItem(items, e.externalId.value) != None
    then Written(job, LastItem(items, e.externalId.value).value, e.position, e.osName)
    else e
  }

  predicate NewRows(db: Db, job: Job, news: seq<Item>, out: Db) {
    && out.next == db.next + |news|
    && forall id :: db.next <= id < db.next + |news| ==>
         id in out.entries && out.entries[id] == Written(job, news[id - db.next], 0, None)
  }

  predicate OldRows(db: Db, job: Job, index: map<string, Id>, items: seq<Item>, out: Db) {
    && (forall id :: id in out.entries ==> id < out.next && (id < db.next ==> id in db.entries))
    && (forall id :: id in db.entries ==> id in out.entries && out.entries[id] == Rewritten(id, db.entries[id], job, index, items))
  }

  lemma {:induction false} WriteItemsIs(db: Db, job: Job, index: map<string, Id>, items: seq<Item>)
    requires Valid(db) && Indexes(index, db.entries, job.integration)
    ensures var out := WriteItems(db, job, index, items);
            && NewRows(db, job, News(index, items), out)
            && OldRows(db, job, index, items, out)
            && out.status == db.status && out.notices == db.notices
    decreases |items|
  {
    if items != [] {
      var front, last := items[..|items| - 1], items[|items| - 1];
      WriteItemsIs(db, job, index, front);
      if last.externalId in index {
        WriteKnownItem(db, job, index, items, WriteItems(db, job, index, front));
      } else {
        WriteNewItem(db, job, index, items, WriteItems(db, job, index, front));
      }
    }
  }

  lemma WriteKnownItem(db: Db, job: Job, index: map<string, Id>, items: seq<Item>, mid: Db)
    requires Valid(db) && Indexes(index, db.entries, job.integration) && items != []
    requires items[|items| - 1].externalId in index
    requires NewRows(db, job, News(index, items[..|items| - 1]), mid)
    requires OldRows(db, job, index, items[..|items| - 1], mid)
    ensures var out := WriteItem(mid, job, index, items[|items| - 1]);
            NewRows(db, job, News(index, items), out) && OldRows(db, job, index, items, out)
  {
    var front, last := items[..|items| - 1], items[|items| - 1];
    var row := index[last.externalId];
    assert row in db.entries && row in mid.entries;
    assert News(index, items) == News(index, front);
    UpdateKeepsNewRows(db, job, News(index, front), mid, row,
                       Written(job, last, mid.entries[row].position, mid.entries[row].osName));
    UpdateStep(db, job, index, items, mid);
  }

  lemma WriteNewItem(db: Db, job: Job, index: map<string, Id>, items: seq<Item>, mid: Db)
    requires Valid(db) && items != []
    requires items[|items| - 1].externalId !in index
    requires NewRows(db, job, News(index, items[..|items| - 1]), mid)
    requires OldRows(db, job, index, items[..|items| - 1], mid)
    ensures var out := WriteItem(mid, job, index, items[|items| - 1]);
            NewRows(db, job, News(index, items), out) && OldRows(db, job, index, items, out)
  {
    var front, last := items[..|items| - 1], items[|items| - 1];
    assert News(index, items) == News(index, front) + [last];
    CreateAddsNewRow(db, job, News(index, front), mid, last);
    CreateStep(db, job, index, items, mid);
  }

  lemma RewrittenStep(id: Id, e: Entry, job: Job, index: map<string, Id>, items: seq<Item>)
    requires items != []
    ensures var front, last := items[..|items| - 1], items[|items| - 1];
            Rewritten(id, e, job, index, items) ==
            if e.externalId == Some(last.externalId) && last.externalId in index && index[last.externalId] == id
            then Written(job, last, e.position, e.osName) else Rewritten(id, e, job, index, front)
  {
  }

  lemma UpdateKeepsNewRows(db: Db, job: Job, news: seq<Item>, mid: Db, row: Id, e: Entry)
    requires NewRows(db, job, news, mid) && row < db.next
    ensures NewRows(db, job, news, mid.(entries := mid.entries[row := e]))
  {
  }

  lemma UpdateStep(db: Db, job: Job, index: map<string, Id>, items: seq<Item>, mid: Db)
    requires Valid(db) && Indexes(index, db.entries, job.integration)
    requires items != [] && items[|items| - 1].externalId in index
    requires OldRows(db, job, index, items[..|items| - 1], mid)
    ensures OldRows(db, job, index, items, WriteItem(mid, job, index, items[|items| - 1]))
  {
    var last := items[|items| - 1];
    var row, out := index[last.externalId], WriteItem(mid, job, index, last);
    assert row in db.entries && row in mid.entries;
    forall id | id in db.entries
      ensures id in out.entries && out.entries[id] == Rewritten(id, db.entries[id], job, index, items)
    {
      RewrittenStep(id, db.entries[id], job, index, items);
      if id == row {
        assert db.entries[id].externalId == Some(last.externalId);
        assert mid.entries[id].position == db.entries[id].position && mid.entries[id].osName == db.entries[id].osName;
      } else {
        assert out.entries[id] == mid.entries[id];
      }
    }
  }

  lemma CreateStep(db: Db, job: Job, index: map<string, Id>, items: seq<Item>, mid: Db)
    requires Valid(db) && db.next <= mid.next
    requires items != [] && items[|items| - 1].externalId !in index
    requires OldRows(db, job, index, items[..|items| - 1], mid)
    ensures OldRows(db, job, index, items, WriteItem(mid, job, index, items[|items| - 1]))
  {
    var out := WriteItem(mid, job, index, items[|items| - 1]);
    forall id | id in db.entries
      ensures id in out.entries && out.entries[id] == Rewritten(id, db.entries[id], job, index, items)
    {
      RewrittenStep(id, db.entries[id], job, index, items);
      assert out.entries[id] == mid.entries[id];
    }
  }

  lemma CreateAddsNewRow(db: Db, job: Job, news: seq<Item>, mid: Db, item: Item)
    requires NewRows(db, job, news, mid)
    ensures NewRows(db, job, news + [item],
                    mid.(entries := mid.entries[mid.next := Written(job, item, 0, None)], next := mid.next + 1))
  {
  }

  // ---------------------------------------------------------------- the managed set

  function Fresh(next: Id, n: nat): (r: set<Id>)
    ensures |r| == n
    ensures forall id :: id in r <==> next <= id < next + n
  {
    if n == 0 then {} else Fresh(next, n - 1) + {next + n - 1}
  }

  /** Rewriting a row leaves it in the managed set, or out of it, under the same external id. */
  predicate SameManaged(db: Db, integration: Id, out: Db) {
    forall id :: id in db.entries ==>
      && id in out.entries
      && IsManaged(out.entries[id], integration) == IsManaged(db.entries[id], integration)
      && out.entries[id].externalId == db.entries[id].externalId
  }

  predicate OnlyFreshAdded(db: Db, integration: Id, items: seq<Item>, out: Db) {
    forall id :: id in out.entries && id !in db.entries ==>
      && db.next <= id < out.next
      && IsManaged(out.entries[id], integration) && out.entries[id].externalId.value in Matched(items)
  }

  lemma WrittenSame(db: Db, job: Job, index: map<string, Id>, items: seq<Item>)
    requires Valid(db) && Indexes(index, db.entries, job.integration)
    ensures SameManaged(db, job.integration, WriteItems(db, job, index, items))
  {
    WriteItemsIs(db, job, index, items);
    var out := WriteItems(db, job, index, items);
    forall id | id in db.entries
      ensures id in out.entries
      ensures IsManaged(out.entries[id], job.integration) == IsManaged(db.entries[id], job.integration)
      ensures out.entries[id].externalId == db.entries[id].externalId
    {
      assert out.entries[id] == Rewritten(id, db.entries[id], job, index, items);
    }
  }

  lemma WrittenFresh(db: Db, job: Job, index: map<string, Id>, items: seq<Item>)
    requires Valid(db) && Indexes(index, db.entries, job.integration)
    ensures var out := WriteItems(db, job, index, items);
            && out.next == db.next + |News(index, items)|
            && (forall id :: db.next <= id < out.next ==> id in out.entries)
            && OnlyFreshAdded(db, job.integration, items, out)
  {
    WriteItemsIs(db, job, index, items);
    var out, news := WriteItems(db, job, index, items), News(index, items);
    forall id | id in out.entries && id !in db.entries
      ensures db.next <= id < out.next
      ensures IsManaged(out.entries[id], job.integration) && out.entries[id].externalId.value in Matched(items)
    {
      assert news[id - db.next] in news;
    }
  }

  lemma ManagedIs(db: Db, integration: Id, items: seq<Item>, out: Db, id: Id)
    requires Valid(db) && SameManaged(db, integration, out) && OnlyFreshAdded(db, integration, items, out)
    requires forall id :: db.next <= id < out.next ==> id in out.entries
    ensures id in Managed(out.entries, integration) <==> id in Managed(db.entries, integration) || db.next <= id < out.next
  {
    if db.next <= id < out.next {
      assert id in out.entries && id !in db.entries;
    }
  }

  lemma ManagedGrows(db: Db, integration: Id, items: seq<Item>, out: Db)
    requires Valid(db) && SameManaged(db, integration, out) && OnlyFreshAdded(db, integration, items, out)
    requires db.next <= out.next && forall id :: db.next <= id < out.next ==> id in out.entries
    ensures Managed(out.entries, integration) == Managed(db.entries, integration) + Fresh(db.next, out.next - db.next)
    ensures |Managed(out.entries, integration)| == |Managed(db.entries, integration)| + (out.next - db.next)
  {
    var a, f, b := Managed(db.entries, integration), Fresh(db.next, out.next - db.next), Managed(out.entries, integration);
    forall id: Id
      ensures id in b <==> id in a || id in f
    {
      ManagedIs(db, integration, items, out, id);
    }
    assert b == a + f;
    assert a !! f;
  }

  lemma SameRemovals(db: Db, integration: Id, items: seq<Item>, out: Db)
    requires SameManaged(db, integration, out) && OnlyFreshAdded(db, integration, items, out)
    ensures Removals(out.entries, integration, items) == Removals(db.entries, integration, items)
  {
    forall id
      ensures id in Removals(out.entries, integration, items) <==> id in Removals(db.entries, integration, items)
    {
    }
  }

  lemma WrittenManaged(db: Db, job: Job, index: map<string, Id>, items: seq<Item>)
    requires Valid(db) && Indexes(index, db.entries, job.integration)
    ensures var out, n := WriteItems(db, job, index, items), |News(index, items)|;
            && Managed(out.entries, job.integration) == Managed(db.entries, job.integration) + Fresh(db.next, n)
            && |Managed(out.entries, job.integration)| == |Managed(db.entries, job.integration)| + n
            && Removals(out.entries, job.integration, items) == Removals(db.entries, job.integration, items)
  {
    WrittenSame(db, job, index, items);
    WrittenFresh(db, job, index, items);
    ManagedGrows(db, job.integration, items, WriteItems(db, job, index, items));
    SameRemovals(db, job.integration, items, WriteItems(db, job, index, items));
  }

  lemma NewItemHasRow(db: Db, job: Job, index: map<string, Id>, items: seq<Item>, item: Item)
    requires Valid(db) && Indexes(index, db.entries, job.integration)
    requires item in items && item.externalId !in index
    ensures item.externalId in ExternalIds(WriteItems(db, job, index, items).entries, job.integration)
  {
    WriteItemsIs(db, job, index, items);
    var out, news := WriteItems(db, job, index, items), News(index, items);
    assert item in news;
    var k :| 0 <= k < |news| && news[k] == item;
    var id := db.next + k;
    assert out.entries[id] == Written(job, news[id - db.next], 0, None);
    assert id in Managed(out.entries, job.integration);
  }

  lemma WrittenExternalIds(db: Db, job: Job, index: map<string, Id>, items: seq<Item>)
    requires Valid(db) && Indexes(index, db.entries, job.integration)
    ensures ExternalIds(WriteItems(db, job, index, items).entries, job.integration)
            == ExternalIds(db.entries, job.integration) + Matched(items)
  {
    var out := WriteItems(db, job, index, items);
    WrittenSame(db, job, index, items);
    WrittenFresh(db, job, index, items);
    var was, now := ExternalIds(db.entries, job.integration), ExternalIds(out.entries, job.integration);
    forall e | e in was
      ensures e in now
    {
      var id :| id in Managed(db.entries, job.integration) && db.entries[id].externalId.value == e;
      assert id in Managed(out.entries, job.integration);
    }
    forall e | e in Matched(items)
      ensures e in now
    {
      var item :| item in items && item.externalId == e;
      if e !in index {
        NewItemHasRow(db, job, index, items, item);
      }
    }
    forall e | e in now
      ensures e in was + Matched(items)
    {
      var id :| id in Managed(out.entries, job.integration) && out.entries[id].externalId.value == e;
      if id in db.entries {
        assert id in Managed(db.entries, job.integration);
      }
    }
  }

  lemma RemovedManaged(entries: map<Id, Entry>, integration: Id, items: seq<Item>)
    ensures var gone := Removals(entries, integration, items);
            && Managed(entries - gone, integration) == Managed(entries, integration) - gone
            && Removals(entries - gone, integration, items) == {}
            && ExternalIds(entries - gone, integration) == ExternalIds(entries, integration) * Matched(items)
  {
    var gone := Removals(entries, integration, items);
    assert Managed(entries - gone, integration) == Managed(entries, integration) - gone;
    forall e | e in ExternalIds(entries, integration) * Matched(items)
      ensures e in ExternalIds(entries - gone, integration)
    {
      var id :| id in Managed(entries, integration) && entries[id].externalId.value == e;
      assert id in Managed(entries - gone, integration);
    }
  }

  lemma RemovalsAreManaged(entries: map<Id, Entry>, integration: Id, items: seq<Item>)
    ensures Removals(entries, integration, items) <= Managed(entries, integration)
    ensures |Removals(entries, integration, items)| <= |Managed(entries, integration)|
    ensures |Managed(entries, integration) - Removals(entries, integration, items)|
            == |Managed(entries, integration)| - |Removals(entries, integration, items)|
  {
    SubsetSize(Removals(entries, integration, items), Managed(entries, integration));
  }

  lemma SubsetSize(a: set<Id>, b: set<Id>)
    requires a <= b
    ensures |a| <= |b| && |b - a| == |b| - |a|
  {
    assert b == a + (b - a);
  }

  // ---------------------------------------------------------------- one sync

  /**
   The hosts an integration manages after a sync are exactly the matched inventory, or, when removals
   are held, that and everything it managed before.
   */
  lemma SyncMatchesInventory(db: Db, job: Job, index: map<string, Id>, items: seq<Item>, allowRemovals: bool)
    requires Valid(db) && Indexes(index, db.entries, job.integration)
    ensures var (out, report) := Sync(db, job, index, items, allowRemovals);
            ExternalIds(out.entries, job.integration)
            == if report.held then ExternalIds(db.entries, job.integration) + Matched(items) else Matched(items)
  {
    var mid := WriteItems(db, job, index, items);
    WrittenExternalIds(db, job, index, items);
    WrittenManaged(db, job, index, items);
    RemovedManaged(mid.entries, job.integration, items);
    var was := ExternalIds(db.entries, job.integration);
    assert (was + Matched(items)) * Matched(items) == Matched(items);
  }

  /** How many hosts it manages afterwards, and which removals are still due. */
  lemma SyncLeaves(db: Db, job: Job, index: map<string, Id>, items: seq<Item>, allowRemovals: bool)
    requires Valid(db) && Indexes(index, db.entries, job.integration)
    ensures var (out, report) := Sync(db, job, index, items, allowRemovals);
            && Valid(out)
            && |Managed(out.entries, job.integration)|
               == |Managed(db.entries, job.integration)| + report.created - report.deleted
            && Removals(out.entries, job.integration, items)
               == (if report.held then Removals(db.entries, job.integration, items) else {})
            && report.pendingRemovals == |Removals(out.entries, job.integration, items)|
  {
    var mid := WriteItems(db, job, index, items);
    WriteItemsIs(db, job, index, items);
    WrittenManaged(db, job, index, items);
    RemovedManaged(mid.entries, job.integration, items);
    RemovalsAreManaged(mid.entries, job.integration, items);
  }

  /** The rows of a sync's outcome: what was written, less what was removed. */
  lemma SyncRow(db: Db, job: Job, index: map<string, Id>, items: seq<Item>, allowRemovals: bool, id: Id)
    requires Valid(db) && Indexes(index, db.entries, job.integration) && id in db.entries
    ensures var (out, report) := Sync(db, job, index, items, allowRemovals);
            && (id in out.entries <==> report.held || id !in Removals(db.entries, job.integration, items))
            && (id in out.entries ==> out.entries[id] == Rewritten(id, db.entries[id], job, index, items))
  {
    WriteItemsIs(db, job, index, items);
    var mid := WriteItems(db, job, index, items);
    assert id in mid.entries && mid.entries[id] == Rewritten(id, db.entries[id], job, index, items);
  }

  lemma RewrittenKeeps(id: Id, e: Entry, job: Job, index: map<string, Id>, items: seq<Item>)
    ensures var r := Rewritten(id, e, job, index, items);
            && r.position == e.position && r.osName == e.osName
            && (e.externalId == None || e.externalId.value !in Matched(items) ==> r == e)
  {
  }

  /** Hosts of others are not touched: not by hand-made rows, not by another integration's sync. */
  lemma SyncKeepsOthers(db: Db, job: Job, index: map<string, Id>, items: seq<Item>, allowRemovals: bool, id: Id)
    requires Valid(db) && Indexes(index, db.entries, job.integration)
    requires id in db.entries && id !in Managed(db.entries, job.integration)
    ensures var out := Sync(db, job, index, items, allowRemovals).0;
            id in out.entries && out.entries[id] == db.entries[id]
  {
    SyncRow(db, job, index, items, allowRemovals, id);
    if db.entries[id].externalId != None && db.entries[id].externalId.value in index {
      assert index[db.entries[id].externalId.value] in Managed(db.entries, job.integration);
    }
  }

  /**
   A managed host is removed exactly when the inventory lost it and removals are not held. Until then it
   keeps its place and detected system, and a held one keeps every column.
   */
  lemma SyncKeepsManaged(db: Db, job: Job, index: map<string, Id>, items: seq<Item>, allowRemovals: bool, id: Id)
    requires Valid(db) && Indexes(index, db.entries, job.integration) && id in Managed(db.entries, job.integration)
    ensures var (out, report) := Sync(db, job, index, items, allowRemovals);
            var lost := id in Removals(db.entries, job.integration, items);
            && (id !in out.entries <==> lost && !report.held)
            && (id in out.entries ==>
                  && out.entries[id].position == db.entries[id].position
                  && out.entries[id].osName == db.entries[id].osName
                  && (lost ==> out.entries[id] == db.entries[id]))
  {
    SyncRow(db, job, index, items, allowRemovals, id);
    RewrittenKeeps(id, db.entries[id], job, index, items);
  }

  /** A row that was not there before belongs to the integration. */
  lemma SyncAddsOnlyManaged(db: Db, job: Job, index: map<string, Id>, items: seq<Item>, allowRemovals: bool, id: Id)
    requires Valid(db) && Indexes(index, db.entries, job.integration)
    requires id in Sync(db, job, index, items, allowRemovals).0.entries && id !in db.entries
    ensures var out := Sync(db, job, index, items, allowRemovals).0;
            IsManaged(out.entries[id], job.integration) && out.entries[id].externalId.value in Matched(items)
  {
    WrittenFresh(db, job, index, items);
  }

  /**
   Without approval a sync removes at most five hosts or a tenth of the managed ones, and never all of
   them.
   */
  lemma UnapprovedRemovalsAreBounded(db: Db, job: Job, index: map<string, Id>, items: seq<Item>)
    ensures var deleted := Sync(db, job, index, items, false).1.deleted;
            var managed := |Managed(db.entries, job.integration)|;
            && (deleted <= REMOVAL_LIMIT || 10 * deleted <= managed)
            && (deleted == 0 || deleted < managed)
  {
    RemovalsAreManaged(db.entries, job.integration, items);
  }

  /** An empty answer changes no host, however often it is repeated. */
  lemma EmptyInventoryIsHarmless(db: Db, job: Job, index: map<string, Id>)
    ensures var (out, report) := Sync(db, job, index, [], false);
            && out.entries == db.entries && report.deleted == 0
            && report.held == (Managed(db.entries, job.integration) != {})
  {
    assert Removals(db.entries, job.integration, []) == Managed(db.entries, job.integration);
    assert db.entries - {} == db.entries;
  }

  // ---------------------------------------------------------------- preview

  function Names(items: seq<Item>): seq<string> {
    seq(|items|, i requires 0 <= i < |items| => items[i].name)
  }

  function RowNames(entries: map<Id, Entry>, ids: seq<Id>): seq<string>
    requires forall id :: id in ids ==> id in entries
  {
    seq(|ids|, i requires 0 <= i < |ids| => entries[ids[i]].name)
  }

  function Known(index: map<string, Id>, items: seq<Item>): (r: seq<Item>)
    ensures |r| == |items| - |News(index, items)|
    decreases |items|
  {
    if items == [] then []
    else
      var last := items[|items| - 1];
      Known(index, items[..|items| - 1]) + if last.externalId in index then [last] else []
  }

  /** `gone` lists the rows to remove in whatever order the query returned them. */
  function PreviewOf(db: Db, job: Job, index: map<string, Id>, items: seq<Item>, gone: seq<Id>): Preview
    requires Enumerates(gone, Removals(db.entries, job.integration, items))
  {
    Preview(Names(News(index, items)), Names(Known(index, items)), RowNames(db.entries, gone),
            NeedsReview(|gone|, |Managed(db.entries, job.integration)|))
  }

  lemma EnumeratedSize(s: seq<Id>, ids: set<Id>)
    requires Enumerates(s, ids)
    ensures |s| == |ids|
  {
    EnumeratesMultiset(s, ids);
    assert |multiset(s)| == |s| && |multiset(ids)| == |ids|;
  }

  /** A preview foretells the sync: as many changes of each kind as it lists, and a hold when it asks for review. */
  lemma PreviewForetells(db: Db, job: Job, index: map<string, Id>, items: seq<Item>, gone: seq<Id>, allowRemovals: bool)
    requires Valid(db) && Indexes(index, db.entries, job.integration)
    requires Enumerates(gone, Removals(db.entries, job.integration, items))
    ensures var preview := PreviewOf(db, job, index, items, gone);
            var report := Sync(db, job, index, items, allowRemovals).1;
            && report.created == |preview.create| && report.updated == |preview.update|
            && report.deleted + report.pendingRemovals == |preview.remove|
            && report.held == (!allowRemovals && preview.needsReview)
  {
    EnumeratedSize(gone, Removals(db.entries, job.integration, items));
  }

  /** The rows a sync creates carry the previewed names, in the previewed order. */
  lemma PreviewNamesNewRows(db: Db, job: Job, index: map<string, Id>, items: seq<Item>, gone: seq<Id>, allowRemovals: bool, k: nat)
    requires Valid(db) && Indexes(index, db.entries, job.integration)
    requires Enumerates(gone, Removals(db.entries, job.integration, items))
    requires k < |PreviewOf(db, job, index, items, gone).create|
    ensures var out := Sync(db, job, index, items, allowRemovals).0;
            db.next + k in out.entries
            && out.entries[db.next + k].name == PreviewOf(db, job, index, items, gone).create[k]
  {
    NewRowSurvives(db, job, index, items, allowRemovals, db.next + k);
  }

  lemma NewRowSurvives(db: Db, job: Job, index: map<string, Id>, items: seq<Item>, allowRemovals: bool, id: Id)
    requires Valid(db) && Indexes(index, db.entries, job.integration)
    requires db.next <= id < db.next + |News(index, items)|
    ensures var out := Sync(db, job, index, items, allowRemovals).0;
            id in out.entries && out.entries[id] == Written(job, News(index, items)[id - db.next], 0, None)
  {
    WriteItemsIs(db, job, index, items);
    assert id !in db.entries;
  }

  // ---------------------------------------------------------------- the sync after that

  lemma {:induction false} NoNews(index: map<string, Id>, items: seq<Item>)
    requires forall x :: x in items ==> x.externalId in index
    ensures News(index, items) == []
    decreases |items|
  {
    if items != [] {
      NoNews(index, items[..|items| - 1]);
    }
  }

  lemma KnownInventory(db: Db, job: Job, index: map<string, Id>, items: seq<Item>)
    requires Valid(db) && Indexes(index, db.entries, job.integration)
    requires Matched(items) <= ExternalIds(db.entries, job.integration)
    ensures var report := Sync(db, job, index, items, false).1;
            var gone := |Removals(db.entries, job.integration, items)|;
            && report.created == 0 && report.updated == |items|
            && report.held == NeedsReview(gone, |Managed(db.entries, job.integration)|)
            && report.deleted == (if report.held then 0 else gone)
  {
    forall x | x in items
      ensures x.externalId in index
    {
      assert x.externalId in Matched(items);
    }
    NoNews(index, items);
  }

  /**
   What the next unapproved sync of the same inventory does. It creates nothing. Removals the first sync
   held are applied, unapproved, exactly when the hosts the first one created have made them small again.
   */
  lemma NextSync(db: Db, job: Job, index: map<string, Id>, items: seq<Item>, allowRemovals: bool, index2: map<string, Id>)
    requires Valid(db) && Indexes(index, db.entries, job.integration)
    requires Indexes(index2, Sync(db, job, index, items, allowRemovals).0.entries, job.integration)
    ensures var (mid, first) := Sync(db, job, index, items, allowRemovals);
            var (out, second) := Sync(mid, job, index2, items, false);
            && second.created == 0 && second.updated == |items|
            && (second.deleted == 0 <==>
                !first.held || NeedsReview(first.pendingRemovals, |Managed(db.entries, job.integration)| + first.created))
            && (second.deleted != 0 ==> second.deleted == first.pendingRemovals)
            && (second.held ==> out.notices == mid.notices)
  {
    SyncMatchesInventory(db, job, index, items, allowRemovals);
    SyncLeaves(db, job, index, items, allowRemovals);
    var (mid, first) := Sync(db, job, index, items, allowRemovals);
    if first.held {
      HeldAgainSilently(mid, job, index2, items, false);
    }
    KnownInventory(mid, job, index2, items);
  }

  /** A removal is announced when it is first held, not again while it stays held. */
  lemma HeldAgainSilently(db: Db, job: Job, index: map<string, Id>, items: seq<Item>, allowRemovals: bool)
    requires Valid(db) && Indexes(index, db.entries, job.integration)
    requires job.integration in db.status && db.status[job.integration] == Held
    ensures Sync(db, job, index, items, allowRemovals).0.notices == db.notices
  {
    WriteItemsIs(db, job, index, items);
  }

  /**
   Removals are held exactly when they were not approved and would take everything, or more than five hosts and
   more than a tenth. The state of the integration says so, and the first hold is announced.
   */
  lemma HeldExactly(db: Db, job: Job, index: map<string, Id>, items: seq<Item>, allowRemovals: bool)
    requires Valid(db) && Indexes(index, db.entries, job.integration)
    ensures var (out, report) := Sync(db, job, index, items, allowRemovals);
            var gone, managed := |Removals(db.entries, job.integration, items)|, |Managed(db.entries, job.integration)|;
            var wasHeld := job.integration in db.status && db.status[job.integration] == Held;
            && (report.held <==> !allowRemovals && gone > 0 && (gone == managed || (gone > 5 && gone * 10 > managed)))
            && out.status == db.status[job.integration := if report.held then Held else Fine]
            && out.notices == (if report.held && !wasHeld then db.notices + [job.integration] else db.notices)
            && report.deleted == (if report.held then 0 else gone)
            && report.created + report.updated == |items|
  {
    WriteItemsIs(db, job, index, items);
  }

  /**
   The row of a listed host, column by column: name and details from the inventory, the owner, folder and
   organization from the integration, and its own place and system, which a new row does not have yet.
   */
  lemma HostColumns(db: Db, job: Job, index: map<string, Id>, items: seq<Item>, allowRemovals: bool, item: Item)
    returns (id: Id)
    requires Valid(db) && Indexes(index, db.entries, job.integration)
    requires ListedOnce(db.entries, job.integration, items) && DistinctItems(items) && item in items
    ensures var out := Sync(db, job, index, items, allowRemovals).0;
            && id in out.entries
            && var e := out.entries[id];
               && e.externalId == Some(item.externalId) && e.name == item.name && e.details == item.details
               && e.integrationId == Some(job.integration) && e.managedBy == Some("netbox") && !e.managedDisabled
               && e.folderId == job.folderId && e.organizationId == job.organizationId
               && e.accountId == (if job.organizationId.Some? then None else Some(job.accountId))
               && (id in db.entries ==> e.position == db.entries[id].position && e.osName == db.entries[id].osName)
               && (id !in db.entries ==> item.externalId !in index && e.position == 0 && e.osName.None?)
  {
    id := OneRowPerHost(db, job, index, items, allowRemovals, item.externalId);
    LastItemIs(items, item);
    if id in db.entries {
      SyncRow(db, job, index, items, allowRemovals, id);
      RewrittenKeeps(id, db.entries[id], job, index, items);
    } else {
      NewRowIsNew(db, job, index, items, allowRemovals, id);
      WrittenFresh(db, job, index, items);
      NewRowSurvives(db, job, index, items, allowRemovals, id);
    }
  }

  const SLIP_JOB := Job(7, None, None, 1)
  const SLIP_DB := Db(map[1 := Written(SLIP_JOB, Item("device:1", "a", ""), 0, None)], 2, map[], [])
  const SLIP_INDEX: map<string, Id> := map["device:1" := 1]
  const SLIP_ITEMS := [Item("device:2", "b", "")]

  lemma SlipSets()
    ensures Managed(SLIP_DB.entries, 7) == {1} && ExternalIds(SLIP_DB.entries, 7) == {"device:1"}
    ensures Removals(SLIP_DB.entries, 7, SLIP_ITEMS) == {1} && |News(SLIP_INDEX, SLIP_ITEMS)| == 1
  {
    assert Managed(SLIP_DB.entries, 7) == {1};
    assert "device:1" in ExternalIds(SLIP_DB.entries, 7);
    assert "device:1"[7] != "device:2"[7];
    assert Matched(SLIP_ITEMS) == {"device:2"};
    assert SLIP_ITEMS[..0] == [];
    assert News(SLIP_INDEX, SLIP_ITEMS[..0]) == [];
  }

  /** One host replaced by another: the first sync holds the removal, the second one applies it. */
  lemma HeldRemovalSlipsThrough(index2: map<string, Id>)
    requires Indexes(index2, Sync(SLIP_DB, SLIP_JOB, SLIP_INDEX, SLIP_ITEMS, false).0.entries, 7)
    ensures Valid(SLIP_DB) && Indexes(SLIP_INDEX, SLIP_DB.entries, 7)
    ensures var (mid, first) := Sync(SLIP_DB, SLIP_JOB, SLIP_INDEX, SLIP_ITEMS, false);
            && first.held && first.pendingRemovals == 1 && first.deleted == 0
            && Sync(mid, SLIP_JOB, index2, SLIP_ITEMS, false).1.deleted == 1
  {
    SlipSets();
    NextSync(SLIP_DB, SLIP_JOB, SLIP_INDEX, SLIP_ITEMS, false, index2);
  }

  // ---------------------------------------------------------------- one row per host, over every run

  predicate DistinctItems(items: seq<Item>) {
    forall i, j :: 0 <= i < j < |items| ==> items[i].externalId != items[j].externalId
  }

  predicate Keyed(e: Entry) {
    e.integrationId != None && e.managedBy == Some("netbox") && e.externalId != None
  }

  function Key(e: Entry): (Id, string)
    requires Keyed(e)
  {
    (e.integrationId.value, e.externalId.value)
  }

  /** No two managed rows stand for the same host of the same integration. */
  predicate UniqueHosts(entries: map<Id, Entry>) {
    forall a, b :: a in entries && b in entries && a != b && Keyed(entries[a]) && Keyed(entries[b]) ==>
      Key(entries[a]) != Key(entries[b])
  }

  /** Only a host that has a row may be in the inventory twice. */
  predicate NewOnce(index: map<string, Id>, items: seq<Item>) {
    forall i, j :: 0 <= i < j < |items| && items[i].externalId == items[j].externalId ==> items[i].externalId in index
  }

  lemma {:induction false} NewsDistinct(index: map<string, Id>, items: seq<Item>)
    requires NewOnce(index, items)
    ensures DistinctItems(News(index, items))
    decreases |items|
  {
    if items != [] {
      var front, last := items[..|items| - 1], items[|items| - 1];
      NewsDistinct(index, front);
      var news := News(index, front);
      forall i | 0 <= i < |news|
        ensures news[i].externalId != last.externalId
      {
        assert news[i] in front;
      }
    }
  }

  /** The key of an outcome's row: that of the old row, or of the new item. */
  lemma SyncKey(db: Db, job: Job, index: map<string, Id>, items: seq<Item>, allowRemovals: bool, id: Id)
    requires Valid(db) && Indexes(index, db.entries, job.integration)
    requires id in Sync(db, job, index, items, allowRemovals).0.entries
    ensures var e := Sync(db, job, index, items, allowRemovals).0.entries[id];
            if id in db.entries then
              Keyed(e) == Keyed(db.entries[id]) && (Keyed(e) ==> Key(e) == Key(db.entries[id]))
            else
              && db.next <= id < db.next + |News(index, items)|
              && Keyed(e) && Key(e) == (job.integration, News(index, items)[id - db.next].externalId)
  {
    if id in db.entries {
      SyncRow(db, job, index, items, allowRemovals, id);
    } else {
      WrittenFresh(db, job, index, items);
      NewRowSurvives(db, job, index, items, allowRemovals, id);
    }
  }

  lemma NewKeyIsNew(db: Db, job: Job, index: map<string, Id>, items: seq<Item>, id: Id, k: nat)
    requires Valid(db) && Indexes(index, db.entries, job.integration)
    requires id in db.entries && Keyed(db.entries[id]) && k < |News(index, items)|
    ensures Key(db.entries[id]) != (job.integration, News(index, items)[k].externalId)
  {
    assert News(index, items)[k] in News(index, items);
    if db.entries[id].integrationId == Some(job.integration) {
      assert id in Managed(db.entries, job.integration);
    }
  }

  lemma SyncKeepsUnique(db: Db, job: Job, index: map<string, Id>, items: seq<Item>, allowRemovals: bool)
    requires Valid(db) && Indexes(index, db.entries, job.integration)
    requires UniqueHosts(db.entries) && NewOnce(index, items)
    ensures UniqueHosts(Sync(db, job, index, items, allowRemovals).0.entries)
  {
    var out := Sync(db, job, index, items, allowRemovals).0;
    NewsDistinct(index, items);
    forall a, b | a in out.entries && b in out.entries && a < b && Keyed(out.entries[a]) && Keyed(out.entries[b])
      ensures Key(out.entries[a]) != Key(out.entries[b])
    {
      SyncKey(db, job, index, items, allowRemovals, a);
      SyncKey(db, job, index, items, allowRemovals, b);
      if a in db.entries && b !in db.entries {
        NewKeyIsNew(db, job, index, items, a, b - db.next);
      }
    }
  }

  lemma {:induction false} LastItemIs(items: seq<Item>, item: Item)
    requires DistinctItems(items) && item in items
    ensures LastItem(items, item.externalId) == Some(item)
  {
  }

  lemma KnownHostRow(db: Db, job: Job, index: map<string, Id>, items: seq<Item>, allowRemovals: bool, item: Item)
    requires Valid(db) && Indexes(index, db.entries, job.integration)
    requires DistinctItems(items) && item in items && item.externalId in index
    ensures var out, id := Sync(db, job, index, items, allowRemovals).0, index[item.externalId];
            && id in db.entries && id in out.entries
            && out.entries[id] == Written(job, item, db.entries[id].position, db.entries[id].osName)
  {
    var id := index[item.externalId];
    assert item.externalId in Matched(items);
    assert id !in Removals(db.entries, job.integration, items);
    SyncRow(db, job, index, items, allowRemovals, id);
    LastItemIs(items, item);
  }

  lemma NewHostRow(db: Db, job: Job, index: map<string, Id>, items: seq<Item>, allowRemovals: bool, item: Item)
    returns (id: Id)
    requires Valid(db) && Indexes(index, db.entries, job.integration)
    requires item in items && item.externalId !in index
    ensures var out := Sync(db, job, index, items, allowRemovals).0;
            id in out.entries && out.entries[id] == Written(job, item, 0, None)
  {
    var k :| 0 <= k < |News(index, items)| && News(index, items)[k] == item;
    id := db.next + k;
    NewRowSurvives(db, job, index, items, allowRemovals, id);
  }

  lemma HostRow(db: Db, job: Job, index: map<string, Id>, items: seq<Item>, allowRemovals: bool, item: Item)
    returns (id: Id)
    requires Valid(db) && Indexes(index, db.entries, job.integration)
    requires DistinctItems(items) && item in items
    ensures var out := Sync(db, job, index, items, allowRemovals).0;
            id in out.entries
            && out.entries[id] == Written(job, item, out.entries[id].position, out.entries[id].osName)
  {
    if item.externalId in index {
      id := index[item.externalId];
      KnownHostRow(db, job, index, items, allowRemovals, item);
    } else {
      id := NewHostRow(db, job, index, items, allowRemovals, item);
    }
  }

  /** No two rows of the integration stand for the same host of the inventory. */
  ghost predicate ListedOnce(entries: map<Id, Entry>, integration: Id, items: seq<Item>) {
    forall a, b :: a in Managed(entries, integration) && b in Managed(entries, integration)
                   && entries[a].externalId == entries[b].externalId && entries[a].externalId.value in Matched(items) ==>
      a == b
  }

  lemma SyncKeepsListedOnce(db: Db, job: Job, index: map<string, Id>, items: seq<Item>, allowRemovals: bool)
    requires Valid(db) && Indexes(index, db.entries, job.integration)
    requires ListedOnce(db.entries, job.integration, items) && NewOnce(index, items)
    ensures ListedOnce(Sync(db, job, index, items, allowRemovals).0.entries, job.integration, items)
  {
    var out := Sync(db, job, index, items, allowRemovals).0;
    NewsDistinct(index, items);
    forall a, b | a in Managed(out.entries, job.integration) && b in Managed(out.entries, job.integration) && a < b
                  && out.entries[a].externalId.value in Matched(items)
      ensures out.entries[a].externalId != out.entries[b].externalId
    {
      SyncKey(db, job, index, items, allowRemovals, a);
      SyncKey(db, job, index, items, allowRemovals, b);
      assert Keyed(out.entries[a]) && Keyed(out.entries[b]);
      if a in db.entries && b !in db.entries {
        NewKeyIsNew(db, job, index, items, a, b - db.next);
      } else if a in db.entries {
        assert a in Managed(db.entries, job.integration) && b in Managed(db.entries, job.integration);
      }
    }
  }

  /**
   With one row at most for each listed host before, and no new host listed twice, each host of the
   inventory has exactly one row afterwards, filled from the last item that names it.
   */
  lemma OneRowPerHost(db: Db, job: Job, index: map<string, Id>, items: seq<Item>, allowRemovals: bool, host: string)
    returns (id: Id)
    requires Valid(db) && Indexes(index, db.entries, job.integration)
    requires ListedOnce(db.entries, job.integration, items) && NewOnce(index, items) && host in Matched(items)
    ensures var out := Sync(db, job, index, items, allowRemovals).0;
            && id in Managed(out.entries, job.integration)
            && out.entries[id] == Written(job, LastItem(items, host).value, out.entries[id].position, out.entries[id].osName)
            && forall other :: other in Managed(out.entries, job.integration) && other != id ==>
                 out.entries[other].externalId != Some(host)
  {
    SyncKeepsListedOnce(db, job, index, items, allowRemovals);
    if host in index {
      id := index[host];
      SyncRow(db, job, index, items, allowRemovals, id);
    } else {
      var item := LastItem(items, host).value;
      id := NewHostRow(db, job, index, items, allowRemovals, item);
    }
  }

  /** The host has a row of the integration, and only one. */
  ghost predicate OneRow(entries: map<Id, Entry>, integration: Id, externalId: string) {
    exists id :: id in Managed(entries, integration) && entries[id].externalId == Some(externalId)
      && forall other :: other in Managed(entries, integration) && entries[other].externalId == Some(externalId) ==> other == id
  }

  lemma OneRowAfter(db: Db, job: Job, index: map<string, Id>, items: seq<Item>, allowRemovals: bool, host: string)
    requires Valid(db) && Indexes(index, db.entries, job.integration)
    requires ListedOnce(db.entries, job.integration, items) && NewOnce(index, items) && host in Matched(items)
    ensures OneRow(Sync(db, job, index, items, allowRemovals).0.entries, job.integration, host)
  {
    var id := OneRowPerHost(db, job, index, items, allowRemovals, host);
  }

  /** Two rows with one external id. */
  ghost predicate TwoRows(entries: map<Id, Entry>, integration: Id, host: string, a: Id, b: Id) {
    && a in Managed(entries, integration) && b in Managed(entries, integration) && a != b
    && entries[a].externalId == entries[b].externalId == Some(host)
  }

  lemma TwoIsNotOne(entries: map<Id, Entry>, integration: Id, host: string, a: Id, b: Id)
    requires TwoRows(entries, integration, host, a, b)
    ensures !OneRow(entries, integration, host)
  {
  }

  lemma TwoBefore(db: Db, job: Job, index: map<string, Id>, items: seq<Item>, allowRemovals: bool) returns (host: string)
    requires Valid(db) && Indexes(index, db.entries, job.integration) && !ListedOnce(db.entries, job.integration, items)
    ensures host in Matched(items)
    ensures !OneRow(Sync(db, job, index, items, allowRemovals).0.entries, job.integration, host)
  {
    var a, b :| a in Managed(db.entries, job.integration) && b in Managed(db.entries, job.integration)
                && db.entries[a].externalId == db.entries[b].externalId
                && db.entries[a].externalId.value in Matched(items) && a != b;
    host := db.entries[a].externalId.value;
    TwoRowsStay(db, job, index, items, allowRemovals, a, b);
    TwoIsNotOne(Sync(db, job, index, items, allowRemovals).0.entries, job.integration, host, a, b);
  }

  lemma {:induction false} NewsAt(index: map<string, Id>, items: seq<Item>, i: nat) returns (k: nat)
    requires i < |items| && items[i].externalId !in index
    ensures k < |News(index, items)| && News(index, items)[k] == items[i]
    decreases |items|
  {
    if i == |items| - 1 {
      k := |News(index, items)| - 1;
    } else {
      k := NewsAt(index, items[..|items| - 1], i);
    }
  }

  lemma {:induction false} NewsTwice(index: map<string, Id>, items: seq<Item>, i: nat, j: nat) returns (k: nat, m: nat)
    requires i < j < |items| && items[i].externalId == items[j].externalId && items[i].externalId !in index
    ensures k < m < |News(index, items)| && News(index, items)[k] == items[i] && News(index, items)[m] == items[j]
    decreases |items|
  {
    if j == |items| - 1 {
      k := NewsAt(index, items[..|items| - 1], i);
      m := |News(index, items)| - 1;
    } else {
      k, m := NewsTwice(index, items[..|items| - 1], i, j);
    }
  }

  lemma NewRow(db: Db, job: Job, index: map<string, Id>, items: seq<Item>, allowRemovals: bool, k: nat)
    requires Valid(db) && Indexes(index, db.entries, job.integration) && k < |News(index, items)|
    ensures var out, id := Sync(db, job, index, items, allowRemovals).0, db.next + k;
            id in Managed(out.entries, job.integration) && out.entries[id].externalId == Some(News(index, items)[k].externalId)
  {
    NewRowSurvives(db, job, index, items, allowRemovals, db.next + k);
  }

  lemma TwoNew(db: Db, job: Job, index: map<string, Id>, items: seq<Item>, allowRemovals: bool, k: nat, m: nat)
    requires Valid(db) && Indexes(index, db.entries, job.integration) && k < m < |News(index, items)|
    requires News(index, items)[k].externalId == News(index, items)[m].externalId
    ensures !OneRow(Sync(db, job, index, items, allowRemovals).0.entries, job.integration, News(index, items)[k].externalId)
  {
    NewRow(db, job, index, items, allowRemovals, k);
    NewRow(db, job, index, items, allowRemovals, m);
    TwoIsNotOne(Sync(db, job, index, items, allowRemovals).0.entries, job.integration,
                News(index, items)[k].externalId, db.next + k, db.next + m);
  }

  lemma TwoCreated(db: Db, job: Job, index: map<string, Id>, items: seq<Item>, allowRemovals: bool) returns (host: string)
    requires Valid(db) && Indexes(index, db.entries, job.integration) && !NewOnce(index, items)
    ensures host in Matched(items)
    ensures !OneRow(Sync(db, job, index, items, allowRemovals).0.entries, job.integration, host)
  {
    var i, j :| 0 <= i < j < |items| && items[i].externalId == items[j].externalId && items[i].externalId !in index;
    host := items[i].externalId;
    var k, m := NewsTwice(index, items, i, j);
    TwoNew(db, job, index, items, allowRemovals, k, m);
  }

  /**
   A sync leaves each host of the inventory with one row exactly when none of them had two before and no
   host without a row is listed twice.
   */
  lemma OneRowIff(db: Db, job: Job, index: map<string, Id>, items: seq<Item>, allowRemovals: bool)
    requires Valid(db) && Indexes(index, db.entries, job.integration)
    ensures (forall host :: host in Matched(items) ==>
               OneRow(Sync(db, job, index, items, allowRemovals).0.entries, job.integration, host))
            <==> ListedOnce(db.entries, job.integration, items) && NewOnce(index, items)
  {
    if !ListedOnce(db.entries, job.integration, items) {
      var host := TwoBefore(db, job, index, items, allowRemovals);
    } else if !NewOnce(index, items) {
      var host := TwoCreated(db, job, index, items, allowRemovals);
    } else {
      forall host | host in Matched(items)
        ensures OneRow(Sync(db, job, index, items, allowRemovals).0.entries, job.integration, host)
      {
        OneRowAfter(db, job, index, items, allowRemovals, host);
      }
    }
  }

  lemma TwoRowsStay(db: Db, job: Job, index: map<string, Id>, items: seq<Item>, allowRemovals: bool, a: Id, b: Id)
    requires Valid(db) && Indexes(index, db.entries, job.integration)
    requires a in Managed(db.entries, job.integration) && b in Managed(db.entries, job.integration) && a != b
    requires db.entries[a].externalId == db.entries[b].externalId
    requires db.entries[a].externalId.value in Matched(items)
    ensures var out := Sync(db, job, index, items, allowRemovals).0;
            && a in Managed(out.entries, job.integration) && b in Managed(out.entries, job.integration)
            && out.entries[a].externalId == out.entries[b].externalId == db.entries[a].externalId
  {
    DuplicatesStay(db, job, index, items, allowRemovals, a, b);
    SyncKey(db, job, index, items, allowRemovals, a);
    SyncKey(db, job, index, items, allowRemovals, b);
  }

  const TWIN_JOB := Job(7, None, None, 1)
  const TWIN := Written(TWIN_JOB, Item("device:1", "a", ""), 0, None)
  const TWIN_DB := Db(map[1 := TWIN, 2 := TWIN], 3, map[], [])
  const TWIN_INDEX: map<string, Id> := map["device:1" := 2]
  const TWIN_ITEMS := [Item("device:1", "b", "")]

  /** A host, its copy, and a sync in which the host has a new name: the copy keeps the old one. */
  lemma CopyGoesStale()
    ensures Valid(TWIN_DB) && Indexes(TWIN_INDEX, TWIN_DB.entries, 7)
    ensures var out := Sync(TWIN_DB, TWIN_JOB, TWIN_INDEX, TWIN_ITEMS, false).0;
            && 1 in out.entries && out.entries[1].name == "a"
            && 2 in out.entries && out.entries[2].name == "b"
            && !OneRow(out.entries, 7, "device:1")
  {
    assert Managed(TWIN_DB.entries, 7) == {1, 2};
    assert ExternalIds(TWIN_DB.entries, 7) == {"device:1"} by {
      assert TWIN_DB.entries[1].externalId.value == "device:1";
    }
    assert Matched(TWIN_ITEMS) == {"device:1"} by { assert TWIN_ITEMS[0] in TWIN_ITEMS; }
    SyncRow(TWIN_DB, TWIN_JOB, TWIN_INDEX, TWIN_ITEMS, false, 1);
    SyncRow(TWIN_DB, TWIN_JOB, TWIN_INDEX, TWIN_ITEMS, false, 2);
    assert LastItem(TWIN_ITEMS, "device:1") == Some(TWIN_ITEMS[0]);
    TwoRowsStay(TWIN_DB, TWIN_JOB, TWIN_INDEX, TWIN_ITEMS, false, 1, 2);
  }

  predicate UpToDate(e: Entry, job: Job, item: Item) {
    e == Written(job, item, e.position, e.osName)
  }

  /**
   The rows that the second sync will rewrite and the first one did not: those the new lookup table names
   for a listed host where the old table named another. They have to be up to date already.
   */
  predicate OthersUpToDate(db: Db, job: Job, index: map<string, Id>, items: seq<Item>, index2: map<string, Id>) {
    forall item :: item in items && item.externalId in index && item.externalId in index2
                   && index2[item.externalId] != index[item.externalId] ==>
      index2[item.externalId] in db.entries && UpToDate(db.entries[index2[item.externalId]], job, item)
  }

  /** The row that the second lookup table names for a listed host, after the first sync. */
  lemma SecondRow(db: Db, job: Job, index: map<string, Id>, items: seq<Item>, allowRemovals: bool, index2: map<string, Id>, item: Item)
    requires Valid(db) && Indexes(index, db.entries, job.integration)
    requires DistinctItems(items) && item in items
    requires Indexes(index2, Sync(db, job, index, items, allowRemovals).0.entries, job.integration)
    ensures item.externalId in index2
    ensures var mid, row := Sync(db, job, index, items, allowRemovals).0, index2[item.externalId];
            && row in mid.entries
            && if item.externalId in index && row != index[item.externalId]
               then row in db.entries && mid.entries[row] == db.entries[row] else UpToDate(mid.entries[row], job, item)
  {
    var mid := Sync(db, job, index, items, allowRemovals).0;
    var written := HostRow(db, job, index, items, allowRemovals, item);
    assert written in Managed(mid.entries, job.integration);
    assert item.externalId in ExternalIds(mid.entries, job.integration);
    var row := index2[item.externalId];
    if item.externalId in index {
      OldHostRow(db, job, index, items, allowRemovals, item, row);
    } else {
      NewHostOnly(db, job, index, items, allowRemovals, item, row);
    }
  }

  /** A row that was not there before stands for a host without a row. */
  lemma NewRowIsNew(db: Db, job: Job, index: map<string, Id>, items: seq<Item>, allowRemovals: bool, row: Id)
    requires Valid(db) && Indexes(index, db.entries, job.integration)
    requires row in Sync(db, job, index, items, allowRemovals).0.entries && row !in db.entries
    ensures var e := Sync(db, job, index, items, allowRemovals).0.entries[row];
            e.externalId != None && e.externalId.value !in index
  {
    SyncKey(db, job, index, items, allowRemovals, row);
    assert News(index, items)[row - db.next] in News(index, items);
  }

  lemma OldRowIsKnown(db: Db, job: Job, index: map<string, Id>, items: seq<Item>, allowRemovals: bool, row: Id)
    requires Valid(db) && Indexes(index, db.entries, job.integration)
    requires row in Managed(Sync(db, job, index, items, allowRemovals).0.entries, job.integration) && row in db.entries
    ensures Sync(db, job, index, items, allowRemovals).0.entries[row].externalId.value in index
  {
    SyncKey(db, job, index, items, allowRemovals, row);
    assert row in Managed(db.entries, job.integration);
    assert db.entries[row].externalId.value in ExternalIds(db.entries, job.integration);
  }

  lemma OldHostRow(db: Db, job: Job, index: map<string, Id>, items: seq<Item>, allowRemovals: bool, item: Item, row: Id)
    requires Valid(db) && Indexes(index, db.entries, job.integration)
    requires DistinctItems(items) && item in items && item.externalId in index
    requires row in Managed(Sync(db, job, index, items, allowRemovals).0.entries, job.integration)
    requires Sync(db, job, index, items, allowRemovals).0.entries[row].externalId == Some(item.externalId)
    ensures var mid := Sync(db, job, index, items, allowRemovals).0;
            if row == index[item.externalId] then UpToDate(mid.entries[row], job, item)
            else row in db.entries && mid.entries[row] == db.entries[row]
  {
    if row !in db.entries {
      NewRowIsNew(db, job, index, items, allowRemovals, row);
    } else if row == index[item.externalId] {
      KnownHostRow(db, job, index, items, allowRemovals, item);
    } else {
      SyncRow(db, job, index, items, allowRemovals, row);
    }
  }

  lemma NewHostOnly(db: Db, job: Job, index: map<string, Id>, items: seq<Item>, allowRemovals: bool, item: Item, row: Id)
    requires Valid(db) && Indexes(index, db.entries, job.integration)
    requires DistinctItems(items) && item in items && item.externalId !in index
    requires row in Managed(Sync(db, job, index, items, allowRemovals).0.entries, job.integration)
    requires Sync(db, job, index, items, allowRemovals).0.entries[row].externalId == Some(item.externalId)
    ensures UpToDate(Sync(db, job, index, items, allowRemovals).0.entries[row], job, item)
  {
    if row in db.entries {
      OldRowIsKnown(db, job, index, items, allowRemovals, row);
    } else {
      SyncKey(db, job, index, items, allowRemovals, row);
      NewRowSurvives(db, job, index, items, allowRemovals, row);
      var new_ := News(index, items)[row - db.next];
      assert new_ in News(index, items);
      LastItemIs(items, item);
      LastItemIs(items, new_);
    }
  }

  /** A second sync rewrites a row to what it was exactly when the row was up to date. */
  lemma RewrittenSame(id: Id, e: Entry, job: Job, index: map<string, Id>, items: seq<Item>)
    ensures Rewritten(id, e, job, index, items) == e <==>
              (e.externalId != None && e.externalId.value in index && index[e.externalId.value] == id
               && LastItem(items, e.externalId.value) != None ==>
                 UpToDate(e, job, LastItem(items, e.externalId.value).value))
  {
  }

  lemma IdleWrite(db: Db, job: Job, index: map<string, Id>, items: seq<Item>)
    requires Valid(db) && Indexes(index, db.entries, job.integration) && News(index, items) == []
    requires forall id :: id in db.entries ==> Rewritten(id, db.entries[id], job, index, items) == db.entries[id]
    ensures WriteItems(db, job, index, items).entries == db.entries
  {
    WriteItemsIs(db, job, index, items);
    var out := WriteItems(db, job, index, items);
    forall id: Id
      ensures id in out.entries <==> id in db.entries
      ensures id in db.entries ==> out.entries[id] == db.entries[id]
    {
    }
  }

  lemma IdleWriteIff(db: Db, job: Job, index: map<string, Id>, items: seq<Item>)
    requires Valid(db) && Indexes(index, db.entries, job.integration) && News(index, items) == [] && DistinctItems(items)
    requires forall item :: item in items ==> item.externalId in index
    ensures WriteItems(db, job, index, items).entries == db.entries
            <==> forall item :: item in items ==> UpToDate(db.entries[index[item.externalId]], job, item)
  {
    if forall item :: item in items ==> UpToDate(db.entries[index[item.externalId]], job, item) {
      forall id | id in db.entries
        ensures Rewritten(id, db.entries[id], job, index, items) == db.entries[id]
      {
        RewrittenSame(id, db.entries[id], job, index, items);
      }
      IdleWrite(db, job, index, items);
    } else {
      var item :| item in items && !UpToDate(db.entries[index[item.externalId]], job, item);
      var id := index[item.externalId];
      LastItemIs(items, item);
      RewrittenSame(id, db.entries[id], job, index, items);
      WriteItemsIs(db, job, index, items);
    }
  }

  lemma SecondRows(db: Db, job: Job, index: map<string, Id>, items: seq<Item>, allowRemovals: bool, index2: map<string, Id>)
    requires Valid(db) && Indexes(index, db.entries, job.integration) && DistinctItems(items)
    requires Indexes(index2, Sync(db, job, index, items, allowRemovals).0.entries, job.integration)
    ensures forall item :: item in items ==> item.externalId in index2
    ensures (forall item :: item in items ==>
               UpToDate(Sync(db, job, index, items, allowRemovals).0.entries[index2[item.externalId]], job, item))
            <==> OthersUpToDate(db, job, index, items, index2)
  {
    forall item | item in items
      ensures item.externalId in index2
      ensures var mid, row := Sync(db, job, index, items, allowRemovals).0, index2[item.externalId];
              && row in mid.entries
              && if item.externalId in index && row != index[item.externalId]
                 then row in db.entries && mid.entries[row] == db.entries[row] else UpToDate(mid.entries[row], job, item)
    {
      SecondRow(db, job, index, items, allowRemovals, index2, item);
    }
  }

  /**
   The next unapproved sync of the same inventory changes no row exactly when it removes none and the rows
   of duplicated hosts that only it looks up are up to date.
   */
  lemma NextSyncIsIdleIff(db: Db, job: Job, index: map<string, Id>, items: seq<Item>, allowRemovals: bool, index2: map<string, Id>)
    requires Valid(db) && Indexes(index, db.entries, job.integration) && DistinctItems(items)
    requires Indexes(index2, Sync(db, job, index, items, allowRemovals).0.entries, job.integration)
    ensures var mid := Sync(db, job, index, items, allowRemovals).0;
            var (out, report) := Sync(mid, job, index2, items, false);
            out.entries == mid.entries <==> report.deleted == 0 && OthersUpToDate(db, job, index, items, index2)
  {
    var mid := Sync(db, job, index, items, allowRemovals).0;
    NextSync(db, job, index, items, allowRemovals, index2);
    SyncLeaves(db, job, index, items, allowRemovals);
    SecondRows(db, job, index, items, allowRemovals, index2);
    IdleWriteIff(mid, job, index2, items);
    SecondSync(mid, job, index2, items);
  }

  lemma SecondSync(db: Db, job: Job, index: map<string, Id>, items: seq<Item>)
    requires Valid(db) && Indexes(index, db.entries, job.integration)
    ensures var (out, report) := Sync(db, job, index, items, false);
            out.entries == db.entries <==> report.deleted == 0 && WriteItems(db, job, index, items).entries == db.entries
  {
    var (out, report) := Sync(db, job, index, items, false);
    var gone := Removals(db.entries, job.integration, items);
    if report.deleted > 0 {
      var id :| id in gone;
      assert id in db.entries && id !in out.entries;
    } else {
      assert report.held || gone == {};
      assert WriteItems(db, job, index, items).entries - {} == WriteItems(db, job, index, items).entries;
    }
  }

  /** With one row for each listed host, a second sync that removes nothing changes nothing. */
  lemma NextSyncIsIdle(db: Db, job: Job, index: map<string, Id>, items: seq<Item>, allowRemovals: bool, index2: map<string, Id>)
    requires Valid(db) && Indexes(index, db.entries, job.integration)
    requires ListedOnce(db.entries, job.integration, items) && DistinctItems(items)
    requires Indexes(index2, Sync(db, job, index, items, allowRemovals).0.entries, job.integration)
    requires Sync(Sync(db, job, index, items, allowRemovals).0, job, index2, items, false).1.deleted == 0
    ensures var mid := Sync(db, job, index, items, allowRemovals).0;
            Sync(mid, job, index2, items, false).0.entries == mid.entries
  {
    forall item | item in items && item.externalId in index && item.externalId in index2
      ensures index2[item.externalId] == index[item.externalId]
    {
      var row := OneRowPerHost(db, job, index, items, allowRemovals, item.externalId);
      KnownHostRow(db, job, index, items, allowRemovals, item);
      assert index[item.externalId] == row;
    }
    NextSyncIsIdleIff(db, job, index, items, allowRemovals, index2);
  }

  /** Two rows of one listed host both stay, and only the one the lookup names is kept up to date. */
  lemma DuplicatesStay(db: Db, job: Job, index: map<string, Id>, items: seq<Item>, allowRemovals: bool, a: Id, b: Id)
    requires Valid(db) && Indexes(index, db.entries, job.integration)
    requires a in Managed(db.entries, job.integration) && b in Managed(db.entries, job.integration) && a != b
    requires db.entries[a].externalId == db.entries[b].externalId
    requires db.entries[a].externalId.value in Matched(items)
    ensures var out := Sync(db, job, index, items, allowRemovals).0;
            && a in out.entries && b in out.entries
            && out.entries[a].externalId == out.entries[b].externalId
            && (out.entries[a] == db.entries[a] || out.entries[b] == db.entries[b])
  {
    SyncRow(db, job, index, items, allowRemovals, a);
    SyncRow(db, job, index, items, allowRemovals, b);
  }

  datatype Step = Step(job: Job, index: map<string, Id>, items: seq<Item>, allowRemovals: bool)

  function Apply(db: Db, step: Step): Db {
    Sync(db, step.job, step.index, step.items, step.allowRemovals).0
  }

  function Run(db: Db, steps: seq<Step>): Db
    decreases |steps|
  {
    if steps == [] then db else Run(Apply(db, steps[0]), steps[1..])
  }

  /** Each sync looks its rows up in the table it finds, and no inventory names a host without a row twice. */
  predicate IsRun(db: Db, steps: seq<Step>)
    decreases |steps|
  {
    steps != [] ==>
      && Indexes(steps[0].index, db.entries, steps[0].job.integration)
      && NewOnce(steps[0].index, steps[0].items)
      && IsRun(Apply(db, steps[0]), steps[1..])
  }

  /**
   Any number of syncs of any integrations, approved or not: no host ever gets a second row, and the rows
   that no integration of the run manages stay as they are.
   */
  lemma {:induction false} RunKeepsHosts(db: Db, steps: seq<Step>)
    requires Valid(db) && UniqueHosts(db.entries) && IsRun(db, steps)
    ensures Valid(Run(db, steps)) && UniqueHosts(Run(db, steps).entries)
    ensures forall id :: id in db.entries && (forall step :: step in steps ==> !IsManaged(db.entries[id], step.job.integration))
              ==> id in Run(db, steps).entries && Run(db, steps).entries[id] == db.entries[id]
    decreases |steps|
  {
    if steps != [] {
      var s := steps[0];
      var mid := Apply(db, s);
      SyncLeaves(db, s.job, s.index, s.items, s.allowRemovals);
      SyncKeepsUnique(db, s.job, s.index, s.items, s.allowRemovals);
      RunKeepsHosts(mid, steps[1..]);
      forall id | id in db.entries && forall step :: step in steps ==> !IsManaged(db.entries[id], step.job.integration)
        ensures id in Run(db, steps).entries && Run(db, steps).entries[id] == db.entries[id]
      {
        assert s in steps;
        SyncKeepsOthers(db, s.job, s.index, s.items, s.allowRemovals, id);
        forall step | step in steps[1..]
          ensures !IsManaged(mid.entries[id], step.job.integration)
        {
          assert step in steps;
        }
      }
    }
  }

  // ---------------------------------------------------------------- the service

  class Service {
    var entries: map<Id, Entry>
    var next: Id
    var status: map<Id, Status>
    var notices: seq<Id>

    function State(): Db
      reads this
    {
      Db(entries, next, status, notices)
    }

    /** `new Map(existing.map(entry => [entry.externalId, entry]))`: the last row of an id wins. */
    method IndexRows(existing: seq<Id>, integration: Id) returns (index: map<string, Id>)
      requires Enumerates(existing, Managed(entries, integration))
      ensures Indexes(index, entries, integration)
    {
      index := map[];
      for i := 0 to |existing|
        invariant forall id :: id in existing[..i] ==>
                    id in Managed(entries, integration) && entries[id].externalId.value in index
        invariant forall e :: e in index ==> index[e] in Managed(entries, integration) && entries[index[e]].externalId == Some(e)
      {
        assert existing[i] in existing;
        assert existing[..i + 1] == existing[..i] + [existing[i]];
        index := index[entries[existing[i]].externalId.value := existing[i]];
      }
      forall e | e in ExternalIds(entries, integration)
        ensures e in index
      {
        var id :| id in Managed(entries, integration) && entries[id].externalId.value == e;
        assert id in existing && existing[..|existing|] == existing;
      }
      assert index.Keys == ExternalIds(entries, integration);
    }

    /** `existing.filter(entry => !matchedIds.has(entry.externalId))` */
    method FindRemovals(existing: seq<Id>, integration: Id, items: seq<Item>) returns (toDelete: seq<Id>)
      requires Enumerates(existing, Managed(entries, integration))
      ensures Enumerates(toDelete, Removals(entries, integration, items))
    {
      var matchedIds: set<string> := {};
      for i := 0 to |items|
        invariant matchedIds == Matched(items[..i])
      {
        assert items[..i + 1] == items[..i] + [items[i]];
        matchedIds := matchedIds + {items[i].externalId};
      }
      assert items[..|items|] == items;
      toDelete := [];
      for i := 0 to |existing|
        invariant Distinct(toDelete)
        invariant forall id :: id in toDelete <==> id in existing[..i] && id in Removals(entries, integration, items)
      {
        assert existing[i] in existing && existing[i] !in existing[..i];
        assert existing[..i + 1] == existing[..i] + [existing[i]];
        if entries[existing[i]].externalId.value !in matchedIds {
          toDelete := toDelete + [existing[i]];
        }
      }
      assert existing[..|existing|] == existing;
    }

    method PreviewSync(job: Job, items: seq<Item>) returns (preview: Preview, ghost index: map<string, Id>, ghost gone: seq<Id>)
      ensures Indexes(index, entries, job.integration)
      ensures Enumerates(gone, Removals(entries, job.integration, items))
      ensures preview == PreviewOf(State(), job, index, items, gone)
    {
      var existing := FindAll(Managed(entries, job.integration));
      var byExternalId := IndexRows(existing, job.integration);
      var toDelete := FindRemovals(existing, job.integration, items);
      EnumeratedSize(existing, Managed(entries, job.integration));
      preview := Preview(Names(News(byExternalId, items)), Names(Known(byExternalId, items)),
                         RowNames(entries, toDelete), NeedsReview(|toDelete|, |existing|));
      index, gone := byExternalId, toDelete;
    }

    method DestroyAll(toDelete: seq<Id>)
      modifies `entries
      ensures entries == old(entries) - Elements(toDelete)
    {
      for i := 0 to |toDelete|
        invariant entries == old(entries) - Elements(toDelete[..i])
      {
        assert toDelete[..i + 1] == toDelete[..i] + [toDelete[i]];
        entries := entries - {toDelete[i]};
      }
      assert toDelete[..|toDelete|] == toDelete;
    }

    /** `all` ends with the item; `start` is the table before the first one. */
    method WriteOne(job: Job, item: Item, byExternalId: map<string, Id>, ghost all: seq<Item>, ghost start: Db)
      requires all != [] && all[|all| - 1] == item
      requires State() == WriteItems(start, job, byExternalId, all[..|all| - 1])
      modifies `entries, `next
      ensures State() == WriteItems(start, job, byExternalId, all)
    {
      if item.externalId in byExternalId {
        var id := byExternalId[item.externalId];
        if id in entries {
          entries := entries[id := Written(job, item, entries[id].position, entries[id].osName)];
        }
      } else {
        entries := entries[next := Written(job, item, 0, None)];
        next := next + 1;
      }
    }

    method WriteAll(job: Job, items: seq<Item>, byExternalId: map<string, Id>) returns (created: nat, updated: nat)
      modifies `entries, `next
      ensures State() == WriteItems(old(State()), job, byExternalId, items)
      ensures created == |News(byExternalId, items)| && updated == |items| - created
    {
      created, updated := 0, 0;
      ghost var start := State();
      for i := 0 to |items|
        invariant State() == WriteItems(start, job, byExternalId, items[..i])
        invariant created == |News(byExternalId, items[..i])| && updated == i - created
      {
        assert items[..i + 1][..i] == items[..i];
        WriteOne(job, items[i], byExternalId, items[..i + 1], start);
        if items[i].externalId in byExternalId {
          updated := updated + 1;
        } else {
          created := created + 1;
        }
      }
      assert items[..|items|] == items;
    }

    method SyncIntegration(job: Job, items: seq<Item>, allowRemovals: bool) returns (report: Report, ghost index: map<string, Id>)
      modifies this
      ensures Indexes(index, old(entries), job.integration)
      ensures (State(), report) == Sync(old(State()), job, index, items, allowRemovals)
    {
      var existing := FindAll(Managed(entries, job.integration));
      var byExternalId := IndexRows(existing, job.integration);
      var toDelete := FindRemovals(existing, job.integration, items);
      EnumeratedSize(existing, Managed(entries, job.integration));
      EnumeratedSize(toDelete, Removals(entries, job.integration, items));
      var held := !allowRemovals && NeedsReview(|toDelete|, |existing|);
      var wasHeld := job.integration in status && status[job.integration] == Held;
      index := byExternalId;
      var created, updated := WriteAll(job, items, byExternalId);
      var deleted := 0;
      if !held {
        DestroyAll(toDelete);
        deleted := |toDelete|;
        assert Elements(toDelete) == Removals(old(entries), job.integration, items);
      }
      status := status[job.integration := if held then Held else Fine];
      if held && !wasHeld {
        notices := notices + [job.integration];
      }
      report := Report(held, if held then |toDelete| else 0, created, updated, deleted);
    }
  }
}
