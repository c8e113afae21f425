/** `listFolders` and `listEntries` as the source runs them: queries, then loops that push into arrays. */
module ListingTables {
  import opened Wrappers
  import opened Forest
  import opened Lists
  import opened Directory
  import opened DirectoryLaws
  import opened Listing

  // ---------------------------------------------------------------- pushing nodes into arrays

  ghost function Tops(place: Parents<Node>): set<Node> {
    set n | n in place && place[n] == None
  }

  /** The nodes of `place` have been pushed: each into the array of its place, or into `tops`. */
  ghost predicate Holds(kids: Kids, tops: seq<Node>, place: Parents<Node>) {
    && (forall n :: n in kids ==> Enumerates(kids[n], Children(place, n)))
    && Enumerates(tops, Tops(place))
  }

  lemma PushKid(kids: Kids, tops: seq<Node>, place: Parents<Node>, x: Node, parent: Node)
    requires Holds(kids, tops, place) && x !in place && parent in kids
    ensures Holds(kids[parent := kids[parent] + [x]], tops, place[x := Some(parent)])
  {
    var after := place[x := Some(parent)];
    assert Tops(after) == Tops(place);
    EnumeratesAppend(kids[parent], Children(place, parent), x);
    assert Children(after, parent) == Children(place, parent) + {x};
    forall n | n in kids && n != parent
      ensures Children(after, n) == Children(place, n)
    {
    }
  }

  lemma PushTop(kids: Kids, tops: seq<Node>, place: Parents<Node>, x: Node)
    requires Holds(kids, tops, place) && x !in place
    ensures Holds(kids, tops + [x], place[x := None])
  {
    var after := place[x := None];
    EnumeratesAppend(tops, Tops(place), x);
    assert Tops(after) == Tops(place) + {x};
    forall n | n in kids
      ensures Children(after, n) == Children(place, n)
    {
    }
  }

  /** `parent.entries.push(x)`, or a push to the list of roots. */
  method Push(kids0: Kids, tops0: seq<Node>, x: Node, parent: Option<Node>, ghost place: Parents<Node>)
    returns (kids: Kids, tops: seq<Node>)
    requires Holds(kids0, tops0, place) && x !in place && (parent.Some? ==> parent.value in kids0)
    ensures kids.Keys == kids0.Keys && Holds(kids, tops, place[x := parent])
  {
    if parent.Some? {
      PushKid(kids0, tops0, place, x, parent.value);
      kids, tops := kids0[parent.value := kids0[parent.value] + [x]], tops0;
    } else {
      PushTop(kids0, tops0, place, x);
      kids, tops := kids0, tops0 + [x];
    }
  }

  // ---------------------------------------------------------------- folders

  ghost function VisibleFolders(db: Db, account: Id): set<Id> {
    set f | f in db.folders && Visible(db, account, f)
  }

  /** The place of a folder node before organizations are considered. */
  function LinkPlace(db: Db, account: Id, f: Id): Option<Node> {
    if f in db.folders && db.folders[f].parentId.Some? && Visible(db, account, db.folders[f].parentId.value)
    then Some(FolderNode(db.folders[f].parentId.value)) else None
  }

  ghost function LinkTree(db: Db, account: Id, ids: set<Id>): Parents<Node> {
    map n | n in (set f | f in ids :: FolderNode(f)) :: LinkPlace(db, account, n.id)
  }

  function OrganizationOf(db: Db, n: Node): Option<Id> {
    if n.FolderNode? && n.id in db.folders then db.folders[n.id].organizationId else None
  }

  ghost function TopsWith(db: Db, tops: set<Node>, organizationId: Option<Id>): set<Node> {
    set n | n in tops && OrganizationOf(db, n) == organizationId
  }

  /** `rootFolders.filter(...)` by organization. */
  method Select(db: Db, nodes: seq<Node>, organizationId: Option<Id>) returns (chosen: seq<Node>)
    requires Distinct(nodes)
    ensures Enumerates(chosen, TopsWith(db, Elements(nodes), organizationId))
  {
    chosen := [];
    for i := 0 to |nodes|
      invariant Enumerates(chosen, TopsWith(db, Elements(nodes[..i]), organizationId))
    {
      var n := nodes[i];
      assert n !in nodes[..i] && nodes[..i + 1] == nodes[..i] + [n];
      if OrganizationOf(db, n) == organizationId {
        EnumeratesAppend(chosen, TopsWith(db, Elements(nodes[..i]), organizationId), n);
        assert TopsWith(db, Elements(nodes[..i + 1]), organizationId) == TopsWith(db, Elements(nodes[..i]), organizationId) + {n};
        chosen := chosen + [n];
      } else {
        assert TopsWith(db, Elements(nodes[..i + 1]), organizationId) == TopsWith(db, Elements(nodes[..i]), organizationId);
      }
    }
    assert nodes[..|nodes|] == nodes;
  }

  /** The two queries of `listFolders`; with one owner per folder no row is fetched twice. */
  method QueryFolders(db: Db, account: Id) returns (all: seq<Id>)
    requires OneOwner(db)
    ensures Enumerates(all, VisibleFolders(db, account))
  {
    var mine := set f | f in db.folders && db.folders[f].accountId == Some(account);
    var organizationIds := set m | m in db.active && m.0 == account :: m.1;
    var theirs := set f | f in db.folders && db.folders[f].organizationId.Some?
                          && db.folders[f].organizationId.value in organizationIds;
    assert forall o :: o in organizationIds <==> HasAccess(db, account, o);
    assert mine + theirs == VisibleFolders(db, account);
    var personalFolders := FindAll(mine);
    var organizationFolders := FindAll(theirs);
    EnumeratesConcat(personalFolders, organizationFolders, mine, theirs);
    all := personalFolders + organizationFolders;
  }

  /** An empty array for every folder. */
  method NewNodes(all: seq<Id>) returns (kids: Kids)
    ensures kids.Keys == set f | f in all :: FolderNode(f)
    ensures forall n :: n in kids ==> kids[n] == []
  {
    kids := map[];
    for i := 0 to |all|
      invariant kids.Keys == set f | f in all[..i] :: FolderNode(f)
      invariant forall n :: n in kids ==> kids[n] == []
    {
      assert all[..i + 1] == all[..i] + [all[i]];
      kids := kids[FolderNode(all[i]) := []];
    }
    assert all[..|all|] == all;
  }

  lemma LinkTreeStep(db: Db, account: Id, all: seq<Id>, i: nat)
    requires Distinct(all) && i < |all|
    ensures FolderNode(all[i]) !in LinkTree(db, account, Elements(all[..i]))
    ensures LinkTree(db, account, Elements(all[..i + 1]))
         == LinkTree(db, account, Elements(all[..i]))[FolderNode(all[i]) := LinkPlace(db, account, all[i])]
  {
    assert all[..i + 1] == all[..i] + [all[i]];
    assert Elements(all[..i + 1]) == Elements(all[..i]) + {all[i]};
    assert all[i] !in all[..i];
  }

  /** Each folder node is pushed into the array of its parent's node, or into the list of roots. */
  method LinkFolders(db: Db, account: Id, all: seq<Id>) returns (kids: Kids, rootFolders: seq<Node>)
    requires Enumerates(all, VisibleFolders(db, account))
    ensures kids.Keys == set f | f in VisibleFolders(db, account) :: FolderNode(f)
    ensures Holds(kids, rootFolders, LinkTree(db, account, VisibleFolders(db, account)))
  {
    kids := NewNodes(all);
    ghost var keys := kids.Keys;
    assert Elements(all) == VisibleFolders(db, account);
    assert forall f :: Visible(db, account, f) <==> FolderNode(f) in keys;
    rootFolders := [];
    ghost var place: Parents<Node> := map[];
    for i := 0 to |all|
      invariant kids.Keys == keys
      invariant place == LinkTree(db, account, Elements(all[..i]))
      invariant Holds(kids, rootFolders, place)
    {
      var f := all[i];
      assert f in all && f in db.folders;
      LinkTreeStep(db, account, all, i);
      var parent :=
        if db.folders[f].parentId.Some? && FolderNode(db.folders[f].parentId.value) in kids
        then Some(FolderNode(db.folders[f].parentId.value)) else None;
      kids, rootFolders := Push(kids, rootFolders, FolderNode(f), parent, place);
      place := place[FolderNode(f) := parent];
    }
    assert all[..|all|] == all;
  }

  ghost function OrgNodes(db: Db, account: Id): set<Node> {
    set o | o in db.organizations && HasAccess(db, account, o) :: OrgNode(o)
  }

  /** `q` is `links` with the top folders of organizations moved under organization nodes. */
  ghost predicate Grouped(db: Db, q: Parents<Node>, links: Parents<Node>, orgNodes: set<Node>) {
    && q.Keys == links.Keys + orgNodes
    && (forall n :: n in orgNodes ==> n.OrgNode? && n !in links && q[n] == None)
    && (forall n :: n in links ==>
          n.FolderNode? && (links[n].Some? ==> links[n].value.FolderNode?)
          && q[n] == if links[n].Some? then links[n] else Above(OrganizationOf(db, n)))
  }

  lemma FolderTreeGrouped(db: Db, account: Id)
    requires OneOwner(db) && MembersExist(db, account)
    ensures Grouped(db, FolderTree(db, account), LinkTree(db, account, VisibleFolders(db, account)), OrgNodes(db, account))
  {
  }

  lemma GroupedArrays(db: Db, q: Parents<Node>, links: Parents<Node>, orgNodes: set<Node>)
    requires Grouped(db, q, links, orgNodes)
    ensures forall f :: Children(q, FolderNode(f)) == Children(links, FolderNode(f))
    ensures forall o :: Children(q, OrgNode(o)) == TopsWith(db, Tops(links), Some(o))
    ensures Tops(q) == TopsWith(db, Tops(links), None) + orgNodes
  {
  }

  /** One node per organization, holding the top folders of that organization. */
  method GroupFolders(db: Db, organizations: seq<Id>, rootFolders: seq<Node>, kids0: Kids, roots0: seq<Node>)
    returns (roots: seq<Node>, kids: Kids)
    requires Distinct(organizations) && Distinct(rootFolders)
    requires forall n :: n in kids0 || n in roots0 ==> n.FolderNode?
    requires Distinct(roots0)
    ensures var orgNodes := set o | o in organizations :: OrgNode(o);
            && kids.Keys == kids0.Keys + orgNodes
            && (forall n :: n in kids0 ==> kids[n] == kids0[n])
            && (forall n :: n in orgNodes ==> Enumerates(kids[n], TopsWith(db, Elements(rootFolders), Some(n.id))))
            && Enumerates(roots, Elements(roots0) + orgNodes)
  {
    roots, kids := roots0, kids0;
    ghost var placed: set<Node> := {};
    for i := 0 to |organizations|
      invariant placed == set o | o in organizations[..i] :: OrgNode(o)
      invariant Enumerates(roots, Elements(roots0) + placed)
      invariant kids.Keys == kids0.Keys + placed
      invariant forall n :: n in kids0 ==> kids[n] == kids0[n]
      invariant forall n :: n in placed ==> Enumerates(kids[n], TopsWith(db, Elements(rootFolders), Some(n.id)))
    {
      var o := organizations[i];
      assert o !in organizations[..i] && organizations[..i + 1] == organizations[..i] + [o];
      var nodes := Select(db, rootFolders, Some(o));
      kids := kids[OrgNode(o) := nodes];
      EnumeratesAppend(roots, Elements(roots0) + placed, OrgNode(o));
      assert Elements(roots0) + placed + {OrgNode(o)} == Elements(roots0) + (placed + {OrgNode(o)});
      roots := roots + [OrgNode(o)];
      placed := placed + {OrgNode(o)};
    }
    assert organizations[..|organizations|] == organizations;
  }

  method ListFolders(db: Db, account: Id) returns (roots: seq<Node>, kids: Kids)
    requires OneOwner(db) && MembersExist(db, account)
    ensures kids.Keys == FolderTree(db, account).Keys
    ensures Holds(kids, roots, FolderTree(db, account))
  {
    var all := QueryFolders(db, account);
    var linked, rootFolders := LinkFolders(db, account, all);
    ghost var q, links := FolderTree(db, account), LinkTree(db, account, VisibleFolders(db, account));
    FolderTreeGrouped(db, account);
    GroupedArrays(db, q, links, OrgNodes(db, account));
    assert Elements(rootFolders) == Tops(links);
    var personal := Select(db, rootFolders, None);
    var organizations: seq<Id> := FindAll(set o | o in db.organizations && (account, o) in db.active);
    assert (set o | o in organizations :: OrgNode(o)) == OrgNodes(db, account);
    roots, kids := GroupFolders(db, organizations, rootFolders, linked, personal);
    assert Elements(personal) == TopsWith(db, Tops(links), None);
  }

  // ---------------------------------------------------------------- entries

  /** The condition of the query in `listEntries`. */
  predicate Selected(db: Db, account: Id, folderIds: set<Id>, organizationIds: set<Id>, entry: Entry) {
    || (entry.folderId.Some? && entry.folderId.value in folderIds)
    || (entry.organizationId.Some? && entry.organizationId.value in organizationIds && entry.folderId.None?)
    || (entry.accountId == Some(account) && entry.folderId.None?)
  }

  /** The two ways of deciding who sees an entry agree on well-formed tables. */
  lemma SelectedIffAllowed(db: Db, account: Id, folderIds: set<Id>, organizationIds: set<Id>, e: Id)
    requires UniformEntries(db) && OneOwner(db) && e in db.entries
    requires forall f :: f in folderIds <==> Visible(db, account, f)
    requires forall o :: o in organizationIds <==> HasAccess(db, account, o)
    ensures Selected(db, account, folderIds, organizationIds, db.entries[e]) <==> EntryAllowed(db, account, db.entries[e])
  {
  }

  /** `flattenFolders`: every node below `nodes`, each node before the ones below it. */
  method Flatten(q: Parents<Node>, kids: Kids, nodes: seq<Node>, ghost bound: set<Node>) returns (ids: seq<Node>)
    requires Acyclic(q) && Arrays(q, kids) && Siblings(q, nodes, bound)
    ensures ids == Flat(q, kids, nodes, bound)
    decreases bound, |nodes|
  {
    ids := [];
    if nodes != [] {
      KidsAreSiblings(q, kids, nodes, bound);
      var below := Flatten(q, kids, KidsOf(kids, nodes[0]), Subtree(q, nodes[0]) - {nodes[0]});
      var rest := Flatten(q, kids, nodes[1..], bound);
      ids := [nodes[0]] + below + rest;
    }
  }

  lemma HoldsArrays(q: Parents<Node>, kids: Kids, roots: seq<Node>)
    requires Holds(kids, roots, q)
    requires forall n :: n in q && q[n].Some? ==> q[n].value in kids && q[n].value in q
    ensures Arrays(q, kids) && Enumerates(roots, Roots(q))
  {
    assert Roots(q) == Tops(q);
    forall n | n in q && n !in kids
      ensures Children(q, n) == {}
    {
    }
  }

  /** The ids that `flattenFolders` collects: the visible folders. */
  method CollectIds(db: Db, account: Id, roots: seq<Node>, kids: Kids) returns (folderIds: set<Id>)
    requires WellFormed(db) && MembersExist(db, account)
    requires kids.Keys == FolderTree(db, account).Keys && Holds(kids, roots, FolderTree(db, account))
    ensures forall f :: f in folderIds <==> Visible(db, account, f)
  {
    var q := FolderTree(db, account);
    TreeAcyclic(db, account);
    FolderTreeClosed(db, account);
    HoldsArrays(q, kids, roots);
    EveryNodeOnce(q, kids, roots);
    var flat := Flatten(q, kids, roots, q.Keys);
    folderIds := set n | n in flat && n.FolderNode? :: n.id;
    FlatIds(db, account, flat, folderIds);
  }

  /** The entries query over the ids that the traversal of the folder tree collects. */
  method QueryEntries(db: Db, account: Id, roots: seq<Node>, kids: Kids) returns (rows: seq<Id>)
    requires WellFormed(db) && MembersExist(db, account)
    requires kids.Keys == FolderTree(db, account).Keys && Holds(kids, roots, FolderTree(db, account))
    ensures Enumerates(rows, set e | e in db.entries && EntryAllowed(db, account, db.entries[e]))
  {
    var folderIds := CollectIds(db, account, roots, kids);
    var organizationIds := set m | m in db.active && m.0 == account :: m.1;
    assert forall o :: o in organizationIds <==> HasAccess(db, account, o);
    rows := FindAll(set e | e in db.entries && Selected(db, account, folderIds, organizationIds, db.entries[e]));
    forall e | e in db.entries
      ensures Selected(db, account, folderIds, organizationIds, db.entries[e]) <==> EntryAllowed(db, account, db.entries[e])
    {
      SelectedIffAllowed(db, account, folderIds, organizationIds, e);
    }
  }

  lemma FolderTreeClosed(db: Db, account: Id)
    requires WellFormed(db) && MembersExist(db, account)
    ensures var q := FolderTree(db, account); forall n :: n in q && q[n].Some? ==> q[n].value in q
  {
    TreeClosed(db, account);
    var q, full := FolderTree(db, account), FullTree(db, account);
    assert forall n :: n in q ==> n in full && q[n] == full[n];
  }

  lemma FlatIds(db: Db, account: Id, flat: seq<Node>, folderIds: set<Id>)
    requires multiset(flat) == multiset(FolderTree(db, account).Keys)
    requires folderIds == set n | n in flat && n.FolderNode? :: n.id
    ensures forall f :: f in folderIds <==> Visible(db, account, f)
  {
    assert forall n :: n in flat <==> n in multiset(flat);
    assert forall n :: n in flat <==> n in ShownFolders(db, account);
    forall f
      ensures f in folderIds <==> Visible(db, account, f)
    {
      assert FolderNode(f) in flat <==> Visible(db, account, f);
    }
  }

  /** The tree after the entries `ids` have been hung into it. */
  ghost function PartTree(db: Db, account: Id, ids: set<Id>): Parents<Node> {
    map n | n in ShownFolders(db, account) + (set e | e in ids :: EntryNode(e)) :: PlaceOf(db, account, n)
  }

  lemma PlaceExists(db: Db, account: Id, e: Id)
    requires WellFormed(db) && MembersExist(db, account)
    requires e in db.entries && EntryAllowed(db, account, db.entries[e])
    ensures PlaceOf(db, account, EntryNode(e)).Some? ==> PlaceOf(db, account, EntryNode(e)).value in FolderTree(db, account)
  {
    TreeClosed(db, account);
    assert EntryNode(e) in FullTree(db, account);
  }

  lemma PartTreeStep(db: Db, account: Id, rows: seq<Id>, i: nat)
    requires Distinct(rows) && i < |rows|
    ensures EntryNode(rows[i]) !in PartTree(db, account, Elements(rows[..i]))
    ensures PartTree(db, account, Elements(rows[..i + 1]))
         == PartTree(db, account, Elements(rows[..i]))[EntryNode(rows[i]) := PlaceOf(db, account, EntryNode(rows[i]))]
  {
    assert rows[..i + 1] == rows[..i] + [rows[i]];
    assert Elements(rows[..i + 1]) == Elements(rows[..i]) + {rows[i]};
    assert rows[i] !in rows[..i];
  }

  method HangEntry(db: Db, account: Id, e: Id, roots0: seq<Node>, kids0: Kids, ghost place: Parents<Node>)
    returns (roots: seq<Node>, kids: Kids)
    requires e in db.entries && EntryNode(e) !in place && Holds(kids0, roots0, place)
    requires var p := PlaceOf(db, account, EntryNode(e)); p.Some? ==> p.value in kids0
    ensures kids.Keys == kids0.Keys && Holds(kids, roots, place[EntryNode(e) := PlaceOf(db, account, EntryNode(e))])
  {
    var parent :=
      if db.entries[e].folderId.Some? then Some(FolderNode(db.entries[e].folderId.value))
      else if db.entries[e].organizationId.Some? then Some(OrgNode(db.entries[e].organizationId.value))
      else None;
    roots, kids := roots0, kids0;
    if parent.None? || parent.value in kids {
      kids, roots := Push(kids, roots, EntryNode(e), parent, place);
    }
  }

  method HangEntries(db: Db, account: Id, roots0: seq<Node>, kids0: Kids, rows: seq<Id>) returns (roots: seq<Node>, kids: Kids)
    requires WellFormed(db) && MembersExist(db, account)
    requires kids0.Keys == FolderTree(db, account).Keys && Holds(kids0, roots0, FolderTree(db, account))
    requires forall e :: e in rows ==> e in db.entries && EntryAllowed(db, account, db.entries[e])
    requires Distinct(rows)
    ensures kids.Keys == FolderTree(db, account).Keys
    ensures Holds(kids, roots, PartTree(db, account, Elements(rows)))
  {
    roots, kids := roots0, kids0;
    assert FolderTree(db, account) == PartTree(db, account, {});
    for i := 0 to |rows|
      invariant kids.Keys == kids0.Keys
      invariant Holds(kids, roots, PartTree(db, account, Elements(rows[..i])))
    {
      assert rows[i] in rows;
      PlaceExists(db, account, rows[i]);
      PartTreeStep(db, account, rows, i);
      roots, kids := HangEntry(db, account, rows[i], roots, kids, PartTree(db, account, Elements(rows[..i])));
    }
    assert rows[..|rows|] == rows;
  }

  /**
   The list shown to an account, for every well-formed state whose memberships point at existing
   organizations: a traversal meets each accessible folder and organization and each entry that
   `validateEntryAccess` accepts exactly once, under the right node, and meets nothing else.
   */
  method ListEntries(db: Db, account: Id) returns (roots: seq<Node>, kids: Kids)
    requires WellFormed(db) && MembersExist(db, account)
    ensures Acyclic(FullTree(db, account)) && Arrays(FullTree(db, account), kids)
    ensures Siblings(FullTree(db, account), roots, FullTree(db, account).Keys)
    ensures multiset(Flat(FullTree(db, account), kids, roots, FullTree(db, account).Keys))
         == multiset(ShownFolders(db, account) + ShownEntries(db, account))
  {
    ghost var full := FullTree(db, account);
    roots, kids := ListFolders(db, account);
    var rows := QueryEntries(db, account, roots, kids);
    roots, kids := HangEntries(db, account, roots, kids, rows);
    FullIsPart(db, account, Elements(rows));
    TreeAcyclic(db, account);
    TreeClosed(db, account);
    HoldsArrays(full, kids, roots);
    EveryNodeOnce(full, kids, roots);
  }

  lemma FullIsPart(db: Db, account: Id, ids: set<Id>)
    requires ids == set e | e in db.entries && EntryAllowed(db, account, db.entries[e])
    ensures PartTree(db, account, ids) == FullTree(db, account)
    ensures FolderTree(db, account).Keys <= FullTree(db, account).Keys
  {
    assert (set e | e in ids :: EntryNode(e)) == ShownEntries(db, account);
  }
}
