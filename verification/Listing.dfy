/**
 The tree an account is shown: `listFolders` (server/controllers/folder.js) builds folder nodes and
 organization nodes, `listEntries` (server/controllers/entry.js) hangs the entries into it.
 */
module Listing {
  import opened Wrappers
  import opened Forest
  import opened Lists
  import opened Directory
  import opened DirectoryLaws

  datatype Node = FolderNode(id: Id) | OrgNode(id: Id) | EntryNode(id: Id)

  // ---------------------------------------------------------------- what should be shown

  predicate Visible(db: Db, account: Id, f: Id) {
    && f in db.folders
    && (db.folders[f].accountId == Some(account)
        || (db.folders[f].organizationId.Some? && HasAccess(db, account, db.folders[f].organizationId.value)))
  }

  /** The organization a folder at the top of the list belongs under, if any. */
  function Above(organizationId: Option<Id>): Option<Node> {
    if organizationId.Some? then Some(OrgNode(organizationId.value)) else None
  }

  /** The node under which a node belongs; `None` at the top. */
  function PlaceOf(db: Db, account: Id, n: Node): Option<Node> {
    match n
    case OrgNode(_) => None
    case FolderNode(f) =>
      if f !in db.folders then None
      else if db.folders[f].parentId.Some? && Visible(db, account, db.folders[f].parentId.value)
      then Some(FolderNode(db.folders[f].parentId.value))
      else Above(db.folders[f].organizationId)
    case EntryNode(e) =>
      if e !in db.entries then None
      else if db.entries[e].folderId.Some? then Some(FolderNode(db.entries[e].folderId.value))
      else Above(db.entries[e].organizationId)
  }

  /** The folders and organizations to show. */
  function ShownFolders(db: Db, account: Id): set<Node> {
    (set f | f in db.folders && Visible(db, account, f) :: FolderNode(f))
    + (set o | o in db.organizations && HasAccess(db, account, o) :: OrgNode(o))
  }

  /** The entries to show: exactly those `validateEntryAccess` accepts. */
  function ShownEntries(db: Db, account: Id): set<Node> {
    set e | e in db.entries && EntryAllowed(db, account, db.entries[e]) :: EntryNode(e)
  }

  function FolderTree(db: Db, account: Id): Parents<Node> {
    map n | n in ShownFolders(db, account) :: PlaceOf(db, account, n)
  }

  function FullTree(db: Db, account: Id): Parents<Node> {
    map n | n in ShownFolders(db, account) + ShownEntries(db, account) :: PlaceOf(db, account, n)
  }

  predicate MembersExist(db: Db, account: Id) {
    forall m :: m in db.active && m.0 == account ==> m.1 in db.organizations
  }

  // ---------------------------------------------------------------- the tree is a forest

  function NodeRank(rank: map<Id, nat>, db: Db, n: Node): nat {
    match n
    case OrgNode(_) => 0
    case FolderNode(f) => if f in rank then rank[f] + 1 else 0
    case EntryNode(e) =>
      if e in db.entries && db.entries[e].folderId.Some? && db.entries[e].folderId.value in rank
      then rank[db.entries[e].folderId.value] + 2 else 1
  }

  lemma PlaceRank(db: Db, account: Id, rank: map<Id, nat>, n: Node)
    requires Ranked(ParentsOf(db.folders), rank)
    requires PlaceOf(db, account, n).Some?
    ensures NodeRank(rank, db, PlaceOf(db, account, n).value) < NodeRank(rank, db, n)
  {
  }

  lemma TreeRanked(db: Db, account: Id, rank: map<Id, nat>, q: Parents<Node>)
    requires Ranked(ParentsOf(db.folders), rank)
    requires forall n :: n in q ==> q[n] == PlaceOf(db, account, n)
    ensures Ranked(q, map n | n in q :: NodeRank(rank, db, n))
  {
    forall n | n in q && q[n].Some? && q[n].value in q
      ensures NodeRank(rank, db, q[n].value) < NodeRank(rank, db, n)
    {
      PlaceRank(db, account, rank, n);
    }
  }

  lemma TreeAcyclic(db: Db, account: Id)
    requires WellFormed(db)
    ensures Acyclic(FolderTree(db, account)) && Acyclic(FullTree(db, account))
  {
    AcyclicIffRanked(ParentsOf(db.folders));
    var rank :| Ranked(ParentsOf(db.folders), rank);
    TreeRanked(db, account, rank, FolderTree(db, account));
    TreeRanked(db, account, rank, FullTree(db, account));
    AcyclicIffRanked(FolderTree(db, account));
    AcyclicIffRanked(FullTree(db, account));
  }

  /** With every membership pointing at an organization, each shown node hangs under a shown node. */
  lemma TreeClosed(db: Db, account: Id)
    requires WellFormed(db) && MembersExist(db, account)
    ensures forall n :: n in FullTree(db, account) && FullTree(db, account)[n].Some?
              ==> FullTree(db, account)[n].value in FolderTree(db, account)
  {
    var q, full := FolderTree(db, account), FullTree(db, account);
    forall n | n in full && full[n].Some?
      ensures full[n].value in q
    {
      if n.EntryNode? {
        var entry := db.entries[n.id];
        if entry.folderId.Some? {
          assert Visible(db, account, entry.folderId.value);
        }
      }
    }
  }

  // ---------------------------------------------------------------- reading a tree of arrays

  type Kids = map<Node, seq<Node>>

  function KidsOf(kids: Kids, n: Node): seq<Node> {
    if n in kids then kids[n] else []
  }

  /** The children arrays agree with the parent pointers `q`. */
  ghost predicate Arrays(q: Parents<Node>, kids: Kids) {
    forall n :: n in q ==> Enumerates(KidsOf(kids, n), Children(q, n))
  }

  /** Top-level nodes or the children of one node, all within `bound`. */
  ghost predicate Siblings(q: Parents<Node>, nodes: seq<Node>, bound: set<Node>) {
    && Distinct(nodes)
    && (forall k :: k in nodes ==> k in q && Subtree(q, k) <= bound)
    && (forall k, l :: k in nodes && l in nodes ==> q[k] == q[l])
    && (forall k :: k in nodes && q[k].Some? ==> q[k].value in q)
  }

  /** All nodes of the tree in the order in which the arrays are traversed. */
  ghost function Flat(q: Parents<Node>, kids: Kids, nodes: seq<Node>, bound: set<Node>): seq<Node>
    requires Acyclic(q) && Arrays(q, kids) && Siblings(q, nodes, bound)
    decreases bound, |nodes|
  {
    if nodes == [] then []
    else
      KidsAreSiblings(q, kids, nodes, bound);
      [nodes[0]] + Flat(q, kids, KidsOf(kids, nodes[0]), Subtree(q, nodes[0]) - {nodes[0]}) + Flat(q, kids, nodes[1..], bound)
  }

  lemma KidsAreSiblings(q: Parents<Node>, kids: Kids, nodes: seq<Node>, bound: set<Node>)
    requires Acyclic(q) && Arrays(q, kids) && Siblings(q, nodes, bound) && nodes != []
    ensures var below := Subtree(q, nodes[0]) - {nodes[0]};
            below < bound && Siblings(q, KidsOf(kids, nodes[0]), below)
    ensures Siblings(q, nodes[1..], bound)
  {
    var k := nodes[0];
    BelowSelf(q, k);
    forall c | c in KidsOf(kids, k)
      ensures Subtree(q, c) <= Subtree(q, k) - {k}
    {
      SubtreeShrinks(q, k, c);
      if k in Subtree(q, c) {
        ChildAboveParent(q, k, c);
      }
    }
    assert k in Subtree(q, k) && k in bound;
  }

  /** A node is met once if it lies below one of `nodes`, and otherwise not at all. */
  lemma {:induction false} FlatCount(q: Parents<Node>, kids: Kids, nodes: seq<Node>, bound: set<Node>, n: Node)
    requires Acyclic(q) && Arrays(q, kids) && Siblings(q, nodes, bound)
    ensures multiset(Flat(q, kids, nodes, bound))[n] == if exists k :: k in nodes && Below(q, k, n) then 1 else 0
    decreases bound, |nodes|
  {
    if nodes != [] {
      var k := nodes[0];
      KidsAreSiblings(q, kids, nodes, bound);
      FlatCount(q, kids, KidsOf(kids, k), Subtree(q, k) - {k}, n);
      FlatCount(q, kids, nodes[1..], bound, n);
      BelowEither(q, kids, k, n);
      OnlyOneSibling(q, nodes, bound, n);
    }
  }

  /** Below `k` means being `k` or below one of its children, never both. */
  lemma BelowEither(q: Parents<Node>, kids: Kids, k: Node, n: Node)
    requires Acyclic(q) && Arrays(q, kids) && k in q
    ensures Below(q, k, n) <==> n == k || exists c :: c in KidsOf(kids, k) && Below(q, c, n)
    ensures n == k ==> !exists c :: c in KidsOf(kids, k) && Below(q, c, n)
  {
    BelowSelf(q, k);
    if Below(q, k, n) && n != k {
      var c := BelowChild(q, k, n);
      assert c in KidsOf(kids, k);
    }
    forall c | c in KidsOf(kids, k) && Below(q, c, n)
      ensures Below(q, k, n) && n != k
    {
      BelowStep(q, k, c);
      BelowTransitive(q, k, c, n);
      if n == k {
        ChildAboveParent(q, k, c);
      }
    }
  }

  lemma OnlyOneSibling(q: Parents<Node>, nodes: seq<Node>, bound: set<Node>, n: Node)
    requires Acyclic(q) && Siblings(q, nodes, bound) && nodes != []
    ensures Below(q, nodes[0], n) ==> !exists l :: l in nodes[1..] && Below(q, l, n)
  {
    var k := nodes[0];
    forall l | l in nodes[1..] && Below(q, l, n) && Below(q, k, n)
      ensures false
    {
      AncestorsComparable(q, k, l, n);
      if q[k].None? {
        BelowStep(q, k, l);
        BelowStep(q, l, k);
      } else {
        BelowInForest(q, k, n);
        assert n in Subtree(q, k) && n in Subtree(q, l);
        SiblingsDisjoint(q, q[k].value, k, l);
      }
    }
  }

  /** The traversal from the roots meets every node of the tree exactly once, and nothing else. */
  lemma EveryNodeOnce(q: Parents<Node>, kids: Kids, roots: seq<Node>)
    requires Acyclic(q) && Arrays(q, kids)
    requires forall n :: n in q && q[n].Some? ==> q[n].value in q
    requires Enumerates(roots, Roots(q))
    ensures Siblings(q, roots, q.Keys)
    ensures multiset(Flat(q, kids, roots, q.Keys)) == multiset(q.Keys)
  {
    forall n
      ensures multiset(Flat(q, kids, roots, q.Keys))[n] == multiset(q.Keys)[n]
    {
      FlatCount(q, kids, roots, q.Keys, n);
      if n in q {
        var r := RootOf(q, n);
        assert r in roots;
      }
      forall k | k in roots && Below(q, k, n)
        ensures n in q
      {
        BelowInForest(q, k, n);
      }
    }
  }
}
