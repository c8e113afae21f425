/**
 Theory of the parent pointers of the `folders` table.

 A forest is a finite map from a folder id to the id of its parent row.  The parent of a folder may
 be missing from the map: the source tolerates a folder whose parent row is gone, and treats it as
 a root.
 */
module Forest {
  import opened Wrappers

  type Id = nat
  type Parents<!T(==)> = map<T, Option<T>>

  /** The row reached from `id` after `n` steps along parent pointers, if there is one. */
  function Up<T(!new)>(p: Parents<T>, id: T, n: nat): (r: Option<T>)
    ensures r.Some? ==> r.value in p
    decreases n
  {
    if id !in p then None
    else if n == 0 then Some(id)
    else if p[id].None? then None
    else Up(p, p[id].value, n - 1)
  }

  /** `root` is `id` itself or one of its ancestors. */
  ghost predicate Below<T(!new)>(p: Parents<T>, root: T, id: T) {
    exists n: nat :: Up(p, id, n) == Some(root)
  }

  /** No folder is a proper ancestor of itself. */
  ghost predicate Acyclic<T(!new)>(p: Parents<T>) {
    forall id: T, n: nat :: 0 < n ==> Up(p, id, n) != Some(id)
  }

  ghost function Subtree<T(!new)>(p: Parents<T>, root: T): set<T> {
    set id | id in p && Below(p, root, id)
  }

  ghost function Ancestors<T(!new)>(p: Parents<T>, id: T): set<T> {
    set a | a in p && Below(p, a, id)
  }

  function Children<T(!new)>(p: Parents<T>, id: T): set<T> {
    set c | c in p && p[c] == Some(id)
  }

  ghost function Subtrees<T(!new)>(p: Parents<T>, roots: set<T>): set<T> {
    set id, r | r in roots && id in p && Below(p, r, id) :: id
  }

  /** A rank that grows strictly from a folder to each of its children. */
  ghost predicate Ranked<T(!new)>(p: Parents<T>, rank: map<T, nat>) {
    && rank.Keys == p.Keys
    && forall id :: id in p && p[id].Some? && p[id].value in p ==> rank[p[id].value] < rank[id]
  }

  // ---------------------------------------------------------------- walking

  lemma UpCompose<T(!new)>(p: Parents<T>, id: T, m: nat, n: nat)
    requires Up(p, id, m).Some?
    ensures Up(p, id, m + n) == Up(p, Up(p, id, m).value, n)
    decreases m
  {
    if m > 0 {
      UpCompose(p, p[id].value, m - 1, n);
    }
  }

  lemma BelowSelf<T(!new)>(p: Parents<T>, id: T)
    requires id in p
    ensures Below(p, id, id)
  {
    assert Up(p, id, 0) == Some(id);
  }

  lemma BelowInForest<T(!new)>(p: Parents<T>, root: T, id: T)
    requires Below(p, root, id)
    ensures root in p && id in p
  {
  }

  lemma BelowTransitive<T(!new)>(p: Parents<T>, a: T, b: T, c: T)
    requires Below(p, a, b) && Below(p, b, c)
    ensures Below(p, a, c)
  {
    var m: nat :| Up(p, b, m) == Some(a);
    var n: nat :| Up(p, c, n) == Some(b);
    UpCompose(p, c, n, m);
    assert Up(p, c, n + m) == Some(a);
  }

  /** One step up: below `root` means being `root`, or having a parent that is below `root`. */
  lemma BelowStep<T(!new)>(p: Parents<T>, root: T, id: T)
    requires id in p
    ensures Below(p, root, id) <==> id == root || (p[id].Some? && Below(p, root, p[id].value))
  {
    if Below(p, root, id) && id != root {
      var n: nat :| Up(p, id, n) == Some(root);
      assert Up(p, p[id].value, n - 1) == Some(root);
    }
    if id == root {
      BelowSelf(p, id);
    } else if p[id].Some? && Below(p, root, p[id].value) {
      var n: nat :| Up(p, p[id].value, n) == Some(root);
      assert Up(p, id, n + 1) == Some(root);
    }
  }

  /** One step down: everything strictly below `root` is below exactly one of its children. */
  lemma BelowChild<T(!new)>(p: Parents<T>, root: T, id: T) returns (c: T)
    requires Below(p, root, id) && id != root
    ensures c in Children(p, root) && Below(p, c, id)
  {
    var n: nat :| Up(p, id, n) == Some(root);
    BelowSelf(p, id);
    c := id;
    var k := n;
    while p[c] != Some(root)
      invariant c in p && Up(p, c, k) == Some(root) && c != root
      invariant Below(p, c, id)
      decreases k
    {
      ghost var d := p[c].value;
      BelowSelf(p, d);
      assert Up(p, d, k - 1) == Some(root);
      if d == root { assert false; }
      BelowStep(p, d, c);
      BelowTransitive(p, d, c, id);
      c, k := d, k - 1;
    }
  }

  /** Two ancestors of one folder are themselves related. */
  lemma AncestorsComparable<T(!new)>(p: Parents<T>, a: T, b: T, id: T)
    requires Below(p, a, id) && Below(p, b, id)
    ensures Below(p, a, b) || Below(p, b, a)
  {
    var m: nat :| Up(p, id, m) == Some(a);
    var n: nat :| Up(p, id, n) == Some(b);
    if m <= n {
      UpCompose(p, id, m, n - m);
      assert Up(p, a, n - m) == Some(b);
    } else {
      UpCompose(p, id, n, m - n);
      assert Up(p, b, m - n) == Some(a);
    }
  }

  /** The subtrees of two different children of one folder have no folder in common. */
  lemma SiblingsDisjoint<T(!new)>(p: Parents<T>, root: T, c: T, d: T)
    requires Acyclic(p)
    requires c in Children(p, root) && d in Children(p, root) && c != d
    ensures Subtree(p, c) !! Subtree(p, d)
  {
    forall x | x in Subtree(p, c) && x in Subtree(p, d)
      ensures false
    {
      AncestorsComparable(p, c, d, x);
      BelowStep(p, c, d);
      BelowStep(p, d, c);
      // so `root` lies below one of its own children
      if Below(p, c, root) {
        ChildAboveParent(p, root, c);
      } else {
        ChildAboveParent(p, root, d);
      }
    }
  }

  lemma ChildAboveParent<T(!new)>(p: Parents<T>, root: T, c: T)
    requires c in Children(p, root) && Below(p, c, root)
    ensures !Acyclic(p)
  {
    var n: nat :| Up(p, root, n) == Some(c);
    assert Up(p, c, n + 1) == Some(c);
  }

  // ---------------------------------------------------------------- subtrees

  lemma SubtreeUnfold<T(!new)>(p: Parents<T>, root: T)
    requires root in p
    ensures Subtree(p, root) == {root} + Subtrees(p, Children(p, root))
  {
    BelowSelf(p, root);
    forall id | id in Subtree(p, root) && id != root
      ensures id in Subtrees(p, Children(p, root))
    {
      var c := BelowChild(p, root, id);
    }
    forall id | id in Subtrees(p, Children(p, root))
      ensures id in Subtree(p, root)
    {
      var c :| c in Children(p, root) && id in p && Below(p, c, id);
      BelowSelf(p, root);
      BelowStep(p, root, c);
      BelowTransitive(p, root, c, id);
    }
  }

  /** The measure of both recursions: a child's subtree is strictly smaller. */
  lemma SubtreeShrinks<T(!new)>(p: Parents<T>, root: T, c: T)
    requires Acyclic(p) && root in p && c in Children(p, root)
    ensures Subtree(p, c) < Subtree(p, root)
  {
    BelowSelf(p, root);
    BelowStep(p, root, c);
    forall id | id in Subtree(p, c)
      ensures id in Subtree(p, root)
    {
      BelowTransitive(p, root, c, id);
    }
    if root in Subtree(p, c) {
      ChildAboveParent(p, root, c);
    }
    assert root in Subtree(p, root);
  }

  /** The measure of the ancestor walk: a parent has strictly fewer ancestors. */
  lemma AncestorsShrink<T(!new)>(p: Parents<T>, id: T)
    requires Acyclic(p) && id in p && p[id].Some? && p[id].value in p
    ensures Ancestors(p, p[id].value) < Ancestors(p, id)
  {
    var up := p[id].value;
    forall a | a in Ancestors(p, up)
      ensures a in Ancestors(p, id)
    {
      BelowStep(p, a, id);
    }
    BelowSelf(p, id);
    if Below(p, id, up) {
      assert id in Children(p, up);
      ChildAboveParent(p, up, id);
    }
    assert id in Ancestors(p, id) && id !in Ancestors(p, up);
  }

  // ---------------------------------------------------------------- acyclicity

  lemma RankAlong<T(!new)>(p: Parents<T>, rank: map<T, nat>, id: T, n: nat)
    requires Ranked(p, rank) && Up(p, id, n).Some?
    ensures rank[Up(p, id, n).value] + n <= rank[id]
    decreases n
  {
    if n > 0 {
      RankAlong(p, rank, p[id].value, n - 1);
    }
  }

  /** A forest is acyclic exactly when it can be ranked. */
  lemma AcyclicIffRanked<T(!new)>(p: Parents<T>)
    ensures Acyclic(p) <==> exists rank :: Ranked(p, rank)
  {
    if Acyclic(p) {
      var rank: map<T, nat> := map id | id in p :: |Ancestors(p, id)|;
      forall id | id in p && p[id].Some? && p[id].value in p
        ensures rank[p[id].value] < rank[id]
      {
        AncestorsShrink(p, id);
        SmallerCardinality(Ancestors(p, p[id].value), Ancestors(p, id));
      }
      assert Ranked(p, rank);
    }
    if rank :| Ranked(p, rank) {
      forall id: T, n: nat | 0 < n && Up(p, id, n) == Some(id)
        ensures false
      {
        RankAlong(p, rank, id, n);
      }
    }
  }

  lemma SmallerCardinality<T>(a: set<T>, b: set<T>)
    requires a < b
    ensures |a| < |b|
  {
    assert b == a + (b - a);
    assert b - a != {};
  }

  /** Folders without parents. */
  lemma FlatForest<T(!new)>(p: Parents<T>)
    requires forall id :: id in p ==> p[id] == None
    ensures Acyclic(p)
    ensures forall a, b :: Below(p, a, b) ==> a == b
  {
    forall a, b | Below(p, a, b)
      ensures a == b
    {
      BelowInForest(p, a, b);
      BelowStep(p, a, b);
    }
  }

  /** A new folder under an existing parent, with an id nothing refers to yet. */
  lemma AcyclicAfterAdd<T(!new)>(p: Parents<T>, id: T, parent: Option<T>)
    requires Acyclic(p) && id !in p
    requires forall c :: c in p ==> p[c] != Some(id)
    requires parent != Some(id)
    ensures Acyclic(p[id := parent])
  {
    AcyclicIffRanked(p);
    var rank :| Ranked(p, rank);
    var high := if parent.Some? && parent.value in p then rank[parent.value] + 1 else 0;
    assert Ranked(p[id := parent], rank[id := high]);
    AcyclicIffRanked(p[id := parent]);
  }

  /** Moving a folder keeps the forest acyclic exactly when the target is not inside its subtree. */
  lemma AcyclicAfterMove<T(!new)>(p: Parents<T>, f: T, parent: Option<T>)
    requires Acyclic(p) && f in p
    ensures Acyclic(p[f := parent]) <==> !(parent.Some? && Below(p, f, parent.value))
  {
    var q := p[f := parent];
    if parent.Some? && Below(p, f, parent.value) {
      var t := parent.value;
      var n: nat :| Up(p, t, n) == Some(f);
      UpUnchanged(p, f, parent, t, n);
      assert Up(q, f, n + 1) == Some(f);
    } else {
      AcyclicIffRanked(p);
      var rank :| Ranked(p, rank);
      var lift := if parent.Some? && parent.value in p then rank[parent.value] + 1 else 0;
      var rank' := map id | id in p :: if Below(p, f, id) then rank[id] + lift else rank[id];
      forall id | id in q && q[id].Some? && q[id].value in q
        ensures rank'[q[id].value] < rank'[id]
      {
        BelowStep(p, f, id);
        BelowSelf(p, f);
      }
      assert Ranked(q, rank');
      AcyclicIffRanked(q);
    }
  }

  /** A walk that reaches `f` reaches it also after the pointer of `f` was changed. */
  lemma UpUnchanged<T(!new)>(p: Parents<T>, f: T, parent: Option<T>, id: T, n: nat)
    requires Acyclic(p) && Up(p, id, n) == Some(f)
    ensures Up(p[f := parent], id, n) == Some(f)
    decreases n
  {
    if n > 0 {
      if id == f { assert false; }
      UpUnchanged(p, f, parent, p[id].value, n - 1);
    }
  }

  lemma AcyclicAfterRemove<T(!new)>(p: Parents<T>, gone: set<T>)
    requires Acyclic(p)
    ensures Acyclic(p - gone)
  {
    forall id: T, n: nat | 0 < n && Up(p - gone, id, n) == Some(id)
      ensures false
    {
      UpOfRestriction(p, gone, id, n);
    }
  }

  lemma UpOfRestriction<T(!new)>(p: Parents<T>, gone: set<T>, id: T, n: nat)
    requires Up(p - gone, id, n).Some?
    ensures Up(p, id, n) == Up(p - gone, id, n)
    decreases n
  {
    if n > 0 {
      UpOfRestriction(p, gone, p[id].value, n - 1);
    }
  }

  /** Removing folders outside a subtree does not change that subtree. */
  lemma SubtreeAfterRemove<T(!new)>(p: Parents<T>, gone: set<T>, root: T)
    requires gone !! Subtree(p, root)
    ensures Subtree(p - gone, root) == Subtree(p, root)
  {
    forall id | id in Subtree(p, root)
      ensures id in Subtree(p - gone, root)
    {
      var n: nat :| Up(p, id, n) == Some(root);
      UpAvoiding(p, gone, root, id, n);
    }
    forall id | id in Subtree(p - gone, root)
      ensures id in Subtree(p, root)
    {
      var n: nat :| Up(p - gone, id, n) == Some(root);
      UpOfRestriction(p, gone, id, n);
    }
  }

  lemma UpAvoiding<T(!new)>(p: Parents<T>, gone: set<T>, root: T, id: T, n: nat)
    requires gone !! Subtree(p, root) && Up(p, id, n) == Some(root)
    ensures Up(p - gone, id, n) == Some(root)
    decreases n
  {
    assert id in Subtree(p, root);
    if n > 0 {
      UpAvoiding(p, gone, root, p[id].value, n - 1);
    }
  }

  // ---------------------------------------------------------------- roots

  /** Folders whose parent is not in the forest. */
  function Roots<T(!new)>(p: Parents<T>): set<T> {
    set id | id in p && (p[id].None? || p[id].value !in p)
  }

  /** In an acyclic forest every folder lies below exactly one root. */
  lemma RootOf<T(!new)>(p: Parents<T>, id: T) returns (r: T)
    requires Acyclic(p) && id in p
    ensures r in Roots(p) && Below(p, r, id)
    ensures forall s :: s in Roots(p) && Below(p, s, id) ==> s == r
  {
    r := id;
    BelowSelf(p, id);
    while r !in Roots(p)
      invariant r in p && Below(p, r, id)
      decreases Ancestors(p, r)
    {
      AncestorsShrink(p, r);
      ghost var up := p[r].value;
      BelowSelf(p, up);
      BelowStep(p, up, r);
      BelowTransitive(p, up, r, id);
      r := up;
    }
    forall s | s in Roots(p) && Below(p, s, id)
      ensures s == r
    {
      AncestorsComparable(p, r, s, id);
      BelowStep(p, r, s);
      BelowStep(p, s, r);
    }
  }
}
