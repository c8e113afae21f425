/**
 Saved snippets and scripts as an ordered list per owner (server/controllers/command.js). The table
 keeps a `sortOrder` column; what a user sees is the answer of `ORDER BY sortOrder, id` in one scope.
 */
module Commands {
  import opened Wrappers
  import opened Lists

  datatype Scope = Personal(accountId: Id) | Shared(organizationId: Id)

  datatype Row = Row(content: string, accountId: Option<Id>, organizationId: Option<Id>, sortOrder: int)

  /** `next` is the id the database hands out next. */
  datatype Table = Table(rows: map<Id, Row>, next: Id)

  datatype Answer = Success | NotFound

  predicate InScope(row: Row, scope: Scope) {
    match scope
    case Personal(a) => row.accountId == Some(a) && row.organizationId == None
    case Shared(o) => row.organizationId == Some(o)
  }

  function ScopeIds(rows: map<Id, Row>, scope: Scope): set<Id> {
    set k | k in rows && InScope(rows[k], scope)
  }

  function SortKey(rows: map<Id, Row>): map<Id, int> {
    map k | k in rows :: rows[k].sortOrder
  }

  /** The list a user of this scope sees. */
  ghost function Order(rows: map<Id, Row>, scope: Scope): (s: seq<Id>)
    ensures Enumerates(s, ScopeIds(rows, scope))
  {
    Ordered(ScopeIds(rows, scope), SortKey(rows))
  }

  predicate Valid(t: Table) {
    forall k :: k in t.rows ==> k < t.next
  }

  // ---------------------------------------------------------------- operations

  function NewRow(scope: Scope, content: string, sortOrder: int): Row {
    match scope
    case Personal(a) => Row(content, Some(a), None, sortOrder)
    case Shared(o) => Row(content, None, Some(o), sortOrder)
  }

  /** `max("sortOrder") || 0`: an empty scope has no maximum. */
  predicate IsMaxOrZero(m: int, rows: map<Id, Row>, scope: Scope) {
    var ids := ScopeIds(rows, scope);
    && (forall k :: k in ids ==> rows[k].sortOrder <= m)
    && if ids == {} then m == 0 else exists k :: k in ids && rows[k].sortOrder == m
  }

  lemma MaxExists(rows: map<Id, Row>, ids: set<Id>) returns (k: Id)
    requires ids != {} && ids <= rows.Keys
    ensures k in ids && forall j :: j in ids ==> rows[j].sortOrder <= rows[k].sortOrder
  {
    k :| k in ids;
    var rest := ids - {k};
    assert forall j :: j in ids ==> j == k || j in rest;
    if rest != {} {
      var j := MaxExists(rows, rest);
      if rows[k].sortOrder < rows[j].sortOrder { k := j; }
    }
  }

  ghost function MaxOrZero(rows: map<Id, Row>, scope: Scope): (m: int)
    ensures IsMaxOrZero(m, rows, scope)
  {
    MaxOrZeroExists(rows, scope);
    var m :| IsMaxOrZero(m, rows, scope);
    m
  }

  lemma MaxOrZeroExists(rows: map<Id, Row>, scope: Scope)
    ensures exists m :: IsMaxOrZero(m, rows, scope)
  {
    var ids := ScopeIds(rows, scope);
    if ids == {} {
      assert IsMaxOrZero(0, rows, scope);
    } else {
      var k := MaxExists(rows, ids);
      assert IsMaxOrZero(rows[k].sortOrder, rows, scope);
    }
  }

  ghost function CreateItem(t: Table, scope: Scope, content: string): Table {
    Table(t.rows[t.next := NewRow(scope, content, MaxOrZero(t.rows, scope) + 1)], t.next + 1)
  }

  function RemoveItem(t: Table, scope: Scope, id: Id): (Table, Answer) {
    if id in ScopeIds(t.rows, scope) then (t.(rows := t.rows - {id}), Success) else (t, NotFound)
  }

  function EditItem(t: Table, scope: Scope, id: Id, content: string): (Table, Answer) {
    if id in ScopeIds(t.rows, scope)
    then (t.(rows := t.rows[id := t.rows[id].(content := content)]), Success)
    else (t, NotFound)
  }

  /** `sortOrder: index + 1` for every row of the list. */
  function Numbered(rows: map<Id, Row>, s: seq<Id>): (r: map<Id, Row>)
    ensures r.Keys == rows.Keys
  {
    map k | k in rows :: if k in s then rows[k].(sortOrder := IndexOf(s, k) + 1) else rows[k]
  }

  /** A missing target and the item itself are no moves; the target must be in the same list. */
  ghost function RepositionItem(t: Table, scope: Scope, id: Id, target: Option<Id>): (Table, Answer) {
    if target == None || target == Some(id) then (t, Success)
    else
      var all := Order(t.rows, scope);
      if id !in all || target.value !in all then (t, NotFound)
      else (t.(rows := Numbered(t.rows, Move(all, IndexOf(all, id), IndexOf(all, target.value)))), Success)
  }

  // ---------------------------------------------------------------- the list each operation leaves

  /** A row outside the scope does not influence the list. */
  lemma OrderFrame(rows: map<Id, Row>, after: map<Id, Row>, scope: Scope)
    requires ScopeIds(rows, scope) == ScopeIds(after, scope)
    requires forall k :: k in ScopeIds(rows, scope) ==> rows[k].sortOrder == after[k].sortOrder
    ensures Order(rows, scope) == Order(after, scope)
  {
    OrderedUnique(Order(rows, scope), ScopeIds(after, scope), SortKey(after));
  }

  /** Positions 1, 2, 3, … in list order. */
  predicate IsNumbered(rows: map<Id, Row>, s: seq<Id>) {
    forall i :: 0 <= i < |s| ==> s[i] in rows && rows[s[i]].sortOrder == i + 1
  }

  lemma NumberedIs(rows: map<Id, Row>, s: seq<Id>)
    requires Distinct(s) && forall k :: k in s ==> k in rows
    ensures IsNumbered(Numbered(rows, s), s)
  {
    forall i | 0 <= i < |s|
      ensures s[i] in rows && Numbered(rows, s)[s[i]].sortOrder == i + 1
    {
      assert s[i] in s;
      IndexOfUnique(s, i);
    }
  }

  lemma NumberedAscends(rows: map<Id, Row>, s: seq<Id>)
    requires IsNumbered(rows, s)
    ensures Ascending(s, SortKey(rows))
  {
  }

  lemma NumberedElsewhere(rows: map<Id, Row>, scope: Scope, other: Scope, s: seq<Id>)
    requires other != scope && forall k :: k in s ==> k in ScopeIds(rows, scope)
    ensures Order(Numbered(rows, s), other) == Order(rows, other)
  {
    var after := Numbered(rows, s);
    assert ScopeIds(after, other) == ScopeIds(rows, other);
    forall k | k in ScopeIds(rows, other)
      ensures rows[k].sortOrder == after[k].sortOrder
    {
      assert k !in ScopeIds(rows, scope);
    }
    OrderFrame(rows, after, other);
  }

  lemma NumberedOrder(rows: map<Id, Row>, scope: Scope, s: seq<Id>)
    requires Enumerates(s, ScopeIds(rows, scope))
    ensures Order(Numbered(rows, s), scope) == s && IsNumbered(Numbered(rows, s), s)
    ensures forall other :: other != scope ==> Order(Numbered(rows, s), other) == Order(rows, other)
  {
    var after := Numbered(rows, s);
    assert ScopeIds(after, scope) == ScopeIds(rows, scope);
    NumberedIs(rows, s);
    NumberedAscends(after, s);
    OrderedUnique(s, ScopeIds(after, scope), SortKey(after));
    forall other | other != scope
      ensures Order(after, other) == Order(rows, other)
    {
      NumberedElsewhere(rows, scope, other, s);
    }
  }

  /** A new item is the last of its list; no other list changes. */
  lemma CreateAppends(t: Table, scope: Scope, content: string)
    requires Valid(t)
    ensures var u := CreateItem(t, scope, content);
            && Valid(u)
            && Order(u.rows, scope) == Order(t.rows, scope) + [t.next]
            && forall other :: other != scope ==> Order(u.rows, other) == Order(t.rows, other)
  {
    var u := CreateItem(t, scope, content);
    var s := Order(t.rows, scope);
    assert t.next !in t.rows;
    assert ScopeIds(u.rows, scope) == ScopeIds(t.rows, scope) + {t.next};
    EnumeratesAppend(s, ScopeIds(t.rows, scope), t.next);
    AppendAscends(s, SortKey(t.rows), SortKey(u.rows), t.next);
    OrderedUnique(s + [t.next], ScopeIds(u.rows, scope), SortKey(u.rows));
    forall other | other != scope
      ensures Order(u.rows, other) == Order(t.rows, other)
    {
      CreateElsewhere(t, scope, content, other);
    }
  }

  lemma CreateElsewhere(t: Table, scope: Scope, content: string, other: Scope)
    requires Valid(t) && other != scope
    ensures Order(CreateItem(t, scope, content).rows, other) == Order(t.rows, other)
  {
    var u := CreateItem(t, scope, content);
    assert ScopeIds(u.rows, other) == ScopeIds(t.rows, other);
    OrderFrame(t.rows, u.rows, other);
  }

  lemma AppendAscends(s: seq<Id>, key: map<Id, int>, after: map<Id, int>, x: Id)
    requires Ascending(s, key) && x in after
    requires forall k :: k in s ==> k in after && after[k] == key[k] && after[k] < after[x]
    ensures Ascending(s + [x], after)
  {
    assert forall k :: k in s + [x] <==> k in s || k == x;
  }

  lemma RemoveAscends(s: seq<Id>, key: map<Id, int>, after: map<Id, int>, i: nat)
    requires Ascending(s, key) && i < |s|
    requires forall j :: 0 <= j < |s| && j != i ==> s[j] in after && after[s[j]] == key[s[j]]
    ensures Ascending(RemoveAt(s, i), after)
  {
    var r := RemoveAt(s, i);
    assert forall j :: 0 <= j < |r| ==> r[j] == s[if j < i then j else j + 1];
  }

  lemma AscendingWithout(s: seq<Id>, ids: set<Id>, key: map<Id, int>, after: map<Id, int>, x: Id)
    requires Enumerates(s, ids) && Ascending(s, key) && x in s
    requires forall k :: k in s && k != x ==> k in after && after[k] == key[k]
    ensures Enumerates(Without(s, x), ids - {x}) && Ascending(Without(s, x), after)
  {
    WithoutDistinct(s, x);
    WithoutIs(s, x);
    RemoveAscends(s, key, after, IndexOf(s, x));
  }

  /** Removing an item closes the gap it leaves. */
  lemma RemoveTakesOut(t: Table, scope: Scope, id: Id)
    ensures var u := RemoveItem(t, scope, id).0;
            && Order(u.rows, scope) == Without(Order(t.rows, scope), id)
            && forall other :: other != scope ==> Order(u.rows, other) == Order(t.rows, other)
  {
    var u := RemoveItem(t, scope, id).0;
    var s := Order(t.rows, scope);
    if id in s {
      assert ScopeIds(u.rows, scope) == ScopeIds(t.rows, scope) - {id};
      AscendingWithout(s, ScopeIds(t.rows, scope), SortKey(t.rows), SortKey(u.rows), id);
      OrderedUnique(Without(s, id), ScopeIds(u.rows, scope), SortKey(u.rows));
      forall other | other != scope
        ensures Order(u.rows, other) == Order(t.rows, other)
      {
        assert ScopeIds(u.rows, other) == ScopeIds(t.rows, other);
        OrderFrame(t.rows, u.rows, other);
      }
    } else {
      WithoutIs(s, id);
    }
  }

  lemma EditKeepsOrder(t: Table, scope: Scope, id: Id, content: string)
    ensures forall any :: Order(EditItem(t, scope, id, content).0.rows, any) == Order(t.rows, any)
  {
    var u := EditItem(t, scope, id, content).0;
    forall any
      ensures Order(u.rows, any) == Order(t.rows, any)
    {
      assert ScopeIds(u.rows, any) == ScopeIds(t.rows, any);
      OrderFrame(t.rows, u.rows, any);
    }
  }

  /** What the list operation does to a list; `NotFound` leaves it alone. */
  function Moved(s: seq<Id>, id: Id, target: Option<Id>): seq<Id> {
    if target == None || id !in s || target.value !in s then s
    else Move(s, IndexOf(s, id), IndexOf(s, target.value))
  }

  predicate OnlySortOrdersDiffer(rows: map<Id, Row>, after: map<Id, Row>) {
    && after.Keys == rows.Keys
    && forall k :: k in rows ==> after[k] == rows[k].(sortOrder := after[k].sortOrder)
  }

  lemma MoveRows(rows: map<Id, Row>, scope: Scope, from: nat, to: nat)
    requires from < |Order(rows, scope)| && to < |Order(rows, scope)|
    ensures var s := Move(Order(rows, scope), from, to);
            var after := Numbered(rows, s);
            && Order(after, scope) == s && IsNumbered(after, s)
            && OnlySortOrdersDiffer(rows, after)
    ensures forall other :: other != scope
              ==> Order(Numbered(rows, Move(Order(rows, scope), from, to)), other) == Order(rows, other)
  {
    MoveDistinct(Order(rows, scope), from, to);
    NumberedOrder(rows, scope, Move(Order(rows, scope), from, to));
  }

  lemma MoveNowhere(s: seq<Id>, id: Id)
    ensures Moved(s, id, Some(id)) == s
  {
    if id in s {
      RemoveAtParts(s, IndexOf(s, id));
    }
  }

  /**
   Repositioning moves the one item to its target's place in the list of its scope, renumbers that
   list 1, 2, 3, …, and touches nothing else: no other list, no row's text or owner.
   */
  lemma RepositionMoves(t: Table, scope: Scope, id: Id, target: Option<Id>)
    ensures var u := RepositionItem(t, scope, id, target).0;
            && u.next == t.next
            && OnlySortOrdersDiffer(t.rows, u.rows)
            && Order(u.rows, scope) == Moved(Order(t.rows, scope), id, target)
            && (u != t ==> IsNumbered(u.rows, Order(u.rows, scope)))
    ensures forall other :: other != scope
              ==> Order(RepositionItem(t, scope, id, target).0.rows, other) == Order(t.rows, other)
  {
    var all := Order(t.rows, scope);
    if target == Some(id) {
      MoveNowhere(all, id);
    } else if target != None && id in all && target.value in all {
      MoveRows(t.rows, scope, IndexOf(all, id), IndexOf(all, target.value));
    }
  }

  lemma IndexesAfterMove(s: seq<Id>, i: nat, j: nat)
    requires Distinct(s) && i < |s| && j < |s|
    ensures var mid := Move(s, i, j);
            && s[i] in mid && IndexOf(mid, s[i]) == j
            && mid[i] in mid && IndexOf(mid, mid[i]) == i
  {
    var mid := Move(s, i, j);
    MoveIs(s, i, j);
    MoveDistinct(s, i, j);
    IndexOfUnique(mid, j);
    IndexOfUnique(mid, i);
  }

  lemma MovedBack(s: seq<Id>, id: Id, target: Id)
    requires Distinct(s) && id in s && target in s
    ensures var mid := Moved(s, id, Some(target));
            |mid| == |s| && Moved(mid, id, Some(mid[IndexOf(s, id)])) == s
  {
    var i, j := IndexOf(s, id), IndexOf(s, target);
    IndexesAfterMove(s, i, j);
    MoveBack(s, i, j);
  }

  /** The item that took the moved item's old place is the target that undoes the move. */
  lemma RepositionBack(t: Table, scope: Scope, id: Id, target: Id)
    requires id in Order(t.rows, scope) && target in Order(t.rows, scope)
    ensures var before := Order(t.rows, scope);
            var u := RepositionItem(t, scope, id, Some(target)).0;
            var i := IndexOf(before, id);
            && |Order(u.rows, scope)| == |before|
            && Order(RepositionItem(u, scope, id, Some(Order(u.rows, scope)[i])).0.rows, scope) == before
  {
    var before := Order(t.rows, scope);
    MovedBack(before, id, target);
    RepositionMoves(t, scope, id, Some(target));
    var u := RepositionItem(t, scope, id, Some(target)).0;
    RepositionMoves(u, scope, id, Some(Order(u.rows, scope)[IndexOf(before, id)]));
  }

  // ---------------------------------------------------------------- runs

  /** Whose item it is, and what it says. */
  datatype Item = Item(owner: Scope, content: string)

  /** A row belongs to an account or to an organization. */
  predicate OneOwner(row: Row) {
    row.accountId.Some? != row.organizationId.Some?
  }

  function ItemOf(row: Row): Item
    requires OneOwner(row)
  {
    Item(if row.organizationId.Some? then Shared(row.organizationId.value) else Personal(row.accountId.value), row.content)
  }

  predicate Shows(t: Table, items: map<Id, Item>) {
    && t.rows.Keys == items.Keys
    && forall k :: k in t.rows ==> OneOwner(t.rows[k]) && ItemOf(t.rows[k]) == items[k]
  }

  /** The same operation on items without an order: only the owner's operations have an effect. */
  function ItemStep(items: map<Id, Item>, next: Id, op: Op): map<Id, Item> {
    match op
    case Create(scope, content) => items[next := Item(scope, content)]
    case Remove(scope, id) => if id in items && items[id].owner == scope then items - {id} else items
    case Edit(scope, id, content) => if id in items && items[id].owner == scope then items[id := Item(scope, content)] else items
    case Reposition(_, _, _) => items
  }

  function ItemRun(items: map<Id, Item>, next: Id, ops: seq<Op>): map<Id, Item>
    decreases |ops|
  {
    if ops == [] then items else ItemRun(ItemStep(items, next, ops[0]), NextId(next, ops[0]), ops[1..])
  }

  lemma StepShows(t: Table, items: map<Id, Item>, op: Op)
    requires Valid(t) && Shows(t, items)
    ensures Shows(Apply(t, op), ItemStep(items, t.next, op)) && Apply(t, op).next == NextId(t.next, op)
  {
    match op
    case Create(at, content) =>
    case Remove(at, id) => ScopeOfItem(t, items, at, id);
    case Edit(at, id, content) => ScopeOfItem(t, items, at, id);
    case Reposition(at, id, target) => MoveShows(t, items, at, id, target);
  }

  lemma ScopeOfItem(t: Table, items: map<Id, Item>, scope: Scope, id: Id)
    requires Shows(t, items)
    ensures id in ScopeIds(t.rows, scope) <==> id in items && items[id].owner == scope
  {
  }

  lemma MoveShows(t: Table, items: map<Id, Item>, scope: Scope, id: Id, target: Option<Id>)
    requires Valid(t) && Shows(t, items)
    ensures Shows(RepositionItem(t, scope, id, target).0, items)
  {
    RepositionMoves(t, scope, id, target);
  }

  /** After any run each item has the owner and the content it was last given, and who does not own it changed nothing. */
  lemma {:induction false} TableRefinesItems(t: Table, items: map<Id, Item>, ops: seq<Op>)
    requires Valid(t) && Shows(t, items)
    ensures Shows(Run(t, ops), ItemRun(items, t.next, ops))
    decreases |ops|
  {
    if ops != [] {
      StepShows(t, items, ops[0]);
      ApplyIsListStep(t, ops[0], ops[0].scope);
      TableRefinesItems(Apply(t, ops[0]), ItemStep(items, t.next, ops[0]), ops[1..]);
    }
  }

  datatype Op =
    | Create(scope: Scope, content: string)
    | Remove(scope: Scope, id: Id)
    | Edit(scope: Scope, id: Id, content: string)
    | Reposition(scope: Scope, id: Id, target: Option<Id>)

  ghost function Apply(t: Table, op: Op): Table {
    match op
    case Create(scope, content) => CreateItem(t, scope, content)
    case Remove(scope, id) => RemoveItem(t, scope, id).0
    case Edit(scope, id, content) => EditItem(t, scope, id, content).0
    case Reposition(scope, id, target) => RepositionItem(t, scope, id, target).0
  }

  ghost function Run(t: Table, ops: seq<Op>): Table
    decreases |ops|
  {
    if ops == [] then t else Run(Apply(t, ops[0]), ops[1..])
  }

  /** The same operation on a plain list, which ignores those of other scopes. */
  function ListStep(s: seq<Id>, next: Id, scope: Scope, op: Op): seq<Id> {
    if op.scope != scope then s
    else match op
      case Create(_, _) => s + [next]
      case Remove(_, id) => Without(s, id)
      case Edit(_, _, _) => s
      case Reposition(_, id, target) => Moved(s, id, target)
  }

  function NextId(next: Id, op: Op): Id {
    if op.Create? then next + 1 else next
  }

  function ListRun(s: seq<Id>, next: Id, scope: Scope, ops: seq<Op>): seq<Id>
    decreases |ops|
  {
    if ops == [] then s
    else ListRun(ListStep(s, next, scope, ops[0]), NextId(next, ops[0]), scope, ops[1..])
  }

  lemma ApplyIsListStep(t: Table, op: Op, scope: Scope)
    requires Valid(t)
    ensures var u := Apply(t, op);
            && Valid(u)
            && Order(u.rows, scope) == ListStep(Order(t.rows, scope), t.next, scope, op)
            && u.next == NextId(t.next, op)
  {
    match op
    case Create(at, content) => CreateAppends(t, at, content);
    case Remove(at, id) => RemoveTakesOut(t, at, id);
    case Edit(at, id, content) => EditKeepsOrder(t, at, id, content);
    case Reposition(at, id, target) => RepositionMoves(t, at, id, target);
  }

  /**
   The table with its sort numbers refines one plain list per scope: after any run, in whatever mix of
   scopes, each scope shows what the list operations alone would give.
   */
  lemma {:induction false} TableRefinesLists(t: Table, ops: seq<Op>, scope: Scope)
    requires Valid(t)
    ensures Valid(Run(t, ops))
    ensures Order(Run(t, ops).rows, scope) == ListRun(Order(t.rows, scope), t.next, scope, ops)
    decreases |ops|
  {
    if ops != [] {
      ApplyIsListStep(t, ops[0], scope);
      TableRefinesLists(Apply(t, ops[0]), ops[1..], scope);
    }
  }

  // ---------------------------------------------------------------- the controller

  class Controller {
    var table: Table

    method Create(scope: Scope, content: string) returns (id: Id)
      requires Valid(table)
      modifies this
      ensures Valid(table) && id == old(table.next)
      ensures table == CreateItem(old(table), scope, content)
    {
      var rest := ScopeIds(table.rows, scope);
      var maxSortOrder := 0;
      var any := false;
      while rest != {}
        invariant rest <= ScopeIds(table.rows, scope) && table == old(table)
        invariant any <==> rest != ScopeIds(table.rows, scope)
        invariant forall k :: k in ScopeIds(table.rows, scope) - rest ==> table.rows[k].sortOrder <= maxSortOrder
        invariant if any then exists k :: k in ScopeIds(table.rows, scope) && table.rows[k].sortOrder == maxSortOrder
                  else maxSortOrder == 0
      {
        var k :| k in rest;
        if !any || maxSortOrder < table.rows[k].sortOrder {
          maxSortOrder := table.rows[k].sortOrder;
        }
        rest, any := rest - {k}, true;
      }
      assert IsMaxOrZero(maxSortOrder, table.rows, scope);
      MaxUnique(maxSortOrder, table.rows, scope);
      id := table.next;
      table := Table(table.rows[id := NewRow(scope, content, maxSortOrder + 1)], id + 1);
    }

    method Remove(scope: Scope, id: Id) returns (answer: Answer)
      modifies this
      ensures (table, answer) == RemoveItem(old(table), scope, id)
    {
      if id !in table.rows || !InScope(table.rows[id], scope) {
        return NotFound;
      }
      table := table.(rows := table.rows - {id});
      answer := Success;
    }

    method Edit(scope: Scope, id: Id, content: string) returns (answer: Answer)
      modifies this
      ensures (table, answer) == EditItem(old(table), scope, id, content)
    {
      if id !in table.rows || !InScope(table.rows[id], scope) {
        return NotFound;
      }
      table := table.(rows := table.rows[id := table.rows[id].(content := content)]);
      answer := Success;
    }

    method Reposition(scope: Scope, id: Id, target: Option<Id>) returns (answer: Answer)
      modifies this
      ensures (table, answer) == RepositionItem(old(table), scope, id, target)
    {
      if target == None || target == Some(id) {
        return Success;
      }
      if id !in table.rows || !InScope(table.rows[id], scope) {
        return NotFound;
      }
      var all := FindAllAscending(ScopeIds(table.rows, scope), SortKey(table.rows));
      var from := FindIndex(all, id);
      var to := FindIndex(all, target.value);
      if from == -1 || to == -1 {
        return NotFound;
      }
      MovedByIndex(table.rows, scope, id, target.value, from, to);
      var item := all[from];
      all := all[..from] + all[from + 1..];
      all := all[..to] + [item] + all[to..];
      WriteNumbers(all);
      answer := Success;
    }

    method WriteNumbers(all: seq<Id>)
      requires Distinct(all) && forall k :: k in all ==> k in table.rows
      modifies this
      ensures table == old(table).(rows := Numbered(old(table.rows), all))
    {
      var i := 0;
      while i < |all|
        invariant 0 <= i <= |all|
        invariant table.next == old(table.next)
        invariant table.rows == Numbered(old(table.rows), all[..i])
      {
        NumberedStep(old(table.rows), all, i);
        table := table.(rows := table.rows[all[i] := table.rows[all[i]].(sortOrder := i + 1)]);
        i := i + 1;
      }
      assert all[..i] == all;
    }
  }

  lemma MovedByIndex(rows: map<Id, Row>, scope: Scope, id: Id, target: Id, from: nat, to: nat)
    requires var all := Order(rows, scope); from < |all| && to < |all| && all[from] == id && all[to] == target
    ensures var all := Order(rows, scope);
            && IndexOf(all, id) == from && IndexOf(all, target) == to
            && Distinct(Move(all, from, to)) && forall k :: k in Move(all, from, to) ==> k in rows
  {
    var all := Order(rows, scope);
    IndexOfUnique(all, from);
    IndexOfUnique(all, to);
    MoveDistinct(all, from, to);
  }

  lemma MaxUnique(m: int, rows: map<Id, Row>, scope: Scope)
    requires IsMaxOrZero(m, rows, scope)
    ensures m == MaxOrZero(rows, scope)
  {
  }

  lemma NumberedStep(rows: map<Id, Row>, all: seq<Id>, i: nat)
    requires Distinct(all) && i < |all| && all[i] in rows
    ensures Numbered(rows, all[..i + 1])
            == Numbered(rows, all[..i])[all[i] := Numbered(rows, all[..i])[all[i]].(sortOrder := i + 1)]
  {
    var a, b := all[..i], all[..i + 1];
    assert b == a + [all[i]];
    IndexOfUnique(b, i);
    forall k | k in a
      ensures k in b && IndexOf(b, k) == IndexOf(a, k)
    {
      var j := IndexOf(a, k);
      assert b[j] == k;
      IndexOfUnique(b, j);
    }
  }

  method FindIndex(s: seq<Id>, id: Id) returns (i: int)
    ensures if id in s then 0 <= i < |s| && s[i] == id else i == -1
  {
    i := 0;
    while i < |s|
      invariant 0 <= i <= |s| && id !in s[..i]
    {
      if s[i] == id { return; }
      i := i + 1;
    }
    i := -1;
  }
}
