/**
 The state sockets of signed-in browsers (server/lib/StateBroadcaster.js): an index by account, an index
 by sign-in session, forced logout through either, and debounced state broadcasts.
 */
module Broadcaster {
  import opened Wrappers
  import opened Lists

  /** `id` is the identity of the object that `register` creates. */
  datatype Conn = Conn(id: Id, ws: Id, sessionId: Id)

  datatype Key = Key(account: Id, stateType: string)

  datatype Timer = Timer(key: Key, due: int)

  /**
   `told` collects the connections that were sent a logout, `changed` when a key last changed, and
   `dirty` the keys whose last change no send has followed.
   */
  datatype State = State(
    connections: map<Id, seq<Conn>>, sessionIndex: map<Id, set<Conn>>, nextConn: Id, told: set<Conn>,
    pending: map<Key, Id>, timers: map<Id, Timer>, nextTimer: Id, changed: map<Key, int>, dirty: set<Key>, clock: int)

  const DEBOUNCE_DELAY := 100

  // ---------------------------------------------------------------- connections

  function ConnsOf(connections: map<Id, seq<Conn>>, account: Id): seq<Conn> {
    if account in connections then connections[account] else []
  }

  function SessionConns(index: map<Id, set<Conn>>, sessionId: Id): set<Conn> {
    if sessionId in index then index[sessionId] else {}
  }

  function Register(s: State, account: Id, sessionId: Id, ws: Id): State {
    var conn := Conn(s.nextConn, ws, sessionId);
    s.(connections := s.connections[account := ConnsOf(s.connections, account) + [conn]],
       sessionIndex := s.sessionIndex[sessionId := SessionConns(s.sessionIndex, sessionId) + {conn}],
       nextConn := s.nextConn + 1)
  }

  /** Taking out the last connection of a session takes the session out. */
  function Dropped(index: map<Id, set<Conn>>, conn: Conn): map<Id, set<Conn>> {
    if conn.sessionId !in index then index
    else
      var left := index[conn.sessionId] - {conn};
      if left == {} then index - {conn.sessionId} else index[conn.sessionId := left]
  }

  /** The position of the first connection of a socket, or the length. */
  function FirstOf(conns: seq<Conn>, ws: Id): (i: nat)
    ensures i <= |conns| && (i < |conns| ==> conns[i].ws == ws)
    ensures forall j :: 0 <= j < i ==> conns[j].ws != ws
  {
    if conns == [] || conns[0].ws == ws then 0 else 1 + FirstOf(conns[1..], ws)
  }

  function Unregister(s: State, account: Id, ws: Id): State {
    var conns := ConnsOf(s.connections, account);
    var i := FirstOf(conns, ws);
    if i == |conns| then s
    else
      var left := RemoveAt(conns, i);
      s.(connections := if left == [] then s.connections - {account} else s.connections[account := left],
         sessionIndex := Dropped(s.sessionIndex, conns[i]))
  }

  /** The loop of `forceLogout`; a session id of 0 is falsy and is skipped. */
  function DroppedAll(index: map<Id, set<Conn>>, conns: seq<Conn>): map<Id, set<Conn>>
    decreases |conns|
  {
    if conns == [] then index
    else
      var last := conns[|conns| - 1];
      var rest := DroppedAll(index, conns[..|conns| - 1]);
      if last.sessionId == 0 then rest else Dropped(rest, last)
  }

  function ForceLogout(s: State, account: Id): State {
    var conns := ConnsOf(s.connections, account);
    if conns == [] then s
    else
      s.(connections := s.connections - {account}, sessionIndex := DroppedAll(s.sessionIndex, conns),
         told := s.told + Elements(conns))
  }

  /** The sockets stay in the account index until they close. */
  function ForceLogoutSession(s: State, sessionId: Id): State {
    var conns := SessionConns(s.sessionIndex, sessionId);
    if conns == {} then s
    else s.(sessionIndex := s.sessionIndex - {sessionId}, told := s.told + conns)
  }

  // ---------------------------------------------------------------- debounce

  function Schedule(s: State, key: Key): State {
    var cleared := if key in s.pending then s.timers - {s.pending[key]} else s.timers;
    s.(timers := cleared[s.nextTimer := Timer(key, s.clock + DEBOUNCE_DELAY)], pending := s.pending[key := s.nextTimer],
       nextTimer := s.nextTimer + 1, changed := s.changed[key := s.clock], dirty := s.dirty + {key})
  }

  function Fire(s: State, timer: Id): State
    requires timer in s.timers
  {
    var key := s.timers[timer].key;
    s.(timers := s.timers - {timer}, pending := s.pending - {key}, dirty := s.dirty - {key})
  }

  // ---------------------------------------------------------------- runs

  /** `state.js` registers a resolved sign-in session, whose database id is not 0. */
  datatype Op =
    | OpRegister(account: Id, sessionId: Id, ws: Id)
    | OpUnregister(account: Id, ws: Id)
    | OpForceLogout(account: Id)
    | OpForceLogoutSession(sessionId: Id)
    | OpChange(key: Key)
    | OpFire(timer: Id)
    | OpTick(now: int)

  /** Only connected accounts are scheduled, and a timer fires when it is due, not before. */
  predicate Enabled(s: State, op: Op) {
    match op
    case OpRegister(_, sessionId, _) => sessionId != 0
    case OpChange(key) => key.account in s.connections
    case OpFire(timer) => timer in s.timers && s.timers[timer].due <= s.clock
    case OpTick(now) => s.clock <= now
    case _ => true
  }

  function Apply(s: State, op: Op): State
    requires Enabled(s, op)
  {
    match op
    case OpRegister(account, sessionId, ws) => Register(s, account, sessionId, ws)
    case OpUnregister(account, ws) => Unregister(s, account, ws)
    case OpForceLogout(account) => ForceLogout(s, account)
    case OpForceLogoutSession(sessionId) => ForceLogoutSession(s, sessionId)
    case OpChange(key) => Schedule(s, key)
    case OpFire(timer) => Fire(s, timer)
    case OpTick(now) => s.(clock := now)
  }

  predicate IsRun(s: State, ops: seq<Op>)
    decreases |ops|
  {
    ops != [] ==> Enabled(s, ops[0]) && IsRun(Apply(s, ops[0]), ops[1..])
  }

  function Run(s: State, ops: seq<Op>): State
    requires IsRun(s, ops)
    decreases |ops|
  {
    if ops == [] then s else Run(Apply(s, ops[0]), ops[1..])
  }

  const START := State(map[], map[], 0, {}, map[], map[], 0, map[], {}, 0)

  // ---------------------------------------------------------------- invariants

  /** All connections of all accounts. */
  function Listed(connections: map<Id, seq<Conn>>): set<Conn> {
    set a, c | a in connections && c in connections[a] :: c
  }

  /** No stored list is empty, and a connection is listed once, under one account. */
  predicate AccountsOk(connections: map<Id, seq<Conn>>, nextConn: Id) {
    && (forall a :: a in connections ==> connections[a] != [] && Distinct(connections[a]))
    && (forall a, c :: a in connections && c in connections[a] ==> c.id < nextConn && c.sessionId != 0)
    && (forall a, b, c :: a in connections && b in connections && c in connections[a] && c in connections[b] ==> a == b)
  }

  /** No stored set is empty, and what a session lists is its own and listed by an account. */
  predicate SessionsOk(listed: set<Conn>, index: map<Id, set<Conn>>) {
    && (forall sid :: sid in index ==> index[sid] != {})
    && (forall sid, c :: sid in index && c in index[sid] ==> c.sessionId == sid && c in listed)
  }

  /** A connection that its session no longer lists has been told to log out. */
  predicate ReachableOrTold(listed: set<Conn>, index: map<Id, set<Conn>>, told: set<Conn>) {
    forall c :: c in listed ==> c in SessionConns(index, c.sessionId) || c in told
  }

  /** Every armed timer is the pending one of its key, due a delay after the key's last change. */
  predicate TimersOk(s: State) {
    && (forall t :: t in s.timers ==> t < s.nextTimer && s.timers[t].key in s.pending && s.pending[s.timers[t].key] == t)
    && (forall k :: k in s.pending ==>
          && s.pending[k] in s.timers && s.timers[s.pending[k]].key == k
          && k in s.changed && s.timers[s.pending[k]].due == s.changed[k] + DEBOUNCE_DELAY)
    && (forall k :: k in s.dirty ==> k in s.pending)
  }

  predicate Inv(s: State) {
    && AccountsOk(s.connections, s.nextConn)
    && SessionsOk(Listed(s.connections), s.sessionIndex)
    && ReachableOrTold(Listed(s.connections), s.sessionIndex, s.told)
    && TimersOk(s)
  }

  // ---------------------------------------------------------------- the account index

  lemma ListedUpdate(connections: map<Id, seq<Conn>>, account: Id, conns: seq<Conn>, nextConn: Id)
    requires AccountsOk(connections, nextConn)
    ensures Listed(connections[account := conns])
            == Listed(connections) - Elements(ConnsOf(connections, account)) + Elements(conns)
    ensures Listed(connections - {account}) == Listed(connections) - Elements(ConnsOf(connections, account))
  {
    var after := connections[account := conns];
    forall c
      ensures c in Listed(after) <==> c in Listed(connections) - Elements(ConnsOf(connections, account)) + Elements(conns)
    {
      if c in conns {
        assert account in after && c in after[account];
      } else if c in Listed(connections) && c !in ConnsOf(connections, account) {
        var a :| a in connections && c in connections[a];
        assert a in after && c in after[a];
      }
    }
    var less := connections - {account};
    forall c
      ensures c in Listed(less) <==> c in Listed(connections) - Elements(ConnsOf(connections, account))
    {
      if c in Listed(connections) && c !in ConnsOf(connections, account) {
        var a :| a in connections && c in connections[a];
        assert a in less && c in less[a];
      }
    }
  }

  lemma AccountsAppend(connections: map<Id, seq<Conn>>, account: Id, conn: Conn)
    requires AccountsOk(connections, conn.id) && conn.sessionId != 0
    ensures AccountsOk(connections[account := ConnsOf(connections, account) + [conn]], conn.id + 1)
  {
    var after := connections[account := ConnsOf(connections, account) + [conn]];
    forall a | a in connections
      ensures conn !in connections[a]
    {
    }
    assert forall c :: c in after[account] <==> c in ConnsOf(connections, account) || c == conn;
  }

  lemma RemovedElements(conns: seq<Conn>, i: nat)
    requires Distinct(conns) && i < |conns|
    ensures Distinct(RemoveAt(conns, i)) && Elements(RemoveAt(conns, i)) == Elements(conns) - {conns[i]}
  {
    IndexOfUnique(conns, i);
    WithoutIs(conns, conns[i]);
    WithoutDistinct(conns, conns[i]);
  }

  lemma AccountsShrink(connections: map<Id, seq<Conn>>, account: Id, left: seq<Conn>, nextConn: Id)
    requires AccountsOk(connections, nextConn) && Distinct(left)
    requires Elements(left) <= Elements(ConnsOf(connections, account))
    ensures AccountsOk(connections - {account}, nextConn)
    ensures left != [] ==> AccountsOk(connections[account := left], nextConn)
  {
    forall c | c in left
      ensures account in connections && c in connections[account]
    {
      assert c in Elements(left);
    }
  }

  // ---------------------------------------------------------------- the session index

  lemma DropKeeps(listed: set<Conn>, index: map<Id, set<Conn>>, told: set<Conn>, conn: Conn)
    requires SessionsOk(listed, index) && ReachableOrTold(listed, index, told)
    ensures SessionsOk(listed - {conn}, Dropped(index, conn))
    ensures ReachableOrTold(listed - {conn}, Dropped(index, conn), told)
  {
  }

  lemma {:induction false} DropAllKeeps(listed: set<Conn>, index: map<Id, set<Conn>>, told: set<Conn>, conns: seq<Conn>)
    requires SessionsOk(listed, index) && ReachableOrTold(listed, index, told)
    requires forall c :: c in conns ==> c.sessionId != 0
    ensures SessionsOk(listed - Elements(conns), DroppedAll(index, conns))
    ensures ReachableOrTold(listed - Elements(conns), DroppedAll(index, conns), told)
    decreases |conns|
  {
    if conns == [] {
      assert listed - Elements(conns) == listed;
    } else {
      var front, last := conns[..|conns| - 1], conns[|conns| - 1];
      DropAllKeeps(listed, index, told, front);
      DropKeeps(listed - Elements(front), DroppedAll(index, front), told, last);
      assert conns == front + [last];
      assert listed - Elements(conns) == listed - Elements(front) - {last};
    }
  }

  lemma AddKeeps(listed: set<Conn>, index: map<Id, set<Conn>>, told: set<Conn>, conn: Conn)
    requires SessionsOk(listed, index) && ReachableOrTold(listed, index, told)
    ensures var after := index[conn.sessionId := SessionConns(index, conn.sessionId) + {conn}];
            SessionsOk(listed + {conn}, after) && ReachableOrTold(listed + {conn}, after, told)
  {
  }

  // ---------------------------------------------------------------- every step

  lemma RegisterKeeps(s: State, account: Id, sessionId: Id, ws: Id)
    requires Inv(s) && sessionId != 0
    ensures Inv(Register(s, account, sessionId, ws))
  {
    var conn := Conn(s.nextConn, ws, sessionId);
    var conns := ConnsOf(s.connections, account);
    AccountsAppend(s.connections, account, conn);
    ListedUpdate(s.connections, account, conns + [conn], s.nextConn);
    assert Elements(conns + [conn]) == Elements(conns) + {conn};
    assert Elements(conns) <= Listed(s.connections);
    assert Listed(s.connections) - Elements(conns) + (Elements(conns) + {conn}) == Listed(s.connections) + {conn};
    AddKeeps(Listed(s.connections), s.sessionIndex, s.told, conn);
  }

  lemma UnregisterKeeps(s: State, account: Id, ws: Id)
    requires Inv(s)
    ensures Inv(Unregister(s, account, ws))
  {
    var conns := ConnsOf(s.connections, account);
    var i := FirstOf(conns, ws);
    if i < |conns| {
      var left, listed := RemoveAt(conns, i), Listed(s.connections);
      RemovedElements(conns, i);
      AccountsShrink(s.connections, account, left, s.nextConn);
      ListedUpdate(s.connections, account, left, s.nextConn);
      assert Elements(conns) <= listed && conns[i] in Elements(conns);
      assert listed - Elements(conns) + Elements(left) == listed - {conns[i]};
      assert left == [] ==> Elements(left) == {} && Elements(conns) == {conns[i]};
      DropKeeps(listed, s.sessionIndex, s.told, conns[i]);
    }
  }

  lemma ForceLogoutKeeps(s: State, account: Id)
    requires Inv(s)
    ensures Inv(ForceLogout(s, account))
  {
    var conns := ConnsOf(s.connections, account);
    if conns != [] {
      AccountsShrink(s.connections, account, [], s.nextConn);
      ListedUpdate(s.connections, account, [], s.nextConn);
      DropAllKeeps(Listed(s.connections), s.sessionIndex, s.told, conns);
    }
  }

  lemma StepKeeps(s: State, op: Op)
    requires Inv(s) && Enabled(s, op)
    ensures Inv(Apply(s, op))
  {
    match op
    case OpRegister(account, sessionId, ws) => RegisterKeeps(s, account, sessionId, ws);
    case OpUnregister(account, ws) => UnregisterKeeps(s, account, ws);
    case OpForceLogout(account) => ForceLogoutKeeps(s, account);
    case OpForceLogoutSession(sessionId) => LogoutSessionKeeps(s, sessionId);
    case OpChange(key) => ScheduleKeeps(s, key);
    case OpFire(timer) => FireKeeps(s, timer);
    case OpTick(now) =>
  }

  lemma LogoutSessionKeeps(s: State, sessionId: Id)
    requires Inv(s)
    ensures Inv(ForceLogoutSession(s, sessionId))
  {
  }

  lemma ScheduleKeeps(s: State, key: Key)
    requires TimersOk(s)
    ensures TimersOk(Schedule(s, key))
  {
  }

  lemma FireKeeps(s: State, timer: Id)
    requires TimersOk(s) && timer in s.timers
    ensures TimersOk(Fire(s, timer))
  {
  }

  lemma {:induction false} RunKeeps(s: State, ops: seq<Op>)
    requires Inv(s) && IsRun(s, ops)
    ensures Inv(Run(s, ops))
    decreases |ops|
  {
    if ops != [] {
      StepKeeps(s, ops[0]);
      RunKeeps(Apply(s, ops[0]), ops[1..]);
    }
  }

  // ---------------------------------------------------------------- what callers rely on

  /** The session index is part of the account index, and neither stores an empty set. */
  lemma ReachableIndexes(ops: seq<Op>)
    requires IsRun(START, ops)
    ensures var s := Run(START, ops);
            && (forall a :: a in s.connections ==> s.connections[a] != [])
            && (forall sid :: sid in s.sessionIndex ==> s.sessionIndex[sid] != {})
            && forall sid, c :: sid in s.sessionIndex && c in s.sessionIndex[sid] ==>
                 c.sessionId == sid && exists a :: a in s.connections && c in s.connections[a]
  {
    RunKeeps(START, ops);
    var s := Run(START, ops);
    forall sid, c | sid in s.sessionIndex && c in s.sessionIndex[sid]
      ensures exists a :: a in s.connections && c in s.connections[a]
    {
      assert c in Listed(s.connections);
    }
  }

  /** Logging an account out tells all its connections and leaves none of them in either index. */
  lemma LogoutLeavesNoTrace(ops: seq<Op>, account: Id)
    requires IsRun(START, ops)
    ensures var s := Run(START, ops);
            var after := ForceLogout(s, account);
            && account !in after.connections
            && forall c :: c in ConnsOf(s.connections, account) ==>
                 && c in after.told
                 && (forall a :: a in after.connections ==> c !in after.connections[a])
                 && (forall sid :: sid in after.sessionIndex ==> c !in after.sessionIndex[sid])
  {
    RunKeeps(START, ops);
    var s := Run(START, ops);
    ForceLogoutKeeps(s, account);
    var after := ForceLogout(s, account);
    if ConnsOf(s.connections, account) != [] {
      ListedUpdate(s.connections, account, [], s.nextConn);
    }
    forall c | c in ConnsOf(s.connections, account)
      ensures c !in Listed(after.connections)
    {
    }
  }

  /** Ending a sign-in session tells every connection opened with it, by whichever account. */
  lemma SessionLogoutTellsAll(ops: seq<Op>, sessionId: Id, account: Id, c: Conn)
    requires IsRun(START, ops)
    requires c in ConnsOf(Run(START, ops).connections, account) && c.sessionId == sessionId
    ensures c in ForceLogoutSession(Run(START, ops), sessionId).told
  {
    RunKeeps(START, ops);
    assert c in Listed(Run(START, ops).connections);
  }

  /** A falsy session id would survive: the connection stays in the session index. */
  lemma FalsySessionLeavesTrace(account: Id, ws: Id)
    ensures var s := Register(START, account, 0, ws);
            var after := ForceLogout(s, account);
            account !in after.connections && 0 in after.sessionIndex && after.sessionIndex[0] == {Conn(0, ws, 0)}
  {
    var conns := ConnsOf(Register(START, account, 0, ws).connections, account);
    assert conns == [Conn(0, ws, 0)];
    assert conns[..0] == [];
    assert DroppedAll(Register(START, account, 0, ws).sessionIndex, conns[..0])
        == Register(START, account, 0, ws).sessionIndex;
  }

  /** A change that no send has followed has exactly one timer, due 100 ms after the key's last change. */
  lemma UnsentChangeHasTimer(ops: seq<Op>, key: Key)
    requires IsRun(START, ops) && key in Run(START, ops).dirty
    ensures var s := Run(START, ops);
            && key in s.pending && key in s.changed
            && s.pending[key] in s.timers
            && s.timers[s.pending[key]] == Timer(key, s.changed[key] + DEBOUNCE_DELAY)
            && forall t :: t in s.timers && s.timers[t].key == key ==> t == s.pending[key]
  {
    RunKeeps(START, ops);
  }

  // ---------------------------------------------------------------- the broadcaster

  /** `timers` are the runtime's armed timeouts, and the ghost fields are history. */
  class StateBroadcaster {
    var connections: map<Id, seq<Conn>>
    var sessionIndex: map<Id, set<Conn>>
    var pendingBroadcasts: map<Key, Id>
    var timers: map<Id, Timer>
    var nextConn: Id
    var nextTimer: Id
    var clock: int
    ghost var told: set<Conn>
    ghost var changed: map<Key, int>
    ghost var dirty: set<Key>

    ghost function Now(): State
      reads this
    {
      State(connections, sessionIndex, nextConn, told, pendingBroadcasts, timers, nextTimer, changed, dirty, clock)
    }

    constructor ()
      ensures Now() == START
    {
      connections, sessionIndex, pendingBroadcasts, timers := map[], map[], map[], map[];
      nextConn, nextTimer, clock := 0, 0, 0;
      told, changed, dirty := {}, map[], {};
    }

    method RegisterSocket(accountId: Id, sessionId: Id, ws: Id)
      modifies this
      ensures Now() == Register(old(Now()), accountId, sessionId, ws)
    {
      var conn := Conn(nextConn, ws, sessionId);
      nextConn := nextConn + 1;
      var conns := if accountId in connections then connections[accountId] else [];
      connections := connections[accountId := conns + [conn]];
      var sessionConns := if sessionId in sessionIndex then sessionIndex[sessionId] else {};
      sessionIndex := sessionIndex[sessionId := sessionConns + {conn}];
    }

    method DropFromSession(conn: Conn)
      modifies `sessionIndex
      ensures sessionIndex == Dropped(old(sessionIndex), conn)
    {
      if conn.sessionId in sessionIndex {
        sessionIndex := sessionIndex[conn.sessionId := sessionIndex[conn.sessionId] - {conn}];
        if sessionIndex[conn.sessionId] == {} {
          sessionIndex := sessionIndex - {conn.sessionId};
        }
      }
    }

    method DropConn(accountId: Id, i: nat)
      requires accountId in connections && i < |connections[accountId]|
      modifies `connections, `sessionIndex
      ensures connections == old(connections)[accountId := RemoveAt(old(connections)[accountId], i)]
      ensures sessionIndex == Dropped(old(sessionIndex), old(connections)[accountId][i])
    {
      var conn := connections[accountId][i];
      connections := connections[accountId := RemoveAt(connections[accountId], i)];
      DropFromSession(conn);
    }

    method UnregisterSocket(accountId: Id, ws: Id)
      requires Inv(Now())
      modifies this
      ensures Now() == Unregister(old(Now()), accountId, ws)
    {
      if accountId in connections {
        var conns := connections[accountId];
        var i := 0;
        while i < |conns|
          invariant 0 <= i <= |conns|
          invariant FirstOf(conns, ws) == i + FirstOf(conns[i..], ws)
          invariant Now() == old(Now())
        {
          if conns[i].ws == ws {
            DropConn(accountId, i);
            break;
          }
          i := i + 1;
        }
        if |connections[accountId]| == 0 {
          connections := connections - {accountId};
        }
      }
    }

    method ForceLogoutAccount(accountId: Id)
      modifies this
      ensures Now() == ForceLogout(old(Now()), accountId)
    {
      if accountId !in connections || |connections[accountId]| == 0 {
        return;
      }
      var conns := connections[accountId];
      for i := 0 to |conns|
        invariant sessionIndex == DroppedAll(old(sessionIndex), conns[..i])
        invariant Now() == old(Now()).(sessionIndex := sessionIndex)
      {
        assert conns[..i + 1][..i] == conns[..i];
        if conns[i].sessionId != 0 {
          DropFromSession(conns[i]);
        }
      }
      assert conns[..|conns|] == conns;
      connections := connections - {accountId};
      told := told + Elements(conns);
    }

    method ForceLogoutSignIn(sessionId: Id)
      modifies this
      ensures Now() == ForceLogoutSession(old(Now()), sessionId)
    {
      if sessionId !in sessionIndex || sessionIndex[sessionId] == {} {
        return;
      }
      told := told + sessionIndex[sessionId];
      sessionIndex := sessionIndex - {sessionId};
    }

    method ScheduleBroadcast(key: Key)
      modifies this
      ensures Now() == Schedule(old(Now()), key)
    {
      if key in pendingBroadcasts {
        timers := timers - {pendingBroadcasts[key]};
      }
      timers := timers[nextTimer := Timer(key, clock + DEBOUNCE_DELAY)];
      pendingBroadcasts := pendingBroadcasts[key := nextTimer];
      nextTimer := nextTimer + 1;
      changed, dirty := changed[key := clock], dirty + {key};
    }

    /** The timeout's callback. */
    method OnTimeout(timer: Id) returns (send: Key)
      requires timer in timers
      modifies this
      ensures Now() == Fire(old(Now()), timer) && send == old(timers[timer].key)
    {
      send := timers[timer].key;
      timers := timers - {timer};
      pendingBroadcasts := pendingBroadcasts - {send};
      dirty := dirty - {send};
    }
  }
}
