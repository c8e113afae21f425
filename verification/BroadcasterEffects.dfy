/** Which connections enter and leave the indexes, and who is told, connection by connection. */
module BroadcasterEffects {
  import opened Wrappers
  import opened Lists
  import opened Broadcaster

  /** The connection of `ws` that was registered first. */
  ghost predicate IsFirst(conns: seq<Conn>, ws: Id, c: Conn) {
    exists i :: 0 <= i < |conns| && conns[i] == c && c.ws == ws && forall j :: 0 <= j < i ==> conns[j].ws != ws
  }

  /** A registered connection enters both indexes, and no other one moves. */
  lemma RegisterAdds(s: State, account: Id, sessionId: Id, ws: Id, a: Id, sid: Id, c: Conn)
    ensures var after, conn := Register(s, account, sessionId, ws), Conn(s.nextConn, ws, sessionId);
            && (c in ConnsOf(after.connections, a) <==> c in ConnsOf(s.connections, a) || (a == account && c == conn))
            && (c in SessionConns(after.sessionIndex, sid) <==>
                  c in SessionConns(s.sessionIndex, sid) || (sid == sessionId && c == conn))
            && after.told == s.told && after.nextConn == s.nextConn + 1
  {
  }

  lemma RemovedMember(conns: seq<Conn>, ws: Id, c: Conn)
    requires Distinct(conns) && FirstOf(conns, ws) < |conns|
    ensures c in RemoveAt(conns, FirstOf(conns, ws)) <==> c in conns && !IsFirst(conns, ws, c)
    ensures IsFirst(conns, ws, c) <==> c == conns[FirstOf(conns, ws)]
  {
    var i := FirstOf(conns, ws);
    RemovedElements(conns, i);
    if c == conns[i] {
      assert IsFirst(conns, ws, c);
    }
    if IsFirst(conns, ws, c) {
      var k :| 0 <= k < |conns| && conns[k] == c && c.ws == ws && forall j :: 0 <= j < k ==> conns[j].ws != ws;
      assert k == i;
    }
    assert c in RemoveAt(conns, i) <==> c in Elements(RemoveAt(conns, i));
  }

  lemma NoFirst(conns: seq<Conn>, ws: Id, c: Conn)
    requires FirstOf(conns, ws) == |conns|
    ensures !IsFirst(conns, ws, c)
  {
  }

  /** Closing a socket takes its first connection of the account out of both indexes, and no other connection. */
  lemma UnregisterTakesFirst(s: State, account: Id, ws: Id, a: Id, sid: Id, c: Conn)
    requires Inv(s)
    ensures var after := Unregister(s, account, ws);
            var leaves := IsFirst(ConnsOf(s.connections, account), ws, c);
            && (c in ConnsOf(after.connections, a) <==> c in ConnsOf(s.connections, a) && !(a == account && leaves))
            && (c in SessionConns(after.sessionIndex, sid) <==> c in SessionConns(s.sessionIndex, sid) && !leaves)
            && after.told == s.told
  {
    var conns := ConnsOf(s.connections, account);
    if FirstOf(conns, ws) == |conns| {
      NoFirst(conns, ws, c);
    } else {
      RemovedMember(conns, ws, c);
    }
  }

  /** A socket that connects and closes leaves both indexes as they were. */
  lemma SocketLeavesNoTrace(s: State, account: Id, sessionId: Id, ws: Id)
    requires Inv(s) && sessionId != 0 && forall c :: c in ConnsOf(s.connections, account) ==> c.ws != ws
    ensures var after := Unregister(Register(s, account, sessionId, ws), account, ws);
            after.connections == s.connections && after.sessionIndex == s.sessionIndex
  {
    var conns, conn := ConnsOf(s.connections, account), Conn(s.nextConn, ws, sessionId);
    var mid := Register(s, account, sessionId, ws);
    assert forall i :: 0 <= i < |conns| ==> conns[i] in conns;
    assert FirstOf(conns + [conn], ws) == |conns| by {
      assert (conns + [conn])[|conns|].ws == ws;
    }
    assert RemoveAt(conns + [conn], |conns|) == conns;
    NewInSession(s, sessionId, conn);
  }

  lemma NewInSession(s: State, sessionId: Id, conn: Conn)
    requires Inv(s) && conn.id == s.nextConn && conn.sessionId == sessionId
    ensures Dropped(s.sessionIndex[sessionId := SessionConns(s.sessionIndex, sessionId) + {conn}], conn) == s.sessionIndex
  {
    var was := SessionConns(s.sessionIndex, sessionId);
    forall c | c in was
      ensures c.id < s.nextConn
    {
      assert c in Listed(s.connections);
    }
    assert was + {conn} - {conn} == was;
  }

  /** Logging an account out tells exactly its connections. */
  lemma LogoutTellsExactly(s: State, account: Id, c: Conn)
    ensures c in ForceLogout(s, account).told <==> c in s.told || c in ConnsOf(s.connections, account)
    ensures forall a :: a != account ==> ConnsOf(ForceLogout(s, account).connections, a) == ConnsOf(s.connections, a)
  {
    assert c in Elements(ConnsOf(s.connections, account)) <==> c in ConnsOf(s.connections, account);
  }

  /** Ending a sign-in session tells exactly the connections it lists, and lists none of them any more. */
  lemma SessionLogoutTellsExactly(s: State, sessionId: Id, sid: Id, c: Conn)
    ensures var after := ForceLogoutSession(s, sessionId);
            && (c in after.told <==> c in s.told || c in SessionConns(s.sessionIndex, sessionId))
            && (c in SessionConns(after.sessionIndex, sid) <==> c in SessionConns(s.sessionIndex, sid) && sid != sessionId)
            && after.connections == s.connections
  {
  }

  /**
   A burst of changes is sent once: the timer of the last change is the only one of its key, and when it fires
   the key is clean and no timer of it is left.
   */
  lemma FiringSends(s: State, timer: Id, key: Key)
    requires Inv(s) && timer in s.timers && s.timers[timer].key == key
    ensures var after := Fire(s, timer);
            && key !in after.dirty && key !in after.pending
            && (forall t :: t in after.timers ==> after.timers[t].key != key)
            && (forall k :: k != key ==> (k in after.dirty <==> k in s.dirty))
  {
  }

  /** A change restarts the delay of its key and of no other. */
  lemma ChangeRestarts(s: State, key: Key)
    requires Inv(s)
    ensures var after := Schedule(s, key);
            && key in after.dirty && key in after.pending && after.pending[key] in after.timers
            && after.timers[after.pending[key]] == Timer(key, s.clock + 100)
            && (forall t :: t in after.timers && after.timers[t].key == key ==> t == after.pending[key])
            && (forall k :: k != key && k in s.pending ==>
                  && k in after.pending && after.pending[k] == s.pending[k]
                  && s.pending[k] in after.timers && after.timers[s.pending[k]] == s.timers[s.pending[k]])
  {
  }
}
