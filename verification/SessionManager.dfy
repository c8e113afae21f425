/**
 The methods of `SessionManager` and `ClientConnection`, statement by statement between their
 suspension points.  Each one ends in the state that module `Sessions` gives for it, so that what
 module `SessionLaws` proves of every run holds of every interleaving of these methods.
 */
module SessionManager {
  import opened Wrappers
  import opened Sessions

  class Manager {
    var objects: map<Sid, Session>
    var live: set<Sid>
    var shareIndex: map<Id, Sid>
    var removals: map<Id, Removal>
    var recorders: map<Id, Sid>
    var sockets: map<Ws, Socket>
    var clients: map<Id, Client>
    var finalised: multiset<Id>
    var exported: multiset<Sid>
    var failed: set<Sid>
    var usedShares: set<Id>
    var usedRecordings: set<Id>
    var now: int

    ghost function State(): World
      reads this
    {
      World(objects, live, shareIndex, removals, recorders, sockets, clients, finalised, exported, failed,
            usedShares, usedRecordings, now)
    }

    ghost predicate Valid()
      reads this
    {
      Shaped(State())
    }

    constructor ()
      ensures State() == Start && Valid()
    {
      objects, live, shareIndex, removals, recorders, sockets := map[], {}, map[], map[], map[], map[];
      clients, finalised, exported, failed := map[], multiset{}, multiset{}, {};
      usedShares, usedRecordings, now := {}, {}, 0;
    }

    /** `this.sessions.get(sessionId) || null` */
    function Get(s: Sid): (o: Option<Session>)
      requires Valid()
      reads this
      ensures o.Some? <==> s in live
    {
      if s in live then Some(objects[s]) else None
    }

    method Create(s: Sid, accountId: Id, entryId: Id, audited: bool)
      requires Valid() && s !in objects
      modifies this
      ensures Valid() && State() == Step(old(State()), Event.Create(s, accountId, entryId, audited))
    {
      objects := objects[s := NewSession(accountId, entryId, audited)];
      live := live + {s};
    }

    method StartSharing(s: Sid, newId: Id, writable: bool, expiresAt: int) returns (shareId: Option<Id>)
      requires Valid() && newId !in usedShares
      modifies this
      ensures Valid() && State() == Sessions.StartSharing(old(State()), s, newId, writable, expiresAt)
      ensures shareId == if s in live then objects[s].shareId else None
    {
      var session := Get(s);
      if session.None? { return None; }
      var o := session.value;
      if o.shareId.None? {
        o := o.(shareId := Some(newId));
        shareIndex := shareIndex[newId := s];
      }
      usedShares := usedShares + {o.shareId.value};
      o := o.(shareWritable := writable, shareExpiresAt := Some(expiresAt));
      o := o.(shareTimer := Some(Max(expiresAt, now)));
      objects := objects[s := o];
      return o.shareId;
    }

    method UpdateSharePermissions(s: Sid, writable: bool) returns (updated: bool)
      requires Valid()
      modifies this
      ensures Valid() && State() == Sessions.UpdateSharePermissions(old(State()), s, writable)
      ensures updated <==> s in old(live) && old(objects)[s].shareId.Some?
    {
      var session := Get(s);
      if session.None? || session.value.shareId.None? { return false; }
      objects := objects[s := session.value.(shareWritable := writable)];
      return true;
    }

    method StopSharing(s: Sid) returns (stopped: bool)
      requires Valid()
      modifies this
      ensures Valid() && State() == Sessions.StopSharing(old(State()), s)
      ensures stopped <==> s in old(live) && old(objects)[s].shareId.Some?
    {
      var session := Get(s);
      if session.None? || session.value.shareId.None? { return false; }
      var o := session.value;
      shareIndex := shareIndex - {o.shareId.value};
      if o.activeWs.Some? && o.activeWs.value in o.sharedWs {
        o := o.(activeWs := None);
      }
      o := o.(sharedWs := {}, shareTimer := None);
      o := o.(shareId := None, shareWritable := false, shareExpiresAt := None);
      objects := objects[s := o];
      return true;
    }

    /** An expired share is stopped on the way. */
    method GetByShareId(x: Id) returns (found: Option<Sid>)
      requires Valid()
      modifies this
      ensures Valid() && (State(), found) == Sessions.GetByShareId(old(State()), x)
    {
      if x !in shareIndex { return None; }
      var s := shareIndex[x];
      var session := Get(s);
      if session.None? { return None; }
      if session.value.shareExpiresAt.Some? && session.value.shareExpiresAt.value <= now {
        var _ := StopSharing(s);
        return None;
      }
      return Some(s);
    }

    /** `finalizeTerminalRecording` up to its await: the stream is taken from the record and ended. */
    method EndTerminalRecording(call: Id, s: Sid, o: Session)
      requires Valid() && s in objects && o.recording.Some?
      modifies this
      ensures Valid() && State() == Put(old(State()), s, o.(recording := None))
                           .(finalised := old(finalised) + multiset{o.recording.value},
                             removals := old(removals)[call := Removal(s, AtTerminalRecording)])
    {
      finalised := finalised + multiset{o.recording.value};
      objects := objects[s := o.(recording := None)];
      removals := removals[call := Removal(s, AtTerminalRecording)];
    }

    /** `remove` up to its first await. */
    method BeginRemove(call: Id, s: Sid) returns (found: bool)
      requires Valid() && call !in removals
      modifies this
      ensures Valid() && State() == Sessions.BeginRemove(old(State()), call, s)
      ensures found <==> s in old(live)
    {
      var session := Get(s);
      if session.None? { return false; }
      var o := session.value.(connectedWs := {}, sharedWs := {}, activeWs := None);
      if o.recording.Some? {
        EndTerminalRecording(call, s, o);
      } else {
        objects := objects[s := o];
        CloseMaster(call, s);
      }
      return true;
    }

    /** `remove` from the master connection on: it suspends again when a guacd recording has to be finalised. */
    method CloseMaster(call: Id, s: Sid)
      requires Valid() && s in objects
      modifies this
      ensures Valid() && State() == AfterTerminal(old(State()), call, s)
    {
      if objects[s].master.Some? && objects[s].master.value.recorded {
        exported := exported + multiset{s};
        removals := removals[call := Removal(s, AtGuacRecording)];
      } else {
        DropSession(call, s);
      }
    }

    /** The last statements of `remove`; they work on the captured record, live or not. */
    method DropSession(call: Id, s: Sid)
      requires Valid() && s in objects
      modifies this
      ensures Valid() && State() == FinishRemove(old(State()), call, s)
    {
      var o := objects[s].(master := None);
      if o.shareId.Some? {
        shareIndex := shareIndex - {o.shareId.value};
        o := o.(shareTimer := None);
      }
      objects := objects[s := o];
      removals := removals - {call};
      live := live - {s};
    }

    /** A suspended `remove` goes on. */
    method ResumeRemove(call: Id)
      requires Valid() && call in removals
      modifies this
      ensures Valid() && State() == Sessions.ResumeRemove(old(State()), call)
    {
      var s := removals[call].sid;
      match removals[call].at
      case AtTerminalRecording => CloseMaster(call, s);
      case AtGuacRecording => DropSession(call, s);
    }

    // -------------------------------------------------------------- ClientConnection

    method AddWebSocket(s: Sid, ws: Ws)
      requires Valid()
      modifies this
      ensures State() == Sessions.AddWebSocket(old(State()), s, ws)
    {
      var session := Get(s);
      if session.Some? {
        objects := objects[s := session.value.(connectedWs := session.value.connectedWs + {ws})];
      }
    }

    method SetActiveWs(s: Sid, ws: Ws)
      requires Valid()
      modifies this
      ensures State() == Sessions.SetActive(old(State()), s, ws)
    {
      var session := Get(s);
      if session.Some? {
        objects := objects[s := session.value.(activeWs := Some(ws))];
      }
    }

    method SetMasterConnectionPending(s: Sid) returns (won: bool)
      requires Valid()
      modifies this`objects
      ensures won <==> MayBecomeMaster(old(State()), s)
      ensures objects == if won then old(objects)[s := old(objects)[s].(pending := true)] else old(objects)
    {
      var session := Get(s);
      if session.None? { return false; }
      if session.value.master.Some? || session.value.pending { return false; }
      objects := objects[s := session.value.(pending := true)];
      return true;
    }

    method SetMasterConnection(s: Sid, master: Master) returns (accepted: bool)
      requires Valid()
      modifies this`objects
      ensures State() == SetMaster(old(State()), s, master)
      ensures accepted <==> s in live && old(objects)[s].master.None?
    {
      var session := Get(s);
      if session.None? || session.value.master.Some? { return false; }
      objects := objects[s := session.value.(master := Some(master), pending := false)];
      return true;
    }

    /** `initialize` after its await. */
    method Initialize(ws: Ws, client: Id, recorded: bool)
      requires Valid() && ws in sockets && sockets[ws].Opening? && client !in clients
      modifies this
      ensures Valid() && State() == Elect(old(State()), ws, client, recorded)
    {
      var s := sockets[ws].sid;
      if HasMasterConnection(s) {
        JoinMasterConnection(ws, s);
      } else {
        var won := SetMasterConnectionPending(s);
        if won {
          CreateMasterConnection(ws, s, client, recorded);
        } else {
          WaitForMaster(ws, s);
        }
      }
    }

    predicate HasMasterConnection(s: Sid)
      requires Valid()
      reads this
    {
      s in live && ((objects[s].master.Some? && objects[s].master.value.client.Some?) || objects[s].pending)
    }

    method CreateMasterConnection(ws: Ws, s: Sid, client: Id, recorded: bool)
      requires Valid() && s in live && objects[s].master.None? && objects[s].pending
      modifies this
      ensures State() ==
                var connected := old(State()).(clients := old(clients)[client := Client(s, None)]);
                var set_ := SetMaster(connected, s, Master(Some(client), None, recorded));
                var added := Sessions.SetActive(Sessions.AddWebSocket(set_, s, ws), s, ws);
                added.(sockets := added.sockets[ws := MasterOf(s, client)])
    {
      clients := clients[client := Client(s, None)];
      var _ := SetMasterConnection(s, Master(Some(client), None, recorded));
      AddWebSocket(s, ws);
      SetActiveWs(s, ws);
      sockets := sockets[ws := MasterOf(s, client)];
    }

    method JoinMasterConnection(ws: Ws, s: Sid)
      requires Valid()
      modifies this
      ensures State() == Join(old(State()), ws, s)
    {
      var session := Get(s);
      if session.None? || session.value.master.None? || session.value.master.value.connectionId.None? {
        WaitForMaster(ws, s);
        return;
      }
      AddWebSocket(s, ws);
      SetActiveWs(s, ws);
      sockets := sockets[ws := Joined(s, session.value.master.value.connectionId.value)];
    }

    method WaitForMaster(ws: Ws, s: Sid)
      requires Valid()
      modifies this
      ensures State() == Wait(old(State()), ws, s)
    {
      AddWebSocket(s, ws);
      sockets := sockets[ws := Waiting(s, 0)];
    }

    /** `checkMaster`, run by its timer. */
    method CheckMaster(ws: Ws)
      requires Valid() && ws in sockets && sockets[ws].Waiting?
      modifies this
      ensures Valid() && State() == Poll(old(State()), ws)
    {
      var s := sockets[ws].sid;
      var attempts := sockets[ws].attempts + 1;
      var session := Get(s);
      if session.None? {
        sockets := sockets[ws := Stopped];
      } else if session.value.master.Some? && session.value.master.value.connectionId.Some? {
        JoinMasterConnection(ws, s);
      } else if attempts >= MaxAttempts {
        sockets := sockets[ws := TimedOut];
      } else {
        sockets := sockets[ws := Waiting(s, attempts)];
      }
    }

    /** guacd's `ready` instruction reaches a master client. */
    method ReceiveReady(client: Id, id: string)
      requires Valid() && client in clients
      modifies this
      ensures Valid() && State() == Ready(old(State()), client, id)
    {
      if clients[client].reported.Some? { return; }
      var s := clients[client].sid;
      clients := clients[client := Client(s, Some(id))];
      var session := Get(s);
      if session.Some? && session.value.master.Some? {
        objects := objects[s := session.value.(master := Some(session.value.master.value.(connectionId := Some(id))))];
      }
    }

    /** `ClientConnection.close` */
    method Close(ws: Ws, call: Id)
      requires Valid() && ws in sockets && (sockets[ws].MasterOf? || sockets[ws].Joined?) && call !in removals
      modifies this
      ensures Valid() && State() == CloseSocket(old(State()), ws, call)
    {
      var s := sockets[ws].sid;
      sockets := sockets[ws := Closed];
      var session := Get(s);
      if session.None? { return; }
      var o := session.value.(connectedWs := session.value.connectedWs - {ws});
      if o.activeWs == Some(ws) {
        o := o.(activeWs := None);
      }
      objects := objects[s := o];
      if !o.isHibernated && o.connectedWs == {} && o.sharedWs == {} {
        var _ := BeginRemove(call, s);
      }
    }
  }
}
