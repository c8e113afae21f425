/** What every interleaving of session, sharing, recording and socket events keeps. */
module SessionLaws {
  import opened Wrappers
  import opened Sessions

  type Objects = map<Sid, Session>

  // ---------------------------------------------------------------- invariants

  /** `shareIndex` and the share ids of the live sessions are inverse to each other. */
  ghost predicate SharesInverse(objects: Objects, live: set<Sid>, shareIndex: map<Id, Sid>) {
    && live <= objects.Keys
    && (forall x :: x in shareIndex ==> shareIndex[x] in live && objects[shareIndex[x]].shareId == Some(x))
    && (forall s :: s in live && objects[s].shareId.Some? ==>
          objects[s].shareId.value in shareIndex && shareIndex[objects[s].shareId.value] == s)
  }

  /** No share id was ever given to two sessions, and a shared session has an expiry and a pending timer. */
  ghost predicate SharesOwned(objects: Objects, live: set<Sid>, usedShares: set<Id>) {
    && (forall s :: s in objects && objects[s].shareId.Some? ==> objects[s].shareId.value in usedShares)
    && (forall s, t :: s in objects && t in objects && s != t && objects[s].shareId.Some? ==>
          objects[s].shareId != objects[t].shareId)
    && (forall s :: s in live && s in objects ==>
          objects[s].shareId.Some? == objects[s].shareExpiresAt.Some? == objects[s].shareTimer.Some?)
  }

  /** A recording is in at most one record, and was finalised at most once, never while it is in a record. */
  ghost predicate RecordingsOnce(objects: Objects, finalised: multiset<Id>, used: set<Id>) {
    && (forall r :: r in finalised ==> finalised[r] == 1 && r in used)
    && (forall s :: s in objects && objects[s].recording.Some? ==>
          objects[s].recording.value in used && objects[s].recording.value !in finalised)
    && (forall s, t :: s in objects && t in objects && s != t && objects[s].recording.Some? ==>
          objects[s].recording != objects[t].recording)
  }

  /** The master of a live session is the one client made for it, with the id reported to that client. */
  ghost predicate MasterMatches(s: Sid, o: Session, clients: map<Id, Client>) {
    && !o.pending
    && (forall c :: c in clients && clients[c].sid == s ==>
          o.master.Some? && o.master.value.client == Some(c) && o.master.value.connectionId == clients[c].reported)
    && (o.master.Some? ==>
          if o.master.value.client.Some?
          then o.master.value.client.value in clients && clients[o.master.value.client.value].sid == s
          else o.master.value.connectionId.None?)
  }

  ghost predicate OneMaster(objects: Objects, live: set<Sid>, clients: map<Id, Client>) {
    && (forall c :: c in clients ==> clients[c].sid in objects)
    && (forall c, d :: c in clients && d in clients && c != d ==> clients[c].sid != clients[d].sid)
    && (forall s :: s in live && s in objects ==> MasterMatches(s, objects[s], clients))
  }

  /** The client whose reported id a joiner used. */
  ghost predicate JoinedMaster(clients: map<Id, Client>, s: Sid, id: string, c: Id) {
    c in clients && clients[c] == Client(s, Some(id))
  }

  ghost predicate Settled(socket: Socket, clients: map<Id, Client>) {
    match socket
    case Waiting(_, attempts) => attempts < MaxAttempts
    case MasterOf(s, c) => c in clients && clients[c].sid == s
    case Joined(s, id) => exists c :: JoinedMaster(clients, s, id, c)
    case _ => true
  }

  ghost predicate SocketsSettle(sockets: map<Ws, Socket>, clients: map<Id, Client>) {
    forall ws :: ws in sockets ==> Settled(sockets[ws], clients)
  }

  ghost predicate Inv(w: World) {
    && Shaped(w)
    && (forall c :: c in w.recorders ==> w.recorders[c] in w.objects)
    && SharesInverse(w.objects, w.live, w.shareIndex)
    && SharesOwned(w.objects, w.live, w.usedShares)
    && RecordingsOnce(w.objects, w.finalised, w.usedRecordings)
    && OneMaster(w.objects, w.live, w.clients)
    && SocketsSettle(w.sockets, w.clients)
  }

  // ---------------------------------------------------------------- updates of one record

  lemma SameShares(objects: Objects, live: set<Sid>, shareIndex: map<Id, Sid>, used: set<Id>, s: Sid, o: Session)
    requires s in objects && SharesInverse(objects, live, shareIndex) && SharesOwned(objects, live, used)
    requires o.shareId == objects[s].shareId && o.shareExpiresAt == objects[s].shareExpiresAt
    requires o.shareTimer == objects[s].shareTimer
    ensures SharesInverse(objects[s := o], live, shareIndex) && SharesOwned(objects[s := o], live, used)
  {
  }

  lemma SameRecording(objects: Objects, finalised: multiset<Id>, used: set<Id>, s: Sid, o: Session)
    requires s in objects && RecordingsOnce(objects, finalised, used)
    requires o.recording == objects[s].recording
    ensures RecordingsOnce(objects[s := o], finalised, used)
  {
  }

  lemma SameMaster(objects: Objects, live: set<Sid>, clients: map<Id, Client>, s: Sid, o: Session)
    requires s in objects && OneMaster(objects, live, clients)
    requires o.master == objects[s].master && o.pending == objects[s].pending
    ensures OneMaster(objects[s := o], live, clients)
  {
  }

  lemma PutKeeps(w: World, s: Sid, o: Session)
    requires Inv(w) && s in w.objects
    requires var p := w.objects[s];
             && o.shareId == p.shareId && o.shareExpiresAt == p.shareExpiresAt && o.shareTimer == p.shareTimer
             && o.recording == p.recording && o.master == p.master && o.pending == p.pending
    ensures Inv(Put(w, s, o))
  {
    SameShares(w.objects, w.live, w.shareIndex, w.usedShares, s, o);
    SameRecording(w.objects, w.finalised, w.usedRecordings, s, o);
    SameMaster(w.objects, w.live, w.clients, s, o);
  }

  // ---------------------------------------------------------------- steps

  lemma NewSessionShares(objects: Objects, live: set<Sid>, shareIndex: map<Id, Sid>, used: set<Id>, s: Sid, o: Session)
    requires s !in objects && SharesInverse(objects, live, shareIndex) && SharesOwned(objects, live, used)
    requires o.shareId.None? && o.shareExpiresAt.None? && o.shareTimer.None?
    ensures SharesInverse(objects[s := o], live + {s}, shareIndex) && SharesOwned(objects[s := o], live + {s}, used)
  {
  }

  lemma NewSessionMaster(objects: Objects, live: set<Sid>, clients: map<Id, Client>, s: Sid, o: Session)
    requires s !in objects && OneMaster(objects, live, clients)
    requires o.master.None? && !o.pending
    ensures OneMaster(objects[s := o], live + {s}, clients)
  {
    assert MasterMatches(s, o, clients);
  }

  lemma CreateKeeps(w: World, s: Sid, a: Id, n: Id, audited: bool)
    requires Inv(w) && s !in w.objects
    ensures Inv(Put(w, s, NewSession(a, n, audited)).(live := w.live + {s}))
  {
    NewSessionShares(w.objects, w.live, w.shareIndex, w.usedShares, s, NewSession(a, n, audited));
    NewSessionMaster(w.objects, w.live, w.clients, s, NewSession(a, n, audited));
  }

  /** Sharing starts, or is extended. */
  lemma SharesSet(objects: Objects, live: set<Sid>, shareIndex: map<Id, Sid>, used: set<Id>, s: Sid, o: Session, x: Id)
    requires s in live && SharesInverse(objects, live, shareIndex) && SharesOwned(objects, live, used)
    requires o.shareId == Some(x) && o.shareExpiresAt.Some? && o.shareTimer.Some?
    requires objects[s].shareId == Some(x) || (objects[s].shareId.None? && x !in used)
    ensures SharesInverse(objects[s := o], live, shareIndex[x := s]) && SharesOwned(objects[s := o], live, used + {x})
  {
  }

  lemma SharesDrop(objects: Objects, live: set<Sid>, shareIndex: map<Id, Sid>, used: set<Id>, s: Sid, o: Session)
    requires s in live && SharesInverse(objects, live, shareIndex) && SharesOwned(objects, live, used)
    requires objects[s].shareId.Some?
    requires o.shareId.None? && o.shareExpiresAt.None? && o.shareTimer.None?
    ensures SharesInverse(objects[s := o], live, shareIndex - {objects[s].shareId.value})
    ensures SharesOwned(objects[s := o], live, used)
  {
  }

  lemma StartSharingKeeps(w: World, s: Sid, newId: Id, writable: bool, expiresAt: int)
    requires Inv(w) && newId !in w.usedShares
    ensures Inv(StartSharing(w, s, newId, writable, expiresAt))
  {
    if s in w.live {
      var x := if w.objects[s].shareId.Some? then w.objects[s].shareId.value else newId;
      assert w.objects[s].shareId.Some? ==> w.shareIndex[x := s] == w.shareIndex;
      SharedKeeps(w, StartSharing(w, s, newId, writable, expiresAt), s, x);
    }
  }

  lemma SharedKeeps(w: World, after: World, s: Sid, x: Id)
    requires Inv(w) && s in w.live
    requires w.objects[s].shareId == Some(x) || (w.objects[s].shareId.None? && x !in w.usedShares)
    requires s in after.objects && after == w.(objects := w.objects[s := after.objects[s]],
                                               shareIndex := w.shareIndex[x := s], usedShares := w.usedShares + {x})
    requires var o, p := after.objects[s], w.objects[s];
             && o.shareId == Some(x) && o.shareExpiresAt.Some? && o.shareTimer.Some?
             && o.recording == p.recording && o.master == p.master && o.pending == p.pending
    ensures Inv(after)
  {
    SharesSet(w.objects, w.live, w.shareIndex, w.usedShares, s, after.objects[s], x);
    SameRecording(w.objects, w.finalised, w.usedRecordings, s, after.objects[s]);
    SameMaster(w.objects, w.live, w.clients, s, after.objects[s]);
  }

  lemma StopSharingKeeps(w: World, s: Sid)
    requires Inv(w)
    ensures Inv(StopSharing(w, s))
  {
    if s in w.live && w.objects[s].shareId.Some? {
      var o' := StopSharing(w, s).objects[s];
      SharesDrop(w.objects, w.live, w.shareIndex, w.usedShares, s, o');
      SameRecording(w.objects, w.finalised, w.usedRecordings, s, o');
      SameMaster(w.objects, w.live, w.clients, s, o');
    }
  }

  lemma ShareTimerIs(w: World, s: Sid)
    requires Shaped(w) && s in w.live && w.objects[s].shareId.Some?
    requires w.objects[s].shareTimer.Some? && w.objects[s].shareTimer.value <= w.now
    ensures ShareTimer(w, s) == StopSharing(w, s)
  {
    var o := w.objects[s];
    assert w.objects[s := o.(shareTimer := None)][s := StopSharing(w, s).objects[s]] == w.objects[s := StopSharing(w, s).objects[s]];
  }

  /** The timer of a dead session was cleared, so a timer that fires ends the sharing of a live one. */
  lemma ShareTimerKeeps(w: World, s: Sid)
    requires Inv(w)
    ensures Inv(ShareTimer(w, s))
  {
    if s in w.objects && w.objects[s].shareTimer.Some? && w.objects[s].shareTimer.value <= w.now {
      if s in w.live {
        StopSharingKeeps(w, s);
        ShareTimerIs(w, s);
      } else {
        DeadTimerKeeps(w, s);
      }
    }
  }

  lemma DeadTimer(objects: Objects, live: set<Sid>, shareIndex: map<Id, Sid>, used: set<Id>, s: Sid, o: Session)
    requires s in objects && s !in live && SharesInverse(objects, live, shareIndex) && SharesOwned(objects, live, used)
    requires o.shareId == objects[s].shareId
    ensures SharesInverse(objects[s := o], live, shareIndex) && SharesOwned(objects[s := o], live, used)
  {
  }

  lemma DeadTimerKeeps(w: World, s: Sid)
    requires Inv(w) && s in w.objects && s !in w.live
    ensures Inv(Put(w, s, w.objects[s].(shareTimer := None)))
  {
    var o := w.objects[s].(shareTimer := None);
    DeadTimer(w.objects, w.live, w.shareIndex, w.usedShares, s, o);
    SameRecording(w.objects, w.finalised, w.usedRecordings, s, o);
    SameMaster(w.objects, w.live, w.clients, s, o);
  }

  lemma OpenRecordingKeeps(w: World, call: Id, enabled: bool, recording: Id)
    requires Inv(w) && recording !in w.usedRecordings
    ensures Inv(OpenRecording(w, call, enabled, recording))
  {
    if call in w.recorders && enabled {
      var s := w.recorders[call];
      var o := w.objects[s].(recording := Some(recording));
      SameShares(w.objects, w.live, w.shareIndex, w.usedShares, s, o);
      SameMaster(w.objects, w.live, w.clients, s, o);
    }
  }

  lemma FinishRemoveKeeps(w: World, call: Id, s: Sid)
    requires Inv(w) && s in w.objects
    ensures Inv(FinishRemove(w, call, s))
  {
    var after := FinishRemove(w, call, s);
    SameRecording(w.objects, w.finalised, w.usedRecordings, s, after.objects[s]);
  }

  lemma AfterTerminalKeeps(w: World, call: Id, s: Sid)
    requires Inv(w) && s in w.objects
    ensures Inv(AfterTerminal(w, call, s))
  {
    FinishRemoveKeeps(w, call, s);
  }

  lemma EndRecordingKeeps(w: World, s: Sid)
    requires Inv(w) && s in w.objects && w.objects[s].recording.Some?
    ensures var o := w.objects[s].(recording := None);
            Inv(Put(w, s, o).(finalised := w.finalised + multiset{w.objects[s].recording.value}))
  {
    var o := w.objects[s].(recording := None);
    SameShares(w.objects, w.live, w.shareIndex, w.usedShares, s, o);
    SameMaster(w.objects, w.live, w.clients, s, o);
  }

  lemma BeginRemoveKeeps(w: World, call: Id, s: Sid)
    requires Inv(w)
    ensures Inv(BeginRemove(w, call, s))
  {
    if s in w.live {
      var o := w.objects[s].(connectedWs := {}, sharedWs := {}, activeWs := None);
      PutKeeps(w, s, o);
      if o.recording.Some? {
        SuspendAtTerminalKeeps(Put(w, s, o), call, s);
        BeginRemoveIs(w, call, s);
      } else {
        AfterTerminalKeeps(Put(w, s, o), call, s);
      }
    }
  }

  ghost function SuspendAtTerminal(w: World, call: Id, s: Sid): World
    requires s in w.objects && w.objects[s].recording.Some?
  {
    Put(w, s, w.objects[s].(recording := None))
      .(finalised := w.finalised + multiset{w.objects[s].recording.value},
        removals := w.removals[call := Removal(s, AtTerminalRecording)])
  }

  lemma BeginRemoveIs(w: World, call: Id, s: Sid)
    requires Shaped(w) && s in w.live && w.objects[s].recording.Some?
    ensures BeginRemove(w, call, s)
         == SuspendAtTerminal(Put(w, s, w.objects[s].(connectedWs := {}, sharedWs := {}, activeWs := None)), call, s)
  {
    var o := w.objects[s].(connectedWs := {}, sharedWs := {}, activeWs := None);
    assert w.objects[s := o][s := o.(recording := None)] == w.objects[s := o.(recording := None)];
  }

  lemma SuspendAtTerminalKeeps(w: World, call: Id, s: Sid)
    requires Inv(w) && s in w.objects && w.objects[s].recording.Some?
    ensures Inv(SuspendAtTerminal(w, call, s))
  {
    EndRecordingKeeps(w, s);
  }

  lemma SetMasterKeeps(w: World, s: Sid)
    requires Inv(w)
    ensures Inv(SetMaster(w, s, Master(None, None, false)))
  {
    if s in w.live && w.objects[s].master.None? {
      var o := w.objects[s].(master := Some(Master(None, None, false)), pending := false);
      SameShares(w.objects, w.live, w.shareIndex, w.usedShares, s, o);
      SameRecording(w.objects, w.finalised, w.usedRecordings, s, o);
      assert MasterMatches(s, w.objects[s], w.clients);
      assert MasterMatches(s, o, w.clients);
    }
  }

  lemma AddWebSocketKeeps(w: World, s: Sid, ws: Ws)
    requires Inv(w)
    ensures Inv(AddWebSocket(w, s, ws)) && Inv(SetActive(w, s, ws))
  {
    if s in w.live {
      PutKeeps(w, s, w.objects[s].(connectedWs := w.objects[s].connectedWs + {ws}));
      PutKeeps(w, s, w.objects[s].(activeWs := Some(ws)));
    }
  }

  lemma SocketKeeps(w: World, ws: Ws, socket: Socket)
    requires Inv(w) && Settled(socket, w.clients)
    ensures Inv(w.(sockets := w.sockets[ws := socket]))
  {
  }

  lemma JoinKeeps(w: World, ws: Ws, s: Sid)
    requires Inv(w)
    ensures Inv(Join(w, ws, s)) && Inv(Wait(w, ws, s))
  {
    var added := AddWebSocket(w, s, ws);
    AddWebSocketKeeps(w, s, ws);
    AddWebSocketKeeps(added, s, ws);
    SocketKeeps(added, ws, Waiting(s, 0));
    var id := ReportedId(w, s);
    if id.Some? {
      assert MasterMatches(s, w.objects[s], w.clients);
      assert JoinedMaster(w.clients, s, id.value, w.objects[s].master.value.client.value);
      SocketKeeps(SetActive(added, s, ws), ws, Joined(s, id.value));
    }
  }

  /** A session without a master has had none: the new client is its first. */
  lemma FirstMaster(objects: Objects, live: set<Sid>, clients: map<Id, Client>, s: Sid, client: Id, o: Session)
    requires OneMaster(objects, live, clients) && s in live && s in objects && objects[s].master.None? && client !in clients
    requires !o.pending && o.master.Some? && o.master.value.client == Some(client) && o.master.value.connectionId.None?
    ensures OneMaster(objects[s := o], live, clients[client := Client(s, None)])
  {
    var more := clients[client := Client(s, None)];
    assert MasterMatches(s, objects[s], clients);
    assert MasterMatches(s, o, more);
    forall t | t in live && t in objects && t != s
      ensures MasterMatches(t, objects[t], more)
    {
      assert MasterMatches(t, objects[t], clients);
    }
  }

  lemma FirstClientKeeps(w: World, s: Sid, client: Id, recorded: bool)
    requires Inv(w) && MayBecomeMaster(w, s) && client !in w.clients
    ensures Inv(Put(w, s, w.objects[s].(master := Some(Master(Some(client), None, recorded)), pending := false))
                  .(clients := w.clients[client := Client(s, None)]))
  {
    var o := w.objects[s].(master := Some(Master(Some(client), None, recorded)), pending := false);
    SameShares(w.objects, w.live, w.shareIndex, w.usedShares, s, o);
    SameRecording(w.objects, w.finalised, w.usedRecordings, s, o);
    FirstMaster(w.objects, w.live, w.clients, s, client, o);
    ClientsGrow(w.sockets, w.clients, w.clients[client := Client(s, None)]);
  }

  /** Sockets stay settled while clients are added or told their id. */
  lemma ClientsGrow(sockets: map<Ws, Socket>, clients: map<Id, Client>, more: map<Id, Client>)
    requires SocketsSettle(sockets, clients)
    requires forall c :: c in clients ==> c in more && more[c].sid == clients[c].sid
                                          && (clients[c].reported.Some? ==> more[c] == clients[c])
    ensures SocketsSettle(sockets, more)
  {
    forall ws | ws in sockets
      ensures Settled(sockets[ws], more)
    {
      assert Settled(sockets[ws], clients);
      if sockets[ws].Joined? {
        var c :| JoinedMaster(clients, sockets[ws].sid, sockets[ws].connectionId, c);
        assert JoinedMaster(more, sockets[ws].sid, sockets[ws].connectionId, c);
      }
    }
  }

  lemma CreateMasterIs(w: World, ws: Ws, s: Sid, client: Id, recorded: bool)
    requires Shaped(w) && MayBecomeMaster(w, s)
    ensures var made := Put(w, s, w.objects[s].(master := Some(Master(Some(client), None, recorded)), pending := false))
                          .(clients := w.clients[client := Client(s, None)]);
            var added := SetActive(AddWebSocket(made, s, ws), s, ws);
            CreateMaster(w, ws, s, client, recorded) == added.(sockets := added.sockets[ws := MasterOf(s, client)])
  {
    var chosen := Put(w, s, w.objects[s].(pending := true)).(clients := w.clients[client := Client(s, None)]);
    var made := Put(w, s, w.objects[s].(master := Some(Master(Some(client), None, recorded)), pending := false))
                  .(clients := w.clients[client := Client(s, None)]);
    assert SetMaster(chosen, s, Master(Some(client), None, recorded)) == made;
  }

  lemma CreateMasterKeeps(w: World, ws: Ws, s: Sid, client: Id, recorded: bool)
    requires Inv(w) && MayBecomeMaster(w, s) && client !in w.clients
    ensures Inv(CreateMaster(w, ws, s, client, recorded))
  {
    CreateMasterIs(w, ws, s, client, recorded);
    FirstClientKeeps(w, s, client, recorded);
    var made := Put(w, s, w.objects[s].(master := Some(Master(Some(client), None, recorded)), pending := false))
                  .(clients := w.clients[client := Client(s, None)]);
    MasterSocketKeeps(made, ws, s, client);
  }

  lemma MasterSocketKeeps(made: World, ws: Ws, s: Sid, client: Id)
    requires Inv(made) && client in made.clients && made.clients[client].sid == s
    ensures var added := SetActive(AddWebSocket(made, s, ws), s, ws);
            Inv(added.(sockets := added.sockets[ws := MasterOf(s, client)]))
  {
    AddWebSocketKeeps(made, s, ws);
    AddWebSocketKeeps(AddWebSocket(made, s, ws), s, ws);
    SocketKeeps(SetActive(AddWebSocket(made, s, ws), s, ws), ws, MasterOf(s, client));
  }

  /** The reported id goes to the client and to the session that holds it. */
  lemma MasterTold(objects: Objects, live: set<Sid>, clients: map<Id, Client>, client: Id, id: string)
    requires OneMaster(objects, live, clients) && client in clients && clients[client].reported.None?
    ensures var s := clients[client].sid;
            var told := clients[client := Client(s, Some(id))];
            && s in objects
            && (s !in live ==> OneMaster(objects, live, told))
            && (s in live ==>
                  && objects[s].master.Some?
                  && OneMaster(objects[s := objects[s].(master := Some(objects[s].master.value.(connectionId := Some(id))))], live, told))
  {
    var s := clients[client].sid;
    var told := clients[client := Client(s, Some(id))];
    forall t | t in live && t in objects && t != s
      ensures MasterMatches(t, objects[t], told)
    {
      assert MasterMatches(t, objects[t], clients);
    }
    if s in live {
      assert MasterMatches(s, objects[s], clients);
      assert MasterMatches(s, objects[s].(master := Some(objects[s].master.value.(connectionId := Some(id)))), told);
    }
  }

  lemma ReadyKeeps(w: World, client: Id, id: string)
    requires Inv(w)
    ensures Inv(Ready(w, client, id))
  {
    if client in w.clients && w.clients[client].reported.None? {
      var s := w.clients[client].sid;
      ClientsGrow(w.sockets, w.clients, w.clients[client := Client(s, Some(id))]);
      MasterTold(w.objects, w.live, w.clients, client, id);
      if s in w.live {
        var o := w.objects[s].(master := Some(w.objects[s].master.value.(connectionId := Some(id))));
        SameShares(w.objects, w.live, w.shareIndex, w.usedShares, s, o);
        SameRecording(w.objects, w.finalised, w.usedRecordings, s, o);
      }
    }
  }

  lemma LeaveKeeps(w: World, ws: Ws, s: Sid, o: Session)
    requires Inv(w) && s in w.live
    requires var p := w.objects[s]; o == p.(connectedWs := o.connectedWs, activeWs := o.activeWs)
    ensures Inv(Put(w.(sockets := w.sockets[ws := Closed]), s, o))
  {
    SocketKeeps(w, ws, Closed);
    PutKeeps(w.(sockets := w.sockets[ws := Closed]), s, o);
  }

  lemma CloseSocketKeeps(w: World, ws: Ws, call: Id)
    requires Inv(w)
    ensures Inv(CloseSocket(w, ws, call))
  {
    if ws in w.sockets && (w.sockets[ws].MasterOf? || w.sockets[ws].Joined?) {
      var s := w.sockets[ws].sid;
      if s in w.live {
        var o := w.objects[s];
        var left := o.(connectedWs := o.connectedWs - {ws}, activeWs := if o.activeWs == Some(ws) then None else o.activeWs);
        LeaveKeeps(w, ws, s, left);
        BeginRemoveKeeps(Put(w.(sockets := w.sockets[ws := Closed]), s, left), call, s);
      } else {
        SocketKeeps(w, ws, Closed);
      }
    }
  }

  lemma PollKeeps(w: World, ws: Ws)
    requires Inv(w)
    ensures Inv(Poll(w, ws))
  {
    if ws in w.sockets && w.sockets[ws].Waiting? {
      var Waiting(s, attempts) := w.sockets[ws];
      if s in w.live && ReportedId(w, s).Some? {
        JoinKeeps(w, ws, s);
      } else {
        SocketKeeps(w, ws, if s !in w.live then Stopped
                           else if attempts + 1 >= MaxAttempts then TimedOut
                           else Waiting(s, attempts + 1));
      }
    }
  }

  lemma ElectKeeps(w: World, ws: Ws, client: Id, recorded: bool)
    requires Inv(w) && client !in w.clients
    ensures Inv(Elect(w, ws, client, recorded))
  {
    if ws in w.sockets && w.sockets[ws].Opening? {
      var s := w.sockets[ws].sid;
      JoinKeeps(w, ws, s);
      if MayBecomeMaster(w, s) {
        CreateMasterKeeps(w, ws, s, client, recorded);
      }
    }
  }

  predicate OnSession(e: Event) {
    e.Create? || e.Tick? || e.Hibernate? || e.Share? || e.Permit? || e.Unshare? || e.Expire? || e.Lookup? || e.AddShared?
  }

  lemma SessionStepKeeps(w: World, e: Event)
    requires Inv(w) && Enabled(w, e) && OnSession(e)
    ensures Inv(Step(w, e))
  {
    match e
    case Create(s, a, n, audited) => CreateKeeps(w, s, a, n, audited);
    case Tick(now) =>
    case Hibernate(s, asleep) => if s in w.live { PutKeeps(w, s, w.objects[s].(isHibernated := asleep)); }
    case Share(s, newId, writable, expiresAt) => StartSharingKeeps(w, s, newId, writable, expiresAt);
    case Permit(s, writable) => if s in w.live { PutKeeps(w, s, w.objects[s].(shareWritable := writable)); }
    case Unshare(s) => StopSharingKeeps(w, s);
    case Expire(s) => ShareTimerKeeps(w, s);
    case Lookup(x) => if x in w.shareIndex { StopSharingKeeps(w, w.shareIndex[x]); }
    case AddShared(s, ws) => if s in w.live { PutKeeps(w, s, w.objects[s].(sharedWs := w.objects[s].sharedWs + {ws})); }
  }

  predicate OnSocket(e: Event) {
    e.Open? || e.Elected? || e.Polled? || e.ReadyReceived? || e.SocketClosed?
  }

  lemma SocketStepKeeps(w: World, e: Event)
    requires Inv(w) && Enabled(w, e) && OnSocket(e)
    ensures Inv(Step(w, e))
  {
    match e
    case Open(ws, s) => SocketKeeps(w, ws, if s in w.live then Opening(s) else Rejected);
    case Elected(ws, client, recorded) => ElectKeeps(w, ws, client, recorded);
    case Polled(ws) => PollKeeps(w, ws);
    case ReadyReceived(client, id) => ReadyKeeps(w, client, id);
    case SocketClosed(ws, call) => CloseSocketKeeps(w, ws, call);
  }

  lemma ResumeRemoveKeeps(w: World, call: Id)
    requires Inv(w)
    ensures Inv(ResumeRemove(w, call))
  {
    if call in w.removals {
      if w.removals[call].at == AtTerminalRecording {
        AfterTerminalKeeps(w, call, w.removals[call].sid);
      } else {
        FinishRemoveKeeps(w, call, w.removals[call].sid);
      }
    }
  }

  lemma StepKeeps(w: World, e: Event)
    requires Inv(w) && Enabled(w, e)
    ensures Inv(Step(w, e))
  {
    if OnSession(e) {
      SessionStepKeeps(w, e);
    } else if OnSocket(e) {
      SocketStepKeeps(w, e);
    } else {
      match e
      case InitRecording(call, s) =>
      case RecordingSettled(call, enabled, recording) => OpenRecordingKeeps(w, call, enabled, recording);
      case SetConnection(s) => SetMasterKeeps(w, s);
      case Remove(call, s) => BeginRemoveKeeps(w, call, s);
      case RemoveResumes(call) => ResumeRemoveKeeps(w, call);
      case RemoveFails(call) =>
    }
  }

  // ---------------------------------------------------------------- runs

  /** `after` is reached from `w` by `events`, in the order in which the event loop ran them. */
  ghost predicate Run(w: World, events: seq<Event>, after: World)
    requires Inv(w)
    decreases |events|
  {
    if events == [] then after == w
    else Enabled(w, events[0]) && (StepKeeps(w, events[0]); Run(Step(w, events[0]), events[1..], after))
  }

  lemma {:induction false} RunKeeps(w: World, events: seq<Event>, after: World)
    requires Inv(w) && Run(w, events, after)
    ensures Inv(after)
    decreases |events|
  {
    if events != [] {
      StepKeeps(w, events[0]);
      RunKeeps(Step(w, events[0]), events[1..], after);
    }
  }

  lemma StartInv()
    ensures Inv(Start)
  {
  }

  ghost predicate Reachable(w: World) {
    Inv(Start) && exists events :: Run(Start, events, w)
  }

  lemma ReachableInv(w: World)
    requires Reachable(w)
    ensures Inv(w)
  {
    var events :| Run(Start, events, w);
    RunKeeps(Start, events, w);
  }

  // ---------------------------------------------------------------- what callers rely on

  /** A share id resolves exactly to the live session that holds it and has not expired. */
  lemma LookupExact(w: World, x: Id, s: Sid)
    requires Reachable(w)
    ensures w.live <= w.objects.Keys
    ensures GetByShareId(w, x).1 == Some(s)
            <==> s in w.live && w.objects[s].shareId == Some(x)
                 && w.objects[s].shareExpiresAt.Some? && w.now < w.objects[s].shareExpiresAt.value
  {
    ReachableInv(w);
  }

  /** Looking up an expired id ends the sharing: nobody holds the id afterwards. */
  lemma LookupEndsExpired(w: World, x: Id)
    requires Reachable(w) && x in w.shareIndex
    ensures w.live <= w.objects.Keys
    ensures GetByShareId(w, x).1.None? ==>
              var after := GetByShareId(w, x).0;
              x !in after.shareIndex && forall s :: s in after.live ==> after.objects[s].shareId != Some(x)
  {
    ReachableInv(w);
  }

  /** Whatever the interleaving, no terminal recording is finalised twice and no session gets a second master client. */
  lemma AtMostOnce(w: World)
    requires Reachable(w)
    ensures forall r :: w.finalised[r] <= 1
    ensures forall c, d :: c in w.clients && d in w.clients && w.clients[c].sid == w.clients[d].sid ==> c == d
  {
    ReachableInv(w);
    forall r
      ensures w.finalised[r] <= 1
    {
      if r in w.finalised { assert w.finalised[r] == 1; }
    }
  }

  /** The session of a joined socket has one master client, and the socket used the id that client reported. */
  lemma JoinersUseMaster(w: World, ws: Ws) returns (master: Id)
    requires Reachable(w) && ws in w.sockets && w.sockets[ws].Joined?
    ensures var Joined(s, id) := w.sockets[ws];
            && master in w.clients && w.clients[master] == Client(s, Some(id))
            && forall c :: c in w.clients && w.clients[c].sid == s ==> c == master
  {
    ReachableInv(w);
    assert Settled(w.sockets[ws], w.clients);
    master :| JoinedMaster(w.clients, w.sockets[ws].sid, w.sockets[ws].connectionId, master);
  }

  // ---------------------------------------------------------------- waiting ends

  /** A socket that has left the election and the polling. */
  predicate Done(socket: Socket) {
    !socket.Opening? && !socket.Waiting?
  }

  /** No socket moves, no record appears or disappears, and no session comes to life. */
  ghost predicate Quiet(w: World, after: World) {
    after.sockets == w.sockets && after.objects.Keys == w.objects.Keys && after.live <= w.live
  }

  lemma FinishRemoveQuiet(w: World, call: Id, s: Sid)
    requires s in w.objects
    ensures Quiet(w, FinishRemove(w, call, s)) && s !in FinishRemove(w, call, s).live
  {
  }

  lemma AfterTerminalQuiet(w: World, call: Id, s: Sid)
    requires s in w.objects
    ensures Quiet(w, AfterTerminal(w, call, s))
    ensures call !in AfterTerminal(w, call, s).removals ==> s !in AfterTerminal(w, call, s).live
  {
    FinishRemoveQuiet(w, call, s);
  }

  lemma BeginRemoveQuiet(w: World, call: Id, s: Sid)
    requires Shaped(w)
    ensures Quiet(w, BeginRemove(w, call, s))
  {
    if s in w.live {
      var o := w.objects[s].(connectedWs := {}, sharedWs := {}, activeWs := None);
      AfterTerminalQuiet(Put(w, s, o), call, s);
    }
  }

  lemma StopSharingQuiet(w: World, s: Sid)
    requires Shaped(w)
    ensures Quiet(w, StopSharing(w, s))
  {
  }

  lemma ReadyQuiet(w: World, client: Id, id: string)
    requires Shaped(w)
    ensures Quiet(w, Ready(w, client, id))
  {
  }

  lemma CloseSocketMoves(w: World, ws: Ws, call: Id)
    requires Shaped(w)
    ensures var after := CloseSocket(w, ws, call);
            && after.objects.Keys == w.objects.Keys && after.live <= w.live
            && after.sockets == if ws in w.sockets && (w.sockets[ws].MasterOf? || w.sockets[ws].Joined?)
                                then w.sockets[ws := Closed] else w.sockets
  {
    if ws in w.sockets && (w.sockets[ws].MasterOf? || w.sockets[ws].Joined?) && w.sockets[ws].sid in w.live {
      var s := w.sockets[ws].sid;
      var o := w.objects[s];
      var left := o.(connectedWs := o.connectedWs - {ws}, activeWs := if o.activeWs == Some(ws) then None else o.activeWs);
      BeginRemoveQuiet(Put(w.(sockets := w.sockets[ws := Closed]), s, left), call, s);
    }
  }

  lemma AddedQuiet(w: World, s: Sid, ws: Ws)
    requires Shaped(w)
    ensures Quiet(w, AddWebSocket(w, s, ws)) && AddWebSocket(w, s, ws).live == w.live
    ensures Quiet(w, SetActive(w, s, ws)) && SetActive(w, s, ws).live == w.live
  {
  }

  lemma WaitMoves(w: World, ws: Ws, s: Sid)
    requires Shaped(w)
    ensures var after := Wait(w, ws, s);
            && after.objects.Keys == w.objects.Keys && after.live == w.live
            && after.sockets == w.sockets[ws := Waiting(s, 0)]
  {
    AddedQuiet(w, s, ws);
  }

  lemma JoinMoves(w: World, ws: Ws, s: Sid)
    requires Shaped(w)
    ensures var after := Join(w, ws, s);
            && after.objects.Keys == w.objects.Keys && after.live == w.live
            && after.sockets == w.sockets[ws := if ReportedId(w, s).Some? then Joined(s, ReportedId(w, s).value) else Waiting(s, 0)]
  {
    WaitMoves(w, ws, s);
    AddedQuiet(w, s, ws);
    AddedQuiet(AddWebSocket(w, s, ws), s, ws);
  }

  lemma MasterSocketMoves(w: World, ws: Ws, s: Sid, client: Id, recorded: bool)
    requires Inv(w) && MayBecomeMaster(w, s)
    ensures var after := CreateMaster(w, ws, s, client, recorded);
            && after.objects.Keys == w.objects.Keys && after.live == w.live
            && after.sockets == w.sockets[ws := MasterOf(s, client)]
  {
    CreateMasterIs(w, ws, s, client, recorded);
  }

  lemma ElectMoves(w: World, ws: Ws, client: Id, recorded: bool)
    requires Inv(w)
    ensures var after := Elect(w, ws, client, recorded);
            && after.objects.Keys == w.objects.Keys && after.live == w.live
            && (ws !in w.sockets || !w.sockets[ws].Opening? ==> after.sockets == w.sockets)
            && (ws in w.sockets ==> ws in after.sockets && after.sockets == w.sockets[ws := after.sockets[ws]])
  {
    if ws in w.sockets && w.sockets[ws].Opening? {
      JoinMoves(w, ws, w.sockets[ws].sid);
      WaitMoves(w, ws, w.sockets[ws].sid);
      if MayBecomeMaster(w, w.sockets[ws].sid) {
        MasterSocketMoves(w, ws, w.sockets[ws].sid, client, recorded);
      }
    }
  }

  lemma PollJoins(w: World, ws: Ws)
    requires Shaped(w) && ws in w.sockets && w.sockets[ws].Waiting?
    requires ReportedId(w, w.sockets[ws].sid).Some?
    ensures var after := Poll(w, ws);
            && after.objects.Keys == w.objects.Keys && after.live == w.live
            && after.sockets == w.sockets[ws := Joined(w.sockets[ws].sid, ReportedId(w, w.sockets[ws].sid).value)]
  {
    JoinMoves(w, ws, w.sockets[ws].sid);
  }

  lemma PollStays(w: World, ws: Ws)
    requires Shaped(w) && ws in w.sockets && w.sockets[ws].Waiting?
    requires ReportedId(w, w.sockets[ws].sid).None?
    ensures var after := Poll(w, ws);
            var Waiting(s, attempts) := w.sockets[ws];
            && after.objects == w.objects && after.live == w.live
            && after.sockets == w.sockets[ws := if s !in w.live then Stopped
                                                else if attempts + 1 >= MaxAttempts then TimedOut
                                                else Waiting(s, attempts + 1)]
  {
  }

  lemma PollMoves(w: World, ws: Ws)
    requires Shaped(w)
    ensures var after := Poll(w, ws);
            && after.objects.Keys == w.objects.Keys && after.live == w.live
            && (ws !in w.sockets || !w.sockets[ws].Waiting? ==> after.sockets == w.sockets)
            && (ws in w.sockets ==> ws in after.sockets && after.sockets == w.sockets[ws := after.sockets[ws]])
            && (ws in w.sockets && w.sockets[ws].Waiting? ==>
                  Done(after.sockets[ws])
                  || (w.sockets[ws].attempts + 1 < MaxAttempts
                      && after.sockets[ws] == Waiting(w.sockets[ws].sid, w.sockets[ws].attempts + 1)))
  {
    if ws in w.sockets && w.sockets[ws].Waiting? {
      if ReportedId(w, w.sockets[ws].sid).Some? {
        PollJoins(w, ws);
      } else {
        PollStays(w, ws);
      }
    }
  }

  lemma ShareTimerQuiet(w: World, s: Sid)
    requires Shaped(w)
    ensures Quiet(w, ShareTimer(w, s))
  {
    if s in w.objects {
      StopSharingQuiet(Put(w, s, w.objects[s].(shareTimer := None)), s);
    }
  }

  lemma SessionStepQuiet(w: World, e: Event)
    requires Shaped(w) && Enabled(w, e) && !OnSocket(e) && !e.Create?
    ensures Quiet(w, Step(w, e))
  {
    match e
    case Unshare(s) => StopSharingQuiet(w, s);
    case Expire(s) => ShareTimerQuiet(w, s);
    case Lookup(x) => if x in w.shareIndex { StopSharingQuiet(w, w.shareIndex[x]); }
    case Remove(call, s) => BeginRemoveQuiet(w, call, s);
    case RemoveResumes(call) => ResumeRemoveQuiet(w, call);
    case _ =>
  }

  lemma ResumeRemoveQuiet(w: World, call: Id)
    requires Shaped(w)
    ensures Quiet(w, ResumeRemove(w, call))
  {
    if call in w.removals {
      AfterTerminalQuiet(w, call, w.removals[call].sid);
      FinishRemoveQuiet(w, call, w.removals[call].sid);
    }
  }

  /** How one step moves the sockets, and that it only ever creates sessions with new ids. */
  lemma Moves(w: World, e: Event)
    requires Inv(w) && Enabled(w, e)
    ensures var after := Step(w, e);
            && w.objects.Keys <= after.objects.Keys
            && (forall s :: s in after.live && s !in w.live ==> s !in w.objects)
  {
    if e.SocketClosed? {
      CloseSocketMoves(w, e.ws, e.call);
    } else if e.Elected? {
      ElectMoves(w, e.ws, e.client, e.recorded);
    } else if e.Polled? {
      PollMoves(w, e.ws);
    } else if e.ReadyReceived? {
      ReadyQuiet(w, e.client, e.connectionId);
    } else if !OnSocket(e) && !e.Create? {
      SessionStepQuiet(w, e);
    }
  }

  /** A socket that is done stays done, and a waiting one moves only by its own polls. */
  ghost predicate SocketMoved(w: World, after: World, e: Event, ws: Ws) {
    && ws in w.sockets && ws in after.sockets
    && (Done(w.sockets[ws]) ==> Done(after.sockets[ws]))
    && (w.sockets[ws].Waiting? && e != Polled(ws) ==> after.sockets[ws] == w.sockets[ws])
    && (w.sockets[ws].Waiting? && e == Polled(ws) ==>
          Done(after.sockets[ws])
          || (w.sockets[ws].attempts + 1 < MaxAttempts
              && after.sockets[ws] == Waiting(w.sockets[ws].sid, w.sockets[ws].attempts + 1)))
  }

  lemma SocketEventMoves(w: World, e: Event, ws: Ws)
    requires Inv(w) && Enabled(w, e) && OnSocket(e) && ws in w.sockets
    ensures SocketMoved(w, Step(w, e), e, ws)
  {
    match e
    case Open(_, _) =>
    case Elected(x, client, recorded) => ElectMoves(w, x, client, recorded);
    case Polled(x) => PollMoves(w, x);
    case ReadyReceived(client, id) => ReadyQuiet(w, client, id);
    case SocketClosed(x, call) => CloseSocketMoves(w, x, call);
  }

  lemma SocketMoves(w: World, e: Event, ws: Ws)
    requires Inv(w) && Enabled(w, e) && ws in w.sockets
    ensures SocketMoved(w, Step(w, e), e, ws)
  {
    if OnSocket(e) {
      SocketEventMoves(w, e, ws);
    } else if !e.Create? {
      SessionStepQuiet(w, e);
    }
  }

  function Polls(events: seq<Event>, ws: Ws): nat {
    if events == [] then 0 else (if events[0] == Polled(ws) then 1 else 0) + Polls(events[1..], ws)
  }

  lemma {:induction false} DoneStays(w: World, events: seq<Event>, after: World, ws: Ws)
    requires Inv(w) && Run(w, events, after) && ws in w.sockets && Done(w.sockets[ws])
    ensures ws in after.sockets && Done(after.sockets[ws])
    decreases |events|
  {
    if events != [] {
      SocketMoves(w, events[0], ws);
      StepKeeps(w, events[0]);
      DoneStays(Step(w, events[0]), events[1..], after, ws);
    }
  }

  /** A waiter has joined, stopped, timed out or been closed once its remaining polls have run, whatever else happens. */
  lemma {:induction false} WaitingEnds(w: World, events: seq<Event>, after: World, ws: Ws)
    requires Inv(w) && Run(w, events, after)
    requires ws in w.sockets && w.sockets[ws].Waiting?
    requires Polls(events, ws) + w.sockets[ws].attempts >= MaxAttempts
    ensures ws in after.sockets && Done(after.sockets[ws])
    decreases |events|
  {
    if events != [] {
      SocketMoves(w, events[0], ws);
      StepKeeps(w, events[0]);
      var next := Step(w, events[0]);
      if Done(next.sockets[ws]) {
        DoneStays(next, events[1..], after, ws);
      } else {
        WaitingEnds(next, events[1..], after, ws);
      }
    }
  }

  // ---------------------------------------------------------------- dead sessions

  /** A removed session stays removed, and what is in its record stays out of the finalised recordings. */
  ghost predicate Dead(w: World, s: Sid) {
    s in w.objects && s !in w.live
  }

  lemma DeadStep(w: World, e: Event, s: Sid)
    requires Inv(w) && Enabled(w, e) && Dead(w, s)
    ensures Dead(Step(w, e), s)
  {
    Moves(w, e);
  }

  lemma {:induction false} DeadForever(w: World, events: seq<Event>, after: World, s: Sid)
    requires Inv(w) && Run(w, events, after) && Dead(w, s)
    ensures Dead(after, s)
    decreases |events|
  {
    if events != [] {
      DeadStep(w, events[0], s);
      StepKeeps(w, events[0]);
      DeadForever(Step(w, events[0]), events[1..], after, s);
    }
  }

  /** A `remove` that runs to its end leaves its session dead, also when it overlaps other removals of it. */
  lemma RemoveCompletes(w: World, call: Id)
    requires Inv(w) && call in w.removals && call !in ResumeRemove(w, call).removals
    ensures Dead(ResumeRemove(w, call), w.removals[call].sid)
  {
    AfterTerminalQuiet(w, call, w.removals[call].sid);
    FinishRemoveQuiet(w, call, w.removals[call].sid);
  }
}
