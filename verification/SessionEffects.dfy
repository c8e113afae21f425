/**
 What the events of a session bring about, read off the fields of the world: who becomes master, who joins,
 how long a share lasts, and what a removal closes.
 */
module SessionEffects {
  import opened Wrappers
  import opened Sessions
  import opened SessionLaws
  import opened DesktopRecordings

  // ---------------------------------------------------------------- the master connection

  function MasterNow(w: World, s: Sid): Option<Master>
    requires Shaped(w)
  {
    if s in w.live then w.objects[s].master else None
  }

  /** `ws` is the master of `s`: the client is made, stored in the session, and the socket is its active one. */
  predicate BecameMaster(w: World, after: World, ws: Ws, s: Sid, client: Id, recorded: bool) {
    && after.clients == w.clients[client := Client(s, None)]
    && s in w.objects && s in after.objects
    && after.objects[s].master == Some(Master(Some(client), None, recorded))
    && after.objects[s].connectedWs == w.objects[s].connectedWs + {ws}
    && after.objects[s].activeWs == Some(ws)
  }

  lemma BecomesMaster(w: World, ws: Ws, s: Sid, client: Id, recorded: bool)
    requires Inv(w) && ws in w.sockets && w.sockets[ws] == Opening(s) && client !in w.clients
    requires s in w.live && w.objects[s].master.None?
    ensures var after := Step(w, Elected(ws, client, recorded));
            && after.sockets == w.sockets[ws := MasterOf(s, client)]
            && BecameMaster(w, after, ws, s, client, recorded)
  {
    assert MasterMatches(s, w.objects[s], w.clients);
    CreateMasterIs(w, ws, s, client, recorded);
  }

  lemma FindsClient(w: World, ws: Ws, s: Sid, client: Id, recorded: bool)
    requires Inv(w) && ws in w.sockets && w.sockets[ws] == Opening(s) && HasMaster(w, s)
    ensures var after, id := Step(w, Elected(ws, client, recorded)), ReportedId(w, s);
            && after.sockets == w.sockets[ws := if id.Some? then Joined(s, id.value) else Waiting(s, 0)]
            && after.clients == w.clients
  {
    JoinMoves(w, ws, s);
    JoinClients(w, ws, s);
  }

  lemma JoinClients(w: World, ws: Ws, s: Sid)
    requires Shaped(w)
    ensures Join(w, ws, s).clients == w.clients
  {
    AddedClients(w, s, ws);
    AddedClients(AddWebSocket(w, s, ws), s, ws);
  }

  lemma AddedClients(w: World, s: Sid, ws: Ws)
    requires Shaped(w)
    ensures Shaped(AddWebSocket(w, s, ws))
    ensures AddWebSocket(w, s, ws).clients == w.clients && SetActive(w, s, ws).clients == w.clients
  {
  }

  lemma FindsTerminal(w: World, ws: Ws, s: Sid, client: Id, recorded: bool)
    requires Inv(w) && ws in w.sockets && w.sockets[ws] == Opening(s) && !HasMaster(w, s) && !MayBecomeMaster(w, s)
    ensures var after := Step(w, Elected(ws, client, recorded));
            after.sockets == w.sockets[ws := Waiting(s, 0)] && after.clients == w.clients
  {
    WaitMoves(w, ws, s);
  }

  lemma FindsMaster(w: World, ws: Ws, s: Sid, client: Id, recorded: bool)
    requires Inv(w) && ws in w.sockets && w.sockets[ws] == Opening(s)
    requires s in w.live && w.objects[s].master.Some?
    ensures var after, id := Step(w, Elected(ws, client, recorded)), w.objects[s].master.value.connectionId;
            && after.sockets == w.sockets[ws := if id.Some? then Joined(s, id.value) else Waiting(s, 0)]
            && after.clients == w.clients
  {
    assert MasterMatches(s, w.objects[s], w.clients);
    if HasMaster(w, s) {
      FindsClient(w, ws, s, client, recorded);
    } else {
      FindsTerminal(w, ws, s, client, recorded);
    }
  }

  lemma FindsNothing(w: World, ws: Ws, s: Sid, client: Id, recorded: bool)
    requires Inv(w) && ws in w.sockets && w.sockets[ws] == Opening(s) && s !in w.live
    ensures var after := Step(w, Elected(ws, client, recorded));
            after.sockets == w.sockets[ws := Waiting(s, 0)] && after.clients == w.clients
  {
    WaitMoves(w, ws, s);
  }

  /**
   The election: a socket becomes master exactly when its session is live and has none, it joins exactly when
   the session holds a reported id, and otherwise it waits.
   */
  lemma ElectionDecides(w: World, ws: Ws, s: Sid, client: Id, recorded: bool)
    requires Inv(w) && ws in w.sockets && w.sockets[ws] == Opening(s) && client !in w.clients
    ensures var after, master := Step(w, Elected(ws, client, recorded)), MasterNow(w, s);
            && ws in after.sockets
            && (after.sockets[ws] == MasterOf(s, client) <==> s in w.live && master.None?)
            && (after.sockets[ws] == MasterOf(s, client) ==> BecameMaster(w, after, ws, s, client, recorded))
            && (after.sockets[ws] != MasterOf(s, client) ==> after.clients == w.clients)
            && (forall id :: after.sockets[ws] == Joined(s, id) <==> master.Some? && master.value.connectionId == Some(id))
            && (after.sockets[ws] == Waiting(s, 0) <==>
                  s !in w.live || (master.Some? && master.value.connectionId.None?))
  {
    if s !in w.live {
      FindsNothing(w, ws, s, client, recorded);
    } else if w.objects[s].master.None? {
      BecomesMaster(w, ws, s, client, recorded);
    } else {
      FindsMaster(w, ws, s, client, recorded);
    }
  }

  /** A socket that joins or waits counts among the sockets of a live session, and one that joins is its active one. */
  predicate Counted(w: World, after: World, ws: Ws, s: Sid, active: bool)
    requires w.live <= w.objects.Keys
  {
    after.objects ==
    if s !in w.live then w.objects
    else w.objects[s := w.objects[s].(connectedWs := w.objects[s].connectedWs + {ws},
                                      activeWs := if active then Some(ws) else w.objects[s].activeWs)]
  }

  lemma WaitCounts(w: World, ws: Ws, s: Sid)
    requires Shaped(w)
    ensures Counted(w, Wait(w, ws, s), ws, s, false)
  {
  }

  lemma JoinCounts(w: World, ws: Ws, s: Sid)
    requires Shaped(w)
    ensures Counted(w, Join(w, ws, s), ws, s, ReportedId(w, s).Some?)
  {
    if ReportedId(w, s).None? {
      WaitCounts(w, ws, s);
    }
  }

  lemma ElectionCounts(w: World, ws: Ws, s: Sid, client: Id, recorded: bool)
    requires Inv(w) && ws in w.sockets && w.sockets[ws] == Opening(s) && client !in w.clients
    requires MasterNow(w, s).Some? || s !in w.live
    ensures var after := Step(w, Elected(ws, client, recorded));
            Counted(w, after, ws, s, MasterNow(w, s).Some? && MasterNow(w, s).value.connectionId.Some?)
  {
    if s in w.live {
      assert MasterMatches(s, w.objects[s], w.clients);
    }
    if HasMaster(w, s) {
      JoinCounts(w, ws, s);
    } else {
      WaitCounts(w, ws, s);
    }
  }

  lemma PollCounts(w: World, ws: Ws, s: Sid, n: nat)
    requires Inv(w) && ws in w.sockets && w.sockets[ws] == Waiting(s, n)
    ensures var after := Step(w, Polled(ws));
            if MasterNow(w, s).Some? && MasterNow(w, s).value.connectionId.Some? then Counted(w, after, ws, s, true)
            else after.objects == w.objects
  {
    if ReportedId(w, s).Some? {
      JoinCounts(w, ws, s);
    } else {
      PollStays(w, ws);
    }
  }

  /** A poll: the socket stops with its session, joins once an id is reported, and gives up at the fiftieth. */
  lemma PollDecides(w: World, ws: Ws, s: Sid, n: nat)
    requires Inv(w) && ws in w.sockets && w.sockets[ws] == Waiting(s, n)
    ensures var after, master := Step(w, Polled(ws)), MasterNow(w, s);
            var reported := master.Some? && master.value.connectionId.Some?;
            && ws in after.sockets
            && (after.sockets[ws] == Stopped <==> s !in w.live)
            && (forall id :: after.sockets[ws] == Joined(s, id) <==> master.Some? && master.value.connectionId == Some(id))
            && (after.sockets[ws] == TimedOut <==> s in w.live && !reported && n + 1 == 50)
            && (after.sockets[ws] == Waiting(s, n + 1) <==> s in w.live && !reported && n + 1 < 50)
  {
    assert Settled(w.sockets[ws], w.clients);
    if ReportedId(w, s).Some? {
      PollJoins(w, ws);
    } else {
      PollStays(w, ws);
    }
  }

  /** The connection id that guacd reports to a session's client reaches the session. */
  lemma ReportArrives(w: World, c: Id, id: string, s: Sid)
    requires Inv(w) && c in w.clients && w.clients[c] == Client(s, None) && s in w.live
    ensures var after := Step(w, ReadyReceived(c, id));
            Inv(after) && s in after.live && Holds(after, s, id) && after.sockets == w.sockets
  {
    StepKeeps(w, ReadyReceived(c, id));
    assert MasterMatches(s, w.objects[s], w.clients);
  }

  predicate Holds(w: World, s: Sid, id: string) {
    s in w.objects && w.objects[s].master.Some? && w.objects[s].master.value.connectionId == Some(id)
  }

  // ---------------------------------------------------------------- what stays while a session lives

  /** A master stays, and so does its connection id once it is reported. */
  predicate SameMasterOf(o: Session, p: Session) {
    o.master.Some? ==>
      && p.master.Some? && p.master.value.client == o.master.value.client && p.master.value.recorded == o.master.value.recorded
      && (o.master.value.connectionId.Some? ==> p.master == o.master)
  }

  predicate SameShareOf(o: Session, p: Session) {
    && p.shareId == o.shareId && p.shareWritable == o.shareWritable
    && p.shareExpiresAt == o.shareExpiresAt && p.shareTimer == o.shareTimer
  }

  predicate SameOwnerOf(o: Session, p: Session) {
    p.accountId == o.accountId && p.entryId == o.entryId && p.audited == o.audited
  }

  ghost predicate Stays(w: World, after: World, s: Sid) {
    && s in w.objects && s in after.objects
    && SameOwnerOf(w.objects[s], after.objects[s])
    && (s in after.live ==> s in w.live && SameMasterOf(w.objects[s], after.objects[s]))
  }

  ghost predicate ShareStays(w: World, after: World, s: Sid) {
    s in after.live ==> s in w.objects && s in after.objects && SameShareOf(w.objects[s], after.objects[s])
  }

  lemma SameObjects(w: World, after: World, s: Sid)
    requires s in w.objects && after.objects == w.objects && after.live <= w.live
    ensures Stays(w, after, s) && ShareStays(w, after, s)
  {
  }

  lemma PutStays(w: World, t: Sid, o: Session, s: Sid)
    requires s in w.objects && t in w.objects && SameOwnerOf(w.objects[t], o) && SameMasterOf(w.objects[t], o)
    ensures Stays(w, Put(w, t, o), s)
    ensures t != s || SameShareOf(w.objects[t], o) ==> ShareStays(w, Put(w, t, o), s)
  {
  }

  lemma Onwards(w: World, mid: World, after: World, s: Sid)
    requires Stays(w, mid, s) && Stays(mid, after, s)
    ensures Stays(w, after, s)
    ensures ShareStays(w, mid, s) && ShareStays(mid, after, s) ==> ShareStays(w, after, s)
  {
  }

  lemma AddedStays(w: World, t: Sid, ws: Ws, s: Sid)
    requires Shaped(w) && s in w.objects
    ensures var a := AddWebSocket(w, t, ws); Shaped(a) && Stays(w, a, s) && ShareStays(w, a, s)
    ensures var a := SetActive(w, t, ws); Shaped(a) && Stays(w, a, s) && ShareStays(w, a, s)
  {
    if t in w.live {
      PutStays(w, t, w.objects[t].(connectedWs := w.objects[t].connectedWs + {ws}), s);
      PutStays(w, t, w.objects[t].(activeWs := Some(ws)), s);
    }
  }

  lemma WaitStays(w: World, ws: Ws, t: Sid, s: Sid)
    requires Shaped(w) && s in w.objects
    ensures Stays(w, Wait(w, ws, t), s) && ShareStays(w, Wait(w, ws, t), s)
  {
    AddedStays(w, t, ws, s);
  }

  lemma JoinStays(w: World, ws: Ws, t: Sid, s: Sid)
    requires Shaped(w) && s in w.objects
    ensures Stays(w, Join(w, ws, t), s) && ShareStays(w, Join(w, ws, t), s)
  {
    WaitStays(w, ws, t, s);
    AddedStays(w, t, ws, s);
    var added := AddWebSocket(w, t, ws);
    AddedStays(added, t, ws, s);
    Onwards(w, added, SetActive(added, t, ws), s);
  }

  lemma CreateStays(w: World, ws: Ws, t: Sid, client: Id, recorded: bool, s: Sid)
    requires Shaped(w) && s in w.objects && MayBecomeMaster(w, t)
    ensures var a := CreateMaster(w, ws, t, client, recorded); Stays(w, a, s) && ShareStays(w, a, s)
  {
    CreateMasterIs(w, ws, t, client, recorded);
    var o := w.objects[t].(master := Some(Master(Some(client), None, recorded)), pending := false);
    var made := Put(w, t, o).(clients := w.clients[client := Client(t, None)]);
    PutStays(w, t, o, s);
    AddedStays(made, t, ws, s);
    var added := AddWebSocket(made, t, ws);
    AddedStays(added, t, ws, s);
    Onwards(w, made, added, s);
    Onwards(w, added, SetActive(added, t, ws), s);
  }

  lemma ElectStays(w: World, ws: Ws, client: Id, recorded: bool, s: Sid)
    requires Shaped(w) && s in w.objects
    ensures var a := Elect(w, ws, client, recorded); Stays(w, a, s) && ShareStays(w, a, s)
  {
    if ws in w.sockets && w.sockets[ws].Opening? {
      var t := w.sockets[ws].sid;
      if HasMaster(w, t) {
        JoinStays(w, ws, t, s);
      } else if MayBecomeMaster(w, t) {
        CreateStays(w, ws, t, client, recorded, s);
      } else {
        WaitStays(w, ws, t, s);
      }
    }
  }

  lemma PolledStays(w: World, ws: Ws, s: Sid)
    requires Shaped(w) && s in w.objects
    ensures Stays(w, Poll(w, ws), s) && ShareStays(w, Poll(w, ws), s)
  {
    if ws !in w.sockets || !w.sockets[ws].Waiting? {
    } else if ReportedId(w, w.sockets[ws].sid).Some? {
      JoinStays(w, ws, w.sockets[ws].sid, s);
      assert Poll(w, ws) == Join(w, ws, w.sockets[ws].sid);
    } else {
      PollStays(w, ws);
      SameObjects(w, Poll(w, ws), s);
    }
  }

  lemma ReadyStays(w: World, client: Id, id: string, s: Sid)
    requires Inv(w) && s in w.objects
    ensures var a := Ready(w, client, id); Stays(w, a, s) && ShareStays(w, a, s)
  {
    if client in w.clients && w.clients[client].reported.None? {
      var t := w.clients[client].sid;
      if t in w.live && w.objects[t].master.Some? {
        assert MasterMatches(t, w.objects[t], w.clients);
        PutStays(w, t, w.objects[t].(master := Some(w.objects[t].master.value.(connectionId := Some(id)))), s);
      }
    }
  }

  lemma FinishStays(w: World, call: Id, t: Sid, s: Sid)
    requires s in w.objects && t in w.objects
    ensures var a := FinishRemove(w, call, t); Stays(w, a, s) && ShareStays(w, a, s)
  {
  }

  lemma TerminalStays(w: World, call: Id, t: Sid, s: Sid)
    requires s in w.objects && t in w.objects
    ensures var a := AfterTerminal(w, call, t); Stays(w, a, s) && ShareStays(w, a, s)
  {
    FinishStays(w, call, t, s);
  }

  lemma BeginStays(w: World, call: Id, t: Sid, s: Sid)
    requires Shaped(w) && s in w.objects
    ensures var a := BeginRemove(w, call, t); Stays(w, a, s) && ShareStays(w, a, s)
  {
    if t in w.live {
      var o := w.objects[t].(connectedWs := {}, sharedWs := {}, activeWs := None);
      PutStays(w, t, o, s);
      if o.recording.Some? {
        PutStays(w, t, o.(recording := None), s);
      } else {
        TerminalStays(Put(w, t, o), call, t, s);
        Onwards(w, Put(w, t, o), AfterTerminal(Put(w, t, o), call, t), s);
      }
    }
  }

  lemma LeftStays(w: World, ws: Ws, call: Id, s: Sid)
    requires Shaped(w) && s in w.objects
    requires ws in w.sockets && (w.sockets[ws].MasterOf? || w.sockets[ws].Joined?) && w.sockets[ws].sid in w.live
    ensures var a := CloseSocket(w, ws, call); Stays(w, a, s) && ShareStays(w, a, s)
  {
    var t := w.sockets[ws].sid;
    LeftIs(w, ws, call);
    var left := Left(w, ws);
    PutStays(w, t, left.objects[t], s);
    BeginStays(left, call, t, s);
    Onwards(w, left, BeginRemove(left, call, t), s);
  }

  lemma CloseStays(w: World, ws: Ws, call: Id, s: Sid)
    requires Shaped(w) && s in w.objects
    ensures var a := CloseSocket(w, ws, call); Stays(w, a, s) && ShareStays(w, a, s)
  {
    if ws in w.sockets && (w.sockets[ws].MasterOf? || w.sockets[ws].Joined?) && w.sockets[ws].sid in w.live {
      LeftStays(w, ws, call, s);
    } else {
      SameObjects(w, CloseSocket(w, ws, call), s);
    }
  }

  lemma StopStays(w: World, t: Sid, s: Sid)
    requires Shaped(w) && s in w.objects
    ensures Stays(w, StopSharing(w, t), s) && (t != s ==> ShareStays(w, StopSharing(w, t), s))
  {
  }

  lemma TimerStays(w: World, t: Sid, s: Sid)
    requires Shaped(w) && s in w.objects
    ensures Stays(w, ShareTimer(w, t), s) && (t != s ==> ShareStays(w, ShareTimer(w, t), s))
  {
    if t in w.objects {
      var fired := Put(w, t, w.objects[t].(shareTimer := None));
      PutStays(w, t, fired.objects[t], s);
      StopStays(fired, t, s);
      Onwards(w, fired, StopSharing(fired, t), s);
    }
  }

  lemma RecordingStays(w: World, call: Id, enabled: bool, recording: Id, s: Sid)
    requires Shaped(w) && s in w.objects
    ensures var a := OpenRecording(w, call, enabled, recording); Stays(w, a, s) && ShareStays(w, a, s)
  {
  }

  lemma StartStays(w: World, t: Sid, newId: Id, writable: bool, expiresAt: int, s: Sid)
    requires Shaped(w) && s in w.objects
    ensures var a := StartSharing(w, t, newId, writable, expiresAt); Stays(w, a, s) && (t != s ==> ShareStays(w, a, s))
  {
  }

  /** Events that set the share of `s` anew. */
  predicate Reshares(e: Event, s: Sid) {
    (e.Share? || e.Permit? || e.Unshare?) && e.sid == s
  }

  /** The share of `s` is over by the clock. */
  predicate ShareIsOver(w: World, s: Sid)
    requires s in w.objects
  {
    || (w.objects[s].shareExpiresAt.Some? && w.objects[s].shareExpiresAt.value <= w.now)
    || (w.objects[s].shareTimer.Some? && w.objects[s].shareTimer.value <= w.now)
  }

  lemma SharingStays(w: World, e: Event, s: Sid)
    requires Inv(w) && s in w.objects && (e.Share? || e.Permit? || e.Unshare?)
    ensures Stays(w, Step(w, e), s)
    ensures !Reshares(e, s) ==> ShareStays(w, Step(w, e), s)
  {
    match e
    case Share(t, newId, writable, expiresAt) => StartStays(w, t, newId, writable, expiresAt, s);
    case Permit(t, writable) => PermitStays(w, t, writable, s);
    case Unshare(t) => StopStays(w, t, s);
  }

  lemma PermitStays(w: World, t: Sid, writable: bool, s: Sid)
    requires Shaped(w) && s in w.objects
    ensures var a := UpdateSharePermissions(w, t, writable); Stays(w, a, s) && (t != s ==> ShareStays(w, a, s))
  {
    if t in w.live {
      PutStays(w, t, w.objects[t].(shareWritable := writable), s);
    }
  }

  lemma LookupStays(w: World, x: Id, s: Sid)
    requires Inv(w) && s in w.objects
    ensures Stays(w, GetByShareId(w, x).0, s)
    ensures !ShareIsOver(w, s) ==> ShareStays(w, GetByShareId(w, x).0, s)
  {
    if x in w.shareIndex {
      StopStays(w, w.shareIndex[x], s);
    }
  }

  lemma ExpireStays(w: World, t: Sid, s: Sid)
    requires Shaped(w) && s in w.objects
    ensures Stays(w, ShareTimer(w, t), s)
    ensures !ShareIsOver(w, s) ==> ShareStays(w, ShareTimer(w, t), s)
  {
    TimerStays(w, t, s);
  }

  lemma RecordStays(w: World, e: Event, s: Sid)
    requires Inv(w) && s in w.objects && Enabled(w, e) && (e.Create? || e.Hibernate? || e.AddShared? || e.SetConnection?)
    ensures Stays(w, Step(w, e), s) && ShareStays(w, Step(w, e), s)
  {
    if !e.Create? && e.sid in w.live {
      var o := w.objects[e.sid];
      match e
      case Hibernate(t, asleep) => PutStays(w, t, o.(isHibernated := asleep), s);
      case AddShared(t, ws) => PutStays(w, t, o.(sharedWs := o.sharedWs + {ws}), s);
      case SetConnection(t) => if o.master.None? { PutStays(w, t, o.(master := Some(Master(None, None, false)), pending := false), s); }
    }
  }

  lemma SocketStays(w: World, e: Event, s: Sid)
    requires Inv(w) && s in w.objects && OnSocket(e)
    ensures Stays(w, Step(w, e), s) && ShareStays(w, Step(w, e), s)
  {
    match e
    case Open(ws, t) => SameObjects(w, OpenSocket(w, ws, t), s);
    case Elected(ws, client, recorded) => ElectStays(w, ws, client, recorded, s);
    case Polled(ws) => PolledStays(w, ws, s);
    case ReadyReceived(client, id) => ReadyStays(w, client, id, s);
    case SocketClosed(ws, call) => CloseStays(w, ws, call, s);
  }

  /** No event gives a session to another account or entry, takes the master from a session that lives on, or revives one. */
  lemma StepStays(w: World, e: Event, s: Sid)
    requires Inv(w) && s in w.objects && Enabled(w, e)
    ensures Stays(w, Step(w, e), s)
    ensures !Reshares(e, s) && (ShareIsOver(w, s) ==> !e.Expire? && !e.Lookup?) ==> ShareStays(w, Step(w, e), s)
  {
    if OnSocket(e) {
      SocketStays(w, e, s);
    } else if e.Share? || e.Permit? || e.Unshare? {
      SharingStays(w, e, s);
    } else if e.Expire? {
      ExpireStays(w, e.sid, s);
    } else if e.Lookup? {
      LookupStays(w, e.shareId, s);
    } else if e.Tick? || e.InitRecording? || e.RemoveFails? {
      IdleStays(w, e, s);
    } else if e.Create? || e.Hibernate? || e.AddShared? || e.SetConnection? {
      RecordStays(w, e, s);
    } else {
      RemovalStays(w, e, s);
    }
  }

  lemma RemovalStays(w: World, e: Event, s: Sid)
    requires Inv(w) && s in w.objects
    requires e.RecordingSettled? || e.Remove? || e.RemoveResumes?
    ensures Stays(w, Step(w, e), s) && ShareStays(w, Step(w, e), s)
  {
    match e
    case RecordingSettled(call, enabled, recording) => RecordingStays(w, call, enabled, recording, s);
    case Remove(call, t) => BeginStays(w, call, t, s);
    case RemoveResumes(call) => ResumeStays(w, call, s);
  }

  lemma IdleStays(w: World, e: Event, s: Sid)
    requires Inv(w) && s in w.objects && (e.Tick? || e.InitRecording? || e.RemoveFails?)
    ensures Stays(w, Step(w, e), s) && ShareStays(w, Step(w, e), s)
  {
    SameObjects(w, Step(w, e), s);
  }

  lemma ResumeStays(w: World, call: Id, s: Sid)
    requires Shaped(w) && s in w.objects
    ensures Stays(w, ResumeRemove(w, call), s) && ShareStays(w, ResumeRemove(w, call), s)
  {
    if call in w.removals {
      TerminalStays(w, call, w.removals[call].sid, s);
      FinishStays(w, call, w.removals[call].sid, s);
    }
  }

  lemma {:induction false} RunStays(w: World, events: seq<Event>, after: World, s: Sid)
    requires Inv(w) && Run(w, events, after) && s in w.objects
    ensures Stays(w, after, s)
    decreases |events|
  {
    if events != [] {
      StepKeeps(w, events[0]);
      StepStays(w, events[0], s);
      RunStays(Step(w, events[0]), events[1..], after, s);
      Onwards(w, Step(w, events[0]), after, s);
    }
  }

  /** A session belongs to the account and entry it was made for, in every later state. */
  lemma RecordsBelong(w: World, s: Sid, accountId: Id, entryId: Id, audited: bool, events: seq<Event>, after: World)
    requires Inv(w) && Enabled(w, Create(s, accountId, entryId, audited))
    requires Inv(Step(w, Create(s, accountId, entryId, audited))) && Run(Step(w, Create(s, accountId, entryId, audited)), events, after)
    ensures s in Step(w, Create(s, accountId, entryId, audited)).live
    ensures s in after.objects && after.objects[s].accountId == accountId && after.objects[s].entryId == entryId
            && after.objects[s].audited == audited
  {
    RunStays(Step(w, Create(s, accountId, entryId, audited)), events, after, s);
  }

  /** Once guacd has reported the id, every later poll of a waiting socket joins with it, as long as the session lives. */
  lemma WaitersJoin(w: World, c: Id, id: string, s: Sid, events: seq<Event>, after: World, ws: Ws, n: nat)
    requires Inv(w) && c in w.clients && w.clients[c] == Client(s, None) && s in w.live
    requires Inv(Step(w, ReadyReceived(c, id))) && Run(Step(w, ReadyReceived(c, id)), events, after)
    requires s in after.live && ws in after.sockets && after.sockets[ws] == Waiting(s, n)
    ensures Inv(after) && ws in Step(after, Polled(ws)).sockets
    ensures Step(after, Polled(ws)).sockets[ws] == Joined(s, id)
  {
    ReportArrives(w, c, id, s);
    RunKeeps(Step(w, ReadyReceived(c, id)), events, after);
    RunStays(Step(w, ReadyReceived(c, id)), events, after, s);
    PollDecides(after, ws, s, n);
  }

  // ---------------------------------------------------------------- how long a share lasts

  /** `s` is shared under `x`, with these permissions, until the given time. */
  predicate SharedAs(w: World, s: Sid, x: Id, writable: bool, expiresAt: int) {
    && s in w.objects
    && w.objects[s].shareId == Some(x) && w.objects[s].shareWritable == writable
    && w.objects[s].shareExpiresAt == Some(expiresAt)
    && w.objects[s].shareTimer.Some? && expiresAt <= w.objects[s].shareTimer.value
  }

  /** What `startSharing` grants: the former id if there was one, and the permissions and time asked for. */
  lemma ShareGrants(w: World, s: Sid, newId: Id, writable: bool, expiresAt: int)
    requires Inv(w) && s in w.live
    ensures var after := Step(w, Share(s, newId, writable, expiresAt));
            var x := if w.objects[s].shareId.Some? then w.objects[s].shareId.value else newId;
            s in after.live && after.now == w.now && SharedAs(after, s, x, writable, expiresAt)
  {
  }

  /** New permissions replace the old ones and nothing else of the share. */
  lemma PermitGrants(w: World, s: Sid, x: Id, was: bool, writable: bool, expiresAt: int)
    requires Inv(w) && s in w.live && SharedAs(w, s, x, was, expiresAt)
    ensures var after := Step(w, Permit(s, writable));
            s in after.live && after.now == w.now && SharedAs(after, s, x, writable, expiresAt)
  {
  }

  lemma ClockRuns(w: World, e: Event)
    requires Shaped(w) && Enabled(w, e)
    ensures w.now <= Step(w, e).now
  {
    match e
    case Expire(s) => TimerClock(w, s);
    case Lookup(x) =>
    case Remove(call, s) => RemoveClock(w, call, s);
    case RemoveResumes(call) => ResumeClock(w, call);
    case Elected(ws, client, recorded) => ElectClock(w, ws, client, recorded);
    case Polled(ws) => PollClock(w, ws);
    case SocketClosed(ws, call) => CloseClock(w, ws, call);
    case _ =>
  }

  lemma TimerClock(w: World, s: Sid)
    requires Shaped(w)
    ensures ShareTimer(w, s).now == w.now
  {
  }

  lemma RemoveClock(w: World, call: Id, s: Sid)
    requires Shaped(w)
    ensures BeginRemove(w, call, s).now == w.now
  {
    if s in w.live {
      if w.objects[s].recording.Some? {
        BeginRemoveIs(w, call, s);
      } else {
        TerminalClock(Put(w, s, w.objects[s].(connectedWs := {}, sharedWs := {}, activeWs := None)), call, s);
      }
    }
  }

  lemma TerminalClock(w: World, call: Id, s: Sid)
    requires s in w.objects
    ensures AfterTerminal(w, call, s).now == w.now
  {
  }

  lemma ResumeClock(w: World, call: Id)
    requires Shaped(w)
    ensures ResumeRemove(w, call).now == w.now
  {
  }

  lemma JoinClock(w: World, ws: Ws, s: Sid)
    requires Shaped(w)
    ensures Join(w, ws, s).now == w.now && Wait(w, ws, s).now == w.now
  {
  }

  lemma ElectClock(w: World, ws: Ws, client: Id, recorded: bool)
    requires Shaped(w)
    ensures Elect(w, ws, client, recorded).now == w.now
  {
    if ws in w.sockets && w.sockets[ws].Opening? {
      JoinClock(w, ws, w.sockets[ws].sid);
    }
  }

  lemma PollClock(w: World, ws: Ws)
    requires Shaped(w)
    ensures Poll(w, ws).now == w.now
  {
    if ws in w.sockets && w.sockets[ws].Waiting? {
      JoinClock(w, ws, w.sockets[ws].sid);
    }
  }

  lemma CloseClock(w: World, ws: Ws, call: Id)
    requires Shaped(w)
    ensures CloseSocket(w, ws, call).now == w.now
  {
    if ws in w.sockets && (w.sockets[ws].MasterOf? || w.sockets[ws].Joined?) && w.sockets[ws].sid in w.live {
      LeftIs(w, ws, call);
      RemoveClock(Left(w, ws), call, w.sockets[ws].sid);
    }
  }

  lemma {:induction false} RunClock(w: World, events: seq<Event>, after: World)
    requires Inv(w) && Run(w, events, after)
    ensures w.now <= after.now
    decreases |events|
  {
    if events != [] {
      ClockRuns(w, events[0]);
      StepKeeps(w, events[0]);
      RunClock(Step(w, events[0]), events[1..], after);
    }
  }

  lemma {:induction false} ShareStands(w: World, events: seq<Event>, after: World, s: Sid, x: Id, writable: bool, expiresAt: int)
    requires Inv(w) && Run(w, events, after) && SharedAs(w, s, x, writable, expiresAt)
    requires forall e :: e in events ==> !Reshares(e, s)
    requires s in after.live && after.now < expiresAt
    ensures SharedAs(after, s, x, writable, expiresAt)
    decreases |events|
  {
    if events != [] {
      var next := Step(w, events[0]);
      StepKeeps(w, events[0]);
      StepStays(w, events[0], s);
      RunStays(next, events[1..], after, s);
      RunClock(w, events, after);
      assert !ShareIsOver(w, s);
      ShareStands(next, events[1..], after, s, x, writable, expiresAt);
    }
  }

  /** `s` is no longer shared, or still under `x` until the given time. */
  predicate SharedAtMost(w: World, s: Sid, x: Id, expiresAt: int) {
    s in w.live ==>
      && s in w.objects
      && (w.objects[s].shareId.None? || (w.objects[s].shareId == Some(x) && w.objects[s].shareExpiresAt == Some(expiresAt)))
  }

  lemma ExpiryEnds(w: World, e: Event, s: Sid, x: Id, expiresAt: int)
    requires Inv(w) && s in w.live && SharedAtMost(w, s, x, expiresAt) && (e.Expire? || e.Lookup?)
    ensures SharedAtMost(Step(w, e), s, x, expiresAt)
  {
    match e
    case Expire(t) => TimerSharedAtMost(w, t, s, x, expiresAt);
    case Lookup(y) => LookupSharedAtMost(w, y, s, x, expiresAt);
  }

  lemma TimerSharedAtMost(w: World, t: Sid, s: Sid, x: Id, expiresAt: int)
    requires Shaped(w) && s in w.live && SharedAtMost(w, s, x, expiresAt)
    ensures SharedAtMost(ShareTimer(w, t), s, x, expiresAt)
  {
    if t in w.objects {
      StopEnds(Put(w, t, w.objects[t].(shareTimer := None)), t, s, x, expiresAt);
    }
  }

  lemma LookupSharedAtMost(w: World, y: Id, s: Sid, x: Id, expiresAt: int)
    requires Shaped(w) && s in w.live && SharedAtMost(w, s, x, expiresAt)
    ensures SharedAtMost(GetByShareId(w, y).0, s, x, expiresAt)
  {
    if y in w.shareIndex {
      StopEnds(w, w.shareIndex[y], s, x, expiresAt);
    }
  }

  lemma StopEnds(w: World, t: Sid, s: Sid, x: Id, expiresAt: int)
    requires Shaped(w) && s in w.live && SharedAtMost(w, s, x, expiresAt)
    ensures SharedAtMost(StopSharing(w, t), s, x, expiresAt)
  {
  }

  lemma StepSharedAtMost(w: World, e: Event, s: Sid, x: Id, expiresAt: int)
    requires Inv(w) && s in w.live && Enabled(w, e) && SharedAtMost(w, s, x, expiresAt) && !Reshares(e, s)
    ensures SharedAtMost(Step(w, e), s, x, expiresAt)
  {
    if e.Expire? || e.Lookup? {
      ExpiryEnds(w, e, s, x, expiresAt);
    } else {
      StepStays(w, e, s);
    }
  }

  lemma {:induction false} RunSharedAtMost(w: World, events: seq<Event>, after: World, s: Sid, x: Id, expiresAt: int)
    requires Inv(w) && Run(w, events, after) && s in w.objects && SharedAtMost(w, s, x, expiresAt)
    requires forall e :: e in events ==> !Reshares(e, s)
    requires s in after.live
    ensures SharedAtMost(after, s, x, expiresAt)
    decreases |events|
  {
    if events != [] {
      RunStays(w, events, after, s);
      StepKeeps(w, events[0]);
      StepStays(w, events[0], s);
      StepSharedAtMost(w, events[0], s, x, expiresAt);
      RunSharedAtMost(Step(w, events[0]), events[1..], after, s, x, expiresAt);
    }
  }

  /**
   A share lasts until its time: as long as the session lives and nobody shares, stops or changes permissions
   anew, the id leads to the session with the permissions that were granted.
   */
  lemma SharingLasts(w: World, events: seq<Event>, after: World, s: Sid, x: Id, writable: bool, expiresAt: int)
    requires Inv(w) && Run(w, events, after) && SharedAs(w, s, x, writable, expiresAt)
    requires forall e :: e in events ==> !Reshares(e, s)
    requires s in after.live
    ensures Inv(after)
    ensures GetByShareId(after, x).1 == Some(s) <==> after.now < expiresAt
    ensures after.now < expiresAt ==> after.objects[s].shareWritable == writable
  {
    RunKeeps(w, events, after);
    if after.now < expiresAt {
      ShareStands(w, events, after, s, x, writable, expiresAt);
    } else {
      RunSharedAtMost(w, events, after, s, x, expiresAt);
    }
  }

  // ---------------------------------------------------------------- how a session ends

  function DesktopOf(o: Session): bool {
    o.master.Some? && o.master.value.recorded
  }

  /** The first part of a removal: sockets are closed, and one recording at most is taken up. */
  ghost predicate RemovalStarted(w: World, after: World, call: Id, s: Sid)
    requires s in w.objects
  {
    var o := w.objects[s];
    && s in after.objects && after.objects[s].connectedWs == {} && after.objects[s].sharedWs == {}
    && after.objects[s].activeWs.None? && after.objects[s].recording.None?
    && after.sockets == w.sockets
    && after.finalised == (if o.recording.Some? then w.finalised + multiset{o.recording.value} else w.finalised)
    && after.exported == (if o.recording.None? && DesktopOf(o) then w.exported + multiset{s} else w.exported)
    && (s in after.live <==> o.recording.Some? || DesktopOf(o))
    && (call in after.removals <==> o.recording.Some? || DesktopOf(o))
    && (call in after.removals ==>
          after.removals[call] == Removal(s, if o.recording.Some? then AtTerminalRecording else AtGuacRecording))
  }

  lemma WaitsForTerminal(w: World, call: Id, s: Sid)
    requires Shaped(w) && s in w.live && call !in w.removals && w.objects[s].recording.Some?
    ensures RemovalStarted(w, BeginRemove(w, call, s), call, s)
  {
    BeginRemoveIs(w, call, s);
  }

  lemma WaitsForDesktop(w: World, call: Id, s: Sid)
    requires Shaped(w) && s in w.live && call !in w.removals && w.objects[s].recording.None? && DesktopOf(w.objects[s])
    ensures RemovalStarted(w, BeginRemove(w, call, s), call, s)
  {
  }

  lemma EndsAtOnce(w: World, call: Id, s: Sid)
    requires Shaped(w) && s in w.live && call !in w.removals && w.objects[s].recording.None? && !DesktopOf(w.objects[s])
    ensures RemovalStarted(w, BeginRemove(w, call, s), call, s)
  {
  }

  /**
   A removal that starts closes every socket, ends the terminal recording if there is one, and otherwise hands
   over the desktop recording if there is one; with neither the session is gone at once.
   */
  lemma RemovalStarts(w: World, call: Id, s: Sid)
    requires Shaped(w) && s in w.live && call !in w.removals
    ensures RemovalStarted(w, BeginRemove(w, call, s), call, s)
  {
    if w.objects[s].recording.Some? {
      WaitsForTerminal(w, call, s);
    } else if DesktopOf(w.objects[s]) {
      WaitsForDesktop(w, call, s);
    } else {
      EndsAtOnce(w, call, s);
    }
  }

  /** A suspended removal goes on to the desktop recording, if it has not been there and there is one, and else ends the session. */
  lemma RemovalResumes(w: World, call: Id)
    requires Inv(w) && call in w.removals
    ensures var after, s, o := Step(w, RemoveResumes(call)), w.removals[call].sid, w.objects[w.removals[call].sid];
            var desktop := w.removals[call].at == AtTerminalRecording && o.master.Some? && o.master.value.recorded;
            && (call in after.removals <==> desktop)
            && (desktop ==> after.removals[call] == Removal(s, AtGuacRecording) && after.live == w.live)
            && (!desktop ==> after.live == w.live - {s} && after.shareIndex.Keys == w.shareIndex.Keys - (if o.shareId.Some? then {o.shareId.value} else {}))
  {
  }

  /** Two resumptions end every removal that does not fail. */
  lemma RemovalEnds(w: World, call: Id)
    requires Inv(w) && call in w.removals
    ensures var one := Step(w, RemoveResumes(call));
            Inv(one) && (call in one.removals ==> w.removals[call].sid !in Step(one, RemoveResumes(call)).live)
            && (call !in one.removals ==> w.removals[call].sid !in one.live)
  {
    StepKeeps(w, RemoveResumes(call));
    RemovalResumes(w, call);
    if call in Step(w, RemoveResumes(call)).removals {
      RemovalResumes(Step(w, RemoveResumes(call)), call);
    }
  }

  /** A socket with handlers that closes starts the removal of its session exactly when it was the last one and the session is awake. */
  lemma ClosingDecides(w: World, ws: Ws, call: Id)
    requires Inv(w) && call !in w.removals
    requires ws in w.sockets && (w.sockets[ws].MasterOf? || w.sockets[ws].Joined?) && w.sockets[ws].sid in w.live
    ensures var s := w.sockets[ws].sid;
            var after, o := Step(w, SocketClosed(ws, call)), w.objects[s];
            && after.sockets == w.sockets[ws := Closed]
            && (call in after.removals || s !in after.live <==> o.connectedWs <= {ws} && o.sharedWs == {} && !o.isHibernated)
  {
    LastIs(w.objects[w.sockets[ws].sid].connectedWs, ws);
    RemovalBeginsIff(w, ws, call);
  }

  lemma RemovalBeginsIff(w: World, ws: Ws, call: Id)
    requires Shaped(w) && call !in w.removals
    requires ws in w.sockets && (w.sockets[ws].MasterOf? || w.sockets[ws].Joined?) && w.sockets[ws].sid in w.live
    ensures var after := CloseSocket(w, ws, call);
            && after.sockets == w.sockets[ws := Closed]
            && (call in after.removals || w.sockets[ws].sid !in after.live <==> LastSocket(w, ws))
  {
    LeftIs(w, ws, call);
    if LastSocket(w, ws) {
      RemovalBegun(Left(w, ws), call, w.sockets[ws].sid);
    }
  }

  lemma LastIs(sockets: set<Ws>, ws: Ws)
    ensures sockets - {ws} == {} <==> sockets <= {ws}
  {
  }

  lemma RemovalBegun(w: World, call: Id, s: Sid)
    requires Shaped(w) && s in w.live && call !in w.removals
    ensures var after := BeginRemove(w, call, s);
            after.sockets == w.sockets && (call in after.removals || s !in after.live)
  {
    RemovalStarts(w, call, s);
  }

  /** An audited session that is recorded holds the recording from then on, until something takes it. */
  lemma RecordingOpens(w: World, call: Id, s: Sid, enabled: bool, recording: Id)
    requires Inv(w) && call !in w.recorders && s in w.live && recording !in w.usedRecordings
    ensures var one := Step(w, InitRecording(call, s));
            && Inv(one) && one.objects == w.objects
            && one.recorders == (if w.objects[s].audited then w.recorders[call := s] else w.recorders)
    ensures var two := Step(Step(w, InitRecording(call, s)), RecordingSettled(call, enabled, recording));
            s in two.objects
            && two.objects[s].recording == if enabled && w.objects[s].audited then Some(recording) else w.objects[s].recording
  {
    StepKeeps(w, InitRecording(call, s));
    RecordingAsked(w, call, s);
    RecordingSettles(Step(w, InitRecording(call, s)), call, s, enabled, recording);
  }

  lemma RecordingAsked(w: World, call: Id, s: Sid)
    requires Shaped(w) && s in w.live
    ensures BeginRecording(w, call, s).objects == w.objects
    ensures BeginRecording(w, call, s).recorders == (if w.objects[s].audited then w.recorders[call := s] else w.recorders)
  {
  }

  lemma RecordingSettles(w: World, call: Id, s: Sid, enabled: bool, recording: Id)
    requires s in w.objects && (call in w.recorders ==> w.recorders[call] == s)
    ensures var two := OpenRecording(w, call, enabled, recording);
            s in two.objects
            && two.objects[s].recording == if enabled && call in w.recorders then Some(recording) else w.objects[s].recording
  {
  }

  // ---------------------------------------------------------------- how a share ends

  /** Guests are cut off, and the session is shared no more; a guest that was active is so no more. */
  ghost predicate ShareEnded(w: World, after: World, s: Sid) {
    && s in w.objects && s in after.objects && Unshared(w.objects[s], after.objects[s])
    && w.objects[s].shareId.Some? && after.shareIndex == w.shareIndex - {w.objects[s].shareId.value}
  }

  predicate Unshared(o: Session, p: Session) {
    && p.shareId.None? && p.shareExpiresAt.None? && p.shareTimer.None? && !p.shareWritable && p.sharedWs == {}
    && p.activeWs == (if o.activeWs.Some? && o.activeWs.value in o.sharedWs then None else o.activeWs)
    && p.connectedWs == o.connectedWs && p.master == o.master
  }

  lemma StoppingEnds(w: World, s: Sid)
    requires Shaped(w) && s in w.live && w.objects[s].shareId.Some?
    ensures ShareEnded(w, StopSharing(w, s), s)
  {
  }

  lemma TimerEnds(w: World, s: Sid)
    requires Inv(w) && s in w.live && w.objects[s].shareId.Some?
    ensures w.objects[s].shareTimer.Some?
    ensures w.objects[s].shareTimer.value <= w.now ==> ShareEnded(w, ShareTimer(w, s), s)
  {
    if w.objects[s].shareTimer.Some? && w.objects[s].shareTimer.value <= w.now {
      ShareTimerIs(w, s);
      StoppingEnds(w, s);
    }
  }

  /** A share ends when it is stopped, and when its timer fires. */
  lemma SharingEnds(w: World, s: Sid)
    requires Inv(w) && s in w.live && w.objects[s].shareId.Some?
    ensures ShareEnded(w, Step(w, Unshare(s)), s)
    ensures w.objects[s].shareTimer.Some?
    ensures w.objects[s].shareTimer.value <= w.now ==> ShareEnded(w, Step(w, Expire(s)), s)
  {
    StoppingEnds(w, s);
    TimerEnds(w, s);
  }

  // ---------------------------------------------------------------- single events

  /** A new session is live, awake, unshared, without sockets and without a master. */
  lemma SessionMade(w: World, s: Sid, accountId: Id, entryId: Id, audited: bool)
    requires Shaped(w) && s !in w.objects
    ensures var after := Step(w, Create(s, accountId, entryId, audited));
            && after.live == w.live + {s} && s in after.objects
            && var o := after.objects[s];
               && o.accountId == accountId && o.entryId == entryId && o.audited == audited
               && !o.isHibernated && o.master.None? && !o.pending && o.recording.None? && o.shareId.None?
               && o.connectedWs == {} && o.sharedWs == {} && o.activeWs.None? && !o.shareWritable
  {
  }

  /** Sleep, a guest's socket, and a terminal connection reach the record of a live session. */
  lemma RecordTold(w: World, s: Sid, asleep: bool, ws: Ws)
    requires Shaped(w) && s in w.live
    ensures Step(w, Hibernate(s, asleep)).objects == w.objects[s := w.objects[s].(isHibernated := asleep)]
    ensures Step(w, AddShared(s, ws)).objects == w.objects[s := w.objects[s].(sharedWs := w.objects[s].sharedWs + {ws})]
    ensures w.objects[s].master.None? ==>
              Step(w, SetConnection(s)).objects
              == w.objects[s := w.objects[s].(master := Some(Master(None, None, false)), pending := false)]
    ensures w.objects[s].master.Some? ==> Step(w, SetConnection(s)) == w
  {
  }

  /** A browser socket is let in exactly when its session is live. */
  lemma OpeningDecides(w: World, ws: Ws, s: Sid)
    requires Shaped(w) && ws !in w.sockets
    ensures Step(w, Open(ws, s)).sockets == w.sockets[ws := if s in w.live then Opening(s) else Rejected]
  {
  }
}
