/**
 Live sessions (server/lib/SessionManager.js) and the browser sockets that open on them
 (server/lib/ClientConnection.js), as a transition system.

 A step is what runs between two suspension points of the source: an `await`, a timer or an event.
 `objects` holds every session record ever made and `live` the keys of the source's `sessions` map,
 because a suspended `remove` keeps using its record after the key is gone.
 */
module Sessions {
  import opened Wrappers

  type Sid = nat
  type Ws = nat
  type Id = nat

  /** What `session.masterConnection` holds: a guacd client, or a terminal connection. */
  datatype Master = Master(client: Option<Id>, connectionId: Option<string>, recorded: bool)

  datatype Session = Session(
    accountId: Id,
    entryId: Id,
    audited: bool,
    isHibernated: bool,
    master: Option<Master>,
    pending: bool,
    recording: Option<Id>,
    activeWs: Option<Ws>,
    connectedWs: set<Ws>,
    sharedWs: set<Ws>,
    shareId: Option<Id>,
    shareWritable: bool,
    shareExpiresAt: Option<int>,
    shareTimer: Option<int>)     // when the pending share timer is due

  /** Where a call of `remove` is suspended. */
  datatype RemovePoint = AtTerminalRecording | AtGuacRecording

  datatype Removal = Removal(sid: Sid, at: RemovePoint)

  /** A browser socket of `ClientConnection`, from the constructor on. */
  datatype Socket =
    | Opening(sid: Sid)                       // suspended before the election
    | Waiting(sid: Sid, attempts: nat)        // polling for the master's connection id
    | MasterOf(sid: Sid, client: Id)
    | Joined(sid: Sid, connectionId: string)
    | Rejected | Stopped | TimedOut | Closed

  /** A master GuacdClient: its session and the connection id guacd reported to it. */
  datatype Client = Client(sid: Sid, reported: Option<string>)

  datatype World = World(
    objects: map<Sid, Session>,
    live: set<Sid>,
    shareIndex: map<Id, Sid>,
    removals: map<Id, Removal>,
    recorders: map<Id, Sid>,     // suspended calls of initRecording
    sockets: map<Ws, Socket>,
    clients: map<Id, Client>,
    finalised: multiset<Id>,     // terminal recordings whose stream was ended, once per end
    exported: multiset<Sid>,     // sessions whose desktop recording was handed to finalisation, once per time
    failed: set<Sid>,            // sessions where that finalisation threw
    usedShares: set<Id>,
    usedRecordings: set<Id>,
    now: int)

  const MaxAttempts := 50

  const Start := World(map[], {}, map[], map[], map[], map[], map[], multiset{}, multiset{}, {}, {}, {}, 0)

  function NewSession(accountId: Id, entryId: Id, audited: bool): Session {
    Session(accountId, entryId, audited, false, None, false, None, None, {}, {}, None, false, None, None)
  }

  function Put(w: World, s: Sid, o: Session): World {
    w.(objects := w.objects[s := o])
  }

  // ---------------------------------------------------------------- sharing

  function Max(a: int, b: int): int {
    if a < b then b else a
  }

  function StartSharing(w: World, s: Sid, newId: Id, writable: bool, expiresAt: int): World
    requires w.live <= w.objects.Keys
  {
    if s !in w.live then w
    else
      var o := w.objects[s];
      var shareId := if o.shareId.Some? then o.shareId.value else newId;
      Put(w, s, o.(shareId := Some(shareId), shareWritable := writable, shareExpiresAt := Some(expiresAt),
                   shareTimer := Some(Max(expiresAt, w.now))))
        .(shareIndex := if o.shareId.Some? then w.shareIndex else w.shareIndex[newId := s],
          usedShares := w.usedShares + {shareId})
  }

  function UpdateSharePermissions(w: World, s: Sid, writable: bool): World
    requires w.live <= w.objects.Keys
  {
    if s in w.live && w.objects[s].shareId.Some? then Put(w, s, w.objects[s].(shareWritable := writable)) else w
  }

  function StopSharing(w: World, s: Sid): World
    requires w.live <= w.objects.Keys
  {
    if s !in w.live || w.objects[s].shareId.None? then w
    else
      var o := w.objects[s];
      Put(w, s, o.(activeWs := if o.activeWs.Some? && o.activeWs.value in o.sharedWs then None else o.activeWs,
                   sharedWs := {}, shareId := None, shareWritable := false, shareExpiresAt := None, shareTimer := None))
        .(shareIndex := w.shareIndex - {o.shareId.value})
  }

  function GetByShareId(w: World, shareId: Id): (World, Option<Sid>)
    requires w.live <= w.objects.Keys
  {
    if shareId !in w.shareIndex || w.shareIndex[shareId] !in w.live then (w, None)
    else
      var s := w.shareIndex[shareId];
      var expiresAt := w.objects[s].shareExpiresAt;
      if expiresAt.Some? && expiresAt.value <= w.now then (StopSharing(w, s), None) else (w, Some(s))
  }

  /** The timer set by `startSharing` fires. */
  function ShareTimer(w: World, s: Sid): World
    requires w.live <= w.objects.Keys
  {
    if s in w.objects && w.objects[s].shareTimer.Some? && w.objects[s].shareTimer.value <= w.now
    then StopSharing(Put(w, s, w.objects[s].(shareTimer := None)), s)
    else w
  }

  // ---------------------------------------------------------------- recordings

  function BeginRecording(w: World, call: Id, s: Sid): World
    requires w.live <= w.objects.Keys
  {
    if s in w.live && w.objects[s].audited then w.(recorders := w.recorders[call := s]) else w
  }

  /** `initRecording` after its await: it writes to the record it captured. */
  function OpenRecording(w: World, call: Id, enabled: bool, recording: Id): World {
    if call !in w.recorders then w
    else
      var s := w.recorders[call];
      var rest := w.(recorders := w.recorders - {call});
      if enabled && s in w.objects
      then Put(rest, s, w.objects[s].(recording := Some(recording))).(usedRecordings := w.usedRecordings + {recording})
      else rest
  }

  // ---------------------------------------------------------------- removal

  /** The call of `remove` up to its first suspension. */
  function BeginRemove(w: World, call: Id, s: Sid): World
    requires w.live <= w.objects.Keys
  {
    if s !in w.live then w
    else
      var o := w.objects[s].(connectedWs := {}, sharedWs := {}, activeWs := None);
      if o.recording.Some? then
        Put(w, s, o.(recording := None))
          .(finalised := w.finalised + multiset{o.recording.value},
            removals := w.removals[call := Removal(s, AtTerminalRecording)])
      else AfterTerminal(Put(w, s, o), call, s)
  }

  function AfterTerminal(w: World, call: Id, s: Sid): World
    requires s in w.objects
  {
    var master := w.objects[s].master;
    if master.Some? && master.value.recorded
    then w.(removals := w.removals[call := Removal(s, AtGuacRecording)], exported := w.exported + multiset{s})
    else FinishRemove(w, call, s)
  }

  function FinishRemove(w: World, call: Id, s: Sid): World
    requires s in w.objects
  {
    var o := w.objects[s];
    Put(w, s, o.(master := None, shareTimer := if o.shareId.Some? then None else o.shareTimer))
      .(removals := w.removals - {call},
        shareIndex := if o.shareId.Some? then w.shareIndex - {o.shareId.value} else w.shareIndex,
        live := w.live - {s})
  }

  function ResumeRemove(w: World, call: Id): World
    requires forall c :: c in w.removals ==> w.removals[c].sid in w.objects
  {
    if call !in w.removals then w
    else if w.removals[call].at == AtTerminalRecording then AfterTerminal(w, call, w.removals[call].sid)
    else FinishRemove(w, call, w.removals[call].sid)
  }

  /** The awaited work throws, and the call ends there. */
  function FailRemove(w: World, call: Id): World {
    w.(removals := w.removals - {call},
       failed := if call in w.removals && w.removals[call].at == AtGuacRecording
                 then w.failed + {w.removals[call].sid} else w.failed)
  }

  // ---------------------------------------------------------------- the master connection

  predicate HasMaster(w: World, s: Sid)
    requires w.live <= w.objects.Keys
  {
    s in w.live && ((w.objects[s].master.Some? && w.objects[s].master.value.client.Some?) || w.objects[s].pending)
  }

  predicate MayBecomeMaster(w: World, s: Sid)
    requires w.live <= w.objects.Keys
  {
    s in w.live && w.objects[s].master.None? && !w.objects[s].pending
  }

  function SetMaster(w: World, s: Sid, master: Master): World
    requires w.live <= w.objects.Keys
  {
    if s !in w.live || w.objects[s].master.Some? then w
    else Put(w, s, w.objects[s].(master := Some(master), pending := false))
  }

  function AddWebSocket(w: World, s: Sid, ws: Ws): World
    requires w.live <= w.objects.Keys
  {
    if s in w.live then Put(w, s, w.objects[s].(connectedWs := w.objects[s].connectedWs + {ws})) else w
  }

  function SetActive(w: World, s: Sid, ws: Ws): World
    requires w.live <= w.objects.Keys
  {
    if s in w.live then Put(w, s, w.objects[s].(activeWs := Some(ws))) else w
  }

  /** The id that joiners read: `getMasterConnection(sessionId)?.guacdConnectionId`. */
  function ReportedId(w: World, s: Sid): Option<string>
    requires w.live <= w.objects.Keys
  {
    if s in w.live && w.objects[s].master.Some? then w.objects[s].master.value.connectionId else None
  }

  function OpenSocket(w: World, ws: Ws, s: Sid): World {
    w.(sockets := w.sockets[ws := if s in w.live then Opening(s) else Rejected])
  }

  function Wait(w: World, ws: Ws, s: Sid): World
    requires w.live <= w.objects.Keys
  {
    var added := AddWebSocket(w, s, ws);
    added.(sockets := added.sockets[ws := Waiting(s, 0)])
  }

  function Join(w: World, ws: Ws, s: Sid): World
    requires w.live <= w.objects.Keys
  {
    var id := ReportedId(w, s);
    if id.None? then Wait(w, ws, s)
    else
      var added := SetActive(AddWebSocket(w, s, ws), s, ws);
      added.(sockets := added.sockets[ws := Joined(s, id.value)])
  }

  /** `setMasterConnectionPending` and `createMasterConnection`, with no suspension in between. */
  function CreateMaster(w: World, ws: Ws, s: Sid, client: Id, recorded: bool): World
    requires w.live <= w.objects.Keys && MayBecomeMaster(w, s)
  {
    var chosen := Put(w, s, w.objects[s].(pending := true));
    var set_ := SetMaster(chosen.(clients := w.clients[client := Client(s, None)]), s, Master(Some(client), None, recorded));
    var added := SetActive(AddWebSocket(set_, s, ws), s, ws);
    added.(sockets := added.sockets[ws := MasterOf(s, client)])
  }

  /** `initialize` after its await: the election. */
  function Elect(w: World, ws: Ws, client: Id, recorded: bool): World
    requires w.live <= w.objects.Keys
  {
    if ws !in w.sockets || !w.sockets[ws].Opening? then w
    else
      var s := w.sockets[ws].sid;
      if HasMaster(w, s) then Join(w, ws, s)
      else if MayBecomeMaster(w, s) then CreateMaster(w, ws, s, client, recorded)
      else Wait(w, ws, s)
  }

  /** `checkMaster` */
  function Poll(w: World, ws: Ws): World
    requires w.live <= w.objects.Keys
  {
    if ws !in w.sockets || !w.sockets[ws].Waiting? then w
    else
      var Waiting(s, attempts) := w.sockets[ws];
      if s !in w.live then w.(sockets := w.sockets[ws := Stopped])
      else if ReportedId(w, s).Some? then Join(w, ws, s)
      else if attempts + 1 >= MaxAttempts then w.(sockets := w.sockets[ws := TimedOut])
      else w.(sockets := w.sockets[ws := Waiting(s, attempts + 1)])
  }

  /** guacd's `ready` reaches a master client that has no id yet. */
  function Ready(w: World, client: Id, id: string): World
    requires w.live <= w.objects.Keys
  {
    if client !in w.clients || w.clients[client].reported.Some? then w
    else
      var s := w.clients[client].sid;
      var told := w.(clients := w.clients[client := Client(s, Some(id))]);
      if s in w.live && w.objects[s].master.Some?
      then Put(told, s, w.objects[s].(master := Some(w.objects[s].master.value.(connectionId := Some(id)))))
      else told
  }

  /** The browser closes a socket that has handlers; the last one ends the session. */
  function CloseSocket(w: World, ws: Ws, call: Id): World
    requires w.live <= w.objects.Keys
  {
    if ws !in w.sockets || !(w.sockets[ws].MasterOf? || w.sockets[ws].Joined?) then w
    else
      var s := w.sockets[ws].sid;
      var closed := w.(sockets := w.sockets[ws := Closed]);
      if s !in w.live then closed
      else
        var o := w.objects[s];
        var left := o.(connectedWs := o.connectedWs - {ws}, activeWs := if o.activeWs == Some(ws) then None else o.activeWs);
        var after := Put(closed, s, left);
        if !o.isHibernated && left.connectedWs == {} && left.sharedWs == {} then BeginRemove(after, call, s) else after
  }

  // ---------------------------------------------------------------- events

  datatype Event =
    | Create(sid: Sid, accountId: Id, entryId: Id, audited: bool)
    | Tick(now: int)
    | Hibernate(sid: Sid, asleep: bool)
    | Share(sid: Sid, newId: Id, writable: bool, expiresAt: int)
    | Permit(sid: Sid, writable: bool)
    | Unshare(sid: Sid)
    | Expire(sid: Sid)
    | Lookup(shareId: Id)
    | AddShared(sid: Sid, ws: Ws)
    | InitRecording(call: Id, sid: Sid)
    | RecordingSettled(call: Id, enabled: bool, recording: Id)
    | SetConnection(sid: Sid)
    | Remove(call: Id, sid: Sid)
    | RemoveResumes(call: Id)
    | RemoveFails(call: Id)
    | Open(ws: Ws, sid: Sid)
    | Elected(ws: Ws, client: Id, recorded: bool)
    | Polled(ws: Ws)
    | ReadyReceived(client: Id, connectionId: string)
    | SocketClosed(ws: Ws, call: Id)

  /** Generated ids are fresh, a call has one id, and the clock does not go back. */
  predicate Enabled(w: World, e: Event) {
    match e
    case Create(s, _, _, _) => s !in w.objects
    case Tick(now) => w.now <= now
    case Share(_, newId, _, _) => newId !in w.usedShares
    case InitRecording(call, _) => call !in w.recorders
    case RecordingSettled(_, _, recording) => recording !in w.usedRecordings
    case Remove(call, _) => call !in w.removals
    case Open(ws, _) => ws !in w.sockets
    case Elected(_, client, _) => client !in w.clients
    case SocketClosed(_, call) => call !in w.removals
    case _ => true
  }

  predicate Shaped(w: World) {
    && w.live <= w.objects.Keys
    && (forall c :: c in w.removals ==> w.removals[c].sid in w.objects)
  }

  function Step(w: World, e: Event): World
    requires Shaped(w)
  {
    match e
    case Create(s, a, n, audited) => Put(w, s, NewSession(a, n, audited)).(live := w.live + {s})
    case Tick(now) => w.(now := now)
    case Hibernate(s, asleep) => if s in w.live then Put(w, s, w.objects[s].(isHibernated := asleep)) else w
    case Share(s, newId, writable, expiresAt) => StartSharing(w, s, newId, writable, expiresAt)
    case Permit(s, writable) => UpdateSharePermissions(w, s, writable)
    case Unshare(s) => StopSharing(w, s)
    case Expire(s) => ShareTimer(w, s)
    case Lookup(x) => GetByShareId(w, x).0
    case AddShared(s, ws) =>
      if s in w.live then Put(w, s, w.objects[s].(sharedWs := w.objects[s].sharedWs + {ws})) else w
    case InitRecording(call, s) => BeginRecording(w, call, s)
    case RecordingSettled(call, enabled, recording) => OpenRecording(w, call, enabled, recording)
    case SetConnection(s) => SetMaster(w, s, Master(None, None, false))
    case Remove(call, s) => BeginRemove(w, call, s)
    case RemoveResumes(call) => ResumeRemove(w, call)
    case RemoveFails(call) => FailRemove(w, call)
    case Open(ws, s) => OpenSocket(w, ws, s)
    case Elected(ws, client, recorded) => Elect(w, ws, client, recorded)
    case Polled(ws) => Poll(w, ws)
    case ReadyReceived(client, id) => Ready(w, client, id)
    case SocketClosed(ws, call) => CloseSocket(w, ws, call)
  }
}
