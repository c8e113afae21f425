/**
 Desktop recordings (server/lib/SessionManager.js): `remove` finalises the recording of the master
 connection before it lets go of the connection, so overlapping removals finalise it again. Here is
 exactly when.
 */
module DesktopRecordings {
  import opened Wrappers
  import opened Sessions
  import opened SessionLaws

  predicate Recorded(o: Session) {
    o.master.Some? && o.master.value.recorded
  }

  /** Some call of `remove` is waiting for the desktop recording of `s` to be finalised. */
  ghost predicate Finalising(w: World, s: Sid) {
    exists c :: c in w.removals && w.removals[c] == Removal(s, AtGuacRecording)
  }

  /** An earlier removal is still finalising the recording, or failed in doing so. */
  ghost predicate Overlapping(w: World, s: Sid) {
    s in w.failed || Finalising(w, s)
  }

  /** Where a handed-over recording leaves its trace. */
  ghost predicate Traced(w: World) {
    && (forall s :: s in w.exported || s in w.failed || Finalising(w, s) ==> s in w.objects)
    && (forall s :: Overlapping(w, s) ==> s in w.exported)
    && (forall s :: s in w.exported && s in w.live && s in w.objects ==> Recorded(w.objects[s]))
    && (forall s :: s in w.exported && s in w.objects && Recorded(w.objects[s]) ==> Overlapping(w, s))
  }

  // ---------------------------------------------------------------- what a step hands over

  /** The call with which this step reaches the recorded master of a session. */
  function Hands(w: World, e: Event): Option<Sid>
    requires Shaped(w)
  {
    match e
    case Remove(_, s) => if s in w.live then HandsOn(w, s) else None
    case SocketClosed(ws, _) => HandsOnClose(w, ws)
    case RemoveResumes(call) =>
      if call in w.removals && w.removals[call].at == AtTerminalRecording && Recorded(w.objects[w.removals[call].sid])
      then Some(w.removals[call].sid) else None
    case _ => None
  }

  /** A removal that starts: a terminal recording makes it wait first. */
  function HandsOn(w: World, s: Sid): Option<Sid>
    requires s in w.objects
  {
    if w.objects[s].recording.None? && Recorded(w.objects[s]) then Some(s) else None
  }

  predicate LastSocket(w: World, ws: Ws)
    requires Shaped(w)
  {
    && ws in w.sockets && (w.sockets[ws].MasterOf? || w.sockets[ws].Joined?) && w.sockets[ws].sid in w.live
    && var o := w.objects[w.sockets[ws].sid];
       !o.isHibernated && o.connectedWs - {ws} == {} && o.sharedWs == {}
  }

  function HandsOnClose(w: World, ws: Ws): Option<Sid>
    requires Shaped(w)
  {
    if LastSocket(w, ws) then HandsOn(w, w.sockets[ws].sid) else None
  }

  function Times(s: Option<Sid>): multiset<Sid> {
    if s.None? then multiset{} else multiset{s.value}
  }

  /** The records keep their recorded masters, and the removals and counts stay. */
  ghost predicate SameTraces(w: World, after: World) {
    && after.removals == w.removals && after.exported == w.exported && after.failed == w.failed
    && (forall s :: s in w.objects ==> s in after.objects && Recorded(after.objects[s]) == Recorded(w.objects[s]))
    && (forall s :: s in after.live && s in w.objects ==> s in w.live)
  }

  lemma SameTracesKeep(w: World, after: World)
    requires Traced(w) && SameTraces(w, after)
    ensures Traced(after)
  {
    forall s
      ensures Overlapping(after, s) == Overlapping(w, s)
    {
    }
  }

  lemma EqualTraces(w: World, after: World)
    requires Traced(w)
    requires after.objects == w.objects && after.live == w.live && after.removals == w.removals
    requires after.exported == w.exported && after.failed == w.failed
    ensures Traced(after)
  {
    SameTracesKeep(w, after);
  }

  lemma PutTraces(w: World, s: Sid, o: Session)
    requires s in w.objects && Recorded(o) == Recorded(w.objects[s])
    ensures SameTraces(w, Put(w, s, o))
    ensures Traced(w) ==> Traced(Put(w, s, o))
  {
    if Traced(w) {
      SameTracesKeep(w, Put(w, s, o));
    }
  }

  lemma FinishTraces(w: World, call: Id, s: Sid)
    requires Traced(w) && s in w.objects && (call in w.removals ==> w.removals[call].sid == s)
    ensures Traced(FinishRemove(w, call, s)) && FinishRemove(w, call, s).exported == w.exported
  {
    var after := FinishRemove(w, call, s);
    forall t
      ensures Finalising(after, t) ==> Finalising(w, t)
      ensures t != s && Finalising(w, t) ==> Finalising(after, t)
    {
      if t != s && Finalising(w, t) {
        var c :| c in w.removals && w.removals[c] == Removal(t, AtGuacRecording);
        assert c in after.removals;
      }
    }
  }

  lemma SuspendTraces(w: World, call: Id, s: Sid)
    requires Traced(w) && s in w.objects && Recorded(w.objects[s])
    requires call in w.removals ==> w.removals[call] == Removal(s, AtTerminalRecording)
    ensures Traced(w.(removals := w.removals[call := Removal(s, AtGuacRecording)], exported := w.exported + multiset{s}))
  {
    var after := w.(removals := w.removals[call := Removal(s, AtGuacRecording)], exported := w.exported + multiset{s});
    assert after.removals[call] == Removal(s, AtGuacRecording);
    forall t
      ensures Finalising(after, t) <==> Finalising(w, t) || t == s
    {
      if Finalising(w, t) {
        var c :| c in w.removals && w.removals[c] == Removal(t, AtGuacRecording);
        assert c != call && c in after.removals && after.removals[c] == w.removals[c];
      }
    }
  }

  lemma AfterTerminalTraces(w: World, call: Id, s: Sid)
    requires Traced(w) && s in w.objects
    requires call in w.removals ==> w.removals[call] == Removal(s, AtTerminalRecording)
    ensures Traced(AfterTerminal(w, call, s))
    ensures AfterTerminal(w, call, s).exported == w.exported + Times(if Recorded(w.objects[s]) then Some(s) else None)
  {
    if Recorded(w.objects[s]) {
      SuspendTraces(w, call, s);
    } else {
      FinishTraces(w, call, s);
    }
  }

  lemma WaitTraces(w: World, call: Id, s: Sid)
    requires Traced(w) && call !in w.removals
    ensures Traced(w.(removals := w.removals[call := Removal(s, AtTerminalRecording)]))
  {
    var after := w.(removals := w.removals[call := Removal(s, AtTerminalRecording)]);
    forall t
      ensures Finalising(after, t) <==> Finalising(w, t)
    {
      if Finalising(w, t) {
        var c :| c in w.removals && w.removals[c] == Removal(t, AtGuacRecording);
        assert c != call && c in after.removals && after.removals[c] == w.removals[c];
      }
    }
  }

  lemma BeginWaits(w: World, call: Id, s: Sid)
    requires Shaped(w) && Traced(w) && call !in w.removals && s in w.live && w.objects[s].recording.Some?
    ensures Traced(BeginRemove(w, call, s)) && BeginRemove(w, call, s).exported == w.exported
  {
    BeginRemoveIs(w, call, s);
    var left := Put(w, s, w.objects[s].(connectedWs := {}, sharedWs := {}, activeWs := None));
    PutTraces(w, s, left.objects[s]);
    PutTraces(left, s, left.objects[s].(recording := None));
    WaitTraces(Put(left, s, left.objects[s].(recording := None)), call, s);
    var waits := SuspendAtTerminal(left, call, s);
    assert waits.removals == left.removals[call := Removal(s, AtTerminalRecording)];
    EqualTraces(Put(left, s, left.objects[s].(recording := None)).(removals := waits.removals), waits);
  }

  lemma BeginHands(w: World, call: Id, s: Sid)
    requires Shaped(w) && Traced(w) && call !in w.removals && s in w.live && w.objects[s].recording.None?
    ensures Traced(BeginRemove(w, call, s))
    ensures BeginRemove(w, call, s).exported == w.exported + Times(HandsOn(w, s))
  {
    var o := w.objects[s].(connectedWs := {}, sharedWs := {}, activeWs := None);
    PutTraces(w, s, o);
    AfterTerminalTraces(Put(w, s, o), call, s);
  }

  lemma BeginTraces(w: World, call: Id, s: Sid)
    requires Shaped(w) && Traced(w) && call !in w.removals && s in w.live
    ensures Traced(BeginRemove(w, call, s))
    ensures BeginRemove(w, call, s).exported == w.exported + Times(HandsOn(w, s))
  {
    if w.objects[s].recording.Some? {
      BeginWaits(w, call, s);
    } else {
      BeginHands(w, call, s);
    }
  }

  lemma FailTraces(w: World, call: Id)
    requires Traced(w)
    ensures Traced(FailRemove(w, call))
  {
    var after := FailRemove(w, call);
    forall t
      ensures Overlapping(after, t) <==> Overlapping(w, t)
    {
      if Finalising(w, t) && t !in after.failed {
        var c :| c in w.removals && w.removals[c] == Removal(t, AtGuacRecording);
        assert c != call && c in after.removals && after.removals[c] == w.removals[c];
      }
    }
  }

  lemma LeaveTraces(w: World, ws: Ws)
    requires Shaped(w) && Traced(w) && ws in w.sockets && (w.sockets[ws].MasterOf? || w.sockets[ws].Joined?)
    requires w.sockets[ws].sid in w.live
    ensures Traced(Left(w, ws)) && HandsOn(Left(w, ws), w.sockets[ws].sid) == HandsOn(w, w.sockets[ws].sid)
  {
    var closed := w.(sockets := w.sockets[ws := Closed]);
    EqualTraces(w, closed);
    PutTraces(closed, w.sockets[ws].sid, Left(w, ws).objects[w.sockets[ws].sid]);
  }

  /** The state in which the handler of a closed socket looks whether it was the last one. */
  function Left(w: World, ws: Ws): World
    requires Shaped(w) && ws in w.sockets && (w.sockets[ws].MasterOf? || w.sockets[ws].Joined?)
    requires w.sockets[ws].sid in w.live
  {
    var s := w.sockets[ws].sid;
    var o := w.objects[s];
    Put(w.(sockets := w.sockets[ws := Closed]), s,
        o.(connectedWs := o.connectedWs - {ws}, activeWs := if o.activeWs == Some(ws) then None else o.activeWs))
  }

  lemma LeftIs(w: World, ws: Ws, call: Id)
    requires Shaped(w) && ws in w.sockets && (w.sockets[ws].MasterOf? || w.sockets[ws].Joined?)
    requires w.sockets[ws].sid in w.live
    ensures CloseSocket(w, ws, call)
         == if LastSocket(w, ws) then BeginRemove(Left(w, ws), call, w.sockets[ws].sid) else Left(w, ws)
  {
  }

  lemma CloseLastTraces(w: World, ws: Ws, call: Id)
    requires Shaped(w) && Traced(w) && call !in w.removals && LastSocket(w, ws)
    ensures var after := BeginRemove(Left(w, ws), call, w.sockets[ws].sid);
            Traced(after) && after.exported == w.exported + Times(HandsOn(w, w.sockets[ws].sid))
  {
    LeaveTraces(w, ws);
    BeginTraces(Left(w, ws), call, w.sockets[ws].sid);
  }

  lemma CloseTraces(w: World, ws: Ws, call: Id)
    requires Shaped(w) && Traced(w) && call !in w.removals
    ensures var after := CloseSocket(w, ws, call);
            Traced(after) && after.exported == w.exported + Times(HandsOnClose(w, ws))
  {
    if ws !in w.sockets || !(w.sockets[ws].MasterOf? || w.sockets[ws].Joined?) {
    } else if w.sockets[ws].sid !in w.live {
      EqualTraces(w, w.(sockets := w.sockets[ws := Closed]));
    } else {
      LeftIs(w, ws, call);
      LeaveTraces(w, ws);
      if LastSocket(w, ws) {
        CloseLastTraces(w, ws, call);
      }
    }
  }

  /** A new master belongs to a session whose recording was never handed over. */
  lemma CreateTraces(w: World, ws: Ws, s: Sid, client: Id, recorded: bool)
    requires Shaped(w) && Traced(w) && MayBecomeMaster(w, s)
    ensures Traced(CreateMaster(w, ws, s, client, recorded)) && CreateMaster(w, ws, s, client, recorded).exported == w.exported
  {
    assert s !in w.exported;
    var after := CreateMaster(w, ws, s, client, recorded);
    assert after.removals == w.removals && after.failed == w.failed && after.exported == w.exported && after.live == w.live;
    forall t
      ensures Overlapping(after, t) == Overlapping(w, t)
    {
    }
    assert forall t :: t in w.objects && t != s ==> after.objects[t] == w.objects[t];
  }

  lemma AddedTraces(w: World, s: Sid, ws: Ws)
    requires Shaped(w)
    ensures SameTraces(w, AddWebSocket(w, s, ws)) && SameTraces(w, SetActive(w, s, ws))
  {
  }

  lemma JoinedTraces(w: World, ws: Ws, s: Sid)
    requires Shaped(w)
    ensures SameTraces(w, Wait(w, ws, s)) && SameTraces(w, Join(w, ws, s))
  {
    AddedTraces(w, s, ws);
    AddedTraces(AddWebSocket(w, s, ws), s, ws);
  }

  lemma ElectTraces(w: World, ws: Ws, client: Id, recorded: bool)
    requires Shaped(w) && Traced(w)
    ensures Traced(Elect(w, ws, client, recorded)) && Elect(w, ws, client, recorded).exported == w.exported
  {
    if ws in w.sockets && w.sockets[ws].Opening? {
      var s := w.sockets[ws].sid;
      if HasMaster(w, s) {
        JoinedTraces(w, ws, s);
        SameTracesKeep(w, Join(w, ws, s));
      } else if MayBecomeMaster(w, s) {
        CreateTraces(w, ws, s, client, recorded);
      } else {
        JoinedTraces(w, ws, s);
        SameTracesKeep(w, Wait(w, ws, s));
      }
    }
  }

  lemma SocketTraces(w: World, ws: Ws, socket: Socket)
    ensures SameTraces(w, w.(sockets := w.sockets[ws := socket]))
  {
  }

  lemma PollTraces(w: World, ws: Ws)
    requires Shaped(w) && ws in w.sockets && w.sockets[ws].Waiting?
    ensures SameTraces(w, Poll(w, ws))
  {
    var Waiting(s, attempts) := w.sockets[ws];
    if ReportedId(w, s).Some? {
      JoinedTraces(w, ws, s);
      assert Poll(w, ws) == Join(w, ws, s);
    } else {
      var socket := if s !in w.live then Stopped else if attempts + 1 >= MaxAttempts then TimedOut else Waiting(s, attempts + 1);
      SocketTraces(w, ws, socket);
      assert Poll(w, ws) == w.(sockets := w.sockets[ws := socket]);
    }
  }

  lemma StopTraces(w: World, s: Sid)
    requires Shaped(w)
    ensures SameTraces(w, StopSharing(w, s))
  {
  }

  lemma ShareTraces(w: World, s: Sid, newId: Id, writable: bool, expiresAt: int)
    requires Shaped(w)
    ensures SameTraces(w, StartSharing(w, s, newId, writable, expiresAt))
  {
  }

  lemma RecordingTraces(w: World, call: Id, enabled: bool, recording: Id)
    requires Shaped(w)
    ensures SameTraces(w, OpenRecording(w, call, enabled, recording))
  {
  }

  lemma TimerTraces(w: World, s: Sid)
    requires Shaped(w)
    ensures SameTraces(w, ShareTimer(w, s))
  {
    if s in w.objects {
      var fired := Put(w, s, w.objects[s].(shareTimer := None));
      PutTraces(w, s, fired.objects[s]);
      StopTraces(fired, s);
    }
  }

  lemma ReadyTraces(w: World, client: Id, id: string)
    requires Shaped(w)
    ensures SameTraces(w, Ready(w, client, id))
  {
  }

  lemma SharingTraces(w: World, e: Event)
    requires Shaped(w) && (e.Share? || e.Unshare? || e.Expire? || e.Lookup?)
    ensures SameTraces(w, Step(w, e))
  {
    match e
    case Share(s, newId, writable, expiresAt) => ShareTraces(w, s, newId, writable, expiresAt);
    case Unshare(s) => StopTraces(w, s);
    case Expire(s) => TimerTraces(w, s);
    case Lookup(x) => if x in w.shareIndex { StopTraces(w, w.shareIndex[x]); }
  }

  lemma RecordTraces(w: World, e: Event)
    requires Shaped(w) && (e.Hibernate? || e.AddShared? || e.Permit? || e.SetConnection?)
    ensures SameTraces(w, Step(w, e))
  {
    if e.sid in w.live {
      var o := w.objects[e.sid];
      match e
      case Hibernate(s, asleep) => PutTraces(w, s, o.(isHibernated := asleep));
      case Permit(s, writable) => PutTraces(w, s, o.(shareWritable := writable));
      case AddShared(s, ws) => PutTraces(w, s, o.(sharedWs := o.sharedWs + {ws}));
      case SetConnection(s) => if o.master.None? { PutTraces(w, s, o.(master := Some(Master(None, None, false)), pending := false)); }
    }
  }

  /** Steps that neither remove nor elect. */
  lemma OtherTraces(w: World, e: Event)
    requires Shaped(w) && Enabled(w, e)
    requires !e.Remove? && !e.RemoveResumes? && !e.RemoveFails? && !e.Elected? && !e.SocketClosed?
    ensures SameTraces(w, Step(w, e))
  {
    if e.Share? || e.Unshare? || e.Expire? || e.Lookup? {
      SharingTraces(w, e);
    } else if e.Hibernate? || e.AddShared? || e.Permit? || e.SetConnection? {
      RecordTraces(w, e);
    } else if e.RecordingSettled? {
      RecordingTraces(w, e.call, e.enabled, e.recording);
    } else if e.Polled? {
      if e.ws in w.sockets && w.sockets[e.ws].Waiting? { PollTraces(w, e.ws); }
    } else if e.ReadyReceived? {
      ReadyTraces(w, e.client, e.connectionId);
    }
  }

  lemma StepTraces(w: World, e: Event)
    requires Inv(w) && Traced(w) && Enabled(w, e)
    ensures Traced(Step(w, e)) && Step(w, e).exported == w.exported + Times(Hands(w, e))
  {
    match e
    case Remove(call, s) => if s in w.live { BeginTraces(w, call, s); }
    case RemoveResumes(call) =>
      if call in w.removals {
        if w.removals[call].at == AtTerminalRecording {
          AfterTerminalTraces(w, call, w.removals[call].sid);
        } else {
          FinishTraces(w, call, w.removals[call].sid);
        }
      }
    case RemoveFails(call) => FailTraces(w, call);
    case Elected(ws, client, recorded) => ElectTraces(w, ws, client, recorded);
    case SocketClosed(ws, call) => CloseTraces(w, ws, call);
    case _ =>
      OtherTraces(w, e);
      SameTracesKeep(w, Step(w, e));
  }

  // ---------------------------------------------------------------- exactly when it happens twice

  /** In some step of the run a call reaches the recording while an earlier removal has it or failed on it. */
  ghost predicate EverOverlaps(w: World, events: seq<Event>, s: Sid)
    requires Inv(w)
    decreases |events|
  {
    events != [] && Enabled(w, events[0]) &&
    (StepKeeps(w, events[0]);
     (Hands(w, events[0]) == Some(s) && Overlapping(w, s)) || EverOverlaps(Step(w, events[0]), events[1..], s))
  }

  lemma HandedIsRecorded(w: World, e: Event, s: Sid)
    requires Inv(w) && Hands(w, e) == Some(s)
    ensures s in w.objects && Recorded(w.objects[s])
  {
  }

  lemma StepCounts(w: World, e: Event, s: Sid)
    requires Inv(w) && Traced(w) && Enabled(w, e)
    ensures Traced(Step(w, e))
    ensures Step(w, e).exported[s] == w.exported[s] + if Hands(w, e) == Some(s) then 1 else 0
    ensures Hands(w, e) == Some(s) ==> (w.exported[s] == 0 <==> !Overlapping(w, s))
  {
    StepTraces(w, e);
    if Hands(w, e) == Some(s) {
      HandedIsRecorded(w, e, s);
    }
  }

  lemma {:induction false} RunCounts(w: World, events: seq<Event>, after: World, s: Sid)
    requires Inv(w) && Traced(w) && Run(w, events, after)
    ensures w.exported[s] <= after.exported[s]
    ensures w.exported[s] <= 1 ==> (after.exported[s] <= 1 <==> !EverOverlaps(w, events, s))
    decreases |events|
  {
    if events != [] {
      StepKeeps(w, events[0]);
      StepCounts(w, events[0], s);
      RunCounts(Step(w, events[0]), events[1..], after, s);
    }
  }

  /**
   The desktop recording of a session is finalised at most once in a run exactly when no call of `remove`
   reaches it while an earlier one is still finalising it or has failed to.
   */
  lemma DesktopOnceIff(events: seq<Event>, w: World, s: Sid)
    requires Inv(Start) && Run(Start, events, w)
    ensures w.exported[s] <= 1 <==> !EverOverlaps(Start, events, s)
  {
    RunCounts(Start, events, w, s);
  }

  /** The calls of two removals, the second made before the first is through, up to the recording of the desktop. */
  function TwoRemovals(w: World, first: Id, second: Id, s: Sid): seq<Event>
    requires s in w.objects
  {
    if w.objects[s].recording.None? then [Remove(first, s)] + [Remove(second, s)]
    else [Remove(first, s)] + ([Remove(second, s)] + [RemoveResumes(first)])
  }

  lemma RemoveHandsOver(w: World, call: Id, s: Sid)
    requires Inv(w) && s in w.live && w.objects[s].recording.None? && Recorded(w.objects[s]) && call !in w.removals
    ensures var after := Step(w, Remove(call, s));
            && Inv(after) && after.exported == w.exported + multiset{s}
            && after.removals == w.removals[call := Removal(s, AtGuacRecording)]
            && s in after.live && after.objects[s].recording.None? && Recorded(after.objects[s])
  {
    StepKeeps(w, Remove(call, s));
  }

  lemma RemoveWaits(w: World, call: Id, s: Sid)
    requires Inv(w) && s in w.live && w.objects[s].recording.Some? && Recorded(w.objects[s]) && call !in w.removals
    ensures var after := Step(w, Remove(call, s));
            && Inv(after) && after.exported == w.exported
            && after.removals == w.removals[call := Removal(s, AtTerminalRecording)]
            && s in after.live && after.objects[s].recording.None? && Recorded(after.objects[s])
  {
    StepKeeps(w, Remove(call, s));
  }

  lemma ResumeHandsOver(w: World, call: Id, s: Sid)
    requires Inv(w) && call in w.removals && w.removals[call] == Removal(s, AtTerminalRecording) && Recorded(w.objects[s])
    ensures Step(w, RemoveResumes(call)).exported == w.exported + multiset{s}
  {
  }

  lemma RunOne(w: World, e: Event)
    requires Inv(w) && Enabled(w, e)
    ensures Run(w, [e], Step(w, e))
  {
    StepKeeps(w, e);
    assert [e][1..] == [];
  }

  lemma RunFirst(w: World, e: Event, events: seq<Event>, after: World)
    requires Inv(w) && Enabled(w, e) && Inv(Step(w, e)) && Run(Step(w, e), events, after)
    ensures Run(w, [e] + events, after)
  {
    assert ([e] + events)[1..] == events;
  }

  lemma TwoAtOnce(w: World, first: Id, second: Id, s: Sid) returns (after: World)
    requires Inv(w) && s in w.live && Recorded(w.objects[s]) && w.objects[s].recording.None?
    requires first !in w.removals && second !in w.removals && first != second
    ensures Run(w, [Remove(first, s)] + [Remove(second, s)], after) && after.exported[s] == w.exported[s] + 2
  {
    var one := Step(w, Remove(first, s));
    RemoveHandsOver(w, first, s);
    RemoveHandsOver(one, second, s);
    after := Step(one, Remove(second, s));
    RunOne(one, Remove(second, s));
    RunFirst(w, Remove(first, s), [Remove(second, s)], after);
  }

  lemma SecondThenFirst(one: World, first: Id, second: Id, s: Sid) returns (after: World)
    requires Inv(one) && s in one.live && Recorded(one.objects[s]) && one.objects[s].recording.None?
    requires first in one.removals && one.removals[first] == Removal(s, AtTerminalRecording) && second !in one.removals
    ensures Run(one, [Remove(second, s)] + [RemoveResumes(first)], after) && after.exported[s] == one.exported[s] + 2
  {
    var two := Step(one, Remove(second, s));
    RemoveHandsOver(one, second, s);
    ResumeHandsOver(two, first, s);
    after := Step(two, RemoveResumes(first));
    RunOne(two, RemoveResumes(first));
    RunFirst(one, Remove(second, s), [RemoveResumes(first)], after);
  }

  /** Two overlapping removals of one live session with a recorded master both finalise its recording. */
  lemma OverlappingRemovals(w: World, first: Id, second: Id, s: Sid) returns (after: World)
    requires Inv(w) && s in w.live && Recorded(w.objects[s])
    requires first !in w.removals && second !in w.removals && first != second
    ensures Run(w, TwoRemovals(w, first, second, s), after) && after.exported[s] == w.exported[s] + 2
  {
    if w.objects[s].recording.None? {
      after := TwoAtOnce(w, first, second, s);
    } else {
      RemoveWaits(w, first, s);
      after := SecondThenFirst(Step(w, Remove(first, s)), first, second, s);
      RunFirst(w, Remove(first, s), [Remove(second, s)] + [RemoveResumes(first)], after);
    }
  }
}
