/**
 Browser sign-in sessions (server/utils/sessionAuth.js): expiry by idleness and age, activity writes
 throttled through an in-memory map that a restart empties, and revocation.
 */
module SignIn {
  import opened Wrappers
  import opened Lists

  /** Times are in milliseconds. */
  const HOUR := 60 * 60 * 1000
  const ACTIVITY_WRITE_INTERVAL := 60 * 1000

  datatype Policy = Policy(sessionIdleHours: nat, sessionMaxDays: nat)

  datatype Session = Session(accountId: Id, ip: string, lastActivity: int, createdAt: int)

  /**
   `disabled` has an entry for each account. `lastUse` is history: when each session last let somebody
   in or a message came over its socket. `loggedOut` and `closed` collect the sign-ins told to log out and the accounts whose live
   connections were cut.
   */
  datatype State = State(
    sessions: map<Id, Session>, writes: map<Id, int>, disabled: map<Id, bool>, policy: Policy,
    clock: int, next: Id, lastUse: map<Id, int>, loggedOut: set<Id>, closed: set<Id>)

  predicate IsIdle(s: Session, p: Policy, now: int) {
    now - s.lastActivity > p.sessionIdleHours * HOUR
  }

  predicate IsTooOld(s: Session, p: Policy, now: int) {
    now - s.createdAt > p.sessionMaxDays * 24 * HOUR
  }

  predicate IsExpired(s: Session, p: Policy, now: int) {
    IsIdle(s, p, now) || IsTooOld(s, p, now)
  }

  // ---------------------------------------------------------------- operations

  function Create(s: State, accountId: Id, ip: string, now: int): State {
    s.(sessions := s.sessions[s.next := Session(accountId, ip, now, now)], next := s.next + 1,
       lastUse := s.lastUse[s.next := now], clock := now)
  }

  /** An empty address counts as none. */
  predicate NoAddress(ip: Option<string>) {
    ip == None || ip == Some("")
  }

  /** Without a new address, a write within a minute of the last one is skipped. */
  predicate Throttled(writes: map<Id, int>, id: Id, ip: Option<string>, now: int) {
    NoAddress(ip) && now - (if id in writes then writes[id] else 0) < ACTIVITY_WRITE_INTERVAL
  }

  /** The update changes no row when the session is gone; the write is remembered all the same. */
  function Touch(s: State, id: Id, ip: Option<string>, now: int): State {
    var used := s.(lastUse := s.lastUse[id := now], clock := now);
    if Throttled(s.writes, id, ip, now) then used
    else if id !in s.sessions then used.(writes := s.writes[id := now])
    else
      var row := s.sessions[id];
      used.(writes := s.writes[id := now],
            sessions := s.sessions[id := row.(lastActivity := now, ip := if NoAddress(ip) then row.ip else ip.value)])
  }

  function AccountsOf(sessions: map<Id, Session>, ids: set<Id>): set<Id> {
    set id | id in ids && id in sessions :: sessions[id].accountId
  }

  predicate HasSession(sessions: map<Id, Session>, accountId: Id) {
    exists id :: id in sessions && sessions[id].accountId == accountId
  }

  function Revoke(s: State, ids: set<Id>): State {
    var left := s.sessions - ids;
    s.(sessions := left, writes := s.writes - ids, loggedOut := s.loggedOut + ids,
       closed := s.closed + (set a | a in AccountsOf(s.sessions, ids) && !HasSession(left, a)))
  }

  datatype Refusal = Unknown | Expired | NoAccount | Disabled

  datatype Outcome = Signed(session: Id) | Refused(why: Refusal)

  /** `id` is the session with the request's token; its expiry is checked first, its use noted later. */
  function Resolve(s: State, id: Id, ip: Option<string>, checkedAt: int, usedAt: int): (State, Outcome) {
    if id !in s.sessions then (s.(clock := checkedAt), Refused(Unknown))
    else
      var row := s.sessions[id];
      if IsExpired(row, s.policy, checkedAt) then (Revoke(s, {id}).(clock := checkedAt), Refused(Expired))
      else if row.accountId !in s.disabled then (s.(clock := checkedAt), Refused(NoAccount))
      else if s.disabled[row.accountId] then (Revoke(s, {id}).(clock := checkedAt), Refused(Disabled))
      else (Touch(s, id, if ip != Some(row.ip) then ip else None, usedAt), Signed(id))
  }

  function ExpiredIds(s: State, now: int): set<Id> {
    set id | id in s.sessions && IsExpired(s.sessions[id], s.policy, now)
  }

  function Sweep(s: State, now: int): State {
    Revoke(s, ExpiredIds(s, now)).(clock := now)
  }

  // ---------------------------------------------------------------- runs

  datatype Op =
    | SignInOp(accountId: Id, from: string, now: int)
    | ResolveOp(id: Id, ip: Option<string>, now: int, usedAt: int)
    | TouchOp(id: Id, now: int)      // a message over a socket that was let in with session `id`
    | SweepOp(now: int)
    | RevokeOp(ids: set<Id>)
    | SettingsOp(policy: Policy)
    | AccountOp(disabled: map<Id, bool>)
    | RestartOp

  predicate Enabled(s: State, op: Op) {
    match op
    case SignInOp(_, _, now) => s.clock <= now
    case ResolveOp(_, _, now, usedAt) => s.clock <= now <= usedAt
    case TouchOp(id, now) => id < s.next && s.clock <= now
    case SweepOp(now) => s.clock <= now
    case _ => true
  }

  /** A restart loses the map of recent writes and nothing else. */
  function Apply(s: State, op: Op): State {
    match op
    case SignInOp(accountId, ip, now) => Create(s, accountId, ip, now)
    case ResolveOp(id, ip, now, usedAt) => Resolve(s, id, ip, now, usedAt).0
    case TouchOp(id, now) => Touch(s, id, None, now)
    case SweepOp(now) => Sweep(s, now)
    case RevokeOp(ids) => Revoke(s, ids * s.sessions.Keys)
    case SettingsOp(policy) => s.(policy := policy)
    case AccountOp(disabled) => s.(disabled := disabled)
    case RestartOp => s.(writes := map[])
  }

  predicate IsRun(s: State, ops: seq<Op>)
    decreases |ops|
  {
    ops != [] ==> Enabled(s, ops[0]) && IsRun(Apply(s, ops[0]), ops[1..])
  }

  function Run(s: State, ops: seq<Op>): State
    decreases |ops|
  {
    if ops == [] then s else Run(Apply(s, ops[0]), ops[1..])
  }

  // ---------------------------------------------------------------- the invariant

  /** The stored activity trails the last use by less than a minute. */
  predicate Trails(s: State) {
    forall id :: id in s.sessions ==>
      && id in s.lastUse
      && s.sessions[id].createdAt <= s.sessions[id].lastActivity <= s.lastUse[id] <= s.clock
      && s.lastUse[id] - s.sessions[id].lastActivity < ACTIVITY_WRITE_INTERVAL
  }

  /** A remembered write is the one in the row. */
  predicate Remembered(s: State) {
    forall id :: id in s.sessions && id in s.writes ==> s.writes[id] == s.sessions[id].lastActivity
  }

  /** The clock counts from 1970, so it is past its first minute. */
  predicate Inv(s: State) {
    && Trails(s) && Remembered(s)
    && s.clock >= ACTIVITY_WRITE_INTERVAL
    && (forall id :: id in s.sessions ==> id < s.next)
    && (forall id :: id in s.writes ==> id < s.next)
  }

  lemma TouchKeeps(s: State, id: Id, ip: Option<string>, now: int)
    requires Inv(s) && id < s.next && s.clock <= now
    ensures Inv(Touch(s, id, ip, now))
  {
  }

  lemma RevokeKeeps(s: State, ids: set<Id>, now: int)
    requires Inv(s) && s.clock <= now
    ensures Inv(Revoke(s, ids).(clock := now))
  {
  }

  lemma StepKeeps(s: State, op: Op)
    requires Inv(s) && Enabled(s, op)
    ensures Inv(Apply(s, op)) && Apply(s, op).clock >= s.clock
  {
    match op
    case ResolveOp(id, ip, now, usedAt) =>
      if id in s.sessions {
        RevokeKeeps(s, {id}, now);
        TouchKeeps(s, id, if ip != Some(s.sessions[id].ip) then ip else None, usedAt);
      }
    case TouchOp(id, now) => TouchKeeps(s, id, None, now);
    case SweepOp(now) => RevokeKeeps(s, ExpiredIds(s, now), now);
    case RevokeOp(ids) => RevokeKeeps(s, ids * s.sessions.Keys, s.clock);
    case _ =>
  }

  lemma {:induction false} RunKeeps(s: State, ops: seq<Op>)
    requires Inv(s) && IsRun(s, ops)
    ensures Inv(Run(s, ops)) && Run(s, ops).clock >= s.clock
    decreases |ops|
  {
    if ops != [] {
      StepKeeps(s, ops[0]);
      RunKeeps(Apply(s, ops[0]), ops[1..]);
    }
  }

  // ---------------------------------------------------------------- what a user sees

  function Start(disabled: map<Id, bool>, policy: Policy, now: int): State {
    State(map[], map[], disabled, policy, now, 1, map[], {}, {})
  }

  /**
   In every reachable state, restarts and socket messages included: who is locked out as idle has not used the session for
   the idle time less a minute, and who has not used it for the whole idle time is locked out.
   */
  lemma IdleMeansUnused(disabled: map<Id, bool>, policy: Policy, start: int, ops: seq<Op>, id: Id, now: int)
    requires start >= ACTIVITY_WRITE_INTERVAL && IsRun(Start(disabled, policy, start), ops)
    requires id in Run(Start(disabled, policy, start), ops).sessions
    ensures var s := Run(Start(disabled, policy, start), ops);
            var limit := s.policy.sessionIdleHours * HOUR;
            && id in s.lastUse
            && (IsIdle(s.sessions[id], s.policy, now) ==> now - s.lastUse[id] > limit - ACTIVITY_WRITE_INTERVAL)
            && (now - s.lastUse[id] > limit ==> IsIdle(s.sessions[id], s.policy, now))
  {
    RunKeeps(Start(disabled, policy, start), ops);
  }

  /**
   Messages over a socket are not checked for expiry: one that comes before the sweep makes an idle session
   usable again, and only a message within a minute of the last write leaves it idle.
   */
  lemma MessageRevives(s: State, id: Id, now: int)
    requires Inv(s) && s.clock <= now && id in s.sessions && IsIdle(s.sessions[id], s.policy, now)
    ensures var after := Touch(s, id, None, now);
            && (IsIdle(after.sessions[id], s.policy, now) <==>
                  id in s.writes && now - s.sessions[id].lastActivity < ACTIVITY_WRITE_INTERVAL)
            && (s.policy.sessionIdleHours >= 1 ==> !IsIdle(after.sessions[id], s.policy, now))
  {
    if s.policy.sessionIdleHours >= 1 {
      assert s.policy.sessionIdleHours * HOUR >= HOUR;
    }
  }

  /** A request is let in only while the session is neither idle nor too old and its account is enabled. */
  lemma SignedOnlyWhenValid(s: State, id: Id, ip: Option<string>, checkedAt: int, usedAt: int)
    ensures var (after, outcome) := Resolve(s, id, ip, checkedAt, usedAt);
            && (outcome == Signed(id) <==>
                && id in s.sessions
                && checkedAt - s.sessions[id].createdAt <= s.policy.sessionMaxDays * 24 * HOUR
                && checkedAt - s.sessions[id].lastActivity <= s.policy.sessionIdleHours * HOUR
                && s.sessions[id].accountId in s.disabled && !s.disabled[s.sessions[id].accountId])
            && (outcome == Signed(id) ==> id in after.lastUse && after.lastUse[id] == usedAt)
            && (outcome in {Refused(Expired), Refused(Disabled)} ==> id !in after.sessions && id in after.loggedOut)
            && (outcome.Refused? ==> after.lastUse == s.lastUse)
  {
  }

  /** The sweep's query, with its strict comparisons, finds exactly the sessions a request would be refused for. */
  lemma SweepIsExact(s: State, now: int, id: Id)
    requires id in s.sessions
    ensures id !in Sweep(s, now).sessions <==> Resolve(s, id, None, now, now).1 == Refused(Expired)
    ensures id in Sweep(s, now).sessions ==> Sweep(s, now).sessions[id] == s.sessions[id]
  {
  }

  /**
   Who loses access, in every reachable state, restarts and socket messages included: the sweep takes a
   session exactly when a request would be refused as expired; then it is too old or was unused for the idle
   time less a minute. Who is let in has used the session within the idle time.
   */
  lemma WhoLosesAccess(disabled: map<Id, bool>, policy: Policy, start: int, ops: seq<Op>, id: Id, ip: Option<string>, now: int)
    requires start >= ACTIVITY_WRITE_INTERVAL && IsRun(Start(disabled, policy, start), ops)
    requires id in Run(Start(disabled, policy, start), ops).sessions
    ensures var s := Run(Start(disabled, policy, start), ops);
            var limit := s.policy.sessionIdleHours * HOUR;
            var outcome := Resolve(s, id, ip, now, now).1;
            && id in s.lastUse
            && (id !in Sweep(s, now).sessions <==> outcome == Refused(Expired))
            && (outcome == Refused(Expired) ==>
                  IsTooOld(s.sessions[id], s.policy, now) || now - s.lastUse[id] > limit - ACTIVITY_WRITE_INTERVAL)
            && (IsTooOld(s.sessions[id], s.policy, now) || now - s.lastUse[id] > limit ==> outcome == Refused(Expired))
            && (outcome == Signed(id) ==> now - s.lastUse[id] <= limit && !IsTooOld(s.sessions[id], s.policy, now))
  {
    var s := Run(Start(disabled, policy, start), ops);
    IdleMeansUnused(disabled, policy, start, ops, id, now);
    SweepIsExact(s, now, id);
    SignedOnlyWhenValid(s, id, ip, now, now);
  }

  /** The row of a sign-in, while it is there: the account that signed in, and when. */
  predicate SignedInAt(s: State, id: Id, account: Id, at: int) {
    id in s.sessions ==> s.sessions[id].accountId == account && s.sessions[id].createdAt == at
  }

  lemma StepSignedInAt(s: State, op: Op, id: Id, account: Id, at: int)
    requires Inv(s) && Enabled(s, op) && id < s.next && SignedInAt(s, id, account, at)
    ensures SignedInAt(Apply(s, op), id, account, at) && id < Apply(s, op).next
  {
  }

  lemma {:induction false} RunSignedInAt(s: State, ops: seq<Op>, id: Id, account: Id, at: int)
    requires Inv(s) && IsRun(s, ops) && id < s.next && SignedInAt(s, id, account, at)
    ensures SignedInAt(Run(s, ops), id, account, at)
    decreases |ops|
  {
    if ops != [] {
      StepKeeps(s, ops[0]);
      StepSignedInAt(s, ops[0], id, account, at);
      RunSignedInAt(Apply(s, ops[0]), ops[1..], id, account, at);
    }
  }

  /**
   A sign-in, after any history and whatever follows: its row names the account and the time of the sign-in, so
   a use of it, however frequent, is refused once it is older than the limit says.
   */
  lemma SignInsAge(s: State, account: Id, from: string, at: int, ops: seq<Op>, ip: Option<string>, checkedAt: int, usedAt: int)
    requires Inv(s) && Enabled(s, SignInOp(account, from, at)) && IsRun(Apply(s, SignInOp(account, from, at)), ops)
    ensures s.next in Apply(s, SignInOp(account, from, at)).sessions
    ensures var after := Run(Apply(s, SignInOp(account, from, at)), ops);
            && (s.next in after.sessions ==>
                  after.sessions[s.next].accountId == account && after.sessions[s.next].createdAt == at)
            && (checkedAt - at > after.policy.sessionMaxDays * 24 * HOUR ==>
                  Resolve(after, s.next, ip, checkedAt, usedAt).1 != Signed(s.next))
  {
    StepKeeps(s, SignInOp(account, from, at));
    RunSignedInAt(Apply(s, SignInOp(account, from, at)), ops, s.next, account, at);
  }

  /** Revoking takes exactly the given sessions, forgets their writes, tells each to log out, and changes nothing else. */
  lemma RevokedAre(s: State, ids: set<Id>, id: Id)
    ensures var after := Revoke(s, ids);
            && (id in after.sessions <==> id in s.sessions && id !in ids)
            && (id in after.sessions ==> after.sessions[id] == s.sessions[id])
            && (id in after.writes <==> id in s.writes && id !in ids)
            && (id in after.loggedOut <==> id in s.loggedOut || id in ids)
            && after.lastUse == s.lastUse && after.next == s.next && after.policy == s.policy
  {
  }

  /** A request that is let in leaves its address in the row, if it came with one. */
  lemma AddressIsKept(s: State, id: Id, ip: Option<string>, checkedAt: int, usedAt: int)
    requires Resolve(s, id, ip, checkedAt, usedAt).1 == Signed(id)
    ensures id in s.sessions && id in Resolve(s, id, ip, checkedAt, usedAt).0.sessions
    ensures Resolve(s, id, ip, checkedAt, usedAt).0.sessions[id].ip
            == if ip.Some? && ip.value != "" then ip.value else s.sessions[id].ip
  {
  }

  /** What a use writes: the time, the new address if there is one, and nothing else, to that session alone. */
  lemma UseIs(s: State, id: Id, ip: Option<string>, now: int, x: Id)
    requires Inv(s) && s.clock <= now
    ensures var after := Touch(s, id, ip, now);
            && after.sessions.Keys == s.sessions.Keys && after.lastUse == s.lastUse[id := now]
            && (x in s.sessions ==>
                  after.sessions[x] ==
                  if x == id && ((ip.Some? && ip.value != "") || id !in s.writes || now - s.sessions[id].lastActivity >= 60000)
                  then Session(s.sessions[x].accountId, if ip.Some? && ip.value != "" then ip.value else s.sessions[x].ip,
                               now, s.sessions[x].createdAt)
                  else s.sessions[x])
  {
  }

  /** Revoking cuts the live connections of exactly the accounts that lose their last sign-in. */
  lemma RevokeCutsIff(s: State, ids: set<Id>, account: Id)
    requires ids <= s.sessions.Keys && account !in s.closed
    ensures account in Revoke(s, ids).closed
            <==> HasSession(s.sessions, account)
                 && forall id :: id in s.sessions && s.sessions[id].accountId == account ==> id in ids
  {
    var left := s.sessions - ids;
    forall id | id in s.sessions && s.sessions[id].accountId == account && id !in ids
      ensures HasSession(left, account)
    {
      assert id in left;
    }
    if HasSession(s.sessions, account) && !HasSession(left, account) {
      var id :| id in s.sessions && s.sessions[id].accountId == account;
      assert id in ids;
    }
  }

  /** A session that is gone lets nobody in again. */
  lemma {:induction false} GoneForGood(s: State, ops: seq<Op>, id: Id)
    requires Inv(s) && IsRun(s, ops) && id < s.next && id !in s.sessions
    ensures id !in Run(s, ops).sessions
    decreases |ops|
  {
    if ops != [] {
      StepKeeps(s, ops[0]);
      GoneForGood(Apply(s, ops[0]), ops[1..], id);
    }
  }

  // ---------------------------------------------------------------- the module's state

  class SessionAuth {
    var sessions: map<Id, Session>
    var lastActivityWrites: map<Id, int>
    var disabled: map<Id, bool>
    var policy: Policy
    var next: Id
    var loggedOut: set<Id>
    var closed: set<Id>
    ghost var clock: int
    ghost var lastUse: map<Id, int>

    ghost function Now(): State
      reads this
    {
      State(sessions, lastActivityWrites, disabled, policy, clock, next, lastUse, loggedOut, closed)
    }

    method CreateSignInSession(accountId: Id, ip: string, now: int) returns (id: Id)
      modifies this
      ensures id == old(next) && Now() == Create(old(Now()), accountId, ip, now)
    {
      id := next;
      sessions, next := sessions[id := Session(accountId, ip, now, now)], next + 1;
      lastUse, clock := lastUse[id := now], now;
    }

    method TouchSession(id: Id, ip: Option<string>, now: int)
      modifies this
      ensures Now() == Touch(old(Now()), id, ip, now)
    {
      lastUse, clock := lastUse[id := now], now;
      if NoAddress(ip) && now - (if id in lastActivityWrites then lastActivityWrites[id] else 0) < ACTIVITY_WRITE_INTERVAL {
        return;
      }
      lastActivityWrites := lastActivityWrites[id := now];
      if id in sessions {
        var row := sessions[id].(lastActivity := now);
        if !NoAddress(ip) {
          row := row.(ip := ip.value);
        }
        sessions := sessions[id := row];
      }
    }

    method ForgetAndLogOut(ids: seq<Id>)
      modifies `lastActivityWrites, `loggedOut
      ensures lastActivityWrites == old(lastActivityWrites) - Elements(ids)
      ensures loggedOut == old(loggedOut) + Elements(ids)
    {
      for i := 0 to |ids|
        invariant lastActivityWrites == old(lastActivityWrites) - Elements(ids[..i])
        invariant loggedOut == old(loggedOut) + Elements(ids[..i])
      {
        assert ids[..i + 1] == ids[..i] + [ids[i]];
        lastActivityWrites := lastActivityWrites - {ids[i]};
        loggedOut := loggedOut + {ids[i]};
      }
      assert ids[..|ids|] == ids;
    }

    method CutConnections(accounts: set<Id>)
      modifies `closed
      ensures closed == old(closed) + (set a | a in accounts && !HasSession(sessions, a))
    {
      var left := accounts;
      while left != {}
        invariant left <= accounts
        invariant closed == old(closed) + (set a | a in accounts - left && !HasSession(sessions, a))
      {
        var accountId :| accountId in left;
        if !HasSession(sessions, accountId) {
          closed := closed + {accountId};
        }
        left := left - {accountId};
      }
      assert accounts - left == accounts;
    }

    method RevokeSessions(ids: seq<Id>)
      requires forall id :: id in ids ==> id in sessions
      modifies this
      ensures Now() == Revoke(old(Now()), Elements(ids))
    {
      if |ids| == 0 {
        RevokeNothing(Now());
        return;
      }
      var accounts := AccountsOf(sessions, Elements(ids));
      sessions := sessions - Elements(ids);
      ForgetAndLogOut(ids);
      CutConnections(accounts);
    }

    method ResolveSession(id: Id, ip: Option<string>, checkedAt: int, usedAt: int) returns (outcome: Outcome)
      modifies this
      ensures (Now(), outcome) == Resolve(old(Now()), id, ip, checkedAt, usedAt)
    {
      clock := checkedAt;
      if id !in sessions {
        return Refused(Unknown);
      }
      var session := sessions[id];
      assert Elements([id]) == {id};
      if IsExpired(session, policy, checkedAt) {
        RevokeSessions([id]);
        return Refused(Expired);
      }
      if session.accountId !in disabled {
        return Refused(NoAccount);
      }
      if disabled[session.accountId] {
        RevokeSessions([id]);
        return Refused(Disabled);
      }
      TouchSession(id, if ip != Some(session.ip) then ip else None, usedAt);
      outcome := Signed(id);
    }

    /** The query compares the columns with the oldest times still allowed. */
    method SweepExpiredSessions(now: int) returns (count: nat)
      modifies this
      ensures Now() == Sweep(old(Now()), now) && count == |ExpiredIds(old(Now()), now)|
    {
      var found := set id | id in sessions &&
        (sessions[id].lastActivity < now - policy.sessionIdleHours * HOUR
         || sessions[id].createdAt < now - policy.sessionMaxDays * 24 * HOUR);
      assert found == ExpiredIds(Now(), now);
      var expired := FindAll(found);
      clock := now;
      assert Elements(expired) == found;
      count := |found|;
      if |expired| == 0 {
        assert found == {};
        RevokeNothing(Now());
        return;
      }
      RevokeSessions(expired);
    }
  }

  lemma RevokeNothing(s: State)
    ensures Revoke(s, {}) == s
  {
    assert s.sessions - {} == s.sessions && s.writes - {} == s.writes;
  }
}
