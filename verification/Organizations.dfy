/**
 Organization membership (server/controllers/organization.js) and the account deletion that hands
 ownership over (server/controllers/account.js).
 */
module Organizations {
  import opened Wrappers
  import opened Lists

  datatype Role = Member | Manager | Owner
  datatype Status = Pending | Active
  datatype AccountRole = User | Admin

  datatype Membership = Membership(role: Role, status: Status, invitedBy: Id, createdAt: int)

  /** A membership row is found by its organization and its account. */
  datatype Key = Key(org: Id, account: Id)

  datatype State = State(accounts: map<Id, AccountRole>, orgs: set<Id>, members: map<Key, Membership>, next: Id)

  datatype Answer = Done | BadRequest | Forbidden | NotFound | Conflict

  function Rank(role: Role): nat {
    match role
    case Member => 1
    case Manager => 2
    case Owner => 3
  }

  function RankOf(role: Option<Role>): nat {
    if role == None then 0 else Rank(role.value)
  }

  // ---------------------------------------------------------------- roles

  predicate IsActive(members: map<Key, Membership>, k: Key) {
    k in members && members[k].status == Active
  }

  predicate IsOwner(members: map<Key, Membership>, k: Key) {
    IsActive(members, k) && members[k].role == Owner
  }

  predicate Owned(members: map<Key, Membership>, org: Id) {
    exists k :: k in members && k.org == org && IsOwner(members, k)
  }

  /** In an organization without an owner, an administrator who is a member stands in for one. */
  function EffectiveRole(s: State, account: Id, org: Id): Option<Role> {
    var k := Key(org, account);
    if !IsActive(s.members, k) then None
    else if s.members[k].role != Owner && !Owned(s.members, org) && account in s.accounts && s.accounts[account] == Admin
    then Some(Owner)
    else Some(s.members[k].role)
  }

  predicate HasRole(s: State, account: Id, org: Id, minimum: Role) {
    RankOf(EffectiveRole(s, account, org)) >= Rank(minimum)
  }

  // ---------------------------------------------------------------- operations

  function WithOrganization(s: State, account: Id, now: int): State {
    var k := Key(s.next, account);
    s.(orgs := s.orgs + {s.next}, next := s.next + 1,
       members := if k in s.members then s.members else s.members[k := Membership(Owner, Active, account, now)])
  }

  function WithoutOrganization(members: map<Key, Membership>, org: Id): map<Key, Membership> {
    map k | k in members && k.org != org :: members[k]
  }

  function WithDeletedOrganization(s: State, account: Id, org: Id): (State, Answer) {
    if !HasRole(s, account, org, Owner) then (s, Forbidden)
    else (s.(orgs := s.orgs - {org}, members := WithoutOrganization(s.members, org)), Done)
  }

  /** `invited` is the account with the given username, if there is one. */
  function Invite(s: State, account: Id, org: Id, invited: Option<Id>, now: int): (State, Answer) {
    if !HasRole(s, account, org, Manager) then (s, Forbidden)
    else if invited == None then (s, NotFound)
    else if Key(org, invited.value) in s.members then (s, Conflict)
    else (s.(members := s.members[Key(org, invited.value) := Membership(Member, Pending, account, now)]), Done)
  }

  function Respond(s: State, account: Id, org: Id, accept: bool): (State, Answer) {
    var k := Key(org, account);
    if k !in s.members || s.members[k].status != Pending then (s, NotFound)
    else if accept then (s.(members := s.members[k := s.members[k].(status := Active)]), Done)
    else (s.(members := s.members - {k}), Done)
  }

  function WithRemovedMember(s: State, account: Id, org: Id, member: Id): (State, Answer) {
    var role, k := EffectiveRole(s, account, org), Key(org, member);
    if RankOf(role) < Rank(Manager) then (s, Forbidden)
    else if k !in s.members then (s, NotFound)
    else if Rank(s.members[k].role) >= RankOf(role) then (s, Forbidden)
    else (s.(members := s.members - {k}), Done)
  }

  function Leave(s: State, account: Id, org: Id): (State, Answer) {
    var k := Key(org, account);
    if !IsActive(s.members, k) then (s, NotFound)
    else if s.members[k].role == Owner then (s, Forbidden)
    else (s.(members := s.members - {k}), Done)
  }

  function WithMemberRole(s: State, account: Id, org: Id, member: Id, role: Role): (State, Answer)
    requires role != Owner
  {
    var k := Key(org, member);
    if !HasRole(s, account, org, Owner) then (s, Forbidden)
    else if !IsActive(s.members, k) then (s, NotFound)
    else if s.members[k].role == Owner then (s, BadRequest)
    else (s.(members := s.members[k := s.members[k].(role := role)]), Done)
  }

  function Transferred(members: map<Key, Membership>, org: Id, newOwner: Id): map<Key, Membership> {
    map k | k in members ::
      if k == Key(org, newOwner) then members[k].(role := Owner)
      else if k.org == org && members[k].role == Owner then members[k].(role := Manager)
      else members[k]
  }

  function WithTransfer(s: State, account: Id, org: Id, newOwner: Id): (State, Answer) {
    if !HasRole(s, account, org, Owner) then (s, Forbidden)
    else if newOwner == account then (s, BadRequest)
    else if !IsActive(s.members, Key(org, newOwner)) then (s, NotFound)
    else (s.(members := Transferred(s.members, org, newOwner)), Done)
  }

  /** A directory sign-in joins the provider's organizations, those that exist. */
  function Joined(s: State, account: Id, ids: set<Id>, now: int): map<Key, Membership> {
    var joined := ids * s.orgs;
    (map k | k in s.members ::
       if k.account == account && k.org in joined then s.members[k].(status := Active) else s.members[k])
    + (map org | org in joined && Key(org, account) !in s.members :: Key(org, account) := Membership(Member, Active, account, now))
  }

  function WithJoined(s: State, account: Id, ids: set<Id>, now: int): State {
    s.(members := Joined(s, account, ids, now))
  }

  function OwnedBy(members: map<Key, Membership>, account: Id): set<Id> {
    set k | k in members && k.account == account && IsOwner(members, k) :: k.org
  }

  function Others(members: map<Key, Membership>, org: Id, account: Id): set<Id> {
    set k | k in members && k.org == org && k.account != account && IsActive(members, k) :: k.account
  }

  /** Higher roles come first, then earlier members; equals come in any order. */
  predicate NotAfter(members: map<Key, Membership>, org: Id, a: Id, b: Id) {
    Key(org, a) in members && Key(org, b) in members ==>
      var x, y := members[Key(org, a)], members[Key(org, b)];
      Rank(x.role) > Rank(y.role) || (x.role == y.role && x.createdAt <= y.createdAt)
  }

  predicate IsSuccessor(members: map<Key, Membership>, org: Id, account: Id, heir: Id) {
    && heir in Others(members, org, account)
    && forall other :: other in Others(members, org, account) ==> NotAfter(members, org, heir, other)
  }

  /** Every owned organization with another active member gets a successor. */
  predicate AreHeirs(members: map<Key, Membership>, account: Id, heirs: map<Id, Id>) {
    && heirs.Keys == (set org | org in OwnedBy(members, account) && Others(members, org, account) != {})
    && (forall org :: org in heirs ==> IsSuccessor(members, org, account, heirs[org]))
  }

  /** The organizations in `todo` go to their heirs; one without an heir is deleted. */
  function HandedOver(members: map<Key, Membership>, heirs: map<Id, Id>, todo: set<Id>): map<Key, Membership> {
    map k | k in members && !(k.org in todo && k.org !in heirs) ::
      if k.org in todo && heirs[k.org] == k.account then members[k].(role := Owner) else members[k]
  }

  function Admins(accounts: map<Id, AccountRole>): set<Id> {
    set a | a in accounts && accounts[a] == Admin
  }

  function WithoutAccount(members: map<Key, Membership>, account: Id): map<Key, Membership> {
    map k | k in members && k.account != account :: members[k]
  }

  function WithDeletedAccount(s: State, account: Id, heirs: map<Id, Id>): (State, Answer) {
    if account !in s.accounts then (s, NotFound)
    else if |Admins(s.accounts)| == 1 && s.accounts[account] == Admin then (s, Conflict)
    else
      var owned := OwnedBy(s.members, account);
      (s.(accounts := s.accounts - {account},
          orgs := s.orgs - (owned - heirs.Keys),
          members := WithoutAccount(HandedOver(s.members, heirs, owned), account)), Done)
  }

  // ---------------------------------------------------------------- runs

  datatype Op =
    | OpCreate(actor: Id, now: int)
    | OpDelete(actor: Id, org: Id)
    | OpInvite(actor: Id, org: Id, invited: Option<Id>, now: int)
    | OpRespond(actor: Id, org: Id, accept: bool)
    | OpRemove(actor: Id, org: Id, member: Id)
    | OpLeave(actor: Id, org: Id)
    | OpSetRole(actor: Id, org: Id, member: Id, role: Role)
    | OpTransfer(actor: Id, org: Id, newOwner: Id)
    | OpJoin(actor: Id, ids: set<Id>, now: int)
    | OpDeleteAccount(account: Id, heirs: map<Id, Id>)
    | OpSaveAccount(account: Id, accountRole: AccountRole)

  /** The actor is signed in, an invited name was found, and role and successors are among those allowed. */
  predicate Enabled(s: State, op: Op) {
    match op
    case OpCreate(actor, _) => actor in s.accounts
    case OpJoin(actor, _, _) => actor in s.accounts
    case OpInvite(_, _, invited, _) => invited != None ==> invited.value in s.accounts
    case OpSetRole(_, _, _, role) => role != Owner
    case OpDeleteAccount(account, heirs) => AreHeirs(s.members, account, heirs)
    case _ => true
  }

  function Apply(s: State, op: Op): State
    requires Enabled(s, op)
  {
    match op
    case OpCreate(actor, now) => WithOrganization(s, actor, now)
    case OpDelete(actor, org) => WithDeletedOrganization(s, actor, org).0
    case OpInvite(actor, org, invited, now) => Invite(s, actor, org, invited, now).0
    case OpRespond(actor, org, accept) => Respond(s, actor, org, accept).0
    case OpRemove(actor, org, member) => WithRemovedMember(s, actor, org, member).0
    case OpLeave(actor, org) => Leave(s, actor, org).0
    case OpSetRole(actor, org, member, role) => WithMemberRole(s, actor, org, member, role).0
    case OpTransfer(actor, org, newOwner) => WithTransfer(s, actor, org, newOwner).0
    case OpJoin(actor, ids, now) => WithJoined(s, actor, ids, now)
    case OpDeleteAccount(account, heirs) => WithDeletedAccount(s, account, heirs).0
    case OpSaveAccount(account, role) => s.(accounts := s.accounts[account := role])
  }

  predicate IsRun(s: State, ops: seq<Op>)
    decreases |ops|
  {
    ops != [] ==> Enabled(s, ops[0]) && IsRun(Apply(s, ops[0]), ops[1..])
  }

  function Run(s: State, ops: seq<Op>): State
    requires IsRun(s, ops)
    decreases |ops|
  {
    if ops == [] then s else Run(Apply(s, ops[0]), ops[1..])
  }

  // ---------------------------------------------------------------- the invariant

  /** Memberships belong to existing organizations and accounts. */
  predicate Linked(s: State) {
    && (forall k :: k in s.members ==> k.org in s.orgs && k.account in s.accounts)
    && (forall org :: org in s.orgs ==> org < s.next)
  }

  /** Who has not accepted yet is a plain member, so owners are active. */
  predicate PendingAreMembers(members: map<Key, Membership>) {
    forall k :: k in members && members[k].status == Pending ==> members[k].role == Member
  }

  predicate OneOwner(members: map<Key, Membership>) {
    forall k, l :: (k in members && l in members && k.org == l.org && members[k].role == members[l].role == Owner) ==> k == l
  }

  predicate Inv(s: State) {
    Linked(s) && PendingAreMembers(s.members) && OneOwner(s.members)
  }

  lemma StepKeepsLinked(s: State, op: Op)
    requires Linked(s) && Enabled(s, op)
    ensures Linked(Apply(s, op))
  {
    if op.OpDeleteAccount? {
      var owned := OwnedBy(s.members, op.account);
      forall k | k in WithoutAccount(HandedOver(s.members, op.heirs, owned), op.account)
        ensures k.org in s.orgs - (owned - op.heirs.Keys) && k.account in s.accounts - {op.account}
      {
      }
    }
  }

  lemma StepKeepsPending(s: State, op: Op)
    requires Inv(s) && Enabled(s, op)
    ensures PendingAreMembers(Apply(s, op).members)
  {
    if op.OpDeleteAccount? {
      HandOverKeepsPending(s.members, op.account, op.heirs);
    }
  }

  lemma HandOverKeepsPending(members: map<Key, Membership>, account: Id, heirs: map<Id, Id>)
    requires PendingAreMembers(members) && AreHeirs(members, account, heirs)
    ensures PendingAreMembers(HandedOver(members, heirs, OwnedBy(members, account)))
  {
    var after := HandedOver(members, heirs, OwnedBy(members, account));
    forall k | k in after && after[k].status == Pending
      ensures after[k].role == Member
    {
      if k.org in OwnedBy(members, account) && heirs[k.org] == k.account {
        assert k.account in Others(members, k.org, account);
      }
    }
  }

  lemma TransferKeepsOneOwner(members: map<Key, Membership>, org: Id, newOwner: Id)
    requires OneOwner(members)
    ensures OneOwner(Transferred(members, org, newOwner))
  {
  }

  lemma JoinKeepsOneOwner(s: State, account: Id, ids: set<Id>, now: int)
    requires OneOwner(s.members)
    ensures OneOwner(Joined(s, account, ids, now))
  {
    var after := Joined(s, account, ids, now);
    forall k | k in after && after[k].role == Owner
      ensures k in s.members && s.members[k].role == Owner
    {
    }
  }

  lemma DeleteAccountKeepsOneOwner(members: map<Key, Membership>, account: Id, heirs: map<Id, Id>)
    requires OneOwner(members) && AreHeirs(members, account, heirs)
    ensures OneOwner(WithoutAccount(HandedOver(members, heirs, OwnedBy(members, account)), account))
  {
    var owned := OwnedBy(members, account);
    var after := WithoutAccount(HandedOver(members, heirs, owned), account);
    forall k, l | k in after && l in after && k.org == l.org && after[k].role == Owner && after[l].role == Owner
      ensures k == l
    {
      if k.org in owned {
        var was := Key(k.org, account);
        assert IsOwner(members, was);
      }
    }
  }

  lemma StepKeepsOneOwner(s: State, op: Op)
    requires Inv(s) && Enabled(s, op)
    ensures OneOwner(Apply(s, op).members)
  {
    match op
    case OpTransfer(actor, org, newOwner) => TransferKeepsOneOwner(s.members, org, newOwner);
    case OpJoin(actor, ids, now) => JoinKeepsOneOwner(s, actor, ids, now);
    case OpDeleteAccount(account, heirs) => DeleteAccountKeepsOneOwner(s.members, account, heirs);
    case _ =>
  }

  lemma StepKeeps(s: State, op: Op)
    requires Inv(s) && Enabled(s, op)
    ensures Inv(Apply(s, op))
  {
    StepKeepsLinked(s, op);
    StepKeepsPending(s, op);
    StepKeepsOneOwner(s, op);
  }

  // ---------------------------------------------------------------- ownership

  lemma CreatedIsOwned(s: State, account: Id, now: int)
    requires Linked(s)
    ensures Owned(WithOrganization(s, account, now).members, s.next)
  {
    var k := Key(s.next, account);
    assert k !in s.members;
    assert IsOwner(WithOrganization(s, account, now).members, k);
  }

  lemma DeleteAccountKeepsOwned(s: State, account: Id, heirs: map<Id, Id>, org: Id)
    requires Inv(s) && AreHeirs(s.members, account, heirs)
    requires Owned(s.members, org) && org in WithDeletedAccount(s, account, heirs).0.orgs
    ensures Owned(WithDeletedAccount(s, account, heirs).0.members, org)
  {
    var after := WithDeletedAccount(s, account, heirs).0.members;
    var k :| k in s.members && k.org == org && IsOwner(s.members, k);
    if k.account == account {
      assert org in OwnedBy(s.members, account);
      if org in heirs {
        var heir := Key(org, heirs[org]);
        assert heirs[org] in Others(s.members, org, account);
        if after != s.members {
          assert IsOwner(after, heir);
        }
      }
    } else {
      forall l | l in s.members && l.account == account && IsOwner(s.members, l)
        ensures l.org != org
      {
      }
      assert after != s.members ==> IsOwner(after, k);
    }
  }

  /** An owned organization stays owned as long as it exists, and a new one is owned. */
  lemma StepKeepsOwned(s: State, op: Op, org: Id)
    requires Inv(s) && Enabled(s, op) && org in Apply(s, op).orgs
    requires org in s.orgs ==> Owned(s.members, org)
    ensures Owned(Apply(s, op).members, org)
  {
    if op.OpCreate? && org == s.next {
      CreatedIsOwned(s, op.actor, op.now);
    } else if op.OpDeleteAccount? {
      DeleteAccountKeepsOwned(s, op.account, op.heirs, org);
    } else {
      var k :| k in s.members && k.org == org && IsOwner(s.members, k);
      if op.OpTransfer? && op.org == org && WithTransfer(s, op.actor, org, op.newOwner).1 == Done {
        assert IsOwner(Apply(s, op).members, Key(org, op.newOwner));
      } else {
        OwnerUntouched(s, op, k);
      }
    }
  }

  lemma OwnerUntouched(s: State, op: Op, k: Key)
    requires Inv(s) && Enabled(s, op) && IsOwner(s.members, k) && k.org in Apply(s, op).orgs
    requires !op.OpDeleteAccount?
    requires op.OpTransfer? ==> op.org != k.org || WithTransfer(s, op.actor, op.org, op.newOwner).1 != Done
    ensures IsOwner(Apply(s, op).members, k)
  {
  }

  lemma {:induction false} RunKeeps(s: State, ops: seq<Op>)
    requires Inv(s) && IsRun(s, ops)
    ensures Inv(Run(s, ops))
    decreases |ops|
  {
    if ops != [] {
      StepKeeps(s, ops[0]);
      RunKeeps(Apply(s, ops[0]), ops[1..]);
    }
  }

  lemma {:induction false} RunKeepsOwned(s: State, ops: seq<Op>, org: Id)
    requires Inv(s) && IsRun(s, ops) && org in Run(s, ops).orgs
    requires org in s.orgs ==> Owned(s.members, org)
    ensures Owned(Run(s, ops).members, org)
    decreases |ops|
  {
    if ops != [] {
      StepKeeps(s, ops[0]);
      if org in Apply(s, ops[0]).orgs {
        StepKeepsOwned(s, ops[0], org);
      }
      RunKeepsOwned(Apply(s, ops[0]), ops[1..], org);
    }
  }

  /** A deleted organization never comes back, nor does any membership in it. */
  lemma {:induction false} GoneForGood(s: State, ops: seq<Op>, org: Id)
    requires Inv(s) && IsRun(s, ops) && org < s.next && org !in s.orgs
    ensures org !in Run(s, ops).orgs && forall k :: k in Run(s, ops).members ==> k.org != org
    decreases |ops|
  {
    if ops != [] {
      StepKeeps(s, ops[0]);
      GoneForGood(Apply(s, ops[0]), ops[1..], org);
    }
  }

  function Fresh(accounts: map<Id, AccountRole>): State {
    State(accounts, {}, map[], 1)
  }

  /** In every reachable state each organization has exactly one owner, who is active. */
  lemma ReachableOrganizationsHaveOneOwner(accounts: map<Id, AccountRole>, ops: seq<Op>, org: Id) returns (owner: Id)
    requires IsRun(Fresh(accounts), ops) && org in Run(Fresh(accounts), ops).orgs
    ensures var members := Run(Fresh(accounts), ops).members;
            && IsOwner(members, Key(org, owner))
            && owner in Run(Fresh(accounts), ops).accounts
            && forall a :: Key(org, a) in members && members[Key(org, a)].role == Owner ==> a == owner
  {
    RunKeeps(Fresh(accounts), ops);
    RunKeepsOwned(Fresh(accounts), ops, org);
    var members := Run(Fresh(accounts), ops).members;
    var k :| k in members && k.org == org && IsOwner(members, k);
    owner := k.account;
  }

  /** An administrator stands in for the owner exactly in an organization that has none. */
  lemma EffectiveRoleDiffersIff(s: State, account: Id, org: Id)
    requires IsActive(s.members, Key(org, account))
    ensures EffectiveRole(s, account, org) != Some(s.members[Key(org, account)].role)
            <==> !Owned(s.members, org) && account in s.accounts && s.accounts[account] == Admin
  {
    if s.members[Key(org, account)].role == Owner {
      assert IsOwner(s.members, Key(org, account));
    }
  }

  /** So in reachable states the stored role is the role that counts, administrator or not. */
  lemma ReachableRolesAreStored(accounts: map<Id, AccountRole>, ops: seq<Op>, account: Id, org: Id)
    requires IsRun(Fresh(accounts), ops)
    ensures var s := Run(Fresh(accounts), ops);
            var k := Key(org, account);
            EffectiveRole(s, account, org) == if IsActive(s.members, k) then Some(s.members[k].role) else None
  {
    var s := Run(Fresh(accounts), ops);
    RunKeeps(Fresh(accounts), ops);
    if IsActive(s.members, Key(org, account)) {
      RunKeepsOwned(Fresh(accounts), ops, org);
      EffectiveRoleDiffersIff(s, account, org);
    }
  }

  // ---------------------------------------------------------------- who can change what

  /** A role rises only at the hand of the owner: by appointment, by transfer, or by inheritance. */
  lemma RoleRisesByOwner(s: State, op: Op, k: Key)
    requires Inv(s) && Enabled(s, op) && k in s.members && k in Apply(s, op).members
    requires Rank(Apply(s, op).members[k].role) > Rank(s.members[k].role)
    ensures || ((op.OpSetRole? || op.OpTransfer?) && op.org == k.org && HasRole(s, op.actor, k.org, Owner))
            || (op.OpDeleteAccount? && IsOwner(s.members, Key(k.org, op.account))
                && IsSuccessor(s.members, k.org, op.account, k.account))
  {
    if op.OpDeleteAccount? {
      var owned := OwnedBy(s.members, op.account);
      assert k.org in owned && k.org in op.heirs && op.heirs[k.org] == k.account;
    }
  }

  /** Nobody becomes an active member except by doing so themselves. */
  lemma ActiveByOwnAct(s: State, op: Op, k: Key)
    requires Inv(s) && Enabled(s, op)
    requires !IsActive(s.members, k) && IsActive(Apply(s, op).members, k)
    ensures (op.OpCreate? || (op.OpRespond? && op.accept) || op.OpJoin?) && op.actor == k.account
  {
  }

  /**
   A membership ends by the member's own leave or refusal, by someone of higher rank, with the
   organization, or with the account; or, still pending, when the owner's account leaves nobody active.
   */
  lemma MembershipEnds(s: State, op: Op, k: Key)
    requires Inv(s) && Enabled(s, op) && k in s.members && k !in Apply(s, op).members
    ensures match op
            case OpLeave(actor, org) => k == Key(org, actor) && s.members[k].role != Owner
            case OpRespond(actor, org, accept) => k == Key(org, actor) && !accept && s.members[k].status == Pending
            case OpRemove(actor, org, member) =>
              k == Key(org, member) && RankOf(EffectiveRole(s, actor, org)) > Rank(s.members[k].role)
            case OpDelete(actor, org) => k.org == org && HasRole(s, actor, org, Owner)
            case OpDeleteAccount(account, _) =>
              || k.account == account
              || (IsOwner(s.members, Key(k.org, account)) && Others(s.members, k.org, account) == {}
                  && s.members[k].status == Pending)
            case _ => false
  {
    if op.OpDeleteAccount? && k.account != op.account {
      assert k.org in OwnedBy(s.members, op.account) && k.org !in op.heirs;
      assert Others(s.members, k.org, op.account) == {};
      if IsActive(s.members, k) {
        ActiveIsOther(s.members, k, op.account);
      }
    }
  }

  lemma ActiveIsOther(members: map<Key, Membership>, k: Key, account: Id)
    requires IsActive(members, k) && k.account != account
    ensures k.account in Others(members, k.org, account)
  {
  }

  /** An owner is replaced only by transferring the organization or by deleting the account. */
  lemma OwnerReplacedByOwner(s: State, op: Op, org: Id, owner: Id)
    requires Inv(s) && Enabled(s, op)
    requires IsOwner(s.members, Key(org, owner)) && !IsOwner(Apply(s, op).members, Key(org, owner))
    requires org in Apply(s, op).orgs
    ensures || (op.OpTransfer? && op.org == org && op.actor == owner && IsOwner(Apply(s, op).members, Key(org, op.newOwner)))
            || (op.OpDeleteAccount? && op.account == owner && org in op.heirs
                && IsOwner(Apply(s, op).members, Key(org, op.heirs[org])))
  {
    var k := Key(org, owner);
    assert Owned(s.members, org);
    if op.OpDeleteAccount? {
      DeleteAccountKeepsOwned(s, op.account, op.heirs, org);
      DeletedOwner(s, op.account, op.heirs, org, owner);
    } else if !op.OpTransfer? || op.org != org || WithTransfer(s, op.actor, op.org, op.newOwner).1 != Done {
      OwnerUntouched(s, op, k);
    }
  }

  lemma DeletedOwner(s: State, account: Id, heirs: map<Id, Id>, org: Id, owner: Id)
    requires Inv(s) && AreHeirs(s.members, account, heirs) && IsOwner(s.members, Key(org, owner))
    requires org in WithDeletedAccount(s, account, heirs).0.orgs
    requires !IsOwner(WithDeletedAccount(s, account, heirs).0.members, Key(org, owner))
    ensures account == owner && org in heirs
    ensures IsOwner(WithDeletedAccount(s, account, heirs).0.members, Key(org, heirs[org]))
  {
    assert account == owner ==> org in OwnedBy(s.members, account);
    if org in heirs {
      assert heirs[org] in Others(s.members, org, account);
    }
  }

  /** A transfer by the owner: the successor owns the organization, the owner becomes a manager, nobody else changes. */
  lemma TransferHandsOver(s: State, account: Id, org: Id, newOwner: Id)
    requires Inv(s) && Owned(s.members, org) && WithTransfer(s, account, org, newOwner).1 == Done
    ensures var after := WithTransfer(s, account, org, newOwner).0;
            && IsOwner(s.members, Key(org, account))
            && IsOwner(after.members, Key(org, newOwner))
            && IsActive(after.members, Key(org, account)) && after.members[Key(org, account)].role == Manager
            && after.members.Keys == s.members.Keys
            && forall k :: k in s.members && k != Key(org, account) && k != Key(org, newOwner) ==>
                 after.members[k] == s.members[k]
  {
    EffectiveRoleDiffersIff(s, account, org);
    var owner := Key(org, account);
    forall k | k in s.members && k.org == org && s.members[k].role == Owner
      ensures k == owner
    {
    }
  }

  // ---------------------------------------------------------------- the controllers

  /** One organization after its turn: its heir owns it, or it is gone. */
  function GivenTo(members: map<Key, Membership>, org: Id, heir: Option<Id>): map<Key, Membership> {
    if heir == None then WithoutOrganization(members, org)
    else if Key(org, heir.value) in members
    then members[Key(org, heir.value) := members[Key(org, heir.value)].(role := Owner)]
    else members
  }

  predicate HeirsSoFar(members: map<Key, Membership>, account: Id, heirs: map<Id, Id>, done: set<Id>) {
    && heirs.Keys == (set org | org in done && Others(members, org, account) != {})
    && (forall org :: org in heirs ==> IsSuccessor(members, org, account, heirs[org]))
  }

  lemma HandOverStep(members: map<Key, Membership>, heirs: map<Id, Id>, done: set<Id>, org: Id, heir: Option<Id>)
    requires org !in done && org !in heirs
    requires heir != None ==> Key(org, heir.value) in members
    ensures HandedOver(members, if heir == None then heirs else heirs[org := heir.value], done + {org})
            == GivenTo(HandedOver(members, heirs, done), org, heir)
  {
    var mid := HandedOver(members, heirs, done);
    var after := HandedOver(members, if heir == None then heirs else heirs[org := heir.value], done + {org});
    var given := GivenTo(mid, org, heir);
    forall k
      ensures k in after <==> k in given
      ensures k in after ==> after[k] == given[k]
    {
    }
    assert after == given;
  }

  lemma HandOverTurn(members: map<Key, Membership>, account: Id, heirs: map<Id, Id>, done: set<Id>, org: Id, heir: Option<Id>)
    requires org !in done && HeirsSoFar(members, account, heirs, done)
    requires var mid := HandedOver(members, heirs, done);
             && (heir == None <==> Others(mid, org, account) == {})
             && (heir != None ==> IsSuccessor(mid, org, account, heir.value))
    ensures var more := if heir == None then heirs else heirs[org := heir.value];
            && HeirsSoFar(members, account, more, done + {org})
            && HandedOver(members, more, done + {org}) == GivenTo(HandedOver(members, heirs, done), org, heir)
  {
    OthersUnchanged(members, heirs, done, org, account);
    if heir != None {
      SuccessorUnchanged(members, HandedOver(members, heirs, done), org, account, heir.value);
    }
    HandOverStep(members, heirs, done, org, heir);
  }

  lemma JoinNothing(s: State, account: Id, now: int)
    ensures Joined(s, account, {}, now) == s.members
  {
  }

  lemma JoinStep(s: State, account: Id, done: set<Id>, org: Id, now: int)
    ensures var mid, k := Joined(s, account, done, now), Key(org, account);
            Joined(s, account, done + {org}, now)
            == if org !in s.orgs then mid
               else if k in mid then mid[k := mid[k].(status := Active)]
               else mid[k := Membership(Member, Active, account, now)]
  {
    var mid, k := Joined(s, account, done, now), Key(org, account);
    var after := Joined(s, account, done + {org}, now);
    var joined := if org !in s.orgs then mid
                  else if k in mid then mid[k := mid[k].(status := Active)]
                  else mid[k := Membership(Member, Active, account, now)];
    forall l
      ensures l in after <==> l in joined
      ensures l in after ==> after[l] == joined[l]
    {
    }
    assert after == joined;
  }

  lemma OthersUnchanged(members: map<Key, Membership>, heirs: map<Id, Id>, done: set<Id>, org: Id, account: Id)
    requires org !in done
    ensures Others(HandedOver(members, heirs, done), org, account) == Others(members, org, account)
    ensures forall a: Id :: Key(org, a) in HandedOver(members, heirs, done) <==> Key(org, a) in members
    ensures forall a: Id :: Key(org, a) in members ==>
              HandedOver(members, heirs, done)[Key(org, a)] == members[Key(org, a)]
  {
    var mid := HandedOver(members, heirs, done);
    forall a: Id
      ensures a in Others(mid, org, account) <==> a in Others(members, org, account)
    {
      var k := Key(org, a);
      assert k in mid <==> k in members;
      if a in Others(mid, org, account) { assert IsActive(members, k); }
      if a in Others(members, org, account) { assert IsActive(mid, k); }
    }
  }

  class Registry {
    var accounts: map<Id, AccountRole>
    var orgs: set<Id>
    var members: map<Key, Membership>
    var next: Id

    function Tables(): State
      reads this
    {
      State(accounts, orgs, members, next)
    }

    method CreateOrganization(account: Id, now: int) returns (org: Id)
      modifies this
      ensures org == old(next)
      ensures Tables() == WithOrganization(old(Tables()), account, now)
    {
      org := next;
      orgs, next := orgs + {org}, next + 1;
      if Key(org, account) !in members {
        members := members[Key(org, account) := Membership(Owner, Active, account, now)];
      }
    }

    method RemoveOrganizationData(org: Id)
      modifies `orgs, `members
      ensures orgs == old(orgs) - {org} && members == WithoutOrganization(old(members), org)
    {
      members := map k | k in members && k.org != org :: members[k];
      orgs := orgs - {org};
    }

    method DeleteOrganization(account: Id, org: Id) returns (answer: Answer)
      modifies this
      ensures (Tables(), answer) == WithDeletedOrganization(old(Tables()), account, org)
    {
      if !HasRole(Tables(), account, org, Owner) {
        return Forbidden;
      }
      RemoveOrganizationData(org);
      answer := Done;
    }

    method InviteUser(account: Id, org: Id, invited: Option<Id>, now: int) returns (answer: Answer)
      modifies this
      ensures (Tables(), answer) == Invite(old(Tables()), account, org, invited, now)
    {
      if !HasRole(Tables(), account, org, Manager) {
        return Forbidden;
      }
      if invited == None {
        return NotFound;
      }
      if Key(org, invited.value) in members {
        return Conflict;
      }
      members := members[Key(org, invited.value) := Membership(Member, Pending, account, now)];
      answer := Done;
    }

    method RespondToInvitation(account: Id, org: Id, accept: bool) returns (answer: Answer)
      modifies this
      ensures (Tables(), answer) == Respond(old(Tables()), account, org, accept)
    {
      var k := Key(org, account);
      if k !in members || members[k].status != Pending {
        return NotFound;
      }
      if accept {
        members := members[k := members[k].(status := Active)];
      } else {
        members := members - {k};
      }
      answer := Done;
    }

    method RemoveMember(account: Id, org: Id, member: Id) returns (answer: Answer)
      modifies this
      ensures (Tables(), answer) == WithRemovedMember(old(Tables()), account, org, member)
    {
      var role := EffectiveRole(Tables(), account, org);
      if RankOf(role) < Rank(Manager) {
        return Forbidden;
      }
      var k := Key(org, member);
      if k !in members {
        return NotFound;
      }
      if Rank(members[k].role) >= RankOf(role) {
        return Forbidden;
      }
      members := members - {k};
      answer := Done;
    }

    method LeaveOrganization(account: Id, org: Id) returns (answer: Answer)
      modifies this
      ensures (Tables(), answer) == Leave(old(Tables()), account, org)
    {
      var k := Key(org, account);
      if k !in members || members[k].status != Active {
        return NotFound;
      }
      if members[k].role == Owner {
        return Forbidden;
      }
      members := members - {k};
      answer := Done;
    }

    method SetMemberRole(account: Id, org: Id, member: Id, role: Role) returns (answer: Answer)
      requires role != Owner
      modifies this
      ensures (Tables(), answer) == WithMemberRole(old(Tables()), account, org, member, role)
    {
      if !HasRole(Tables(), account, org, Owner) {
        return Forbidden;
      }
      var k := Key(org, member);
      if k !in members || members[k].status != Active {
        return NotFound;
      }
      if members[k].role == Owner {
        return BadRequest;
      }
      members := members[k := members[k].(role := role)];
      answer := Done;
    }

    method TransferOwnership(account: Id, org: Id, newOwner: Id) returns (answer: Answer)
      modifies this
      ensures (Tables(), answer) == WithTransfer(old(Tables()), account, org, newOwner)
    {
      if !HasRole(Tables(), account, org, Owner) {
        return Forbidden;
      }
      if newOwner == account {
        return BadRequest;
      }
      var k := Key(org, newOwner);
      if k !in members || members[k].status != Active {
        return NotFound;
      }
      members := map l | l in members ::
        if l.org == org && members[l].role == Owner then members[l].(role := Manager) else members[l];
      members := members[k := members[k].(role := Owner)];
      assert members == Transferred(old(members), org, newOwner);
      answer := Done;
    }

    method JoinOrganizations(account: Id, ids: seq<Id>, now: int)
      modifies `members
      ensures Tables() == WithJoined(old(Tables()), account, Elements(ids), now)
    {
      JoinNothing(old(Tables()), account, now);
      for i := 0 to |ids|
        invariant members == Joined(old(Tables()), account, Elements(ids[..i]), now)
      {
        assert ids[..i + 1] == ids[..i] + [ids[i]];
        assert Elements(ids[..i + 1]) == Elements(ids[..i]) + {ids[i]};
        JoinStep(old(Tables()), account, Elements(ids[..i]), ids[i], now);
        var k := Key(ids[i], account);
        if ids[i] in orgs {
          if k in members {
            members := members[k := members[k].(status := Active)];
          } else {
            members := members[k := Membership(Member, Active, account, now)];
          }
        }
      }
      assert ids[..|ids|] == ids;
    }

    /** The first of the other active members, ordered by role and then by date. */
    method FindSuccessor(org: Id, account: Id) returns (heir: Option<Id>)
      ensures heir == None <==> Others(members, org, account) == {}
      ensures heir != None ==> IsSuccessor(members, org, account, heir.value)
    {
      var others := FindAll(Others(members, org, account));
      if others == [] {
        assert forall a :: a in Others(members, org, account) ==> a in others;
        return None;
      }
      assert others[0] in others;
      var best := others[0];
      for i := 1 to |others|
        invariant best in Others(members, org, account)
        invariant forall j :: 0 <= j < i ==> NotAfter(members, org, best, others[j])
      {
        assert others[i] in others;
        if !NotAfter(members, org, best, others[i]) {
          best := others[i];
        }
      }
      heir := Some(best);
    }

    method HandOverOne(org: Id, account: Id) returns (ghost heir: Option<Id>)
      modifies `orgs, `members
      ensures heir == None <==> Others(old(members), org, account) == {}
      ensures heir != None ==> IsSuccessor(old(members), org, account, heir.value)
      ensures orgs == if heir == None then old(orgs) - {org} else old(orgs)
      ensures members == GivenTo(old(members), org, heir)
    {
      var successor := FindSuccessor(org, account);
      if successor != None {
        members := members[Key(org, successor.value) := members[Key(org, successor.value)].(role := Owner)];
      } else {
        RemoveOrganizationData(org);
      }
      heir := successor;
    }

    method HandOverOrganizations(account: Id) returns (ghost heirs: map<Id, Id>)
      modifies `orgs, `members
      ensures AreHeirs(old(members), account, heirs)
      ensures var owned := OwnedBy(old(members), account);
              orgs == old(orgs) - (owned - heirs.Keys) && members == HandedOver(old(members), heirs, owned)
    {
      var owned := FindAll(OwnedBy(members, account));
      heirs := map[];
      for i := 0 to |owned|
        invariant HeirsSoFar(old(members), account, heirs, Elements(owned[..i]))
        invariant orgs == old(orgs) - (Elements(owned[..i]) - heirs.Keys)
        invariant members == HandedOver(old(members), heirs, Elements(owned[..i]))
      {
        ghost var done := Elements(owned[..i]);
        assert owned[..i + 1] == owned[..i] + [owned[i]] && owned[i] !in done;
        assert Elements(owned[..i + 1]) == done + {owned[i]};
        ghost var heir := HandOverOne(owned[i], account);
        HandOverTurn(old(members), account, heirs, done, owned[i], heir);
        if heir != None {
          heirs := heirs[owned[i] := heir.value];
        }
      }
      assert owned[..|owned|] == owned;
      assert Elements(owned) == OwnedBy(old(members), account);
    }

    method DeleteAccount(account: Id) returns (answer: Answer, ghost heirs: map<Id, Id>)
      modifies this
      ensures AreHeirs(old(members), account, heirs)
      ensures (Tables(), answer) == WithDeletedAccount(old(Tables()), account, heirs)
    {
      if account !in accounts {
        heirs := AnyHeirs(members, account);
        return NotFound, heirs;
      }
      if |Admins(accounts)| == 1 && accounts[account] == Admin {
        heirs := AnyHeirs(members, account);
        return Conflict, heirs;
      }
      heirs := HandOverOrganizations(account);
      members := map k | k in members && k.account != account :: members[k];
      accounts := accounts - {account};
      answer := Done;
    }
  }

  lemma SuccessorUnchanged(members: map<Key, Membership>, mid: map<Key, Membership>, org: Id, account: Id, heir: Id)
    requires Others(mid, org, account) == Others(members, org, account)
    requires forall a: Id :: Key(org, a) in mid <==> Key(org, a) in members
    requires forall a: Id :: Key(org, a) in members ==> mid[Key(org, a)] == members[Key(org, a)]
    requires IsSuccessor(mid, org, account, heir)
    ensures IsSuccessor(members, org, account, heir)
    ensures Key(org, heir) in members
  {
    forall other | other in Others(members, org, account)
      ensures NotAfter(members, org, heir, other)
    {
      assert NotAfter(mid, org, heir, other);
    }
  }

  /** There always are heirs to name: any of the first-ranked members. */
  lemma AnyHeirs(members: map<Key, Membership>, account: Id) returns (heirs: map<Id, Id>)
    ensures AreHeirs(members, account, heirs)
  {
    var todo := set org | org in OwnedBy(members, account) && Others(members, org, account) != {};
    heirs := HeirsFor(members, account, todo);
  }

  lemma HeirsFor(members: map<Key, Membership>, account: Id, todo: set<Id>) returns (heirs: map<Id, Id>)
    requires forall org :: org in todo ==> Others(members, org, account) != {}
    ensures heirs.Keys == todo && forall org :: org in heirs ==> IsSuccessor(members, org, account, heirs[org])
    decreases |todo|
  {
    heirs := map[];
    if todo != {} {
      var org :| org in todo;
      heirs := HeirsFor(members, account, todo - {org});
      var heir := SuccessorAmong(members, org, account, Others(members, org, account));
      heirs := heirs[org := heir];
    }
  }

  lemma SuccessorAmong(members: map<Key, Membership>, org: Id, account: Id, among: set<Id>) returns (heir: Id)
    requires among != {} && among <= Others(members, org, account)
    ensures heir in among && forall other :: other in among ==> NotAfter(members, org, heir, other)
    decreases |among|
  {
    heir :| heir in among;
    var rest := among - {heir};
    if rest != {} {
      var best := SuccessorAmong(members, org, account, rest);
      if !NotAfter(members, org, heir, best) {
        heir := best;
      }
    }
    forall other | other in among
      ensures NotAfter(members, org, heir, other)
    {
      assert other in rest || other !in rest;
    }
  }
}
