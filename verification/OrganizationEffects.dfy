/**
 Exactly when each membership operation is accepted, in terms of the stored rows, and which rows it leaves.
 In a reachable state every organization has an owner, so no administrator stands in for one.
 */
module OrganizationEffects {
  import opened Wrappers
  import opened Lists
  import opened Organizations

  /** The invariant of the reachable states, and that every organization is owned. */
  ghost predicate Sound(s: State) {
    Inv(s) && forall org :: org in s.orgs ==> Owned(s.members, org)
  }

  lemma ReachableIsSound(accounts: map<Id, AccountRole>, ops: seq<Op>)
    requires IsRun(Fresh(accounts), ops)
    ensures Sound(Run(Fresh(accounts), ops))
  {
    RunKeeps(Fresh(accounts), ops);
    forall org | org in Run(Fresh(accounts), ops).orgs
      ensures Owned(Run(Fresh(accounts), ops).members, org)
    {
      RunKeepsOwned(Fresh(accounts), ops, org);
    }
  }

  /** The role of an active member. */
  function RoleIn(s: State, account: Id, org: Id): Option<Role> {
    var k := Key(org, account);
    if k in s.members && s.members[k].status == Active then Some(s.members[k].role) else None
  }

  lemma RolesAreStored(s: State, account: Id, org: Id)
    requires Sound(s)
    ensures EffectiveRole(s, account, org) == RoleIn(s, account, org)
  {
    if IsActive(s.members, Key(org, account)) {
      EffectiveRoleDiffersIff(s, account, org);
    }
  }

  /** Only the row of `k` differs, if any. */
  ghost predicate OnlyRow(s: State, after: State, k: Key) {
    && after.accounts == s.accounts && after.orgs == s.orgs && after.next == s.next
    && forall x :: x != k ==> (x in after.members <==> x in s.members) && (x in s.members ==> after.members[x] == s.members[x])
  }

  /** Managers and owners invite whoever has no row yet; the new row is pending and plain. */
  lemma InviteIff(s: State, account: Id, org: Id, invited: Option<Id>, now: int)
    requires Sound(s)
    ensures var (after, answer) := Invite(s, account, org, invited, now);
            && (answer == Done <==> RoleIn(s, account, org) in {Some(Manager), Some(Owner)}
                                    && invited.Some? && Key(org, invited.value) !in s.members)
            && (answer != Done ==> after == s)
            && (answer == Done ==>
                  && OnlyRow(s, after, Key(org, invited.value)) && Key(org, invited.value) in after.members
                  && after.members[Key(org, invited.value)] == Membership(Member, Pending, account, now))
  {
    RolesAreStored(s, account, org);
  }

  /** A pending invitation is accepted or declined by its account, and takes effect. */
  lemma RespondIff(s: State, account: Id, org: Id, accept: bool)
    ensures var (after, answer) := Respond(s, account, org, accept);
            var k := Key(org, account);
            && (answer == Done <==> k in s.members && s.members[k].status == Pending)
            && (answer != Done ==> after == s)
            && (answer == Done ==> OnlyRow(s, after, k))
            && (answer == Done && accept ==> k in after.members && after.members[k] == s.members[k].(status := Active))
            && (answer == Done && !accept ==> k !in after.members)
  {
  }

  /** An owner removes everybody but an owner, a manager removes plain members, nobody else removes anyone. */
  lemma RemoveIff(s: State, account: Id, org: Id, member: Id)
    requires Sound(s)
    ensures var (after, answer) := WithRemovedMember(s, account, org, member);
            var role, k := RoleIn(s, account, org), Key(org, member);
            && (answer == Done <==>
                  k in s.members && ((role == Some(Owner) && s.members[k].role != Owner)
                                     || (role == Some(Manager) && s.members[k].role == Member)))
            && (answer != Done ==> after == s)
            && (answer == Done ==> OnlyRow(s, after, k) && k !in after.members)
  {
    RolesAreStored(s, account, org);
  }

  /** Every active member but the owner may leave. */
  lemma LeaveIff(s: State, account: Id, org: Id)
    ensures var (after, answer) := Leave(s, account, org);
            var k := Key(org, account);
            && (answer == Done <==> RoleIn(s, account, org) in {Some(Member), Some(Manager)})
            && (answer != Done ==> after == s)
            && (answer == Done ==> OnlyRow(s, after, k) && k !in after.members)
  {
  }

  /** The owner gives every other active member the role asked for, and nobody else does. */
  lemma SetRoleIff(s: State, account: Id, org: Id, member: Id, role: Role)
    requires Sound(s) && role != Owner
    ensures var (after, answer) := WithMemberRole(s, account, org, member, role);
            var k := Key(org, member);
            && (answer == Done <==> RoleIn(s, account, org) == Some(Owner)
                                    && RoleIn(s, member, org) in {Some(Member), Some(Manager)})
            && (answer != Done ==> after == s)
            && (answer == Done ==> OnlyRow(s, after, k) && k in after.members && after.members[k] == s.members[k].(role := role))
  {
    RolesAreStored(s, account, org);
  }

  /** The owner hands over to another active member, who alone becomes owner. */
  lemma TransferIff(s: State, account: Id, org: Id, newOwner: Id)
    requires Sound(s)
    ensures var (after, answer) := WithTransfer(s, account, org, newOwner);
            && (answer == Done <==> RoleIn(s, account, org) == Some(Owner) && newOwner != account && RoleIn(s, newOwner, org).Some?)
            && (answer != Done ==> after == s)
            && (answer == Done ==>
                  && RoleIn(after, newOwner, org) == Some(Owner) && RoleIn(after, account, org) == Some(Manager)
                  && after.orgs == s.orgs && after.accounts == s.accounts)
  {
    RolesAreStored(s, account, org);
    if WithTransfer(s, account, org, newOwner).1 == Done {
      assert IsOwner(s.members, Key(org, account));
      TransferHandsOver(s, account, org, newOwner);
    }
  }

  /** The owner deletes the organization with its rows, and no other row. */
  lemma DeleteIff(s: State, account: Id, org: Id)
    requires Sound(s)
    ensures var (after, answer) := WithDeletedOrganization(s, account, org);
            && (answer == Done <==> RoleIn(s, account, org) == Some(Owner))
            && (answer != Done ==> after == s)
            && (answer == Done ==>
                  && after.orgs == s.orgs - {org} && after.accounts == s.accounts
                  && forall k :: (k in after.members <==> k in s.members && k.org != org)
                                 && (k in after.members ==> after.members[k] == s.members[k]))
  {
    RolesAreStored(s, account, org);
  }

  /** The creator of an organization is its only member, and its owner. */
  lemma CreatedIs(s: State, account: Id, now: int)
    requires Inv(s)
    ensures var after := WithOrganization(s, account, now);
            && s.next !in s.orgs && after.orgs == s.orgs + {s.next}
            && RoleIn(after, account, s.next) == Some(Owner)
            && OnlyRow(s.(orgs := after.orgs, next := after.next), after, Key(s.next, account))
            && forall a :: a != account ==> Key(s.next, a) !in after.members
  {
  }

  /** A sign-in activates the account in the organizations of the list that exist, as plain member where it had no row. */
  lemma JoinedRow(s: State, account: Id, ids: set<Id>, now: int, k: Key)
    ensures var after := WithJoined(s, account, ids, now);
            var joins := k.account == account && k.org in ids && k.org in s.orgs;
            && (k in after.members <==> k in s.members || joins)
            && (k in after.members ==>
                  after.members[k] == if k in s.members then (if joins then s.members[k].(status := Active) else s.members[k])
                                      else Membership(Member, Active, account, now))
  {
  }

  /** The only administrator stays. */
  predicate LastAdmin(s: State, account: Id) {
    account in s.accounts && s.accounts[account] == Admin && forall a :: a in s.accounts && s.accounts[a] == Admin ==> a == account
  }

  lemma AdminsOne(s: State, account: Id)
    requires account in s.accounts && s.accounts[account] == Admin
    ensures |Admins(s.accounts)| == 1 <==> LastAdmin(s, account)
  {
    assert account in Admins(s.accounts);
    if LastAdmin(s, account) {
      assert Admins(s.accounts) == {account};
    } else {
      var a :| a in s.accounts && s.accounts[a] == Admin && a != account;
      var others := Admins(s.accounts) - {account};
      assert a in others;
      assert Admins(s.accounts) == others + {account};
    }
  }

  /**
   An account is deleted unless it is the only administrator. Each organization it owned goes to the heir, with
   every other row as it was, or with all its rows when no other member is active.
   */
  lemma DeleteAccountIff(s: State, account: Id, heirs: map<Id, Id>)
    requires Inv(s) && AreHeirs(s.members, account, heirs)
    ensures var (after, answer) := WithDeletedAccount(s, account, heirs);
            && (answer == Done <==> account in s.accounts && !LastAdmin(s, account))
            && (answer != Done ==> after == s)
            && (answer == Done ==> after.accounts == s.accounts - {account})
            && (answer == Done ==> forall k ::
                  (k in after.members <==>
                     && k in s.members && k.account != account
                     && (RoleIn(s, account, k.org) == Some(Owner) ==>
                           exists a :: a != account && RoleIn(s, a, k.org).Some?)))
            && (answer == Done ==> forall k :: k in after.members && k in s.members ==>
                  after.members[k] == if RoleIn(s, account, k.org) == Some(Owner) && k.org in heirs && heirs[k.org] == k.account
                                      then s.members[k].(role := Owner) else s.members[k])
  {
    var (after, answer) := WithDeletedAccount(s, account, heirs);
    if account in s.accounts && s.accounts[account] == Admin {
      AdminsOne(s, account);
    }
    if answer == Done {
      forall k
        ensures k in after.members <==>
                  && k in s.members && k.account != account
                  && (RoleIn(s, account, k.org) == Some(Owner) ==> exists a :: a != account && RoleIn(s, a, k.org).Some?)
      {
        OwnedIs(s, account, k.org);
        HasOthersIff(s, account, k.org);
      }
      forall k | k in after.members && k in s.members
        ensures after.members[k] == if RoleIn(s, account, k.org) == Some(Owner) && k.org in heirs && heirs[k.org] == k.account
                                    then s.members[k].(role := Owner) else s.members[k]
      {
        OwnedIs(s, account, k.org);
      }
    }
  }

  lemma OwnedIs(s: State, account: Id, org: Id)
    ensures org in OwnedBy(s.members, account) <==> RoleIn(s, account, org) == Some(Owner)
  {
    if RoleIn(s, account, org) == Some(Owner) {
      assert IsOwner(s.members, Key(org, account));
    }
  }

  lemma HasOthersIff(s: State, account: Id, org: Id)
    ensures Others(s.members, org, account) != {} <==> exists a :: a != account && RoleIn(s, a, org).Some?
  {
    if a :| a != account && RoleIn(s, a, org).Some? {
      assert IsActive(s.members, Key(org, a));
      assert Key(org, a).account in Others(s.members, org, account);
    }
    if Others(s.members, org, account) != {} {
      var a :| a in Others(s.members, org, account);
      assert RoleIn(s, a, org).Some?;
    }
  }
}
