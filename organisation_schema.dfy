/** The mutations of H2H/Organisation/schema.py: an organisation has one admin,
    who is also a member, and only the admin may edit or delete it. An edit
    works on the loaded organisation, writes membership changes to the
    database as it goes, and saves name and description only at the end. */
module OrganisationSchema {
  import opened Common

  datatype Organisation = Organisation(name: string, description: string, admin: UserId, members: set<UserId>)

  /** The user an optional `add_member` / `delete_member` argument names, as a set. */
  function Named(user: Option<UserId>): set<UserId> {
    if user.Some? then {user.value} else {}
  }

  /** The members after a successful edit: the added user joins, then the
      removed user leaves. */
  function EditedMembers(members: set<UserId>, add: Option<UserId>, remove: Option<UserId>): (r: set<UserId>)
    ensures r <= members + Named(add)
    ensures forall u :: u in Named(add) - Named(remove) ==> u in r
    ensures forall u :: u in Named(remove) ==> u !in r
    ensures forall u :: u in members && u !in Named(remove) ==> u in r
  {
    (members + Named(add)) - Named(remove)
  }

  /** Adding a user who is already a member changes nothing (set semantics of
      `members.add`). */
  lemma AddExistingMemberIsNoOp(members: set<UserId>, user: UserId)
    requires user in members
    ensures EditedMembers(members, Some(user), None) == members
  {
  }

  /** An edit that does not try to remove the admin keeps the admin a member. */
  lemma AdminStaysMember(members: set<UserId>, admin: UserId, add: Option<UserId>, remove: Option<UserId>)
    requires admin in members && remove != Some(admin)
    ensures admin in EditedMembers(members, add, remove)
  {
  }

  /** The checks UpdateOrganisation makes, in the order it makes them: the
      caller must be the admin, an added member and a removed member must be
      users, and the admin cannot be removed. */
  function UpdateGate(org: Organisation, actor: UserId, add: Option<UserId>, remove: Option<UserId>, users: set<UserId>): (r: Outcome)
    ensures r.Pass? <==> actor == org.admin && (add.None? || add.value in users)
                         && (remove.None? || (remove.value in users && remove.value != org.admin))
    ensures actor != org.admin ==> r == Fail(NotAdmin)
    ensures actor == org.admin && add.Some? && add.value !in users ==> r == Fail(DoesNotExist)
    ensures actor == org.admin && (add.None? || add.value in users) && remove.Some? && remove.value !in users ==>
              r == Fail(DoesNotExist)
    ensures actor == org.admin && (add.None? || add.value in users) && remove == Some(org.admin) && org.admin in users ==>
              r == Fail(CannotRemoveAdmin)
  {
    if actor != org.admin then Fail(NotAdmin)
    else if add.Some? && add.value !in users then Fail(DoesNotExist)
    else if remove.Some? && remove.value !in users then Fail(DoesNotExist)
    else if remove == Some(org.admin) then Fail(CannotRemoveAdmin)
    else Pass
  }

  /** The members stored once the `add_member` step has run: the added user
      when it exists, otherwise the members as they were. */
  function MembersWritten(members: set<UserId>, add: Option<UserId>, users: set<UserId>): (r: set<UserId>)
    ensures members <= r
    ensures r - members <= Named(add) * users
    ensures add.Some? && add.value in users ==> add.value in r
  {
    if add.Some? && add.value in users then members + {add.value} else members
  }

  /** The organisation saved by a successful UpdateOrganisation: non-empty
      name and description overwrite, membership is edited, the admin stays. */
  function Edited(org: Organisation, name: Option<string>, description: Option<string>,
                  add: Option<UserId>, remove: Option<UserId>): (r: Organisation)
    ensures r.admin == org.admin
    ensures r.name == (if Supplied(name) then name.value else org.name)
    ensures r.description == (if Supplied(description) then description.value else org.description)
    ensures r.members == EditedMembers(org.members, add, remove)
  {
    Organisation(Overwrite(org.name, name), Overwrite(org.description, description), org.admin,
                 EditedMembers(org.members, add, remove))
  }

  /** Every edit the gate lets through keeps the admin a member, so the
      organisation table keeps its invariant. */
  lemma EditKeepsAdmin(org: Organisation, actor: UserId, name: Option<string>, description: Option<string>,
                                          add: Option<UserId>, remove: Option<UserId>, users: set<UserId>)
    requires org.admin in org.members && org.members <= users
    requires UpdateGate(org, actor, add, remove, users).Pass?
    ensures Edited(org, name, description, add, remove).admin in Edited(org, name, description, add, remove).members
    ensures Edited(org, name, description, add, remove).members <= users
  {
    AdminStaysMember(org.members, org.admin, add, remove);
  }

  /** The organisation table and the user table it looks members up in. */
  class OrganisationStore {
    var organisations: map<OrganisationId, Organisation>
    var users: set<UserId>
    var nextOrganisation: OrganisationId

    /** Every organisation id is below the next one handed out, every admin is
        a member, and every member is a user. */
    ghost predicate Valid()
      reads this
    {
      forall o :: o in organisations ==>
        o < nextOrganisation && organisations[o].admin in organisations[o].members && organisations[o].members <= users
    }

    constructor (users: set<UserId>)
      ensures Valid()
      ensures organisations == map[] && this.users == users
    {
      organisations := map[];
      this.users := users;
      nextOrganisation := 0;
    }

    /** CreateOrganisation (schema.py:26-41): save the organisation with the
        caller as admin, then add the caller to its members. */
    method CreateOrganisation(actor: UserId, name: string, description: string) returns (id: OrganisationId)
      requires Valid() && actor in users
      modifies this`organisations, this`nextOrganisation
      ensures Valid()
      ensures id !in old(organisations)
      ensures organisations == old(organisations)[id := Organisation(name, description, actor, {actor})]
    {
      id := nextOrganisation;
      organisations := organisations[id := Organisation(name, description, actor, {})];
      nextOrganisation := nextOrganisation + 1;
      assert {} + {actor} == {actor};
      organisations := organisations[id := organisations[id].(members := organisations[id].members + {actor})];
    }

    /** UpdateOrganisation (schema.py:59-87): the checks of `UpdateGate` in
        order; an added member is written at once, a removal and the edited
        name and description only when every check has passed. */
    method UpdateOrganisation(actor: UserId, id: OrganisationId, name: Option<string>, description: Option<string>,
                              addMember: Option<UserId>, deleteMember: Option<UserId>)
      returns (r: Outcome)
      requires Valid()
      modifies this`organisations
      ensures Valid()
      ensures id !in old(organisations) ==> r == Fail(DoesNotExist) && organisations == old(organisations)
      ensures id in old(organisations) ==> r == UpdateGate(old(organisations[id]), actor, addMember, deleteMember, users)
      ensures r.Pass? ==>
                organisations == old(organisations)[id := Edited(old(organisations[id]), name, description, addMember, deleteMember)]
      ensures r.Fail? && id in old(organisations) && actor == old(organisations[id].admin) ==>
                organisations == old(organisations)[id := old(organisations[id]).(members := MembersWritten(old(organisations[id]).members, addMember, users))]
      ensures r.Fail? && (id !in old(organisations) || actor != old(organisations[id].admin)) ==> organisations == old(organisations)
    {
      if id !in organisations {
        return Fail(DoesNotExist);
      }
      var organisation := organisations[id];
      if actor != organisation.admin {
        return Fail(NotAdmin);
      }
      if Supplied(name) {
        organisation := organisation.(name := name.value);
      }
      if Supplied(description) {
        organisation := organisation.(description := description.value);
      }
      r := EditMembers(id, addMember, deleteMember);
      if r.Fail? {
        return;
      }
      var saved := organisations[id].(name := organisation.name, description := organisation.description,
                                      admin := organisation.admin);
      assert saved == Edited(old(organisations[id]), name, description, addMember, deleteMember);
      SaveRow(id, saved);
      assert organisations == old(organisations)[id := saved];
      r := Pass;
    }

    /** The `add_member` and `delete_member` steps of UpdateOrganisation, run
        for its admin: the addition is written before the removal is checked. */
    method EditMembers(id: OrganisationId, addMember: Option<UserId>, deleteMember: Option<UserId>) returns (r: Outcome)
      requires Valid() && id in organisations
      modifies this`organisations
      ensures Valid()
      ensures r == UpdateGate(old(organisations[id]), old(organisations[id].admin), addMember, deleteMember, users)
      ensures r.Pass? ==>
                organisations == old(organisations)[id := old(organisations[id]).(members :=
                  EditedMembers(old(organisations[id].members), addMember, deleteMember))]
      ensures r.Fail? ==>
                organisations == old(organisations)[id := old(organisations[id]).(members :=
                  MembersWritten(old(organisations[id].members), addMember, users))]
    {
      var admin := organisations[id].admin;
      if addMember.Some? {
        if addMember.value !in users {
          assert old(organisations)[id := old(organisations[id])] == old(organisations);
          return Fail(DoesNotExist);
        }
        SaveRow(id, organisations[id].(members := organisations[id].members + {addMember.value}));
      } else {
        assert old(organisations)[id := old(organisations[id])] == old(organisations);
      }
      if deleteMember.Some? {
        if deleteMember.value !in users {
          return Fail(DoesNotExist);
        }
        var toBeDeleted := deleteMember.value;
        if toBeDeleted != admin {
          SaveRow(id, organisations[id].(members := organisations[id].members - {toBeDeleted}));
        } else {
          return Fail(CannotRemoveAdmin);
        }
      }
      assert organisations[id].members == EditedMembers(old(organisations[id].members), addMember, deleteMember);
      r := Pass;
    }

    /** Writes one organisation row that keeps the table's invariant. */
    method SaveRow(id: OrganisationId, org: Organisation)
      requires Valid() && id in organisations
      requires org.admin in org.members && org.members <= users
      modifies this`organisations
      ensures Valid()
      ensures organisations == old(organisations)[id := org]
    {
      organisations := organisations[id := org];
    }

    /** DeleteOrganisation (schema.py:97-105). */
    method DeleteOrganisation(actor: UserId, id: OrganisationId) returns (r: Outcome)
      requires Valid()
      modifies this`organisations
      ensures Valid()
      ensures id !in old(organisations) ==> r == Fail(DoesNotExist)
      ensures id in old(organisations) && actor != old(organisations[id].admin) ==> r == Fail(NotAdmin)
      ensures r.Pass? <==> id in old(organisations) && actor == old(organisations[id].admin)
      ensures r.Fail? ==> organisations == old(organisations)
      ensures r.Pass? ==> organisations == old(organisations) - {id}
    {
      if id !in organisations {
        return Fail(DoesNotExist);
      }
      if actor != organisations[id].admin {
        return Fail(NotAdmin);
      }
      organisations := organisations - {id};
      r := Pass;
    }
  }
}
