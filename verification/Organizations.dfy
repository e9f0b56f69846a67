/** The organization operations on live tables (registry/app/organizations/application.py). */
module Organizations {
  import opened Common
  import opened Membership
  import Spec = Membership

  // A refused operation reports its error and leaves everything as it was.
  ghost predicate Effect(before: State, after: State, error: Option<Error>, outcome: Outcome) {
    match outcome
    case Ok(s) => error.None? && after == s
    case Err(e) => error == Some(e) && after == before
  }

  lemma OwnersAndSole(members: map<Seat, Role>, s: State, slug: Slug, user: User, owners: set<Seat>)
    requires s.members == members && Owns(s, slug, user)
    requires owners == set k | k in members && k.0 == slug && members[k].Owner?
    ensures |owners| <= 1 <==> Sole(s, slug, user)
  {
    var mine := (slug, user);
    assert mine in owners;
    if Sole(s, slug, user) {
      forall k | k in owners ensures k == mine {
        assert Owns(s, slug, k.1);
      }
      assert owners == {mine};
    } else {
      var v :| Owns(s, slug, v) && v != user;
      assert {mine, (slug, v)} <= owners;
      Subset({mine, (slug, v)}, owners);
    }
  }

  lemma {:induction false} Subset<T>(a: set<T>, b: set<T>)
    requires a <= b
    ensures |a| <= |b|
  {
    if a != {} {
      var x :| x in a;
      Subset(a - {x}, b - {x});
    }
  }

  class OrganizationService {
    var orgs: map<Slug, bool>
    var members: map<Seat, Role>
    var invitations: seq<Invitation>
    var accounts: map<nat, Account>
    var nextAccount: nat

    constructor ()
      ensures Now() == State(map[], map[], [], map[], 0)
    {
      orgs, members, invitations, accounts, nextAccount := map[], map[], [], map[], 0;
    }

    function Now(): State
      reads this
    {
      State(orgs, members, invitations, accounts, nextAccount)
    }

    method CreateOrganization(actor: User, slug: Slug, named: bool) returns (error: Option<Error>)
      modifies this
      ensures Effect(old(Now()), Now(), error, Spec.Create(old(Now()), actor, slug, named))
    {
      if !IsSlug(slug) || !named {
        return Some(Invalid);
      }
      if slug in orgs {
        return Some(Conflict);
      }
      orgs := orgs[slug := true];
      members := members[(slug, actor) := Owner];
      error := None;
    }

    method AddMember(actor: User, slug: Slug, target: Option<User>, role: string, quotaOk: bool)
      returns (error: Option<Error>)
      modifies this
      ensures Effect(old(Now()), Now(), error, Spec.AddMember(old(Now()), actor, slug, target, role, quotaOk))
    {
      if RoleOf(role).None? {
        return Some(Invalid);
      }
      if slug !in orgs {
        return Some(NotFound);
      }
      if (slug, actor) !in members || !CanGrant(members[(slug, actor)], RoleOf(role).value) {
        return Some(Forbidden);
      }
      if target.None? {
        return Some(Invalid);
      }
      if (slug, target.value) in members {
        return Some(Conflict);
      }
      if !quotaOk {
        return Some(Invalid);
      }
      members := members[(slug, target.value) := RoleOf(role).value];
      error := None;
    }

    method ChangeMemberRole(actor: User, slug: Slug, target: Option<User>, role: string)
      returns (error: Option<Error>)
      modifies this
      ensures Effect(old(Now()), Now(), error, Spec.ChangeRole(old(Now()), actor, slug, target, role))
    {
      if RoleOf(role).None? {
        return Some(Invalid);
      }
      if slug !in orgs {
        return Some(NotFound);
      }
      if (slug, actor) !in members {
        return Some(Forbidden);
      }
      if target.None? || (slug, target.value) !in members {
        return Some(Invalid);
      }
      if members[(slug, target.value)].Owner? {
        return Some(Forbidden);
      }
      var mine := members[(slug, actor)];
      if role == "owner" {
        if !mine.Owner? {
          return Some(Forbidden);
        }
        members := members[(slug, target.value) := Owner];
        members := members[(slug, actor) := Administrator];
      } else {
        if !mine.Owner? && !mine.Administrator? {
          return Some(Forbidden);
        }
        members := members[(slug, target.value) := RoleOf(role).value];
      }
      error := None;
    }

    method RemoveMember(actor: User, slug: Slug, target: Option<User>) returns (error: Option<Error>)
      modifies this
      ensures Effect(old(Now()), Now(), error, Spec.RemoveMember(old(Now()), actor, slug, target))
    {
      if slug !in orgs {
        return Some(NotFound);
      }
      if (slug, actor) !in members {
        return Some(Forbidden);
      }
      if target.None? || (slug, target.value) !in members {
        return Some(Invalid);
      }
      if members[(slug, target.value)].Owner? {
        return Some(Forbidden);
      }
      var mine := members[(slug, actor)];
      if !mine.Owner? && !mine.Administrator? && actor != target.value {
        return Some(Forbidden);
      }
      members := members - {(slug, target.value)};
      error := None;
    }

    /** The account-deletion path: check every seat first, then give them all up. */
    method RemoveUserMemberships(user: User) returns (error: Option<Error>)
      modifies this
      ensures Effect(old(Now()), Now(), error, Spec.DeleteAccount(old(Now()), user))
    {
      var seats := set k | k in members && k.1 == user;
      var todo := seats;
      while todo != {}
        invariant todo <= seats
        invariant Now() == old(Now())
        invariant forall k | k in seats - todo :: !Sole(Now(), k.0, user)
        decreases |todo|
      {
        var seat :| seat in todo;
        if members[seat].Owner? {
          var owners := set k | k in members && k.0 == seat.0 && members[k].Owner?;
          assert seat == (seat.0, user);
          OwnersAndSole(members, Now(), seat.0, user, owners);
          if |owners| <= 1 {
            return Some(Forbidden);
          }
        }
        todo := todo - {seat};
      }
      forall slug ensures !Sole(old(Now()), slug, user) {
        assert Owns(old(Now()), slug, user) ==> (slug, user) in seats;
      }
      todo := seats;
      while todo != {}
        invariant todo <= seats
        invariant Now() == old(Now()).(members := members)
        invariant members == map k | k in old(members) && k !in seats - todo :: old(members)[k]
        decreases |todo|
      {
        var seat :| seat in todo;
        members := members - {seat};
        todo := todo - {seat};
      }
      error := None;
    }

    method LeaveOrganization(user: User, slug: Slug) returns (error: Option<Error>)
      modifies this
      ensures Effect(old(Now()), Now(), error, Spec.Leave(old(Now()), user, slug))
    {
      if slug !in orgs {
        return Some(NotFound);
      }
      if (slug, user) !in members {
        return Some(Forbidden);
      }
      if members[(slug, user)].Owner? {
        var owners := set k | k in members && k.0 == slug && members[k].Owner?;
        OwnersAndSole(members, Now(), slug, user, owners);
        if |owners| <= 1 {
          return Some(Forbidden);
        }
      }
      members := members - {(slug, user)};
      error := None;
    }

    method InviteMember(actor: User, slug: Slug, target: Option<User>, role: string, quotaOk: bool, expiresAt: int)
      returns (error: Option<Error>)
      modifies this
      ensures Effect(old(Now()), Now(), error,
                     Spec.Invite(old(Now()), actor, slug, target, role, quotaOk, expiresAt))
    {
      if RoleOf(role).None? {
        return Some(Invalid);
      }
      if slug !in orgs {
        return Some(NotFound);
      }
      if (slug, actor) !in members || !CanGrant(members[(slug, actor)], RoleOf(role).value) {
        return Some(Forbidden);
      }
      if target.None? {
        return Some(Invalid);
      }
      if (slug, target.value) in members {
        return Some(Conflict);
      }
      if !quotaOk {
        return Some(Invalid);
      }
      invitations := invitations + [Invitation(slug, actor, RoleOf(role).value, false, expiresAt)];
      error := None;
    }

    method AcceptInvitation(user: User, token: nat, now: int, quotaOk: bool) returns (error: Option<Error>)
      modifies this
      ensures Effect(old(Now()), Now(), error, Spec.Accept(old(Now()), user, token, now, quotaOk))
    {
      if token >= |invitations| || invitations[token].accepted {
        return Some(BadInvitation);
      }
      var inv := invitations[token];
      if inv.expiresAt < now {
        return Some(Expired);
      }
      if inv.org !in orgs || !orgs[inv.org] {
        return Some(BadInvitation);
      }
      if (inv.org, user) in members {
        return Some(Conflict);
      }
      if !quotaOk {
        return Some(Invalid);
      }
      members := members[(inv.org, user) := inv.role];
      invitations := invitations[token := inv.(accepted := true)];
      error := None;
    }

    method CreateServiceAccount(actor: User, slug: Slug, name: string, role: string, quotaOk: bool,
                                identity: Option<User>) returns (error: Option<Error>)
      modifies this
      ensures Effect(old(Now()), Now(), error,
                     Spec.CreateServiceAccount(old(Now()), actor, slug, name, role, quotaOk, identity))
    {
      if name == "" || |name| > 64 || RoleOf(role).None? || RoleOf(role).value.Owner? {
        return Some(Invalid);
      }
      if slug !in orgs {
        return Some(NotFound);
      }
      if (slug, actor) !in members || !Manages(members[(slug, actor)]) {
        return Some(Forbidden);
      }
      if exists id | id in accounts :: accounts[id].org == slug && accounts[id].name == name {
        return Some(Conflict);
      }
      if !quotaOk {
        return Some(Invalid);
      }
      if identity.None? || (slug, identity.value) in members {
        return Some(Conflict);
      }
      members := members[(slug, identity.value) := RoleOf(role).value];
      accounts := accounts[nextAccount := Account(slug, name, identity.value)];
      nextAccount := nextAccount + 1;
      error := None;
    }

    method DeleteServiceAccount(actor: User, slug: Slug, id: nat) returns (error: Option<Error>)
      modifies this
      ensures Effect(old(Now()), Now(), error, Spec.DeleteServiceAccount(old(Now()), actor, slug, id))
    {
      if slug !in orgs {
        return Some(NotFound);
      }
      if (slug, actor) !in members || !Manages(members[(slug, actor)]) {
        return Some(Forbidden);
      }
      if id !in accounts || accounts[id].org != slug {
        return Some(NotFound);
      }
      members := members - {(slug, accounts[id].user)};
      accounts := accounts - {id};
      error := None;
    }
  }
}
