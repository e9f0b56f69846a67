/** Organizations, their members and the operations on them, on values
    (registry/app/organizations/application.py). */
module Membership {
  import opened Common

  datatype Role = Owner | Administrator | Maintainer | SecurityReviewer | BillingManager | ReadOnly

  type User = nat

  type Slug = string

  type Seat = (Slug, User)

  // The token of an invitation is its index.
  datatype Invitation = Invitation(org: Slug, invitedBy: User, role: Role, accepted: bool, expiresAt: int)

  datatype Account = Account(org: Slug, name: string, user: User)

  // `orgs` says of each organization whether it is active.
  datatype State = State(orgs: map<Slug, bool>, members: map<Seat, Role>, invitations: seq<Invitation>,
                         accounts: map<nat, Account>, nextAccount: nat)

  datatype Error = Invalid | BadInvitation | Forbidden | NotFound | Conflict | Expired

  type Outcome = Result<State, Error>

  function RoleOf(name: string): Option<Role> {
    match name
    case "owner" => Some(Owner)
    case "administrator" => Some(Administrator)
    case "maintainer" => Some(Maintainer)
    case "security_reviewer" => Some(SecurityReviewer)
    case "billing_manager" => Some(BillingManager)
    case "read_only" => Some(ReadOnly)
    case _ => None
  }

  function Rank(r: Role): nat {
    match r
    case Owner => 5
    case Administrator => 4
    case Maintainer => 3
    case SecurityReviewer => 2
    case BillingManager => 1
    case ReadOnly => 1
  }

  predicate CanGrant(actor: Role, role: Role) {
    Rank(role) <= Rank(actor) && (actor.Owner? || actor.Administrator? || actor.Maintainer?)
  }

  predicate Manages(actor: Role) {
    actor.Owner? || actor.Administrator? || actor.Maintainer?
  }

  predicate IsSlug(slug: string) {
    && 3 <= |slug| <= 64
    && (forall i | 0 <= i < |slug| :: 'a' <= slug[i] <= 'z' || '0' <= slug[i] <= '9' || slug[i] == '-')
    && slug[0] != '-' && slug[|slug| - 1] != '-'
  }

  function RoleIn(s: State, slug: Slug, user: User): Option<Role> {
    if (slug, user) in s.members then Some(s.members[(slug, user)]) else None
  }

  predicate Owns(s: State, slug: Slug, user: User) {
    RoleIn(s, slug, user) == Some(Owner)
  }

  /** The only owner. */
  ghost predicate Sole(s: State, slug: Slug, user: User) {
    Owns(s, slug, user) && forall v :: Owns(s, slug, v) ==> v == user
  }

  function Seated(s: State, slug: Slug, user: User, role: Role): State {
    s.(members := s.members[(slug, user) := role])
  }

  function Unseated(s: State, slug: Slug, user: User): State {
    s.(members := s.members - {(slug, user)})
  }

  function Create(s: State, actor: User, slug: Slug, named: bool): Outcome {
    if !IsSlug(slug) || !named then Err(Invalid)
    else if slug in s.orgs then Err(Conflict)
    else Ok(Seated(s.(orgs := s.orgs[slug := true]), slug, actor, Owner))
  }

  function AddMember(s: State, actor: User, slug: Slug, target: Option<User>, role: string, quotaOk: bool): Outcome {
    var granted, mine := RoleOf(role), RoleIn(s, slug, actor);
    if granted.None? then Err(Invalid)
    else if slug !in s.orgs then Err(NotFound)
    else if mine.None? || !CanGrant(mine.value, granted.value) then Err(Forbidden)
    else if target.None? then Err(Invalid)
    else if RoleIn(s, slug, target.value).Some? then Err(Conflict)
    else if !quotaOk then Err(Invalid)
    else Ok(Seated(s, slug, target.value, granted.value))
  }

  function ChangeRole(s: State, actor: User, slug: Slug, target: Option<User>, role: string): Outcome {
    var granted, mine := RoleOf(role), RoleIn(s, slug, actor);
    if granted.None? then Err(Invalid)
    else if slug !in s.orgs then Err(NotFound)
    else if mine.None? then Err(Forbidden)
    else if target.None? || RoleIn(s, slug, target.value).None? then Err(Invalid)
    else if Owns(s, slug, target.value) then Err(Forbidden)
    else if granted.value.Owner? then
      if !mine.value.Owner? then Err(Forbidden)
      else Ok(Seated(Seated(s, slug, target.value, Owner), slug, actor, Administrator))
    else if !mine.value.Owner? && !mine.value.Administrator? then Err(Forbidden)
    else Ok(Seated(s, slug, target.value, granted.value))
  }

  function RemoveMember(s: State, actor: User, slug: Slug, target: Option<User>): Outcome {
    var mine := RoleIn(s, slug, actor);
    if slug !in s.orgs then Err(NotFound)
    else if mine.None? then Err(Forbidden)
    else if target.None? || RoleIn(s, slug, target.value).None? then Err(Invalid)
    else if Owns(s, slug, target.value) then Err(Forbidden)
    else if !mine.value.Owner? && !mine.value.Administrator? && actor != target.value then Err(Forbidden)
    else Ok(Unseated(s, slug, target.value))
  }

  /** Nothing happens when the user is the only owner of some organization. */
  ghost function DeleteAccount(s: State, user: User): Outcome {
    if exists slug :: Sole(s, slug, user) then Err(Forbidden)
    else Ok(s.(members := map k | k in s.members && k.1 != user :: s.members[k]))
  }

  ghost function Leave(s: State, user: User, slug: Slug): Outcome {
    if slug !in s.orgs then Err(NotFound)
    else if RoleIn(s, slug, user).None? then Err(Forbidden)
    else if Sole(s, slug, user) then Err(Forbidden)
    else Ok(Unseated(s, slug, user))
  }

  function Invite(s: State, actor: User, slug: Slug, target: Option<User>, role: string, quotaOk: bool,
                  expiresAt: int): Outcome {
    var granted, mine := RoleOf(role), RoleIn(s, slug, actor);
    if granted.None? then Err(Invalid)
    else if slug !in s.orgs then Err(NotFound)
    else if mine.None? || !CanGrant(mine.value, granted.value) then Err(Forbidden)
    else if target.None? then Err(Invalid)
    else if RoleIn(s, slug, target.value).Some? then Err(Conflict)
    else if !quotaOk then Err(Invalid)
    else Ok(s.(invitations := s.invitations + [Invitation(slug, actor, granted.value, false, expiresAt)]))
  }

  function Accept(s: State, user: User, token: nat, now: int, quotaOk: bool): Outcome {
    if token >= |s.invitations| then Err(BadInvitation)
    else
      var inv := s.invitations[token];
      if inv.accepted then Err(BadInvitation)
      else if inv.expiresAt < now then Err(Expired)
      else if inv.org !in s.orgs || !s.orgs[inv.org] then Err(BadInvitation)
      else if RoleIn(s, inv.org, user).Some? then Err(Conflict)
      else if !quotaOk then Err(Invalid)
      else Ok(Seated(s, inv.org, user, inv.role).(invitations := s.invitations[token := inv.(accepted := true)]))
  }

  predicate NameTaken(s: State, slug: Slug, name: string) {
    exists id | id in s.accounts :: s.accounts[id].org == slug && s.accounts[id].name == name
  }

  /** `identity` is the user row made for the account, None when its username is taken. */
  function CreateServiceAccount(s: State, actor: User, slug: Slug, name: string, role: string, quotaOk: bool,
                                identity: Option<User>): Outcome {
    var granted, mine := RoleOf(role), RoleIn(s, slug, actor);
    if name == "" || |name| > 64 || granted.None? || granted.value.Owner? then Err(Invalid)
    else if slug !in s.orgs then Err(NotFound)
    else if mine.None? || !Manages(mine.value) then Err(Forbidden)
    else if NameTaken(s, slug, name) then Err(Conflict)
    else if !quotaOk then Err(Invalid)
    else if identity.None? || RoleIn(s, slug, identity.value).Some? then Err(Conflict)
    else Ok(Seated(s, slug, identity.value, granted.value)
            .(accounts := s.accounts[s.nextAccount := Account(slug, name, identity.value)],
              nextAccount := s.nextAccount + 1))
  }

  function DeleteServiceAccount(s: State, actor: User, slug: Slug, id: nat): Outcome {
    var mine := RoleIn(s, slug, actor);
    if slug !in s.orgs then Err(NotFound)
    else if mine.None? || !Manages(mine.value) then Err(Forbidden)
    else if id !in s.accounts || s.accounts[id].org != slug then Err(NotFound)
    else Ok(Unseated(s, slug, s.accounts[id].user).(accounts := s.accounts - {id}))
  }
}
