/** Who may seat, invite and remove whom, step by step and over whole runs. */
module Seats {
  import opened Common
  import opened Membership
  import opened Ownership

  // How roles are written in a request.
  predicate Called(name: string, role: Role) {
    || (name == "owner" && role == Owner)
    || (name == "administrator" && role == Administrator)
    || (name == "maintainer" && role == Maintainer)
    || (name == "security_reviewer" && role == SecurityReviewer)
    || (name == "billing_manager" && role == BillingManager)
    || (name == "read_only" && role == ReadOnly)
  }

  lemma RoleOfIffCalled(name: string, role: Role)
    ensures RoleOf(name) == Some(role) <==> Called(name, role)
  {
  }

  // An owner may grant anything, an administrator all but ownership, a maintainer neither of the two
  // roles above; nobody else may grant at all.
  predicate MayGrant(mine: Option<Role>, granted: Role) {
    || mine == Some(Owner)
    || (mine == Some(Administrator) && granted != Owner)
    || (mine == Some(Maintainer) && granted != Owner && granted != Administrator)
  }

  predicate RunsTheOrganization(mine: Option<Role>) {
    mine == Some(Owner) || mine == Some(Administrator) || mine == Some(Maintainer)
  }

  lemma GrantRule(mine: Role, granted: Role)
    ensures CanGrant(mine, granted) <==> MayGrant(Some(mine), granted)
    ensures Manages(mine) <==> RunsTheOrganization(Some(mine))
  {
  }

  /* ---------- what a request needs ---------- */

  // Letters, digits and hyphens, 3 to 64 of them, no hyphen at either end.
  predicate WellFormed(slug: string) {
    && |slug| >= 3 && |slug| <= 64
    && (forall c | c in slug :: (c >= 'a' && c <= 'z') || (c >= '0' && c <= '9') || c == '-')
    && slug[0] != '-' && slug[|slug| - 1] != '-'
  }

  /** An organization is founded exactly under a free well-formed slug and a name; its founder owns it. */
  lemma FoundedIff(s: State, actor: User, slug: Slug, named: bool)
    ensures var op := Create(actor, slug, named);
            && (Apply(s, op).Ok? <==> WellFormed(slug) && named && slug !in s.orgs)
            && (Apply(s, op).Ok? ==>
                  && Step(s, op).orgs == s.orgs[slug := true]
                  && Step(s, op).members == s.members[(slug, actor) := Owner])
  {
    assert IsSlug(slug) <==> WellFormed(slug) by {
      assert forall i | 0 <= i < |slug| :: slug[i] in slug;
    }
  }

  /** A member is added exactly by someone who may grant the role, if the quota allows, and if the user
      exists and has no seat yet; nothing else changes. */
  lemma AddedIff(s: State, actor: User, slug: Slug, target: Option<User>, name: string, quotaOk: bool, role: Role)
    requires Called(name, role)
    ensures var op := AddMember(actor, slug, target, name, quotaOk);
            && (Apply(s, op).Ok? <==>
                  && slug in s.orgs && MayGrant(RoleIn(s, slug, actor), role)
                  && target != None && RoleIn(s, slug, target.value) == None && quotaOk)
            && (Apply(s, op).Ok? ==> Step(s, op) == s.(members := s.members[(slug, target.value) := role]))
  {
    RoleOfIffCalled(name, role);
    if RoleIn(s, slug, actor).Some? {
      GrantRule(RoleIn(s, slug, actor).value, role);
    }
  }

  /** The same people may invite; the invitation keeps its issuer, role and expiry. */
  lemma InvitedIff(s: State, actor: User, slug: Slug, target: Option<User>, name: string, quotaOk: bool,
                   expiresAt: int, role: Role)
    requires Called(name, role)
    ensures var op := Invite(actor, slug, target, name, quotaOk, expiresAt);
            && (Apply(s, op).Ok? <==>
                  && slug in s.orgs && MayGrant(RoleIn(s, slug, actor), role)
                  && target != None && RoleIn(s, slug, target.value) == None && quotaOk)
            && (Apply(s, op).Ok? ==>
                  Step(s, op) == s.(invitations := s.invitations + [Invitation(slug, actor, role, false, expiresAt)]))
  {
    RoleOfIffCalled(name, role);
    if RoleIn(s, slug, actor).Some? {
      GrantRule(RoleIn(s, slug, actor).value, role);
    }
  }

  /** A role is changed exactly by an owner or administrator, of a member that is no owner; ownership only
      by an owner, who becomes an administrator by it. */
  lemma RoleChangedIff(s: State, actor: User, slug: Slug, target: Option<User>, name: string, role: Role)
    requires Called(name, role)
    ensures var op, mine := ChangeRole(actor, slug, target, name), RoleIn(s, slug, actor);
            && (Apply(s, op).Ok? <==>
                  && slug in s.orgs && target != None
                  && RoleIn(s, slug, target.value) != None && RoleIn(s, slug, target.value) != Some(Owner)
                  && (mine == Some(Owner) || (mine == Some(Administrator) && role != Owner)))
            && (Apply(s, op).Ok? ==>
                  Step(s, op).members
                  == if role == Owner then s.members[(slug, target.value) := Owner][(slug, actor) := Administrator]
                     else s.members[(slug, target.value) := role])
  {
    RoleOfIffCalled(name, role);
  }

  /** A member is removed exactly if it is no owner, by itself, an owner or an administrator. */
  lemma RemovedIff(s: State, actor: User, slug: Slug, target: Option<User>)
    ensures var op, mine := RemoveMember(actor, slug, target), RoleIn(s, slug, actor);
            && (Apply(s, op).Ok? <==>
                  && slug in s.orgs && target != None
                  && RoleIn(s, slug, target.value) != None && RoleIn(s, slug, target.value) != Some(Owner)
                  && (mine == Some(Owner) || mine == Some(Administrator) || (mine != None && actor == target.value)))
            && (Apply(s, op).Ok? ==> Step(s, op).members == s.members - {(slug, target.value)})
  {
  }

  /** An invitation is accepted exactly once, until its expiry, while the organization is active, by
      someone without a seat, and within the quota; it gives the role it was issued for. */
  lemma AcceptedIff(s: State, user: User, token: nat, now: int, quotaOk: bool)
    ensures var op := Accept(user, token, now, quotaOk);
            && (Apply(s, op).Ok? <==>
                  && token < |s.invitations|
                  && var inv := s.invitations[token];
                     && !inv.accepted && now <= inv.expiresAt && inv.org in s.orgs && s.orgs[inv.org]
                     && RoleIn(s, inv.org, user) == None && quotaOk)
            && (Apply(s, op).Ok? ==>
                  var inv, s' := s.invitations[token], Step(s, op);
                  && s'.members == s.members[(inv.org, user) := inv.role]
                  && s'.invitations
                     == s.invitations[token := Invitation(inv.org, inv.invitedBy, inv.role, true, inv.expiresAt)])
  {
  }

  /** Service accounts are made and deleted by those who run the organization; they never start as owners. */
  lemma ServiceAccountsNeedRole(s: State, op: Op)
    requires (op.CreateServiceAccount? || op.DeleteServiceAccount?) && Apply(s, op).Ok?
    ensures op.slug in s.orgs && RunsTheOrganization(RoleIn(s, op.slug, op.actor))
    ensures op.CreateServiceAccount? ==>
              && 1 <= |op.name| <= 64 && op.quotaOk && op.identity != None
              && exists role: Role :: Called(op.role, role) && role != Owner
                   && Step(s, op).members == s.members[(op.slug, op.identity.value) := role]
  {
    if op.CreateServiceAccount? {
      RoleOfIffCalled(op.role, RoleOf(op.role).value);
    }
    GrantRule(RoleIn(s, op.slug, op.actor).value, Owner);
  }

  /** A seat goes by the member's own leaving or deletion, by an owner or administrator removing one that
      is no owner, or with its service account. */
  lemma SeatLostOnlyBy(s: State, op: Op, slug: Slug, u: User)
    requires RoleIn(s, slug, u).Some? && RoleIn(Step(s, op), slug, u) == None
    ensures || (op.RemoveMember? && op.slug == slug && op.target == Some(u) && RoleIn(s, slug, u) != Some(Owner)
                && (op.actor == u || RoleIn(s, slug, op.actor) == Some(Owner)
                    || RoleIn(s, slug, op.actor) == Some(Administrator)))
            || (op.Leave? && op.slug == slug && op.actor == u && !Sole(s, slug, u))
            || (op.DeleteAccount? && op.actor == u && !Sole(s, slug, u))
            || (op.DeleteServiceAccount? && op.slug == slug && op.id in s.accounts && s.accounts[op.id].user == u
                && RunsTheOrganization(RoleIn(s, slug, op.actor)))
  {
  }

  /* ---------- where every seat comes from ---------- */

  // The j-th step issued the token for the role, by someone who might grant it then.
  ghost predicate Issued(ops: seq<Op>, j: nat, slug: Slug, token: nat, role: Role) {
    && j < |ops| && ops[j].Invite? && ops[j].slug == slug && Called(ops[j].role, role)
    && var s := Exec(ops[..j]);
       && Apply(s, ops[j]).Ok? && |s.invitations| == token && MayGrant(RoleIn(s, slug, ops[j].actor), role)
  }

  // The step gives the user the role: by founding, by adding, by changing a role, by handing ownership
  // on, with an invitation that has not expired, or as a service account.
  ghost predicate Gives(s: State, op: Op, slug: Slug, u: User, role: Role) {
    || (op.Create? && op.actor == u && op.slug == slug && slug !in s.orgs && role == Owner)
    || (op.AddMember? && op.slug == slug && op.target == Some(u) && Called(op.role, role)
        && MayGrant(RoleIn(s, slug, op.actor), role))
    || (op.ChangeRole? && op.slug == slug && op.target == Some(u) && Called(op.role, role)
        && (RoleIn(s, slug, op.actor) == Some(Owner)
            || (RoleIn(s, slug, op.actor) == Some(Administrator) && role != Owner)))
    || (op.ChangeRole? && op.slug == slug && op.actor == u && op.role == "owner" && RoleIn(s, slug, u) == Some(Owner)
        && role == Administrator)
    || (op.Accept? && op.actor == u && op.token < |s.invitations|
        && s.invitations[op.token].org == slug && s.invitations[op.token].role == role
        && op.now <= s.invitations[op.token].expiresAt)
    || (op.CreateServiceAccount? && op.slug == slug && op.identity == Some(u) && Called(op.role, role) && role != Owner
        && RunsTheOrganization(RoleIn(s, slug, op.actor)))
  }

  lemma RoleGivenBy(s: State, op: Op, slug: Slug, u: User, role: Role)
    requires RoleIn(s, slug, u) != Some(role) && RoleIn(Step(s, op), slug, u) == Some(role)
    ensures Gives(s, op, slug, u, role)
  {
    if op.AddMember? || op.ChangeRole? || op.CreateServiceAccount? {
      RoleNamed(op.role);
      if RoleIn(s, op.slug, op.actor).Some? {
        GrantRule(RoleIn(s, op.slug, op.actor).value, role);
      }
    }
  }

  lemma RoleNamed(name: string)
    ensures forall role :: RoleOf(name) == Some(role) <==> Called(name, role)
  {
    forall role ensures RoleOf(name) == Some(role) <==> Called(name, role) {
      RoleOfIffCalled(name, role);
    }
  }

  /** Every invitation was issued, with its role and expiry, by someone who could grant that role then. */
  lemma {:induction false} EveryInvitationIssued(ops: seq<Op>, token: nat)
    requires token < |Exec(ops).invitations|
    ensures var inv := Exec(ops).invitations[token];
            exists j: nat :: Issued(ops, j, inv.org, token, inv.role) && ops[j].expiresAt == inv.expiresAt
                             && ops[j].actor == inv.invitedBy
  {
    if ops != [] {
      var front, inv := ops[..|ops| - 1], Exec(ops).invitations[token];
      if token < |Exec(front).invitations| {
        InvitationStays(Exec(front), ops[|ops| - 1], token);
        EveryInvitationIssued(front, token);
        var j: nat :| Issued(front, j, inv.org, token, inv.role) && front[j].expiresAt == inv.expiresAt
                      && front[j].actor == inv.invitedBy;
        assert front[..j] == ops[..j];
        assert Issued(ops, j, inv.org, token, inv.role);
      } else {
        JustIssued(ops, token);
      }
    }
  }

  lemma JustIssued(ops: seq<Op>, token: nat)
    requires ops != [] && |Exec(ops[..|ops| - 1]).invitations| <= token < |Exec(ops).invitations|
    ensures var inv, j := Exec(ops).invitations[token], |ops| - 1;
            && Issued(ops, j, inv.org, token, inv.role) && ops[j].expiresAt == inv.expiresAt
            && ops[j].actor == inv.invitedBy
  {
    var s, op := Exec(ops[..|ops| - 1]), ops[|ops| - 1];
    NewInvitation(s, op, token);
    RoleNamed(op.role);
    InvitedIff(s, op.actor, op.slug, op.target, op.role, op.quotaOk, op.expiresAt, RoleOf(op.role).value);
  }

  lemma NewInvitation(s: State, op: Op, token: nat)
    requires |s.invitations| <= token < |Step(s, op).invitations|
    ensures op.Invite? && Apply(s, op).Ok? && token == |s.invitations| && RoleOf(op.role).Some?
  {
  }

  // The token of the k-th step was issued before, for the role, and has not expired.
  ghost predicate TokenGood(ops: seq<Op>, k: nat, slug: Slug, role: Role)
    requires k < |ops| && ops[k].Accept?
  {
    exists j: nat :: j < k && Issued(ops, j, slug, ops[k].token, role) && ops[k].now <= ops[j].expiresAt
  }

  // The k-th step gave the role; an accepted invitation was issued before.
  ghost predicate SeatedAt(ops: seq<Op>, k: nat, slug: Slug, u: User, role: Role) {
    && k < |ops| && RoleIn(Exec(ops[..k]), slug, u) != Some(role) && Gives(Exec(ops[..k]), ops[k], slug, u, role)
    && (ops[k].Accept? ==> TokenGood(ops, k, slug, role))
  }

  ghost predicate KeptSince(ops: seq<Op>, k: nat, slug: Slug, u: User, role: Role) {
    forall m | k < m <= |ops| :: RoleIn(Exec(ops[..m]), slug, u) == Some(role)
  }

  lemma TokenIssued(ops: seq<Op>, slug: Slug, role: Role)
    requires ops != [] && ops[|ops| - 1].Accept?
    requires var s, op := Exec(ops[..|ops| - 1]), ops[|ops| - 1];
             && op.token < |s.invitations| && s.invitations[op.token].org == slug
             && s.invitations[op.token].role == role && op.now <= s.invitations[op.token].expiresAt
    ensures TokenGood(ops, |ops| - 1, slug, role)
  {
    var front, op := ops[..|ops| - 1], ops[|ops| - 1];
    var inv := Exec(front).invitations[op.token];
    EveryInvitationIssued(front, op.token);
    var j: nat :| Issued(front, j, inv.org, op.token, inv.role) && front[j].expiresAt == inv.expiresAt;
    assert front[..j] == ops[..j];
    assert Issued(ops, j, slug, op.token, role);
  }

  lemma SeatedNow(ops: seq<Op>, slug: Slug, u: User, role: Role)
    requires ops != []
    requires RoleIn(Exec(ops[..|ops| - 1]), slug, u) != Some(role) && RoleIn(Exec(ops), slug, u) == Some(role)
    ensures SeatedAt(ops, |ops| - 1, slug, u, role)
  {
    RoleGivenBy(Exec(ops[..|ops| - 1]), ops[|ops| - 1], slug, u, role);
    if ops[|ops| - 1].Accept? {
      TokenIssued(ops, slug, role);
    }
  }

  lemma SeatedExtends(ops: seq<Op>, k: nat, slug: Slug, u: User, role: Role)
    requires ops != [] && SeatedAt(ops[..|ops| - 1], k, slug, u, role)
    ensures SeatedAt(ops, k, slug, u, role)
  {
    var front := ops[..|ops| - 1];
    assert front[..k] == ops[..k];
    if ops[k].Accept? {
      var j: nat :| j < k && Issued(front, j, slug, ops[k].token, role) && ops[k].now <= front[j].expiresAt;
      assert front[..j] == ops[..j];
      assert Issued(ops, j, slug, ops[k].token, role);
    }
  }

  lemma KeptExtends(ops: seq<Op>, k: nat, slug: Slug, u: User, role: Role)
    requires ops != [] && KeptSince(ops[..|ops| - 1], k, slug, u, role) && RoleIn(Exec(ops), slug, u) == Some(role)
    ensures KeptSince(ops, k, slug, u, role)
  {
    forall m | k < m <= |ops| ensures RoleIn(Exec(ops[..m]), slug, u) == Some(role) {
      if m == |ops| {
        assert ops[..m] == ops;
      } else {
        assert ops[..|ops| - 1][..m] == ops[..m];
      }
    }
  }

  /** Every seat of every role goes back to a step that was entitled to give it, and has been held in that
      role ever since. */
  lemma {:induction false} SeatOrigin(ops: seq<Op>, slug: Slug, u: User, role: Role)
    requires RoleIn(Exec(ops), slug, u) == Some(role)
    ensures exists k: nat :: SeatedAt(ops, k, slug, u, role) && KeptSince(ops, k, slug, u, role)
  {
    if ops != [] {
      var front := ops[..|ops| - 1];
      if RoleIn(Exec(front), slug, u) == Some(role) {
        SeatOrigin(front, slug, u, role);
        var k: nat :| SeatedAt(front, k, slug, u, role) && KeptSince(front, k, slug, u, role);
        SeatedExtends(ops, k, slug, u, role);
        KeptExtends(ops, k, slug, u, role);
      } else {
        SeatedNow(ops, slug, u, role);
        assert ops[..|ops|] == ops;
        assert KeptSince(ops, |ops| - 1, slug, u, role);
      }
    }
  }

  /** Every organization of a reachable state was founded under a well-formed slug. */
  lemma {:induction false} SlugsWellFormed(ops: seq<Op>, slug: Slug)
    requires slug in Exec(ops).orgs
    ensures WellFormed(slug)
  {
    if ops != [] {
      var front, op := ops[..|ops| - 1], ops[|ops| - 1];
      if slug in Exec(front).orgs {
        SlugsWellFormed(front, slug);
      } else {
        NewOrganization(Exec(front), op, slug);
        FoundedIff(Exec(front), op.actor, slug, op.named);
      }
    }
  }

  lemma NewOrganization(s: State, op: Op, slug: Slug)
    requires slug !in s.orgs && slug in Step(s, op).orgs
    ensures op.Create? && op.slug == slug && Apply(s, op).Ok?
  {
  }
}
