/** Who owns an organization, over whole runs of the operations. */
module Ownership {
  import opened Common
  import opened Membership
  import Spec = Membership

  // `SetStatus` stands for whatever suspends or revives an organization from outside.
  datatype Op =
    | Create(actor: User, slug: Slug, named: bool)
    | AddMember(actor: User, slug: Slug, target: Option<User>, role: string, quotaOk: bool)
    | ChangeRole(actor: User, slug: Slug, target: Option<User>, role: string)
    | RemoveMember(actor: User, slug: Slug, target: Option<User>)
    | DeleteAccount(actor: User)
    | Leave(actor: User, slug: Slug)
    | Invite(actor: User, slug: Slug, target: Option<User>, role: string, quotaOk: bool, expiresAt: int)
    | Accept(actor: User, token: nat, now: int, quotaOk: bool)
    | CreateServiceAccount(actor: User, slug: Slug, name: string, role: string, quotaOk: bool, identity: Option<User>)
    | DeleteServiceAccount(actor: User, slug: Slug, id: nat)
    | SetStatus(slug: Slug, active: bool)

  ghost function Apply(s: State, op: Op): Outcome {
    match op
    case Create(actor, slug, named) => Spec.Create(s, actor, slug, named)
    case AddMember(actor, slug, target, role, quotaOk) => Spec.AddMember(s, actor, slug, target, role, quotaOk)
    case ChangeRole(actor, slug, target, role) => Spec.ChangeRole(s, actor, slug, target, role)
    case RemoveMember(actor, slug, target) => Spec.RemoveMember(s, actor, slug, target)
    case DeleteAccount(actor) => Spec.DeleteAccount(s, actor)
    case Leave(actor, slug) => Spec.Leave(s, actor, slug)
    case Invite(actor, slug, target, role, quotaOk, expiresAt) =>
      Spec.Invite(s, actor, slug, target, role, quotaOk, expiresAt)
    case Accept(actor, token, now, quotaOk) => Spec.Accept(s, actor, token, now, quotaOk)
    case CreateServiceAccount(actor, slug, name, role, quotaOk, identity) =>
      Spec.CreateServiceAccount(s, actor, slug, name, role, quotaOk, identity)
    case DeleteServiceAccount(actor, slug, id) => Spec.DeleteServiceAccount(s, actor, slug, id)
    case SetStatus(slug, active) =>
      if slug in s.orgs then Ok(s.(orgs := s.orgs[slug := active])) else Err(NotFound)
  }

  ghost function Step(s: State, op: Op): State {
    match Apply(s, op)
    case Ok(s') => s'
    case Err(_) => s
  }

  ghost function Exec(ops: seq<Op>): State {
    if ops == [] then State(map[], map[], [], map[], 0) else Step(Exec(ops[..|ops| - 1]), ops[|ops| - 1])
  }

  ghost predicate HasOwner(s: State, slug: Slug) {
    exists u :: Owns(s, slug, u)
  }

  ghost predicate Owned(s: State) {
    forall slug | slug in s.orgs :: HasOwner(s, slug)
  }

  /** The one step that can leave an organization without owner: deleting the service account that is
      its only one. */
  ghost predicate Orphans(s: State, op: Op) {
    op.DeleteServiceAccount? && Apply(s, op).Ok? && Sole(s, op.slug, s.accounts[op.id].user)
  }

  // An owner in `s` that keeps the seat, or whoever took it over.
  lemma KeepsAnOwner(s: State, op: Op, slug: Slug)
    requires slug in s.orgs && HasOwner(s, slug) && !(Orphans(s, op) && op.slug == slug)
    ensures HasOwner(Step(s, op), slug)
  {
    var s' := Step(s, op);
    var u :| Owns(s, slug, u);
    if !Owns(s', slug, u) {
      LostOnlyBy(s, op, slug, u);
      if op.ChangeRole? {
        assert Owns(s', slug, op.target.value);
      } else {
        assert !Sole(s, slug, u);
        var v :| Owns(s, slug, v) && v != u;
        assert Owns(s', slug, v);
      }
    }
  }

  /** An owner's seat goes only by their own act: handing it on, leaving, deleting the account, or
      being the deleted service account. */
  lemma LostOnlyBy(s: State, op: Op, slug: Slug, u: User)
    requires Owns(s, slug, u) && !Owns(Step(s, op), slug, u)
    ensures Apply(s, op).Ok?
    ensures || (op.ChangeRole? && op.actor == u && op.slug == slug && op.target.Some? && op.target.value != u
                && Owns(Step(s, op), slug, op.target.value))
            || (op.Leave? && op.actor == u && op.slug == slug && !Sole(s, slug, u))
            || (op.DeleteAccount? && op.actor == u && !Sole(s, slug, u))
            || (op.DeleteServiceAccount? && op.slug == slug && s.accounts[op.id].user == u)
  {
  }

  lemma StepKeepsOwnedIff(s: State, op: Op)
    requires Owned(s)
    ensures Owned(Step(s, op)) <==> !Orphans(s, op)
  {
    var s' := Step(s, op);
    if Orphans(s, op) {
      var gone := s.accounts[op.id].user;
      assert RoleIn(s', op.slug, gone) == None;
      assert forall u | u != gone :: RoleIn(s', op.slug, u) == RoleIn(s, op.slug, u);
      assert forall u :: Owns(s', op.slug, u) ==> u != gone && Owns(s, op.slug, u);
      assert op.slug in s'.orgs && !HasOwner(s', op.slug);
    } else {
      forall slug | slug in s'.orgs ensures HasOwner(s', slug) {
        if slug in s.orgs {
          KeepsAnOwner(s, op, slug);
        } else {
          assert Owns(s', slug, op.actor);
        }
      }
    }
  }

  /** Over any run that deletes no service account holding the only owner's seat, every organization
      has an owner at every moment. */
  lemma {:induction false} AlwaysOwned(ops: seq<Op>)
    requires forall k | 0 <= k < |ops| :: !Orphans(Exec(ops[..k]), ops[k])
    ensures Owned(Exec(ops))
  {
    if ops != [] {
      var front := ops[..|ops| - 1];
      assert forall k | 0 <= k < |front| :: front[..k] == ops[..k];
      AlwaysOwned(front);
      StepKeepsOwnedIff(Exec(front), ops[|ops| - 1]);
    }
  }

  lemma ExecSnoc(ops: seq<Op>, op: Op)
    ensures Exec(ops + [op]) == Step(Exec(ops), op)
  {
    assert (ops + [op])[..|ops|] == ops;
  }

  const SLUG: Slug := "abc"

  lemma Names()
    ensures IsSlug(SLUG) && RoleOf("owner") == Some(Owner) && RoleOf("read_only") == Some(ReadOnly)
  {
  }

  // Founding by user 1, then a service account with identity 2.
  lemma FoundAndAddAccount()
    ensures var s := Exec([Create(1, SLUG, true), CreateServiceAccount(1, SLUG, "ci", "read_only", true, Some(2))]);
            && SLUG in s.orgs && s.members == map[(SLUG, 1) := Owner, (SLUG, 2) := ReadOnly]
            && s.accounts == map[0 := Account(SLUG, "ci", 2)]
  {
    Names();
    var create, account := Create(1, SLUG, true), CreateServiceAccount(1, SLUG, "ci", "read_only", true, Some(2));
    ExecSnoc([], create);
    ExecSnoc([create], account);
    assert [] + [create] == [create] && [create] + [account] == [create, account];
  }

  lemma TransferAndDelete(s: State)
    requires SLUG in s.orgs && s.members == map[(SLUG, 1) := Owner, (SLUG, 2) := ReadOnly]
    requires s.accounts == map[0 := Account(SLUG, "ci", 2)]
    ensures !Owned(Step(Step(s, ChangeRole(1, SLUG, Some(2), "owner")), DeleteServiceAccount(1, SLUG, 0)))
  {
    Names();
    var s1 := Step(s, ChangeRole(1, SLUG, Some(2), "owner"));
    var s2 := Step(s1, DeleteServiceAccount(1, SLUG, 0));
    assert s1.accounts == s.accounts && RoleIn(s1, SLUG, 1) == Some(Administrator);
    assert forall u :: u != 1 && u != 2 ==> RoleIn(s2, SLUG, u) == None;
    assert SLUG in s2.orgs && !HasOwner(s2, SLUG);
  }

  /** Ownership handed to a service account, which the former owner then deletes. */
  lemma ServiceAccountCanOrphan()
    ensures !Owned(Exec([Create(1, SLUG, true), CreateServiceAccount(1, SLUG, "ci", "read_only", true, Some(2)),
                         ChangeRole(1, SLUG, Some(2), "owner"), DeleteServiceAccount(1, SLUG, 0)]))
  {
    var ops := [Create(1, SLUG, true), CreateServiceAccount(1, SLUG, "ci", "read_only", true, Some(2))];
    var transfer, delete := ChangeRole(1, SLUG, Some(2), "owner"), DeleteServiceAccount(1, SLUG, 0);
    FoundAndAddAccount();
    TransferAndDelete(Exec(ops));
    ExecSnoc(ops, transfer);
    ExecSnoc(ops + [transfer], delete);
    assert ops + [transfer] + [delete]
        == [Create(1, SLUG, true), CreateServiceAccount(1, SLUG, "ci", "read_only", true, Some(2)), transfer, delete];
  }

  /* ---------- where a seat comes from ---------- */

  // The k-th step is the act of an owner of the organization at that moment.
  ghost predicate OwnersAct(ops: seq<Op>, k: nat, slug: Slug) {
    k < |ops| && (ops[k].AddMember? || ops[k].ChangeRole? || ops[k].Invite?)
    && ops[k].slug == slug && ops[k].role == "owner" && Owns(Exec(ops[..k]), slug, ops[k].actor)
  }

  // The k-th step issued the token, as an owner and for an owner's seat.
  ghost predicate IssuedByOwner(ops: seq<Op>, k: nat, slug: Slug, token: nat) {
    OwnersAct(ops, k, slug) && ops[k].Invite? && Apply(Exec(ops[..k]), ops[k]).Ok?
    && |Exec(ops[..k]).invitations| == token
  }

  // The k-th step gave the user the owner's seat: by founding the organization, by a current owner's
  // direct act, or by acceptance of an invitation that a then owner had issued.
  ghost predicate Grants(ops: seq<Op>, k: nat, slug: Slug, u: User) {
    && k < |ops|
    && var s, op := Exec(ops[..k]), ops[k];
       && !Owns(s, slug, u) && Owns(Step(s, op), slug, u)
       && (|| (op.Create? && op.actor == u && slug !in s.orgs)
           || (!op.Invite? && OwnersAct(ops, k, slug) && op.target == Some(u))
           || (op.Accept? && op.actor == u && exists j: nat :: j < k && IssuedByOwner(ops, j, slug, op.token)))
  }

  lemma IssuedOnlyBy(s: State, op: Op, token: nat)
    requires |s.invitations| <= token < |Step(s, op).invitations| && Step(s, op).invitations[token].role.Owner?
    ensures op.Invite? && Apply(s, op).Ok? && token == |s.invitations|
    ensures op.slug == Step(s, op).invitations[token].org
    ensures RoleOf(op.role) == Some(Owner) && Owns(s, op.slug, op.actor)
  {
  }

  lemma {:induction false} InvitationOrigin(ops: seq<Op>, token: nat)
    requires token < |Exec(ops).invitations| && Exec(ops).invitations[token].role.Owner?
    ensures exists j: nat :: IssuedByOwner(ops, j, Exec(ops).invitations[token].org, token)
  {
    if ops != [] {
      var front, op := ops[..|ops| - 1], ops[|ops| - 1];
      var slug := Exec(ops).invitations[token].org;
      if token < |Exec(front).invitations| {
        InvitationStays(Exec(front), op, token);
        InvitationOrigin(front, token);
        var j: nat :| IssuedByOwner(front, j, slug, token);
        IssuedExtends(ops, j, slug, token);
      } else {
        IssuedNow(ops, token);
      }
    }
  }

  lemma InvitationStays(s: State, op: Op, token: nat)
    requires token < |s.invitations|
    ensures var s' := Step(s, op);
            && token < |s'.invitations|
            && s'.invitations[token].(accepted := false) == s.invitations[token].(accepted := false)
  {
  }

  lemma IssuedExtends(ops: seq<Op>, j: nat, slug: Slug, token: nat)
    requires ops != [] && IssuedByOwner(ops[..|ops| - 1], j, slug, token)
    ensures IssuedByOwner(ops, j, slug, token)
  {
    assert ops[..|ops| - 1][..j] == ops[..j];
  }

  lemma IssuedNow(ops: seq<Op>, token: nat)
    requires ops != [] && |Exec(ops[..|ops| - 1]).invitations| <= token < |Exec(ops).invitations|
    requires Exec(ops).invitations[token].role.Owner?
    ensures IssuedByOwner(ops, |ops| - 1, Exec(ops).invitations[token].org, token)
  {
    IssuedOnlyBy(Exec(ops[..|ops| - 1]), ops[|ops| - 1], token);
    OwnerName(ops[|ops| - 1].role);
  }

  /** An owner's seat comes from founding, from a current owner's act, or with a token for one. */
  lemma GainedOnlyBy(s: State, op: Op, slug: Slug, u: User)
    requires !Owns(s, slug, u) && Owns(Step(s, op), slug, u)
    ensures || (op.Create? && op.actor == u && slug !in s.orgs)
            || ((op.AddMember? || op.ChangeRole?) && op.slug == slug && RoleOf(op.role) == Some(Owner)
                && op.target == Some(u) && Owns(s, slug, op.actor))
            || (op.Accept? && op.actor == u && op.token < |s.invitations|
                && s.invitations[op.token].org == slug && s.invitations[op.token].role.Owner?)
  {
  }

  lemma OwnerName(name: string)
    ensures RoleOf(name) == Some(Owner) <==> name == "owner"
  {
  }

  lemma GrantedNow(ops: seq<Op>, slug: Slug, u: User)
    requires ops != [] && !Last(ops).Accept?
    requires !Owns(Exec(Front(ops)), slug, u) && Owns(Exec(ops), slug, u)
    ensures Grants(ops, |ops| - 1, slug, u)
  {
    var k := |ops| - 1;
    assert ops[..k] == Front(ops);
    GainedOnlyBy(Exec(ops[..k]), ops[k], slug, u);
    if !ops[k].Create? {
      OwnerName(ops[k].role);
    }
  }

  lemma AcceptedNow(ops: seq<Op>, slug: Slug, u: User)
    requires ops != [] && Last(ops).Accept?
    requires !Owns(Exec(Front(ops)), slug, u) && Owns(Exec(ops), slug, u)
    ensures Grants(ops, |ops| - 1, slug, u)
  {
    var front, op := Front(ops), Last(ops);
    GainedOnlyBy(Exec(front), op, slug, u);
    InvitationOrigin(front, op.token);
    var j: nat :| IssuedByOwner(front, j, slug, op.token);
    IssuedExtends(ops, j, slug, op.token);
  }

  /** Every new owner's seat, the first or a regained one, arises by founding the organization or by an
      owner's act. */
  lemma NewSeatIsGranted(ops: seq<Op>, slug: Slug, u: User)
    requires ops != [] && !Owns(Exec(Front(ops)), slug, u) && Owns(Exec(ops), slug, u)
    ensures Grants(ops, |ops| - 1, slug, u)
  {
    if Last(ops).Accept? {
      AcceptedNow(ops, slug, u);
    } else {
      GrantedNow(ops, slug, u);
    }
  }

  // Held without a break from just after the k-th step.
  ghost predicate HeldSince(ops: seq<Op>, k: nat, slug: Slug, u: User) {
    forall j | k < j <= |ops| :: Owns(Exec(ops[..j]), slug, u)
  }

  /** So the seat an owner holds goes back to such a grant and has been held ever since. */
  lemma {:induction false} OwnerSeatOrigin(ops: seq<Op>, slug: Slug, u: User)
    requires Owns(Exec(ops), slug, u)
    ensures exists k: nat :: Grants(ops, k, slug, u) && HeldSince(ops, k, slug, u)
  {
    assert ops[..|ops|] == ops;
    if ops != [] {
      var front := Front(ops);
      if Owns(Exec(front), slug, u) {
        OwnerSeatOrigin(front, slug, u);
        var k: nat :| Grants(front, k, slug, u) && HeldSince(front, k, slug, u);
        GrantsExtends(ops, k, slug, u);
        HeldExtends(ops, k, slug, u);
      } else {
        NewSeatIsGranted(ops, slug, u);
        assert HeldSince(ops, |ops| - 1, slug, u);
      }
    }
  }

  lemma HeldExtends(ops: seq<Op>, k: nat, slug: Slug, u: User)
    requires ops != [] && HeldSince(Front(ops), k, slug, u) && Owns(Exec(ops), slug, u)
    ensures HeldSince(ops, k, slug, u)
  {
    forall j | k < j <= |ops| ensures Owns(Exec(ops[..j]), slug, u) {
      if j == |ops| {
        assert ops[..j] == ops;
      } else {
        assert Front(ops)[..j] == ops[..j];
      }
    }
  }

  lemma GrantsExtends(ops: seq<Op>, k: nat, slug: Slug, u: User)
    requires ops != [] && Grants(ops[..|ops| - 1], k, slug, u)
    ensures Grants(ops, k, slug, u)
  {
    var front := ops[..|ops| - 1];
    assert front[..k] == ops[..k];
    if ops[k].Accept? {
      var j: nat :| j < k && IssuedByOwner(front, j, slug, ops[k].token);
      assert front[..j] == ops[..j];
      assert IssuedByOwner(ops, j, slug, ops[k].token);
    }
  }

  /* ---------- invitations outlive their issuer's seat ---------- */

  // The i-th step cost the user the seat, which they did not get back before the k-th.
  ghost predicate LostFor(ops: seq<Op>, i: nat, k: nat, slug: Slug, u: User) {
    && i < k <= |ops| && Owns(Exec(ops[..i]), slug, u)
    && forall m | i < m <= k :: !Owns(Exec(ops[..m]), slug, u)
  }

  /** Whoever issued an invitation to an owner's seat owns the organization at any later moment exactly
      if they have not lost the seat for good since; that takes an act of their own, or their deletion
      as a service account. */
  lemma {:induction false} IssuerOwnsIff(ops: seq<Op>, j: nat, k: nat, slug: Slug, token: nat)
    requires IssuedByOwner(ops, j, slug, token) && j < k <= |ops|
    ensures Owns(Exec(ops[..k]), slug, ops[j].actor)
            <==> !exists i: nat :: j < i && LostFor(ops, i, k, slug, ops[j].actor)
  {
    var u := ops[j].actor;
    InvitingKeepsSeat(ops, j, slug, token);
    if !Owns(Exec(ops[..k]), slug, u) {
      if Owns(Exec(ops[..k - 1]), slug, u) {
        assert LostFor(ops, k - 1, k, slug, u);
      } else {
        IssuerOwnsIff(ops, j, k - 1, slug, token);
        var i: nat :| j < i && LostFor(ops, i, k - 1, slug, u);
        assert LostFor(ops, i, k, slug, u);
      }
    }
  }

  lemma InvitingKeepsSeat(ops: seq<Op>, j: nat, slug: Slug, token: nat)
    requires IssuedByOwner(ops, j, slug, token)
    ensures Owns(Exec(ops[..j + 1]), slug, ops[j].actor)
  {
    ExecAt(ops, j);
  }

  // User 1 founds and adds 2, and as owner invites 3 to an owner's seat.
  lemma FoundAndInvite()
    ensures var s := Exec([Create(1, SLUG, true), AddMember(1, SLUG, Some(2), "read_only", true),
                           Invite(1, SLUG, Some(3), "owner", true, 100)]);
            && SLUG in s.orgs && s.orgs[SLUG] && s.members == map[(SLUG, 1) := Owner, (SLUG, 2) := ReadOnly]
            && s.invitations == [Invitation(SLUG, 1, Owner, false, 100)]
  {
    Names();
    var create, add := Create(1, SLUG, true), AddMember(1, SLUG, Some(2), "read_only", true);
    var invite := Invite(1, SLUG, Some(3), "owner", true, 100);
    ExecSnoc([], create);
    ExecSnoc([create], add);
    ExecSnoc([create, add], invite);
    assert [] + [create] == [create] && [create] + [add] == [create, add];
    assert [create, add] + [invite] == [create, add, invite];
  }

  lemma TransferAndAccept(s: State)
    requires SLUG in s.orgs && s.orgs[SLUG] && s.members == map[(SLUG, 1) := Owner, (SLUG, 2) := ReadOnly]
    requires s.invitations == [Invitation(SLUG, 1, Owner, false, 100)]
    ensures var before := Step(s, ChangeRole(1, SLUG, Some(2), "owner"));
            var after := Step(before, Accept(3, 0, 50, true));
            !Owns(before, SLUG, 1) && !Owns(before, SLUG, 3) && Owns(after, SLUG, 3)
  {
    Names();
  }

  /** User 3 becomes an owner by the invitation of user 1, who is no longer one. */
  lemma InvitationOutlivesSeat()
    ensures var ops := [Create(1, SLUG, true), AddMember(1, SLUG, Some(2), "read_only", true),
                        Invite(1, SLUG, Some(3), "owner", true, 100), ChangeRole(1, SLUG, Some(2), "owner")];
            var before, after := Exec(ops), Exec(ops + [Accept(3, 0, 50, true)]);
            !Owns(before, SLUG, 1) && !Owns(before, SLUG, 3) && Owns(after, SLUG, 3)
  {
    var ops := [Create(1, SLUG, true), AddMember(1, SLUG, Some(2), "read_only", true),
                Invite(1, SLUG, Some(3), "owner", true, 100)];
    var transfer := ChangeRole(1, SLUG, Some(2), "owner");
    FoundAndInvite();
    TransferAndAccept(Exec(ops));
    ExecSnoc(ops, transfer);
    ExecSnoc(ops + [transfer], Accept(3, 0, 50, true));
    assert ops + [transfer] == [ops[0], ops[1], ops[2], transfer];
  }

  /* ---------- ranks ---------- */

  /** Adding a member or changing a role gives nobody more than the actor holds, and removing a member
      is for owners, administrators and the member alone. */
  lemma ActorOutranks(s: State, op: Op, slug: Slug, u: User)
    requires op.AddMember? || op.ChangeRole? || op.RemoveMember?
    requires RoleIn(Step(s, op), slug, u) != RoleIn(s, slug, u)
    ensures op.slug == slug && RoleIn(s, slug, op.actor).Some?
    ensures var mine, now := RoleIn(s, slug, op.actor).value, RoleIn(Step(s, op), slug, u);
            if now.None? then op.actor == u || Rank(mine) >= Rank(Administrator)
            else Rank(now.value) <= Rank(mine)
  {
  }

  /** A transfer moves the seat: as many owners after as before. */
  lemma TransferMovesSeat(s: State, op: Op, v: User)
    requires op.ChangeRole? && op.role == "owner" && Apply(s, op).Ok?
    ensures op.target.Some? && op.target.value != op.actor
    ensures Owns(Step(s, op), op.slug, v)
            <==> v == op.target.value || (v != op.actor && Owns(s, op.slug, v))
    ensures Owns(s, op.slug, op.actor) && !Owns(s, op.slug, op.target.value)
  {
  }

  /* ---------- invitations ---------- */

  /** A token works once: after it was accepted no later acceptance of it gets through. */
  lemma {:induction false} AcceptedOnce(ops: seq<Op>, j: nat, k: nat)
    requires j < k < |ops| && ops[j].Accept? && ops[k].Accept? && ops[j].token == ops[k].token
    requires Apply(Exec(ops[..j]), ops[j]).Ok?
    ensures Apply(Exec(ops[..k]), ops[k]) == Err(BadInvitation)
  {
    StaysAccepted(ops, j, k);
  }

  lemma {:induction false} StaysAccepted(ops: seq<Op>, j: nat, k: nat)
    requires j < k <= |ops| && ops[j].Accept? && Apply(Exec(ops[..j]), ops[j]).Ok?
    ensures var s := Exec(ops[..k]); ops[j].token < |s.invitations| && s.invitations[ops[j].token].accepted
  {
    ExecAt(ops, k - 1);
    if j < k - 1 {
      StaysAccepted(ops, j, k - 1);
      StepKeepsAccepted(Exec(ops[..k - 1]), ops[k - 1], ops[j].token);
    } else {
      AcceptMarks(Exec(ops[..j]), ops[j]);
    }
  }

  lemma ExecAt(ops: seq<Op>, k: nat)
    requires k < |ops|
    ensures Exec(ops[..k + 1]) == Step(Exec(ops[..k]), ops[k])
  {
    assert ops[..k + 1] == ops[..k] + [ops[k]];
    ExecSnoc(ops[..k], ops[k]);
  }

  lemma AcceptMarks(s: State, op: Op)
    requires op.Accept? && Apply(s, op).Ok?
    ensures var s' := Step(s, op); op.token < |s'.invitations| && s'.invitations[op.token].accepted
  {
  }

  lemma StepKeepsAccepted(s: State, op: Op, token: nat)
    requires token < |s.invitations| && s.invitations[token].accepted
    ensures var s' := Step(s, op); token < |s'.invitations| && s'.invitations[token].accepted
  {
  }
}
