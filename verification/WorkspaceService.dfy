/** The service of backend/internal/usecase/rbac/service.go, statement by statement on its tables. */
module WorkspaceService {
  import opened Options
  import opened Workspaces
  import opened WorkspaceRuns

  class Service {
    const registrationEnabled: bool
    var nextId: nat
    var workspaces: map<nat, Workspace>
    var roles: map<nat, Role>
    var members: map<nat, Membership>
    var invitations: map<nat, Invitation>

    constructor (enabled: bool)
      ensures registrationEnabled == enabled && State() == EMPTY && Valid()
    {
      registrationEnabled := enabled;
      nextId, workspaces, roles, members, invitations := 0, map[], map[], map[], map[];
    }

    function State(): Db
      reads this
    {
      Db(nextId, workspaces, roles, members, invitations)
    }

    ghost predicate Valid()
      reads this
    {
      Inv(State())
    }

    // ----- workspaces -----

    method CreateWorkspace(user: nat, slug: string) returns (r: Reply)
      requires Valid()
      modifies this
      ensures Valid() && (State(), r) == Do(old(State()), registrationEnabled, Create(user, slug))
    {
      hide Inv;
      ghost var before := State();
      StepKeeps(before, registrationEnabled, Create(user, slug));
      if SlugUsed(State(), slug, None) {
        return Failed(SlugTaken);
      }
      var w := nextId;
      workspaces := workspaces[w := Workspace(slug, user, false)];
      var ownerRole := CreateDefaultRoles(w);
      members := members[w + 5 := Membership(w, user, ownerRole)];
      nextId := w + 6;
      r := Done(w);
    }

    /** The four system roles with the next ids; the id of the one named owner. */
    method CreateDefaultRoles(w: nat) returns (ownerRole: nat)
      modifies this`roles
      ensures roles == WithRoles(old(roles), w, 4) && ownerRole == w + 1
    {
      ownerRole := 0;
      for k := 0 to |DEFAULT_ROLES|
        invariant roles == WithRoles(old(roles), w, k)
        invariant k > 0 ==> ownerRole == w + 1
      {
        roles := roles[w + k + 1 := Role(w, DEFAULT_ROLES[k])];
        if DEFAULT_ROLES[k] == OwnerRole {
          ownerRole := w + k + 1;
        }
      }
    }

    method UpdateWorkspace(w: nat, slug: string) returns (r: Reply)
      requires Valid()
      modifies this
      ensures Valid() && (State(), r) == Do(old(State()), registrationEnabled, Rename(w, slug))
    {
      hide Inv;
      StepKeeps(State(), registrationEnabled, Rename(w, slug));
      if !Live(State(), w) {
        return Failed(WorkspaceNotFound);
      }
      if slug != workspaces[w].slug && SlugUsed(State(), slug, Some(w)) {
        return Failed(SlugTaken);
      }
      workspaces := workspaces[w := workspaces[w].(slug := slug)];
      r := Done(w);
    }

    method DeleteWorkspace(w: nat) returns (r: Reply)
      requires Valid()
      modifies this
      ensures Valid() && (State(), r) == Do(old(State()), registrationEnabled, Delete(w))
    {
      hide Inv;
      StepKeeps(State(), registrationEnabled, Delete(w));
      if !Live(State(), w) {
        return Failed(WorkspaceNotFound);
      }
      members := map m | m in members && members[m].workspace != w :: members[m];
      invitations := map i | i in invitations && invitations[i].workspace != w :: invitations[i];
      roles := map k | k in roles && roles[k].workspace != w :: roles[k];
      workspaces := workspaces[w := workspaces[w].(deleted := true)];
      r := Done(w);
    }

    // ----- invitations -----

    method InviteMember(now: int, w: nat, email: string, domainAllowed: bool, role: nat,
        token: Option<string>) returns (r: Reply)
      requires Valid()
      modifies this
      ensures Valid() && (State(), r) == Do(old(State()), registrationEnabled,
                Offer(now, w, email, domainAllowed, role, token))
    {
      hide Inv;
      StepKeeps(State(), registrationEnabled, Offer(now, w, email, domainAllowed, role, token));
      if !registrationEnabled {
        return Failed(InvitationsDisabled);
      }
      if !domainAllowed {
        return Failed(DomainNotAllowed);
      }
      if !RoleIn(State(), role, w) {
        return Failed(RoleNotFound);
      }
      if roles[role].name == OwnerRole {
        return Failed(OwnerRoleRefused);
      }
      if token == None {
        return Failed(TokenFailed);
      }
      if TokenUsed(State(), token.value, None) {
        return Failed(StoreFailed);
      }
      r := Done(nextId);
      invitations := invitations[nextId := Invitation(w, email, role, token.value, now + SEVEN_DAYS, None, None)];
      nextId := nextId + 1;
    }

    method FindInvitationByToken(token: string) returns (found: Option<nat>)
      requires Valid()
      ensures found == FindByToken(State(), token)
    {
      found := None;
      if i :| i in invitations && invitations[i].token == token {
        TokenIsUnique(State(), i);
        found := Some(i);
      }
    }

    method AcceptInvitation(now: int, token: string, user: nat, email: string) returns (r: Reply)
      requires Valid()
      modifies this
      ensures Valid() && (State(), r) == Do(old(State()), registrationEnabled, Accept(now, token, user, email))
    {
      hide Inv, FindByToken;
      StepKeeps(State(), registrationEnabled, Accept(now, token, user, email));
      if !registrationEnabled {
        return Failed(InvitationsDisabled);
      }
      var found := FindInvitationByToken(token);
      if found == None {
        return Failed(InvitationNotFound);
      }
      FoundIsThere(State(), token);
      var invitation := invitations[found.value];
      if invitation.acceptedAt.Some? {
        return Failed(InvitationAccepted);
      }
      if invitation.declinedAt.Some? {
        return Failed(InvitationDeclined);
      }
      if now > invitation.expiresAt {
        return Failed(InvitationExpired);
      }
      if invitation.email != email {
        return Failed(InvitationEmailMismatch);
      }
      r := JoinWorkspace(now, found.value, user);
    }

    /** The transaction at the end of both ways of accepting. */
    method JoinWorkspace(now: int, i: nat, user: nat) returns (r: Reply)
      requires i in invitations
      modifies this
      ensures (State(), r) == Join(old(State()), now, i, user)
    {
      var invitation := invitations[i];
      if IsMember(State(), invitation.workspace, user) {
        return Failed(AlreadyMember);
      }
      invitation := invitation.(acceptedAt := Some(now));
      invitations := invitations[i := invitation];
      r := Done(nextId);
      members := members[nextId := Membership(invitation.workspace, user, invitation.role)];
      nextId := nextId + 1;
    }

    method AcceptInvitationByID(now: int, i: nat, user: nat, email: string) returns (r: Reply)
      requires Valid()
      modifies this
      ensures Valid() && (State(), r) == Do(old(State()), registrationEnabled, AcceptID(now, i, user, email))
    {
      hide Inv;
      StepKeeps(State(), registrationEnabled, AcceptID(now, i, user, email));
      if !registrationEnabled {
        return Failed(InvitationsDisabled);
      }
      if i !in invitations {
        return Failed(InvitationNotFound);
      }
      var invitation := invitations[i];
      if invitation.email != email {
        return Failed(InvitationEmailMismatch);
      }
      if invitation.acceptedAt.Some? {
        return Failed(InvitationAccepted);
      }
      if invitation.declinedAt.Some? {
        return Failed(InvitationDeclined);
      }
      if now > invitation.expiresAt {
        return Failed(InvitationExpired);
      }
      r := JoinWorkspace(now, i, user);
    }

    method DeclineInvitationByToken(now: int, token: string, email: string) returns (r: Reply)
      requires Valid()
      modifies this
      ensures Valid() && (State(), r) == Do(old(State()), registrationEnabled, Decline(now, token, email))
    {
      hide Inv, FindByToken;
      StepKeeps(State(), registrationEnabled, Decline(now, token, email));
      if !registrationEnabled {
        return Failed(InvitationsDisabled);
      }
      var found := FindInvitationByToken(token);
      if found == None {
        return Failed(InvitationNotFound);
      }
      FoundIsThere(State(), token);
      r := DeclineFound(now, found.value, email);
    }

    /** The checks and the write that both ways of declining share. */
    method DeclineFound(now: int, i: nat, email: string) returns (r: Reply)
      requires i in invitations && registrationEnabled
      modifies this
      ensures (State(), r) == DeclineByID(old(State()), registrationEnabled, now, i, email)
    {
      var invitation := invitations[i];
      if invitation.email != email {
        return Failed(InvitationEmailMismatch);
      }
      if invitation.acceptedAt.Some? {
        return Failed(InvitationAccepted);
      }
      if invitation.declinedAt.Some? {
        return Failed(InvitationDeclined);
      }
      if now > invitation.expiresAt {
        return Failed(InvitationExpired);
      }
      invitation := invitation.(declinedAt := Some(now));
      invitations := invitations[i := invitation];
      r := Done(i);
    }

    method DeclineInvitationByID(now: int, i: nat, email: string) returns (r: Reply)
      requires Valid()
      modifies this
      ensures Valid() && (State(), r) == Do(old(State()), registrationEnabled, DeclineID(now, i, email))
    {
      hide Inv;
      StepKeeps(State(), registrationEnabled, DeclineID(now, i, email));
      if !registrationEnabled {
        return Failed(InvitationsDisabled);
      }
      if i !in invitations {
        return Failed(InvitationNotFound);
      }
      r := DeclineFound(now, i, email);
    }

    method RevokeInvitation(w: nat, i: nat) returns (r: Reply)
      requires Valid()
      modifies this
      ensures Valid() && (State(), r) == Do(old(State()), registrationEnabled, Withdraw(w, i))
    {
      hide Inv;
      StepKeeps(State(), registrationEnabled, Withdraw(w, i));
      if !registrationEnabled {
        return Failed(InvitationsDisabled);
      }
      if i !in invitations || invitations[i].workspace != w || invitations[i].acceptedAt.Some?
          || invitations[i].declinedAt.Some? {
        return Failed(InvitationNotFound);
      }
      invitations := invitations - {i};
      r := Done(i);
    }

    method ResendInvitation(now: int, w: nat, i: nat, token: Option<string>) returns (r: Reply)
      requires Valid()
      modifies this
      ensures Valid() && (State(), r) == Do(old(State()), registrationEnabled, SendAgain(now, w, i, token))
    {
      hide Inv;
      StepKeeps(State(), registrationEnabled, SendAgain(now, w, i, token));
      if !registrationEnabled {
        return Failed(InvitationsDisabled);
      }
      if i !in invitations || invitations[i].workspace != w {
        return Failed(InvitationNotFound);
      }
      var invitation := invitations[i];
      if invitation.acceptedAt.Some? {
        return Failed(InvitationAccepted);
      }
      if invitation.declinedAt.Some? {
        return Failed(InvitationDeclined);
      }
      if token == None {
        return Failed(TokenFailed);
      }
      if TokenUsed(State(), token.value, Some(i)) {
        return Failed(StoreFailed);
      }
      invitation := invitation.(token := token.value);
      invitation := invitation.(expiresAt := now + SEVEN_DAYS);
      invitations := invitations[i := invitation];
      r := Done(i);
    }

    // ----- members -----

    method RemoveMember(w: nat, user: nat) returns (r: Reply)
      requires Valid()
      modifies this
      ensures Valid() && (State(), r) == Do(old(State()), registrationEnabled, Remove(w, user))
    {
      hide Inv;
      StepKeeps(State(), registrationEnabled, Remove(w, user));
      if !Live(State(), w) {
        return Failed(WorkspaceNotFound);
      }
      if workspaces[w].owner == user {
        return Failed(CannotRemoveOwner);
      }
      if !IsMember(State(), w, user) {
        return Failed(MemberNotFound);
      }
      members := map m | m in members && !IsMemberRow(State(), m, w, user) :: members[m];
      r := Done(user);
    }

    method UpdateMemberRole(w: nat, user: nat, role: nat) returns (r: Reply)
      requires Valid()
      modifies this
      ensures Valid() && (State(), r) == Do(old(State()), registrationEnabled, ChangeRole(w, user, role))
    {
      hide Inv, FindMember;
      StepKeeps(State(), registrationEnabled, ChangeRole(w, user, role));
      if !Live(State(), w) {
        return Failed(WorkspaceNotFound);
      }
      if workspaces[w].owner == user {
        return Failed(CannotChangeOwner);
      }
      if !RoleIn(State(), role, w) {
        return Failed(RoleNotFound);
      }
      if roles[role].name == OwnerRole {
        return Failed(CannotChangeOwner);
      }
      if m :| m in members && IsMemberRow(State(), m, w, user) {
        SeatIsUnique(State(), m, w, user);
        members := members[m := members[m].(role := role)];
        return Done(m);
      }
      NoSeat(State(), w, user);
      r := Failed(MemberNotFound);
    }

    method AddUserToWorkspace(w: nat, domainAllowed: bool, role: nat, found: Option<nat>,
        created: Option<nat>) returns (r: Reply)
      requires Valid()
      modifies this
      ensures Valid() && (State(), r) == Do(old(State()), registrationEnabled,
                Add(w, domainAllowed, role, found, created))
    {
      hide Inv;
      StepKeeps(State(), registrationEnabled, Add(w, domainAllowed, role, found, created));
      if !RoleIn(State(), role, w) {
        return Failed(RoleNotFound);
      }
      if roles[role].name == OwnerRole {
        return Failed(OwnerRoleRefused);
      }
      if !domainAllowed {
        return Failed(DomainNotAllowed);
      }
      if found.Some? {
        if IsMember(State(), w, found.value) {
          return Failed(AlreadyMember);
        }
        r := CreateMember(w, found.value, role);
      } else {
        if created == None {
          return Failed(UserNotCreated);
        }
        r := CreateMember(w, created.value, role);
      }
    }

    method CreateMember(w: nat, user: nat, role: nat) returns (r: Reply)
      modifies this
      ensures (State(), r) == InsertMember(old(State()), w, user, role)
    {
      if IsMember(State(), w, user) {
        return Failed(StoreFailed);
      }
      r := Done(nextId);
      members := members[nextId := Membership(w, user, role)];
      nextId := nextId + 1;
    }
  }

  lemma TokenIsUnique(db: Db, i: nat)
    requires Inv(db) && i in db.invitations
    ensures FindByToken(db, db.invitations[i].token) == Some(i)
  {
  }

  lemma FoundIsThere(db: Db, token: string)
    ensures FindByToken(db, token).Some? ==> FindByToken(db, token).value in db.invitations
  {
  }

  lemma SeatIsUnique(db: Db, m: nat, w: nat, user: nat)
    requires Inv(db) && IsMemberRow(db, m, w, user)
    ensures FindMember(db, w, user) == Some(m)
  {
    var n := FindMember(db, w, user).value;
    assert SameSeat(db.members[m], db.members[n]);
  }

  lemma NoSeat(db: Db, w: nat, user: nat)
    ensures (forall m :: m in db.members ==> !IsMemberRow(db, m, w, user)) ==> FindMember(db, w, user) == None
  {
  }
}
