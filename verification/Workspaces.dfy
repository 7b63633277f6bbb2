/** Workspaces, roles, members and invitations: the tables behind
    backend/internal/usecase/rbac/service.go, and what each operation makes of them. */
module Workspaces {
  import opened Options

  datatype RoleName = OwnerRole | AdminRole | MemberRole | ViewerRole

  datatype Workspace = Workspace(slug: string, owner: nat, deleted: bool)
  datatype Role = Role(workspace: nat, name: RoleName)
  datatype Membership = Membership(workspace: nat, user: nat, role: nat)
  datatype Invitation = Invitation(workspace: nat, email: string, role: nat, token: string, expiresAt: int,
                                   acceptedAt: Option<int>, declinedAt: Option<int>)

  /** The four tables by row id; ids below nextId have been given out. */
  datatype Db = Db(nextId: nat, workspaces: map<nat, Workspace>, roles: map<nat, Role>,
                   members: map<nat, Membership>, invitations: map<nat, Invitation>)

  const EMPTY := Db(0, map[], map[], map[], map[])

  const SEVEN_DAYS: int := 7 * 24 * 3600

  const DEFAULT_ROLES: seq<RoleName> := [OwnerRole, AdminRole, MemberRole, ViewerRole]

  datatype Error =
    | SlugTaken | WorkspaceNotFound | RoleNotFound | MemberNotFound | OwnerRoleRefused | CannotRemoveOwner
    | CannotChangeOwner
    | InvitationsDisabled | InvitationNotFound | InvitationAccepted | InvitationDeclined | InvitationExpired
    | InvitationEmailMismatch | AlreadyMember | DomainNotAllowed | TokenFailed | UserNotCreated | StoreFailed

  /** The id of the row created or changed, or the error. */
  datatype Reply = Done(id: nat) | Failed(error: Error)

  // ----- queries -----

  predicate Live(db: Db, w: nat) {
    w in db.workspaces && !db.workspaces[w].deleted
  }

  predicate SlugUsed(db: Db, slug: string, except: Option<nat>) {
    exists w :: w in db.workspaces && !db.workspaces[w].deleted && db.workspaces[w].slug == slug && Some(w) != except
  }

  predicate RoleIn(db: Db, r: nat, w: nat) {
    r in db.roles && db.roles[r].workspace == w
  }

  predicate IsMemberRow(db: Db, m: nat, w: nat, u: nat) {
    m in db.members && db.members[m].workspace == w && db.members[m].user == u
  }

  predicate IsMember(db: Db, w: nat, u: nat) {
    exists m :: m in db.members && IsMemberRow(db, m, w, u)
  }

  ghost function FindMember(db: Db, w: nat, u: nat): Option<nat> {
    if m :| IsMemberRow(db, m, w, u) then Some(m) else None
  }

  ghost function FindByToken(db: Db, token: string): Option<nat> {
    if i :| i in db.invitations && db.invitations[i].token == token then Some(i) else None
  }

  predicate TokenUsed(db: Db, token: string, except: Option<nat>) {
    exists i :: i in db.invitations && db.invitations[i].token == token && Some(i) != except
  }

  // ----- workspaces -----

  /** The first k default roles, with the ids after w. */
  function WithRoles(roles: map<nat, Role>, w: nat, k: nat): map<nat, Role>
    requires k <= |DEFAULT_ROLES|
  {
    if k == 0 then roles else WithRoles(roles, w, k - 1)[w + k := Role(w, DEFAULT_ROLES[k - 1])]
  }

  function CreateWorkspace(db: Db, user: nat, slug: string): (Db, Reply) {
    if SlugUsed(db, slug, None) then (db, Failed(SlugTaken))
    else
      var w := db.nextId;
      (Db(w + 6, db.workspaces[w := Workspace(slug, user, false)],
          WithRoles(db.roles, w, 4),
          db.members[w + 5 := Membership(w, user, w + 1)], db.invitations),
       Done(w))
  }

  function UpdateWorkspace(db: Db, w: nat, slug: string): (Db, Reply) {
    if !Live(db, w) then (db, Failed(WorkspaceNotFound))
    else if slug != db.workspaces[w].slug && SlugUsed(db, slug, Some(w)) then (db, Failed(SlugTaken))
    else (db.(workspaces := db.workspaces[w := db.workspaces[w].(slug := slug)]), Done(w))
  }

  /** Members, invitations and roles go with the workspace; its own row is only marked. */
  function DeleteWorkspace(db: Db, w: nat): (Db, Reply) {
    if !Live(db, w) then (db, Failed(WorkspaceNotFound))
    else
      (Db(db.nextId, db.workspaces[w := db.workspaces[w].(deleted := true)],
          map r | r in db.roles && db.roles[r].workspace != w :: db.roles[r],
          map m | m in db.members && db.members[m].workspace != w :: db.members[m],
          map i | i in db.invitations && db.invitations[i].workspace != w :: db.invitations[i]),
       Done(w))
  }

  // ----- invitations -----

  function Invite(db: Db, enabled: bool, now: int, w: nat, email: string, domainAllowed: bool, role: nat,
      token: Option<string>): (Db, Reply) {
    if !enabled then (db, Failed(InvitationsDisabled))
    else if !domainAllowed then (db, Failed(DomainNotAllowed))
    else if !RoleIn(db, role, w) then (db, Failed(RoleNotFound))
    else if db.roles[role].name == OwnerRole then (db, Failed(OwnerRoleRefused))
    else if token == None then (db, Failed(TokenFailed))
    else if TokenUsed(db, token.value, None) then (db, Failed(StoreFailed))
    else
      (db.(nextId := db.nextId + 1,
           invitations := db.invitations[db.nextId :=
                            Invitation(w, email, role, token.value, now + SEVEN_DAYS, None, None)]),
       Done(db.nextId))
  }

  /** Why an invitation cannot be answered any more. */
  function Closed(inv: Invitation, now: int): Option<Error> {
    if inv.acceptedAt.Some? then Some(InvitationAccepted)
    else if inv.declinedAt.Some? then Some(InvitationDeclined)
    else if now > inv.expiresAt then Some(InvitationExpired)
    else None
  }

  function Join(db: Db, now: int, i: nat, user: nat): (Db, Reply)
    requires i in db.invitations
  {
    var inv := db.invitations[i];
    if IsMember(db, inv.workspace, user) then (db, Failed(AlreadyMember))
    else
      (db.(nextId := db.nextId + 1,
           invitations := db.invitations[i := inv.(acceptedAt := Some(now))],
           members := db.members[db.nextId := Membership(inv.workspace, user, inv.role)]),
       Done(db.nextId))
  }

  /** By token, the invitation's state is looked at before the e-mail address. */
  ghost function AcceptByToken(db: Db, enabled: bool, now: int, token: string, user: nat, email: string): (Db, Reply) {
    if !enabled then (db, Failed(InvitationsDisabled))
    else match FindByToken(db, token)
      case None => (db, Failed(InvitationNotFound))
      case Some(i) =>
        var inv := db.invitations[i];
        if Closed(inv, now).Some? then (db, Failed(Closed(inv, now).value))
        else if inv.email != email then (db, Failed(InvitationEmailMismatch))
        else Join(db, now, i, user)
  }

  /** By id, the e-mail address is looked at first. */
  function AcceptByID(db: Db, enabled: bool, now: int, i: nat, user: nat, email: string): (Db, Reply) {
    if !enabled then (db, Failed(InvitationsDisabled))
    else if i !in db.invitations then (db, Failed(InvitationNotFound))
    else if db.invitations[i].email != email then (db, Failed(InvitationEmailMismatch))
    else if Closed(db.invitations[i], now).Some? then (db, Failed(Closed(db.invitations[i], now).value))
    else Join(db, now, i, user)
  }

  function DeclineByID(db: Db, enabled: bool, now: int, i: nat, email: string): (Db, Reply) {
    if !enabled then (db, Failed(InvitationsDisabled))
    else if i !in db.invitations then (db, Failed(InvitationNotFound))
    else if db.invitations[i].email != email then (db, Failed(InvitationEmailMismatch))
    else if Closed(db.invitations[i], now).Some? then (db, Failed(Closed(db.invitations[i], now).value))
    else (db.(invitations := db.invitations[i := db.invitations[i].(declinedAt := Some(now))]), Done(i))
  }

  ghost function DeclineByToken(db: Db, enabled: bool, now: int, token: string, email: string): (Db, Reply) {
    if !enabled then (db, Failed(InvitationsDisabled))
    else match FindByToken(db, token)
      case None => (db, Failed(InvitationNotFound))
      case Some(i) => DeclineByID(db, enabled, now, i, email)
  }

  function Revoke(db: Db, enabled: bool, w: nat, i: nat): (Db, Reply) {
    if !enabled then (db, Failed(InvitationsDisabled))
    else if i !in db.invitations || db.invitations[i].workspace != w || db.invitations[i].acceptedAt.Some?
        || db.invitations[i].declinedAt.Some?
    then (db, Failed(InvitationNotFound))
    else (db.(invitations := db.invitations - {i}), Done(i))
  }

  function Resend(db: Db, enabled: bool, now: int, w: nat, i: nat, token: Option<string>): (Db, Reply) {
    if !enabled then (db, Failed(InvitationsDisabled))
    else if i !in db.invitations || db.invitations[i].workspace != w then (db, Failed(InvitationNotFound))
    else if db.invitations[i].acceptedAt.Some? then (db, Failed(InvitationAccepted))
    else if db.invitations[i].declinedAt.Some? then (db, Failed(InvitationDeclined))
    else if token == None then (db, Failed(TokenFailed))
    else if TokenUsed(db, token.value, Some(i)) then (db, Failed(StoreFailed))
    else
      var inv := db.invitations[i].(token := token.value, expiresAt := now + SEVEN_DAYS);
      (db.(invitations := db.invitations[i := inv]), Done(i))
  }

  // ----- members -----

  function RemoveMember(db: Db, w: nat, user: nat): (Db, Reply) {
    if !Live(db, w) then (db, Failed(WorkspaceNotFound))
    else if db.workspaces[w].owner == user then (db, Failed(CannotRemoveOwner))
    else if !IsMember(db, w, user) then (db, Failed(MemberNotFound))
    else (db.(members := map m | m in db.members && !IsMemberRow(db, m, w, user) :: db.members[m]), Done(user))
  }

  ghost function UpdateMemberRole(db: Db, w: nat, user: nat, role: nat): (Db, Reply) {
    if !Live(db, w) then (db, Failed(WorkspaceNotFound))
    else if db.workspaces[w].owner == user then (db, Failed(CannotChangeOwner))
    else if !RoleIn(db, role, w) then (db, Failed(RoleNotFound))
    else if db.roles[role].name == OwnerRole then (db, Failed(CannotChangeOwner))
    else match FindMember(db, w, user)
      case None => (db, Failed(MemberNotFound))
      case Some(m) => (db.(members := db.members[m := db.members[m].(role := role)]), Done(m))
  }

  /** `found` is the account that already has the address, when accounts can be looked up;
      `created` the account made otherwise, unless making it fails. */
  function AddUser(db: Db, w: nat, domainAllowed: bool, role: nat, found: Option<nat>, created: Option<nat>)
    : (Db, Reply)
  {
    if !RoleIn(db, role, w) then (db, Failed(RoleNotFound))
    else if db.roles[role].name == OwnerRole then (db, Failed(OwnerRoleRefused))
    else if !domainAllowed then (db, Failed(DomainNotAllowed))
    else if found.Some? then
      if IsMember(db, w, found.value) then (db, Failed(AlreadyMember)) else InsertMember(db, w, found.value, role)
    else if created == None then (db, Failed(UserNotCreated))
    else InsertMember(db, w, created.value, role)
  }

  /** The unique index on (workspace, user) refuses a second row. */
  function InsertMember(db: Db, w: nat, user: nat, role: nat): (Db, Reply) {
    if IsMember(db, w, user) then (db, Failed(StoreFailed))
    else (db.(nextId := db.nextId + 1, members := db.members[db.nextId := Membership(w, user, role)]), Done(db.nextId))
  }

  // ----- the invariant -----

  ghost predicate IdsGiven(db: Db) {
    && (forall w :: w in db.workspaces ==> w < db.nextId)
    && (forall r :: r in db.roles ==> r < db.nextId)
    && (forall m :: m in db.members ==> m < db.nextId)
    && (forall i :: i in db.invitations ==> i < db.nextId)
  }

  /** Roles belong to live workspaces, members' roles to the members' workspace. */
  ghost predicate RolesBelong(db: Db) {
    && (forall r :: r in db.roles ==> Live(db, db.roles[r].workspace))
    && (forall m :: m in db.members ==> RoleIn(db, db.members[m].role, db.members[m].workspace))
  }

  predicate SameSeat(a: Membership, b: Membership) {
    a.workspace == b.workspace && a.user == b.user
  }

  ghost predicate OneMembershipEach(db: Db) {
    forall m, n :: m in db.members && n in db.members && SameSeat(db.members[m], db.members[n]) ==> m == n
  }

  predicate HasOwnerRole(db: Db, m: nat) {
    m in db.members && db.members[m].role in db.roles && db.roles[db.members[m].role].name == OwnerRole
  }

  predicate IsOwners(db: Db, m: Membership) {
    m.workspace in db.workspaces && m.user == db.workspaces[m.workspace].owner
  }

  ghost predicate OwnerSeated(db: Db, w: nat, u: nat) {
    exists m :: IsMemberRow(db, m, w, u) && HasOwnerRole(db, m)
  }

  /** The owner of a live workspace holds its owner role, */
  ghost predicate OwnersSeated(db: Db) {
    forall w :: Live(db, w) ==> OwnerSeated(db, w, db.workspaces[w].owner)
  }

  /** and nobody else does. */
  ghost predicate NoOtherOwners(db: Db) {
    forall m :: HasOwnerRole(db, m) ==> IsOwners(db, db.members[m])
  }

  /** Invitations offer a role of their workspace, never the owner's, and are answered at most one way. */
  ghost predicate InvitationsSound(db: Db) {
    forall i :: i in db.invitations ==> Sound(db, db.invitations[i])
  }

  predicate Sound(db: Db, inv: Invitation) {
    RoleIn(db, inv.role, inv.workspace) && db.roles[inv.role].name != OwnerRole
        && (inv.acceptedAt == None || inv.declinedAt == None)
  }

  ghost predicate TokensUnique(db: Db) {
    forall i, j :: i in db.invitations && j in db.invitations && i != j ==>
      db.invitations[i].token != db.invitations[j].token
  }

  ghost predicate UniqueSlugs(db: Db) {
    forall w, x :: Live(db, w) && Live(db, x) && db.workspaces[w].slug == db.workspaces[x].slug ==> w == x
  }

  ghost predicate Inv(db: Db) {
    && IdsGiven(db) && RolesBelong(db) && OneMembershipEach(db) && OwnersSeated(db) && NoOtherOwners(db)
    && InvitationsSound(db) && TokensUnique(db) && UniqueSlugs(db)
  }

  // ----- what keeps it -----

  lemma {:induction false} RolesAdded(roles: map<nat, Role>, w: nat, k: nat)
    requires k <= 4 && forall r :: r in roles ==> r < w
    ensures forall r :: r in WithRoles(roles, w, k) <==> r in roles || w < r <= w + k
    ensures forall r :: r in roles ==> WithRoles(roles, w, k)[r] == roles[r]
    ensures forall r :: w < r <= w + k ==> WithRoles(roles, w, k)[r].workspace == w
    ensures k > 0 ==> WithRoles(roles, w, k)[w + 1].name == OwnerRole
  {
    if k > 0 {
      RolesAdded(roles, w, k - 1);
    }
  }

  /** Owner rows of workspaces that stay live are kept as they are. */
  ghost predicate OwnerRowsKept(db: Db, db': Db) {
    forall m :: HasOwnerRole(db, m) && Live(db', db.members[m].workspace) ==>
        HasOwnerRole(db', m) && db'.members[m] == db.members[m]
  }

  /** Workspaces keep their owners; a new one, if any, is live from the start. */
  ghost predicate OwnersKept(db: Db, db': Db) {
    && (forall w :: w in db.workspaces ==> w in db'.workspaces && db'.workspaces[w].owner == db.workspaces[w].owner)
    && (forall w :: w in db.workspaces && Live(db', w) ==> Live(db, w))
  }

  /** Owner rows other than `except` were owner rows before. */
  ghost predicate NoOwnerRowsAdded(db: Db, db': Db, except: nat) {
    forall m :: HasOwnerRole(db', m) && m != except ==> HasOwnerRole(db, m) && db'.members[m] == db.members[m]
  }

  lemma SeatsKept(db: Db, db': Db, except: nat)
    requires OwnersSeated(db) && NoOtherOwners(db)
    requires OwnerRowsKept(db, db') && OwnersKept(db, db') && NoOwnerRowsAdded(db, db', except)
    requires forall w :: Live(db', w) && w !in db.workspaces ==> OwnerSeated(db', w, db'.workspaces[w].owner)
    requires HasOwnerRole(db', except) ==> IsOwners(db', db'.members[except])
    ensures OwnersSeated(db') && NoOtherOwners(db')
  {
    forall w | Live(db', w) && w in db.workspaces
      ensures OwnerSeated(db', w, db'.workspaces[w].owner)
    {
      var m :| IsMemberRow(db, m, w, db.workspaces[w].owner) && HasOwnerRole(db, m);
      assert IsMemberRow(db', m, w, db.workspaces[w].owner) && HasOwnerRole(db', m);
    }
  }

  lemma CreateKeeps(db: Db, user: nat, slug: string)
    requires Inv(db)
    ensures Inv(CreateWorkspace(db, user, slug).0)
  {
    if !SlugUsed(db, slug, None) {
      var db' := CreateWorkspace(db, user, slug).0;
      hide WithRoles;
      CreateSeats(db, user, slug, db');
      CreateBelongs(db, user, slug, db');
      CreateRest(db, user, slug, db');
      CreateSlugs(db, user, slug, db');
    }
  }

  lemma CreateOwnerRows(db: Db, user: nat, slug: string, db': Db)
    requires IdsGiven(db) && RolesBelong(db) && !SlugUsed(db, slug, None) && db' == CreateWorkspace(db, user, slug).0
    ensures NoOwnerRowsAdded(db, db', db.nextId + 5)
  {
    hide SlugUsed, Live;
    RolesAdded(db.roles, db.nextId, 4);
    hide WithRoles;
    forall m | HasOwnerRole(db', m) && m != db.nextId + 5
      ensures HasOwnerRole(db, m) && db'.members[m] == db.members[m]
    {
      assert m in db.members && RoleIn(db, db.members[m].role, db.members[m].workspace);
    }
  }

  lemma CreateOwnersKept(db: Db, user: nat, slug: string, db': Db)
    requires IdsGiven(db) && RolesBelong(db) && !SlugUsed(db, slug, None) && db' == CreateWorkspace(db, user, slug).0
    ensures OwnerRowsKept(db, db') && OwnersKept(db, db')
  {
    hide SlugUsed;
    RolesAdded(db.roles, db.nextId, 4);
    hide WithRoles;
  }

  lemma CreateSeats(db: Db, user: nat, slug: string, db': Db)
    requires Inv(db) && !SlugUsed(db, slug, None) && db' == CreateWorkspace(db, user, slug).0
    ensures OwnersSeated(db') && NoOtherOwners(db')
  {
    hide InvitationsSound, TokensUnique, UniqueSlugs, OwnersSeated, NoOtherOwners, OneMembershipEach, SlugUsed,
        RolesBelong;
    var w := db.nextId;
    RolesAdded(db.roles, w, 4);
    hide WithRoles;
    hide OwnerRowsKept, OwnersKept, NoOwnerRowsAdded;
    CreateOwnerRows(db, user, slug, db');
    CreateOwnersKept(db, user, slug, db');
    assert IsMemberRow(db', w + 5, w, user) && HasOwnerRole(db', w + 5);
    assert OwnerSeated(db', w, user);
    SeatsKept(db, db', w + 5);
  }

  lemma CreateBelongs(db: Db, user: nat, slug: string, db': Db)
    requires Inv(db) && !SlugUsed(db, slug, None) && db' == CreateWorkspace(db, user, slug).0
    ensures IdsGiven(db') && RolesBelong(db')
  {
    hide OwnersSeated, NoOtherOwners, UniqueSlugs, InvitationsSound, TokensUnique, OneMembershipEach, SlugUsed;
    RolesAdded(db.roles, db.nextId, 4);
    hide WithRoles;
  }

  lemma CreateRest(db: Db, user: nat, slug: string, db': Db)
    requires Inv(db) && !SlugUsed(db, slug, None) && db' == CreateWorkspace(db, user, slug).0
    ensures OneMembershipEach(db') && InvitationsSound(db') && TokensUnique(db')
  {
    hide OwnersSeated, NoOtherOwners, UniqueSlugs, SlugUsed;
    RolesAdded(db.roles, db.nextId, 4);
    hide WithRoles;
  }

  lemma CreateSlugs(db: Db, user: nat, slug: string, db': Db)
    requires Inv(db) && !SlugUsed(db, slug, None) && db' == CreateWorkspace(db, user, slug).0
    ensures UniqueSlugs(db')
  {
    hide OwnersSeated, NoOtherOwners, RolesBelong, InvitationsSound, TokensUnique, OneMembershipEach, WithRoles;
    assert forall x :: Live(db', x) && x != db.nextId ==> Live(db, x) && db'.workspaces[x] == db.workspaces[x];
    assert forall x :: Live(db, x) ==> db.workspaces[x].slug != slug;
  }

  lemma RenameKeeps(db: Db, w: nat, slug: string)
    requires Inv(db)
    ensures Inv(UpdateWorkspace(db, w, slug).0)
  {
    var db' := UpdateWorkspace(db, w, slug).0;
    if db' != db {
      RenameSlugs(db, w, slug, db');
      RenameRest(db, w, slug, db');
    }
  }

  lemma RenameSlugs(db: Db, w: nat, slug: string, db': Db)
    requires Live(db, w) && (slug == db.workspaces[w].slug || !SlugUsed(db, slug, Some(w))) && UniqueSlugs(db)
    requires db' == db.(workspaces := db.workspaces[w := db.workspaces[w].(slug := slug)])
    ensures UniqueSlugs(db')
  {
    forall x | Live(db', x) && x != w
      ensures Live(db, x) && db'.workspaces[x].slug != slug
    {
      assert Live(db, x) && db'.workspaces[x] == db.workspaces[x] && Some(x) != Some(w);
    }
  }

  lemma RenameRest(db: Db, w: nat, slug: string, db': Db)
    requires Inv(db) && Live(db, w) && db' == db.(workspaces := db.workspaces[w := db.workspaces[w].(slug := slug)])
    ensures IdsGiven(db') && RolesBelong(db') && OneMembershipEach(db') && OwnersSeated(db') && NoOtherOwners(db')
              && InvitationsSound(db') && TokensUnique(db')
  {
    hide UniqueSlugs, OwnersSeated, NoOtherOwners;
    SeatsKept(db, db', db.nextId);
  }

  lemma DeleteKeeps(db: Db, w: nat)
    requires Inv(db)
    ensures Inv(DeleteWorkspace(db, w).0)
  {
    if Live(db, w) {
      var db' := DeleteWorkspace(db, w).0;
      DeleteSeats(db, w, db');
      DeleteRows(db, w, db');
      DeleteOffers(db, w, db');
    }
  }

  lemma DeleteSeats(db: Db, w: nat, db': Db)
    requires Inv(db) && Live(db, w) && db' == DeleteWorkspace(db, w).0
    ensures OwnersSeated(db') && NoOtherOwners(db')
  {
    hide OwnersSeated, NoOtherOwners, OneMembershipEach, InvitationsSound, TokensUnique, UniqueSlugs;
    SeatsKept(db, db', db.nextId);
  }

  lemma DeleteRows(db: Db, w: nat, db': Db)
    requires Inv(db) && Live(db, w) && db' == DeleteWorkspace(db, w).0
    ensures IdsGiven(db') && RolesBelong(db') && OneMembershipEach(db')
  {
    hide OwnersSeated, NoOtherOwners, InvitationsSound, TokensUnique, UniqueSlugs;
  }

  lemma DeleteOffers(db: Db, w: nat, db': Db)
    requires Inv(db) && Live(db, w) && db' == DeleteWorkspace(db, w).0
    ensures InvitationsSound(db') && TokensUnique(db') && UniqueSlugs(db')
  {
    hide OwnersSeated, NoOtherOwners, RolesBelong, OneMembershipEach, IdsGiven;
  }

  lemma SameOffers(db: Db, db': Db)
    requires InvitationsSound(db) && TokensUnique(db) && UniqueSlugs(db)
    requires db'.workspaces == db.workspaces && db'.roles == db.roles && db'.invitations == db.invitations
    ensures InvitationsSound(db') && TokensUnique(db') && UniqueSlugs(db')
  {
    assert forall i :: i in db.invitations ==> Sound(db, db.invitations[i]) == Sound(db', db.invitations[i]);
    assert forall w :: Live(db', w) == Live(db, w);
  }

  lemma MemberAdded(db: Db, w: nat, user: nat, role: nat, db': Db)
    requires Inv(db) && RoleIn(db, role, w) && db.roles[role].name != OwnerRole && !IsMember(db, w, user)
    requires db' == db.(nextId := db.nextId + 1, members := db.members[db.nextId := Membership(w, user, role)])
    ensures Inv(db')
  {
    hide OwnersSeated, NoOtherOwners, InvitationsSound, TokensUnique, UniqueSlugs;
    SameOffers(db, db');
    MemberAddedSeats(db, w, user, role, db');
    assert forall m :: m in db.members ==> !SameSeat(db.members[m], db'.members[db.nextId]) by {
      assert forall m :: !IsMemberRow(db, m, w, user);
    }
  }

  lemma MemberAddedSeats(db: Db, w: nat, user: nat, role: nat, db': Db)
    requires Inv(db) && RoleIn(db, role, w) && db.roles[role].name != OwnerRole
    requires db' == db.(nextId := db.nextId + 1, members := db.members[db.nextId := Membership(w, user, role)])
    ensures OwnersSeated(db') && NoOtherOwners(db')
  {
    hide OwnersSeated, NoOtherOwners, OneMembershipEach, InvitationsSound, TokensUnique, UniqueSlugs, RolesBelong;
    SeatsKept(db, db', db.nextId);
  }

  /** One invitation row is written: a new one or one there was. */
  lemma InvitationWritten(db: Db, i: nat, inv: Invitation, next: nat, db': Db)
    requires Inv(db) && i < next && db.nextId <= next && Sound(db, inv)
    requires forall j :: j in db.invitations && j != i ==> db.invitations[j].token != inv.token
    requires db' == db.(nextId := next, invitations := db.invitations[i := inv])
    ensures Inv(db')
  {
    hide OwnersSeated, NoOtherOwners, OneMembershipEach, UniqueSlugs;
    SameSeats(db, db');
    assert forall r, w :: RoleIn(db', r, w) == RoleIn(db, r, w);
  }

  lemma SameSeats(db: Db, db': Db)
    requires OwnersSeated(db) && NoOtherOwners(db) && OneMembershipEach(db) && UniqueSlugs(db)
    requires db'.workspaces == db.workspaces && db'.roles == db.roles && db'.members == db.members
    ensures OwnersSeated(db') && NoOtherOwners(db') && OneMembershipEach(db') && UniqueSlugs(db')
  {
    SeatsKept(db, db', db.nextId) by {
      hide OwnersSeated, NoOtherOwners, OneMembershipEach, UniqueSlugs;
      assert forall m :: HasOwnerRole(db', m) == HasOwnerRole(db, m);
    }
  }

  lemma RevokeKeeps(db: Db, i: nat, db': Db)
    requires Inv(db) && db' == db.(invitations := db.invitations - {i})
    ensures Inv(db')
  {
    hide OwnersSeated, NoOtherOwners, OneMembershipEach, UniqueSlugs;
    SameSeats(db, db');
  }

  lemma Facts(db: Db, i: nat)
    requires Inv(db) && i in db.invitations
    ensures i < db.nextId && Sound(db, db.invitations[i])
    ensures forall j :: j in db.invitations && j != i ==> db.invitations[j].token != db.invitations[i].token
  {
  }

  lemma JoinKeeps(db: Db, now: int, i: nat, user: nat)
    requires Inv(db) && i in db.invitations && db.invitations[i].declinedAt == None
    ensures Inv(Join(db, now, i, user).0)
  {
    var inv := db.invitations[i];
    if !IsMember(db, inv.workspace, user) {
      hide Inv, IsMember, Sound, IdsGiven;
      Facts(db, i);
      var answered := db.(invitations := db.invitations[i := inv.(acceptedAt := Some(now))]);
      InvitationWritten(db, i, inv.(acceptedAt := Some(now)), db.nextId, answered);
      NotMemberStill(db, answered, inv.workspace, user);
      MemberAdded(answered, inv.workspace, user, inv.role, Join(db, now, i, user).0);
    }
  }

  lemma NotMemberStill(db: Db, db': Db, w: nat, user: nat)
    requires db'.members == db.members && !IsMember(db, w, user)
    ensures !IsMember(db', w, user)
  {
    assert forall m :: IsMemberRow(db', m, w, user) ==> IsMemberRow(db, m, w, user);
  }

  lemma RemoveKeeps(db: Db, w: nat, user: nat)
    requires Inv(db)
    ensures Inv(RemoveMember(db, w, user).0)
  {
    var db' := RemoveMember(db, w, user).0;
    if db' != db {
      hide OwnersSeated, NoOtherOwners, InvitationsSound, TokensUnique, UniqueSlugs, IdsGiven, RolesBelong,
          OneMembershipEach;
      SameOffers(db, db');
      RemoveSeats(db, w, user, db');
      RemoveRows(db, w, user, db');
    }
  }

  lemma RemoveRows(db: Db, w: nat, user: nat, db': Db)
    requires IdsGiven(db) && RolesBelong(db) && OneMembershipEach(db)
    requires db' == db.(members := map m | m in db.members && !IsMemberRow(db, m, w, user) :: db.members[m])
    ensures IdsGiven(db') && RolesBelong(db') && OneMembershipEach(db')
  {
  }

  lemma RemoveSeats(db: Db, w: nat, user: nat, db': Db)
    requires Inv(db) && Live(db, w) && db.workspaces[w].owner != user
    requires db' == db.(members := map m | m in db.members && !IsMemberRow(db, m, w, user) :: db.members[m])
    ensures OwnersSeated(db') && NoOtherOwners(db')
  {
    hide OwnersSeated, OneMembershipEach, InvitationsSound, TokensUnique, UniqueSlugs, RolesBelong;
    SeatsKept(db, db', db.nextId);
  }

  lemma UpdateRoleKeeps(db: Db, w: nat, user: nat, role: nat)
    requires Inv(db)
    ensures Inv(UpdateMemberRole(db, w, user, role).0)
  {
    var db' := UpdateMemberRole(db, w, user, role).0;
    if db' != db {
      var m := FindMember(db, w, user).value;
      hide OwnersSeated, NoOtherOwners, InvitationsSound, TokensUnique, UniqueSlugs, IdsGiven, RolesBelong,
          OneMembershipEach;
      SameOffers(db, db');
      UpdateRoleSeats(db, w, user, role, m, db');
      UpdateRoleRows(db, w, user, role, m, db');
    }
  }

  lemma UpdateRoleRows(db: Db, w: nat, user: nat, role: nat, m: nat, db': Db)
    requires IdsGiven(db) && RolesBelong(db) && OneMembershipEach(db) && IsMemberRow(db, m, w, user)
               && RoleIn(db, role, w)
    requires db' == db.(members := db.members[m := db.members[m].(role := role)])
    ensures IdsGiven(db') && RolesBelong(db') && OneMembershipEach(db')
  {
    assert forall n :: n in db.members ==> SameSeat(db'.members[n], db.members[n]);
  }

  lemma UpdateRoleSeats(db: Db, w: nat, user: nat, role: nat, m: nat, db': Db)
    requires Inv(db) && Live(db, w) && db.workspaces[w].owner != user && IsMemberRow(db, m, w, user)
    requires RoleIn(db, role, w) && db.roles[role].name != OwnerRole
    requires db' == db.(members := db.members[m := db.members[m].(role := role)])
    ensures OwnersSeated(db') && NoOtherOwners(db')
  {
    hide OwnersSeated, OneMembershipEach, InvitationsSound, TokensUnique, UniqueSlugs, RolesBelong;
    SeatsKept(db, db', db.nextId);
  }

  lemma InsertKeeps(db: Db, w: nat, user: nat, role: nat)
    requires Inv(db) && RoleIn(db, role, w) && db.roles[role].name != OwnerRole
    ensures Inv(InsertMember(db, w, user, role).0)
  {
    if !IsMember(db, w, user) {
      MemberAdded(db, w, user, role, InsertMember(db, w, user, role).0);
    }
  }
}
