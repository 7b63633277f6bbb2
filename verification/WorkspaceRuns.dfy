/** Any sequence of calls to the workspace service, starting from empty tables. */
module WorkspaceRuns {
  import opened Options
  import opened Workspaces

  datatype Call =
    | Create(user: nat, slug: string)
    | Rename(w: nat, slug: string)
    | Delete(w: nat)
    | Offer(now: int, w: nat, email: string, domainAllowed: bool, role: nat, token: Option<string>)
    | Accept(now: int, text: string, user: nat, email: string)
    | AcceptID(now: int, i: nat, user: nat, email: string)
    | Decline(now: int, text: string, email: string)
    | DeclineID(now: int, i: nat, email: string)
    | Withdraw(w: nat, i: nat)
    | SendAgain(now: int, w: nat, i: nat, token: Option<string>)
    | Remove(w: nat, user: nat)
    | ChangeRole(w: nat, user: nat, role: nat)
    | Add(w: nat, domainAllowed: bool, role: nat, found: Option<nat>, created: Option<nat>)

  ghost function Do(db: Db, enabled: bool, c: Call): (Db, Reply) {
    match c
    case Create(user, slug) => CreateWorkspace(db, user, slug)
    case Rename(w, slug) => UpdateWorkspace(db, w, slug)
    case Delete(w) => DeleteWorkspace(db, w)
    case Offer(now, w, email, domainAllowed, role, token) =>
        Invite(db, enabled, now, w, email, domainAllowed, role, token)
    case Accept(now, text, user, email) => AcceptByToken(db, enabled, now, text, user, email)
    case AcceptID(now, i, user, email) => AcceptByID(db, enabled, now, i, user, email)
    case Decline(now, text, email) => DeclineByToken(db, enabled, now, text, email)
    case DeclineID(now, i, email) => DeclineByID(db, enabled, now, i, email)
    case Withdraw(w, i) => Revoke(db, enabled, w, i)
    case SendAgain(now, w, i, token) => Resend(db, enabled, now, w, i, token)
    case Remove(w, user) => RemoveMember(db, w, user)
    case ChangeRole(w, user, role) => UpdateMemberRole(db, w, user, role)
    case Add(w, domainAllowed, role, found, created) => AddUser(db, w, domainAllowed, role, found, created)
  }

  // ----- one call -----

  lemma InviteKeeps(db: Db, enabled: bool, now: int, w: nat, email: string, domainAllowed: bool, role: nat,
      token: Option<string>)
    requires Inv(db)
    ensures Inv(Invite(db, enabled, now, w, email, domainAllowed, role, token).0)
  {
    hide Inv, IdsGiven;
    var db' := Invite(db, enabled, now, w, email, domainAllowed, role, token).0;
    if db' != db {
      NotUsedAtAll(db, token.value);
      hide TokenUsed;
      InvitationWritten(db, db.nextId, db'.invitations[db.nextId], db.nextId + 1, db');
    }
  }

  lemma NotUsedAtAll(db: Db, token: string)
    requires !TokenUsed(db, token, None)
    ensures forall j :: j in db.invitations ==> db.invitations[j].token != token
  {
    assert forall j: nat :: Some(j) != None;
  }

  lemma ResendKeeps(db: Db, enabled: bool, now: int, w: nat, i: nat, token: Option<string>)
    requires Inv(db)
    ensures Inv(Resend(db, enabled, now, w, i, token).0)
  {
    hide Inv, IdsGiven;
    var db' := Resend(db, enabled, now, w, i, token).0;
    if db' != db {
      Facts(db, i);
      NotUsed(db, token.value, i);
      hide TokenUsed;
      InvitationWritten(db, i, db'.invitations[i], db.nextId, db');
    }
  }

  lemma NotUsed(db: Db, token: string, i: nat)
    requires !TokenUsed(db, token, Some(i))
    ensures forall j :: j in db.invitations && j != i ==> db.invitations[j].token != token
  {
    assert forall j: nat :: j != i ==> Some(j) != Some(i);
  }

  lemma DeclineKeeps(db: Db, enabled: bool, now: int, i: nat, email: string)
    requires Inv(db)
    ensures Inv(DeclineByID(db, enabled, now, i, email).0)
  {
    var db' := DeclineByID(db, enabled, now, i, email).0;
    if db' != db {
      hide Inv;
      Facts(db, i);
      InvitationWritten(db, i, db'.invitations[i], db.nextId, db');
    }
  }

  lemma StepKeeps(db: Db, enabled: bool, c: Call)
    requires Inv(db)
    ensures Inv(Do(db, enabled, c).0)
  {
    hide Inv, CreateWorkspace, UpdateWorkspace, DeleteWorkspace, Invite, DeclineByID, Resend, RemoveMember,
        UpdateMemberRole, Join, IsMember;
    match c
    case Create(user, slug) => CreateKeeps(db, user, slug);
    case Rename(w, slug) => RenameKeeps(db, w, slug);
    case Delete(w) => DeleteKeeps(db, w);
    case Offer(now, w, email, domainAllowed, role, token) =>
        InviteKeeps(db, enabled, now, w, email, domainAllowed, role, token);
    case Accept(now, text, user, email) =>
      if Do(db, enabled, c).0 != db {
        JoinKeeps(db, now, FindByToken(db, text).value, user);
      }
    case AcceptID(now, i, user, email) =>
      if Do(db, enabled, c).0 != db {
        JoinKeeps(db, now, i, user);
      }
    case Decline(now, text, email) =>
      if enabled && FindByToken(db, text).Some? {
        DeclineKeeps(db, enabled, now, FindByToken(db, text).value, email);
      }
    case DeclineID(now, i, email) => DeclineKeeps(db, enabled, now, i, email);
    case Withdraw(w, i) =>
      if Do(db, enabled, c).0 != db {
        RevokeKeeps(db, i, Do(db, enabled, c).0);
      }
    case SendAgain(now, w, i, token) => ResendKeeps(db, enabled, now, w, i, token);
    case Remove(w, user) => RemoveKeeps(db, w, user);
    case ChangeRole(w, user, role) => UpdateRoleKeeps(db, w, user, role);
    case Add(w, domainAllowed, role, found, created) =>
      if RoleIn(db, role, w) && db.roles[role].name != OwnerRole {
        if found.Some? {
          InsertKeeps(db, w, found.value, role);
        } else if created.Some? {
          InsertKeeps(db, w, created.value, role);
        }
      }
  }

  predicate Answered(inv: Invitation) {
    inv.acceptedAt.Some? || inv.declinedAt.Some?
  }

  /** What one call may do to invitation i: leave it out for good once it is gone; never
      change what it offers or to whom; never touch an answer; drop it only while it is
      open or with its workspace. */
  lemma InvitationFate(db: Db, enabled: bool, c: Call, i: nat)
    requires i < db.nextId
    ensures var db' := Do(db, enabled, c).0;
      && db.nextId <= db'.nextId
      && (i !in db.invitations ==> i !in db'.invitations)
      && (i in db.invitations && i !in db'.invitations ==>
            (c.Withdraw? && c.i == i && !Answered(db.invitations[i])) || c == Delete(db.invitations[i].workspace))
      && (i in db.invitations && i in db'.invitations ==>
            && db'.invitations[i].workspace == db.invitations[i].workspace
            && db'.invitations[i].email == db.invitations[i].email
            && db'.invitations[i].role == db.invitations[i].role
            && (Answered(db.invitations[i]) ==> db'.invitations[i] == db.invitations[i]))
  {
    hide IsMember, SlugUsed, TokenUsed, IsMemberRow, WithRoles;
  }

  /** Which invitation a call turns into a membership. */
  ghost function Admits(db: Db, enabled: bool, c: Call): Option<nat> {
    if c.Accept? && Do(db, enabled, c).1.Done? then FindByToken(db, c.text)
    else if c.AcceptID? && Do(db, enabled, c).1.Done? then Some(c.i)
    else None
  }

  /** An invitation admits its own addressee, while it is open, to its own workspace and
      role; whichever way it is accepted it is marked in the same step. */
  lemma AdmissionIsEarned(db: Db, enabled: bool, c: Call)
    requires Admits(db, enabled, c).Some?
    ensures var (db', i) := (Do(db, enabled, c).0, Admits(db, enabled, c).value);
      && i in db.invitations && i in db'.invitations && enabled
      && !Answered(db.invitations[i]) && c.now <= db.invitations[i].expiresAt && c.email == db.invitations[i].email
      && db'.invitations[i].acceptedAt == Some(c.now)
      && !IsMember(db, db.invitations[i].workspace, c.user)
      && db'.members == db.members[db.nextId := Membership(db.invitations[i].workspace, c.user, db.invitations[i].role)]
  {
    hide IsMember;
  }

  /** The only ways into a workspace: founding it, accepting an invitation to it, being added. */
  lemma WhoJoins(db: Db, enabled: bool, c: Call, w: nat, u: nat)
    requires !IsMember(db, w, u) && IsMember(Do(db, enabled, c).0, w, u)
    ensures || (c.Create? && c.user == u && w == db.nextId)
            || (Admits(db, enabled, c).Some? && Admits(db, enabled, c).value in db.invitations
                && db.invitations[Admits(db, enabled, c).value].workspace == w && c.user == u)
            || (c.Add? && c.w == w && (c.found == Some(u) || c.created == Some(u)) && RoleIn(db, c.role, w)
                && db.roles[c.role].name != OwnerRole)
  {
    var db' := Do(db, enabled, c).0;
    var m :| m in db'.members && IsMemberRow(db', m, w, u);
    NotRow(db, m, w, u);
    hide IsMember, SlugUsed, TokenUsed, WithRoles;
  }

  lemma NotRow(db: Db, m: nat, w: nat, u: nat)
    requires !IsMember(db, w, u)
    ensures !IsMemberRow(db, m, w, u)
  {
  }

  /** The only ways out: being removed, which the owner cannot be, and the end of the workspace. */
  lemma WhoLeaves(db: Db, enabled: bool, c: Call, w: nat, u: nat)
    requires IdsGiven(db) && IsMember(db, w, u) && !IsMember(Do(db, enabled, c).0, w, u)
    ensures (c == Remove(w, u) && Live(db, w) && db.workspaces[w].owner != u) || c == Delete(w)
  {
    var m :| m in db.members && IsMemberRow(db, m, w, u);
    NotRow(Do(db, enabled, c).0, m, w, u);
    assert m < db.nextId;
    hide IdsGiven, IsMember, SlugUsed, TokenUsed, WithRoles;
  }

  /** A resent invitation no longer answers to its former token. */
  lemma OldTokenIsDead(db: Db, enabled: bool, now: int, w: nat, i: nat, token: Option<string>, later: int, user: nat,
      email: string)
    requires Inv(db) && i in db.invitations
    requires Resend(db, enabled, now, w, i, token).1.Done? && token != Some(db.invitations[i].token)
    ensures AcceptByToken(Resend(db, enabled, now, w, i, token).0, enabled, later,
                          db.invitations[i].token, user, email).1 == Failed(InvitationNotFound)
  {
    hide Inv, IsMember, Join, Sound;
    Facts(db, i);
  }

  /** The two ways of accepting differ only for somebody else's invitation that is closed:
      one names the reason, the other the wrong address. */
  lemma RoutesAgreeIff(db: Db, enabled: bool, now: int, i: nat, user: nat, email: string)
    requires Inv(db) && i in db.invitations
    ensures AcceptByToken(db, enabled, now, db.invitations[i].token, user, email)
              == AcceptByID(db, enabled, now, i, user, email)
            <==> !enabled || email == db.invitations[i].email || Closed(db.invitations[i], now) == None
  {
    hide Inv, IsMember, Join, Sound;
    Facts(db, i);
  }

  // ----- runs -----

  ghost predicate IsRun(states: seq<Db>, enabled: bool, calls: seq<Call>) {
    && |states| == |calls| + 1 && states[0] == EMPTY
    && forall k :: 0 <= k < |calls| ==> states[k + 1] == Do(states[k], enabled, calls[k]).0
  }

  /** In every reachable state each live workspace's owner is a member with the owner role
      and nobody else is; roles of members and invitations belong to their workspace; a
      user has one membership in a workspace; an invitation is answered one way at most. */
  lemma {:induction false} RunKeeps(states: seq<Db>, enabled: bool, calls: seq<Call>, k: nat)
    requires IsRun(states, enabled, calls) && k < |states|
    ensures Inv(states[k])
    decreases k
  {
    if k > 0 {
      RunKeeps(states, enabled, calls, k - 1);
      StepKeeps(states[k - 1], enabled, calls[k - 1]);
    }
  }

  /** An answered invitation stays exactly as it is until its workspace is deleted, and
      then never comes back. */
  lemma {:induction false} AnswersStand(states: seq<Db>, enabled: bool, calls: seq<Call>, k: nat, l: nat, i: nat)
    requires IsRun(states, enabled, calls) && k <= l < |states|
    requires i in states[k].invitations && Answered(states[k].invitations[i])
    ensures i < states[l].nextId
    ensures i in states[l].invitations ==> states[l].invitations[i] == states[k].invitations[i]
    decreases l
  {
    hide Inv, Do;
    RunKeeps(states, enabled, calls, l);
    IdOfInvitation(states[k], i);
    if k < l {
      AnswersStand(states, enabled, calls, k, l - 1, i);
      InvitationFate(states[l - 1], enabled, calls[l - 1], i);
    }
  }

  lemma IdOfInvitation(db: Db, i: nat)
    requires i in db.invitations
    ensures Inv(db) ==> i < db.nextId
  {
    hide RolesBelong, OneMembershipEach, OwnersSeated, NoOtherOwners, InvitationsSound, TokensUnique, UniqueSlugs;
  }

  /** No invitation admits twice, by whatever route. */
  lemma AdmitsOnce(states: seq<Db>, enabled: bool, calls: seq<Call>, k: nat, l: nat)
    requires IsRun(states, enabled, calls) && k < l < |calls| && Admits(states[k], enabled, calls[k]).Some?
    ensures Admits(states[l], enabled, calls[l]) != Admits(states[k], enabled, calls[k])
  {
    var i := Admits(states[k], enabled, calls[k]).value;
    RunKeeps(states, enabled, calls, k);
    RunKeeps(states, enabled, calls, l);
    AdmissionIsEarned(states[k], enabled, calls[k]);
    assert states[k + 1] == Do(states[k], enabled, calls[k]).0;
    hide Inv, IsMember, Do, Admits;
    AnswersStand(states, enabled, calls, k + 1, l, i);
    if Admits(states[l], enabled, calls[l]).Some? {
      AdmissionIsEarned(states[l], enabled, calls[l]);
    }
  }

  lemma IdGiven(db: Db, w: nat)
    requires Inv(db) && w in db.workspaces
    ensures w < db.nextId
  {
  }

  lemma OwnerStep(db: Db, enabled: bool, c: Call, w: nat)
    requires w in db.workspaces && w < db.nextId
    ensures var db' := Do(db, enabled, c).0;
      w in db'.workspaces && db'.workspaces[w].owner == db.workspaces[w].owner
      && (db'.workspaces[w].deleted <==> db.workspaces[w].deleted || c == Delete(w))
  {
    hide IsMember, SlugUsed, TokenUsed, IsMemberRow, WithRoles;
  }

  /** A workspace has one owner for life, who holds its owner role as long as it lives. */
  lemma {:induction false} OwnerForLife(states: seq<Db>, enabled: bool, calls: seq<Call>, k: nat, l: nat, w: nat)
    requires IsRun(states, enabled, calls) && k <= l < |states| && w in states[k].workspaces
    ensures w in states[l].workspaces && states[l].workspaces[w].owner == states[k].workspaces[w].owner
    ensures Live(states[l], w) <==> Live(states[k], w) && forall j :: k <= j < l ==> calls[j] != Delete(w)
    ensures Live(states[l], w) ==> OwnerSeated(states[l], w, states[k].workspaces[w].owner)
    decreases l
  {
    hide Do, IdsGiven, RolesBelong, OneMembershipEach, NoOtherOwners, InvitationsSound, TokensUnique, UniqueSlugs,
        OwnerSeated;
    RunKeeps(states, enabled, calls, l);
    if k < l {
      OwnerForLife(states, enabled, calls, k, l - 1, w);
      RunKeeps(states, enabled, calls, l - 1);
      IdGiven(states[l - 1], w);
      OwnerStep(states[l - 1], enabled, calls[l - 1], w);
    }
  }
}
