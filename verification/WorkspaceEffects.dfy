/** When each call to the workspace service succeeds, and everything it then changes. */
module WorkspaceEffects {
  import opened Options
  import opened Workspaces
  import opened WorkspaceRuns

  const A_WEEK := 604_800

  /** Nobody else's slug: of the live workspaces only w, if any, has it. */
  ghost predicate SlugFree(db: Db, slug: string, w: Option<nat>) {
    forall x :: Live(db, x) && db.workspaces[x].slug == slug ==> Some(x) == w
  }

  ghost predicate TokenFree(db: Db, token: string, i: Option<nat>) {
    forall x :: x in db.invitations && db.invitations[x].token == token ==> Some(x) == i
  }

  predicate MayBeGiven(db: Db, role: nat, w: nat) {
    RoleIn(db, role, w) && db.roles[role].name != OwnerRole
  }

  predicate Unanswered(inv: Invitation) {
    inv.acceptedAt == None && inv.declinedAt == None
  }

  /** Unanswered, and not past its time. */
  predicate Open(inv: Invitation, now: int) {
    Unanswered(inv) && now <= inv.expiresAt
  }

  // ----- workspaces -----

  lemma CreateDoes(db: Db, enabled: bool, user: nat, slug: string)
    ensures var (db', r) := Do(db, enabled, Create(user, slug));
            && (r.Done? <==> SlugFree(db, slug, None))
            && (r.Done? ==>
                  var w := db.nextId;
                  && r.id == w && db'.nextId == w + 6
                  && db'.workspaces == db.workspaces[w := Workspace(slug, user, false)]
                  && db'.roles == db.roles[w + 1 := Role(w, OwnerRole)][w + 2 := Role(w, AdminRole)]
                                          [w + 3 := Role(w, MemberRole)][w + 4 := Role(w, ViewerRole)]
                  && db'.members == db.members[w + 5 := Membership(w, user, w + 1)]
                  && db'.invitations == db.invitations)
  {
    FourRoles(db.roles, db.nextId);
    hide WithRoles;
    assert forall x: nat :: Some(x) != None;
  }

  lemma FourRoles(roles: map<nat, Role>, w: nat)
    ensures WithRoles(roles, w, 4) == roles[w + 1 := Role(w, OwnerRole)][w + 2 := Role(w, AdminRole)]
                                           [w + 3 := Role(w, MemberRole)][w + 4 := Role(w, ViewerRole)]
  {
    assert WithRoles(roles, w, 1) == WithRoles(roles, w, 0)[w + 1 := Role(w, OwnerRole)];
    assert WithRoles(roles, w, 2) == WithRoles(roles, w, 1)[w + 2 := Role(w, AdminRole)];
    assert WithRoles(roles, w, 3) == WithRoles(roles, w, 2)[w + 3 := Role(w, MemberRole)];
  }

  lemma RenameDoes(db: Db, enabled: bool, w: nat, slug: string)
    ensures var (db', r) := Do(db, enabled, Rename(w, slug));
            && (r.Done? <==> Live(db, w) && (slug == db.workspaces[w].slug || SlugFree(db, slug, Some(w))))
            && (r.Done? ==>
                  db' == db.(workspaces := db.workspaces[w := Workspace(slug, db.workspaces[w].owner, false)]))
  {
  }

  lemma DeleteDoes(db: Db, enabled: bool, w: nat)
    ensures var (db', r) := Do(db, enabled, Delete(w));
            && (r.Done? <==> Live(db, w))
            && (r.Done? ==>
                  && db'.workspaces ==
                       db.workspaces[w := Workspace(db.workspaces[w].slug, db.workspaces[w].owner, true)]
                  && (forall x :: x in db'.roles <==> x in db.roles && db.roles[x].workspace != w)
                  && (forall x :: x in db'.members <==> x in db.members && db.members[x].workspace != w)
                  && (forall x :: x in db'.invitations <==> x in db.invitations && db.invitations[x].workspace != w)
                  && (forall x :: x in db'.roles ==> db'.roles[x] == db.roles[x])
                  && (forall x :: x in db'.members ==> db'.members[x] == db.members[x])
                  && (forall x :: x in db'.invitations ==> db'.invitations[x] == db.invitations[x])
                  && forall u :: !IsMember(db', w, u))
  {
  }

  // ----- invitations -----

  /** An invitation goes to the address given, for a week, unanswered. */
  lemma OfferDoes(db: Db, enabled: bool, now: int, w: nat, email: string, domainAllowed: bool, role: nat,
                  token: Option<string>)
    ensures var (db', r) := Do(db, enabled, Offer(now, w, email, domainAllowed, role, token));
            && (r.Done? <==> enabled && domainAllowed && MayBeGiven(db, role, w) && token.Some?
                             && TokenFree(db, token.value, None))
            && (r.Done? ==>
                  && r.id == db.nextId
                  && db' == db.(nextId := db.nextId + 1, invitations := db.invitations[db.nextId :=
                                  Invitation(w, email, role, token.value, now + A_WEEK, None, None)]))
  {
    assert forall x: nat :: Some(x) != None;
  }

  /** An open invitation admits whoever has its address and is no member yet, in its role. */
  lemma AcceptIDDoes(db: Db, enabled: bool, now: int, i: nat, user: nat, email: string)
    ensures var (db', r) := Do(db, enabled, AcceptID(now, i, user, email));
            && (r.Done? <==> enabled && i in db.invitations && db.invitations[i].email == email
                             && Open(db.invitations[i], now) && !IsMember(db, db.invitations[i].workspace, user))
            && (r.Done? ==>
                  var inv := db.invitations[i];
                  && db' == db.(nextId := db.nextId + 1,
                                invitations := db.invitations[i := Invitation(inv.workspace, inv.email, inv.role,
                                                 inv.token, inv.expiresAt, Some(now), None)],
                                members := db.members[db.nextId := Membership(inv.workspace, user, inv.role)])
                  && IsMember(db', inv.workspace, user))
  {
    var (db', r) := Do(db, enabled, AcceptID(now, i, user, email));
    if r.Done? {
      Seated(db', db.nextId);
    }
    hide IsMember;
  }

  lemma Seated(db: Db, m: nat)
    requires m in db.members
    ensures IsMember(db, db.members[m].workspace, db.members[m].user)
  {
    assert IsMemberRow(db, m, db.members[m].workspace, db.members[m].user);
  }

  /** Declining marks the invitation as declined, and does nothing else. */
  lemma DeclineIDDoes(db: Db, enabled: bool, now: int, i: nat, email: string)
    ensures var (db', r) := Do(db, enabled, DeclineID(now, i, email));
            && (r.Done? <==> enabled && i in db.invitations && db.invitations[i].email == email
                             && Open(db.invitations[i], now))
            && (r.Done? ==>
                  var inv := db.invitations[i];
                  db' == db.(invitations := db.invitations[i := Invitation(inv.workspace, inv.email, inv.role,
                                              inv.token, inv.expiresAt, None, Some(now))]))
  {
  }

  /** By token: the invitation that has it, if there is one, is answered; with its address
      checked, a token does what the id does. */
  lemma TokenDoes(db: Db, enabled: bool, now: int, text: string, user: nat, email: string)
    requires Inv(db)
    ensures forall i :: i in db.invitations && db.invitations[i].token == text ==>
              && (Do(db, enabled, Accept(now, text, user, email)).1.Done?
                  <==> Do(db, enabled, AcceptID(now, i, user, email)).1.Done?)
              && Do(db, enabled, Accept(now, text, user, email)).0 == Do(db, enabled, AcceptID(now, i, user, email)).0
              && Do(db, enabled, Decline(now, text, email)) == Do(db, enabled, DeclineID(now, i, email))
    ensures TokenFree(db, text, None) ==>
              && !Do(db, enabled, Accept(now, text, user, email)).1.Done?
              && !Do(db, enabled, Decline(now, text, email)).1.Done?
  {
    hide Inv, Do;
    forall i | i in db.invitations && db.invitations[i].token == text
      ensures Do(db, enabled, Accept(now, text, user, email)).1.Done?
              <==> Do(db, enabled, AcceptID(now, i, user, email)).1.Done?
      ensures Do(db, enabled, Accept(now, text, user, email)).0 == Do(db, enabled, AcceptID(now, i, user, email)).0
      ensures Do(db, enabled, Decline(now, text, email)) == Do(db, enabled, DeclineID(now, i, email))
    {
      OneTokenDoes(db, enabled, now, i, user, email);
    }
    NoTokenDoes(db, enabled, now, text, user, email);
  }

  lemma OneTokenDoes(db: Db, enabled: bool, now: int, i: nat, user: nat, email: string)
    requires Inv(db) && i in db.invitations
    ensures var text := db.invitations[i].token;
            && (Do(db, enabled, Accept(now, text, user, email)).1.Done?
                <==> Do(db, enabled, AcceptID(now, i, user, email)).1.Done?)
            && Do(db, enabled, Accept(now, text, user, email)).0 == Do(db, enabled, AcceptID(now, i, user, email)).0
            && Do(db, enabled, Decline(now, text, email)) == Do(db, enabled, DeclineID(now, i, email))
  {
    hide Inv, Join;
    Facts(db, i);
  }

  lemma NoTokenDoes(db: Db, enabled: bool, now: int, text: string, user: nat, email: string)
    ensures TokenFree(db, text, None) ==>
              && !Do(db, enabled, Accept(now, text, user, email)).1.Done?
              && !Do(db, enabled, Decline(now, text, email)).1.Done?
  {
    hide Join, DeclineByID;
    assert forall x: nat :: Some(x) != None;
  }

  /** Only an unanswered invitation of the workspace can be revoked, and it alone goes. */
  lemma WithdrawDoes(db: Db, enabled: bool, w: nat, i: nat)
    ensures var (db', r) := Do(db, enabled, Withdraw(w, i));
            && (r.Done? <==> enabled && i in db.invitations && db.invitations[i].workspace == w
                             && Unanswered(db.invitations[i]))
            && (r.Done? ==>
                  && db' == db.(invitations := db'.invitations) && i !in db'.invitations
                  && forall x :: x in db.invitations && x != i ==>
                       x in db'.invitations && db'.invitations[x] == db.invitations[x])
  {
  }

  /** A resent invitation has a new token and another week; to whom and what it offers stays. */
  lemma SendAgainDoes(db: Db, enabled: bool, now: int, w: nat, i: nat, token: Option<string>)
    ensures var (db', r) := Do(db, enabled, SendAgain(now, w, i, token));
            && (r.Done? <==> enabled && i in db.invitations && db.invitations[i].workspace == w
                             && Unanswered(db.invitations[i]) && token.Some? && TokenFree(db, token.value, Some(i)))
            && (r.Done? ==>
                  var inv := db.invitations[i];
                  db' == db.(invitations := db.invitations[i := Invitation(w, inv.email, inv.role, token.value,
                                              now + A_WEEK, None, None)]))
  {
  }

  /** An invitation just sent, or sent again, admits for a week whoever has its address and is
      no member yet, by its id and by its token. */
  lemma SentInvitationAdmits(db: Db, enabled: bool, c: Call, later: int, user: nat)
    requires Inv(db) && (c.Offer? || c.SendAgain?) && Do(db, enabled, c).1.Done? && later <= c.now + A_WEEK
    ensures var (db', r) := Do(db, enabled, c);
            && r.id in db'.invitations
            && var inv := db'.invitations[r.id];
               && c.token == Some(inv.token)
               && (Do(db', enabled, AcceptID(later, r.id, user, inv.email)).1.Done?
                   <==> !IsMember(db', inv.workspace, user))
               && (Do(db', enabled, Accept(later, inv.token, user, inv.email)).1.Done?
                   <==> !IsMember(db', inv.workspace, user))
  {
    hide Inv, Do, IsMember, TokenFree;
    var (db', r) := Do(db, enabled, c);
    StepKeeps(db, enabled, c);
    Sent(db, enabled, c);
    var inv := db'.invitations[r.id];
    AcceptIDDoes(db', enabled, later, r.id, user, inv.email);
    TokenDoes(db', enabled, later, inv.token, user, inv.email);
  }

  lemma Sent(db: Db, enabled: bool, c: Call)
    requires (c.Offer? || c.SendAgain?) && Do(db, enabled, c).1.Done?
    ensures var (db', r) := Do(db, enabled, c);
            && enabled && r.id in db'.invitations && c.token == Some(db'.invitations[r.id].token)
            && Unanswered(db'.invitations[r.id]) && db'.invitations[r.id].expiresAt == c.now + A_WEEK
  {
    hide TokenUsed;
  }

  // ----- members -----

  /** Removing a member removes the member, and nobody else. */
  lemma RemoveDoes(db: Db, enabled: bool, w: nat, u: nat)
    ensures var (db', r) := Do(db, enabled, Remove(w, u));
            && (r.Done? <==> Live(db, w) && db.workspaces[w].owner != u && IsMember(db, w, u))
            && (r.Done? ==>
                  && !IsMember(db', w, u) && db' == db.(members := db'.members)
                  && forall m :: m in db.members && !(db.members[m].workspace == w && db.members[m].user == u) ==>
                       m in db'.members && db'.members[m] == db.members[m])
            && forall m :: m in db'.members ==> m in db.members
  {
  }

  /** A member's new role takes effect, and no other row changes. */
  lemma ChangeRoleDoes(db: Db, enabled: bool, w: nat, u: nat, role: nat)
    requires Inv(db)
    ensures var (db', r) := Do(db, enabled, ChangeRole(w, u, role));
            && (r.Done? <==> Live(db, w) && db.workspaces[w].owner != u && MayBeGiven(db, role, w)
                             && IsMember(db, w, u))
            && (r.Done? ==>
                  && db' == db.(members := db'.members) && db'.members.Keys == db.members.Keys
                  && forall m :: m in db.members ==>
                       db'.members[m] == if db.members[m].workspace == w && db.members[m].user == u
                                         then Membership(w, u, role) else db.members[m])
  {
    hide IdsGiven, RolesBelong, OwnersSeated, NoOtherOwners, InvitationsSound, TokensUnique, UniqueSlugs;
    if IsMember(db, w, u) {
      var m :| m in db.members && IsMemberRow(db, m, w, u);
      assert FindMember(db, w, u).Some?;
    }
  }

  /** Whoever has the address, or the account made for it, is a member afterwards. */
  lemma AddDoes(db: Db, enabled: bool, w: nat, domainAllowed: bool, role: nat, found: Option<nat>, created: Option<nat>)
    ensures var (db', r) := Do(db, enabled, Add(w, domainAllowed, role, found, created));
            var user := if found.Some? then found else created;
            && (r.Done? <==> MayBeGiven(db, role, w) && domainAllowed && user.Some? && !IsMember(db, w, user.value))
            && (r.Done? ==>
                  && db' == db.(nextId := db.nextId + 1,
                                members := db.members[db.nextId := Membership(w, user.value, role)])
                  && IsMember(db', w, user.value))
  {
    var (db', r) := Do(db, enabled, Add(w, domainAllowed, role, found, created));
    if r.Done? {
      Seated(db', db.nextId);
    }
    hide IsMember;
  }

  // ----- refusals -----

  /** The invitation a call is about, if there is one. */
  ghost predicate About(db: Db, c: Call, i: nat) {
    && i in db.invitations
    && match c
       case Accept(_, text, _, _) => db.invitations[i].token == text
       case Decline(_, text, _) => db.invitations[i].token == text
       case AcceptID(_, id, _, _) => i == id
       case DeclineID(_, id, _) => i == id
       case Withdraw(w, id) => i == id && db.invitations[i].workspace == w
       case SendAgain(_, w, id, _) => i == id && db.invitations[i].workspace == w
       case _ => false
  }

  ghost predicate Answering(c: Call) {
    c.Accept? || c.AcceptID? || c.Decline? || c.DeclineID?
  }

  ghost predicate AboutInvitations(c: Call) {
    Answering(c) || c.Offer? || c.Withdraw? || c.SendAgain?
  }

  /** What an error says is so. */
  ghost predicate IsSo(db: Db, enabled: bool, c: Call, e: Error) {
    match e
    case SlugTaken =>
      (c.Create? && !SlugFree(db, c.slug, None)) || (c.Rename? && !SlugFree(db, c.slug, Some(c.w)))
    case WorkspaceNotFound => (c.Rename? || c.Delete? || c.Remove? || c.ChangeRole?) && !Live(db, c.w)
    case RoleNotFound => (c.Offer? || c.ChangeRole? || c.Add?) && !RoleIn(db, c.role, c.w)
    case OwnerRoleRefused =>
      (c.Offer? || c.Add?) && RoleIn(db, c.role, c.w) && db.roles[c.role].name == OwnerRole
    case CannotRemoveOwner => c.Remove? && Live(db, c.w) && db.workspaces[c.w].owner == c.user
    case CannotChangeOwner =>
      c.ChangeRole? && Live(db, c.w)
      && (db.workspaces[c.w].owner == c.user
          || (RoleIn(db, c.role, c.w) && db.roles[c.role].name == OwnerRole))
    case MemberNotFound => (c.Remove? || c.ChangeRole?) && !IsMember(db, c.w, c.user)
    case InvitationsDisabled => !enabled
    case InvitationNotFound =>
      forall i :: About(db, c, i) ==> c.Withdraw? && !Unanswered(db.invitations[i])
    case InvitationAccepted => exists i :: About(db, c, i) && db.invitations[i].acceptedAt.Some?
    case InvitationDeclined => exists i :: About(db, c, i) && db.invitations[i].declinedAt.Some?
    case InvitationExpired => Answering(c) && exists i :: About(db, c, i) && c.now > db.invitations[i].expiresAt
    case InvitationEmailMismatch => Answering(c) && exists i :: About(db, c, i) && c.email != db.invitations[i].email
    case AlreadyMember =>
      || (c.Add? && c.found.Some? && IsMember(db, c.w, c.found.value))
      || ((c.Accept? || c.AcceptID?)
          && exists i :: About(db, c, i) && IsMember(db, db.invitations[i].workspace, c.user))
    case DomainNotAllowed => (c.Offer? || c.Add?) && !c.domainAllowed
    case TokenFailed => (c.Offer? || c.SendAgain?) && c.token == None
    case UserNotCreated => c.Add? && c.found == None && c.created == None
    case StoreFailed =>
      || (c.Offer? && c.token.Some? && !TokenFree(db, c.token.value, None))
      || (c.SendAgain? && c.token.Some? && !TokenFree(db, c.token.value, Some(c.i)))
      || (c.Add? && c.created.Some? && IsMember(db, c.w, c.created.value))
  }

  /** A refused call changes nothing, and the reason it gives is true. */
  lemma RefusalsTellWhy(db: Db, enabled: bool, c: Call)
    ensures var (db', r) := Do(db, enabled, c);
            r.Failed? ==> db' == db && IsSo(db, enabled, c, r.error)
  {
    hide Do, IsSo;
    if AboutInvitations(c) {
      InvitationRefused(db, enabled, c);
    } else {
      OtherRefused(db, enabled, c);
    }
  }

  lemma InvitationRefused(db: Db, enabled: bool, c: Call)
    requires AboutInvitations(c)
    ensures var (db', r) := Do(db, enabled, c);
            r.Failed? ==> db' == db && IsSo(db, enabled, c, r.error)
  {
    hide IsMember;
    FoundAbout(db, c);
    assert forall x: nat :: Some(x) != None;
  }

  lemma OtherRefused(db: Db, enabled: bool, c: Call)
    requires !AboutInvitations(c)
    ensures var (db', r) := Do(db, enabled, c);
            r.Failed? ==> db' == db && IsSo(db, enabled, c, r.error)
  {
    hide IsMember, WithRoles;
    if c.ChangeRole? {
      NotFound(db, c.w, c.user);
    }
    assert forall x: nat :: Some(x) != None;
  }

  lemma NotFound(db: Db, w: nat, u: nat)
    ensures FindMember(db, w, u) == None <==> !IsMember(db, w, u)
  {
  }

  lemma FoundAbout(db: Db, c: Call)
    ensures c.Accept? || c.Decline? ==>
              match FindByToken(db, c.text)
              case Some(i) => About(db, c, i)
              case None => forall i :: !About(db, c, i)
    ensures (c.AcceptID? || c.DeclineID?) && c.i in db.invitations ==> About(db, c, c.i)
    ensures (c.Withdraw? || c.SendAgain?) && c.i in db.invitations && db.invitations[c.i].workspace == c.w ==>
              About(db, c, c.i)
  {
  }

  /** Switched-off invitations and workspaces that are gone are reported before anything else. */
  lemma FirstReasons(db: Db, enabled: bool, c: Call)
    ensures AboutInvitations(c) && !enabled <==> Do(db, enabled, c).1 == Failed(InvitationsDisabled)
    ensures (c.Rename? || c.Delete? || c.Remove? || c.ChangeRole?) && !Live(db, c.w)
            <==> Do(db, enabled, c).1 == Failed(WorkspaceNotFound)
  {
    hide IsMember, WithRoles, SlugUsed, TokenUsed;
  }
}
