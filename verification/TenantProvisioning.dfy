/** The requests that make and replace a tenant's administrator with all they write: users and
    tenants, accounts and sessions, roles, page grants and role links. */
module TenantProvisioning {
  import opened Values
  import opened PageAccess
  import opened RoleSeeding
  import opened Credentials
  import opened TenantAccess
  import opened OnboardingService
  import Onboarding
  import AuthDatabase
  import Usernames
  import UsernameAllocators

  type Users = map<UserId, Onboarding.User>
  type Links = set<(UserId, RoleId)>

  predicate IsAdminLink(roles: map<RoleId, Role>, links: Links, u: UserId, r: RoleId) {
    (u, r) in links && r in roles && roles[r].code == TENANT_ADMIN
  }

  /** Links are within a tenant, administrator roles are active, and who has one is an
      administrator. */
  ghost predicate RolesLinked(users: Users, roles: map<RoleId, Role>, links: Links) {
    && (forall u, r :: (u, r) in links ==> u in users && r in roles && roles[r].tenant == users[u].tenant)
    && (forall r :: r in roles && roles[r].code == TENANT_ADMIN ==> roles[r].active)
    && (forall u :: u in users ==> (users[u].holdsAdmin <==> exists r :: IsAdminLink(roles, links, u, r)))
  }

  lemma AppointedStaysLinked(users: Users, roles: map<RoleId, Role>, links: Links, users': Users,
                             roles': map<RoleId, Role>, u: UserId, r: RoleId)
    requires RolesLinked(users, roles, links) && u !in users
    requires u in users' && users' == users[u := users'[u]] && users'[u].holdsAdmin
    requires r in roles' && roles' == roles[r := roles'[r]]
    requires roles'[r].tenant == users'[u].tenant && roles'[r].code == TENANT_ADMIN && roles'[r].active
    requires r in roles ==> roles[r].tenant == roles'[r].tenant && roles[r].code == roles'[r].code
    ensures RolesLinked(users', roles', links + {(u, r)})
  {
    var links' := links + {(u, r)};
    forall v | v in users' ensures users'[v].holdsAdmin <==> exists q :: IsAdminLink(roles', links', v, q) {
      if v == u {
        assert IsAdminLink(roles', links', u, r);
      } else {
        forall q ensures IsAdminLink(roles', links', v, q) <==> IsAdminLink(roles, links, v, q) {}
      }
    }
  }

  lemma ReplacedStaysLinked(users: Users, roles: map<RoleId, Role>, links: Links, links': Links, u: UserId,
                            chosen: set<RoleId>)
    requires RolesLinked(users, roles, links) && u in users
    requires forall r :: r in chosen ==> r in roles && roles[r].tenant == users[u].tenant
    requires forall v, r :: (v, r) in links' <==> if v == u then r in chosen else (v, r) in links
    ensures var admin := exists r :: r in chosen && roles[r].code == TENANT_ADMIN;
            RolesLinked(users[u := users[u].(holdsAdmin := admin)], roles, links')
  {
    var admin := exists r :: r in chosen && roles[r].code == TENANT_ADMIN;
    var users' := users[u := users[u].(holdsAdmin := admin)];
    forall v | v in users' ensures users'[v].holdsAdmin <==> exists q :: IsAdminLink(roles, links', v, q) {
      if v == u {
        forall q ensures IsAdminLink(roles, links', u, q) <==> q in chosen && roles[q].code == TENANT_ADMIN {}
      } else {
        forall q ensures IsAdminLink(roles, links', v, q) <==> IsAdminLink(roles, links, v, q) {}
      }
    }
  }

  lemma SameRolesStayLinked(users: Users, users': Users, roles: map<RoleId, Role>, links: Links)
    requires RolesLinked(users, roles, links) && users'.Keys == users.Keys
    requires forall u :: u in users ==>
               users'[u].tenant == users[u].tenant && users'[u].holdsAdmin == users[u].holdsAdmin
    ensures RolesLinked(users', roles, links)
  {}

  class Service {
    const tenancy: Provisioning
    const auth: AuthDatabase.Database
    const access: AccessTables

    ghost function Now(): Both
      reads tenancy, auth
    {
      Both(tenancy.Contents(), auth.Contents())
    }

    ghost predicate Valid()
      reads tenancy, auth, access
    {
      && tenancy.Valid() && auth.Valid() && access.Valid() && BothOk(Now())
      && RolesLinked(tenancy.users, access.roles, access.links)
    }

    constructor (tenancy: Provisioning, auth: AuthDatabase.Database, access: AccessTables)
      requires tenancy.Valid() && auth.Valid() && access.Valid()
      requires BothOk(Both(tenancy.Contents(), auth.Contents()))
      requires RolesLinked(tenancy.users, access.roles, access.links)
      ensures Valid() && this.tenancy == tenancy && this.auth == auth && this.access == access
    {
      this.tenancy, this.auth, this.access := tenancy, auth, access;
    }

    /** The page grants of a tenant that has got its administrator. */
    method Appoint(t: TenantId, u: UserId, newRole: RoleId, allPages: seq<Page>, codes: set<string>)
      returns (admin: RoleId)
      requires access.Valid() && newRole !in access.roles && DistinctIds(allPages)
      modifies access
      ensures access.Valid()
      ensures admin in SystemRoles(access.roles, t) && access.roles[admin].code == TENANT_ADMIN
      ensures access.roles == old(access.roles)[admin := access.roles[admin]]
      ensures admin in old(access.roles) ==>
                old(access.roles)[admin].tenant == t && old(access.roles)[admin].code == TENANT_ADMIN
      ensures access.links == old(access.links) + {(u, admin)}
      ensures forall page, level ::
                page in EntitledPages(allPages, codes)
                && Resolves(access.grants, Held(access.roles, access.links, t, u), page.id, level) ==>
                  level == Modify
    {
      admin := access.EnsureSystemRoles(t, newRole);
      ghost var before := access.grants;
      access.EnsureSystemRolePageDefaults(t, allPages, codes);
      access.links := access.links + {(u, admin)};
      assert admin in Held(access.roles, access.links, t, u);
      forall page, level |
        page in EntitledPages(allPages, codes)
        && Resolves(access.grants, Held(access.roles, access.links, t, u), page.id, level)
        ensures level == Modify
      {
        SeededAccess(access.roles, before, access.grants, access.links, t, u, allPages, codes, page, level);
      }
    }

    /** Enabling a tenant: the contact becomes its first administrator, with a username, the
        role, every entitled page to modify, an account with the bootstrap password and no
        credential. Refused, it has no effect on anything. */
    method Enable(now: int, t: TenantId, version: nat, key: Onboarding.Key, newUser: UserId, newRole: RoleId,
                  taken: nat -> set<string>, password: int, allPages: seq<Page>, codes: set<string>)
      returns (outcome: Outcome, username: Option<string>)
      requires Valid() && newUser !in tenancy.users && newRole !in access.roles && DistinctIds(allPages)
      modifies tenancy, auth, access
      ensures Valid()
      ensures outcome.Done? <==>
              old(Onboarding.CanEnable(tenancy.Contents(), t, version, key, newUser)) && username.Some?
      ensures t in old(tenancy.tenants) ==>
                var base := Usernames.UsernameBase(old(tenancy.tenants)[t].contactEmail);
                if username.Some? then
                  && Usernames.IsUsername(username.value)
                  && exists j: nat :: j < UsernameAllocators.ATTEMPTS
                       && UsernameAllocators.FirstUntaken(base, taken, j)
                       && username.value == UsernameAllocators.Tried(base, j)
                else forall j: nat :: j < UsernameAllocators.ATTEMPTS ==>
                       Usernames.Fold(UsernameAllocators.Tried(base, j)) in taken(j)
      ensures outcome.Done? ==>
                Now() == Step(auth.cfg, old(Now()),
                              Tenancy(now, Onboarding.Request.Enable(now, t, version, key, newUser), password, 0))
      ensures outcome.Done? ==>
                && Onboarding.FirstAdmin(tenancy.users, t) == Some(newUser)
                && (forall page, level ::
                      page in EntitledPages(allPages, codes)
                      && Resolves(access.grants, Held(access.roles, access.links, t, newUser), page.id, level) ==>
                        level == Modify)
                && TenantUser(newUser) in auth.accounts && Good(auth.accounts[TenantUser(newUser)], password)
                && (forall k: Token :: AcceptsToken(auth.Contents(), k) ==> k.principal != TenantUser(newUser))
                && (forall k: Token :: AcceptsToken(auth.Contents(), k) <==> AcceptsToken(old(auth.Contents()), k))
      ensures !outcome.Done? ==>
                && Now() == old(Now()) && access.roles == old(access.roles)
                && access.grants == old(access.grants) && access.links == old(access.links)
    {
      hide Inv, Onboarding.EmailsOk, Onboarding.LogOk, AcceptsToken, AcceptsSession, RolesLinked, TablesOk, Linked;
      hide Step, BothOk, Resolves, Held, EntitledPages;
      ghost var before := Now();
      ghost var r := Onboarding.Request.Enable(now, t, version, key, newUser);
      username := None;
      if t in tenancy.tenants {
        username := UsernameAllocators.AllocateUnique(tenancy.tenants[t].contactEmail, taken);
      }
      outcome := tenancy.Enable(now, t, version, key, newUser, username.Some?);
      if outcome.Done? {
        var admin := Appoint(t, newUser, newRole, allPages, codes);
        UserIsNew(before, newUser);
        auth.Register(now, TenantUser(newUser), password, true);
        EnableIsStep(auth.cfg, before, now, r, password);
        AppointedStaysLinked(before.tenancy.users, old(access.roles), old(access.links), tenancy.users, access.roles,
                             newUser, admin);
      }
    }

    /** Replacing the bootstrap password that the first administrator has lost: every credential
        of that user is over, and nobody else's. */
    method Regenerate(now: int, t: TenantId, version: nat, key: Onboarding.Key, password: int)
      returns (outcome: Outcome)
      requires Valid()
      modifies tenancy, auth
      ensures Valid()
      ensures outcome.Done? <==> old(Onboarding.CanRegenerate(tenancy.Contents(), t, version, key))
      ensures Now() == Step(auth.cfg, old(Now()),
                            Tenancy(now, Onboarding.Request.Regenerate(t, version, key), password, 0))
      ensures outcome.Done? ==>
                && old(Onboarding.FirstAdmin(tenancy.users, t)) == Some(outcome.admin)
                && (forall k: Token ::
                      AcceptsToken(auth.Contents(), k) <==>
                      (AcceptsToken(old(auth.Contents()), k) && k.principal != TenantUser(outcome.admin)))
                && (forall key: nat, later: int ::
                      AcceptsSession(auth.Contents(), key, later) <==>
                      (AcceptsSession(old(auth.Contents()), key, later)
                       && old(auth.sessions)[key].principal != TenantUser(outcome.admin)))
      ensures !outcome.Done? ==> Now() == old(Now())
    {
      hide Inv, Onboarding.EmailsOk, Onboarding.LogOk, AcceptsToken, RolesLinked, Linked;
      ghost var before := Now();
      ghost var r := Onboarding.Request.Regenerate(t, version, key);
      outcome := tenancy.Regenerate(t, version, key);
      if outcome.Done? {
        PendingCanRotate(before, outcome.admin);
        var rotated := auth.RotateBootstrap(now, outcome.admin, password);
        RunOne(auth.cfg, before.auth, RotateBootstrap(now, outcome.admin, password));
      } else {
        RunNone(auth.cfg, before.auth);
      }
      TenancyRunOne(before.tenancy, r);
      StepKeeps(auth.cfg, before, Tenancy(now, r, password, 0));
      SameRolesStayLinked(before.tenancy.users, tenancy.users, access.roles, access.links);
    }

    /** A user's own change of password, which for a first administrator completes the tenant. */
    method ChangePassword(now: int, p: Principal, current: int, next: int, allowed: bool, c: Channel)
      returns (changed: bool)
      requires Valid()
      modifies tenancy, auth
      ensures Valid()
      ensures changed <==> old(CanChange(auth.Contents(), p, current, next, allowed, c))
      ensures Now() == Step(auth.cfg, old(Now()), Auth(Request.ChangePassword(now, p, current, next, allowed, c)))
      ensures forall t :: changed && old(Onboarding.FirstAdmin(tenancy.users, t)) == Some(p.id) && p.TenantUser? ==>
                Onboarding.PhaseOf(tenancy.Contents(), t) == Onboarding.Completed
    {
      hide Inv, Onboarding.EmailsOk, Onboarding.LogOk, AcceptsToken, AcceptsSession, RolesLinked, Linked, Revoke;
      ghost var before := Now();
      ghost var r := Request.ChangePassword(now, p, current, next, allowed, c);
      changed := auth.ChangePassword(now, p, current, next, allowed, c);
      RunOne(auth.cfg, before.auth, r);
      if changed && p.TenantUser? {
        AccountHasUser(before, p.id);
        tenancy.ChangePassword(p.id);
        TenancyRunOne(before.tenancy, Onboarding.Request.ChangePassword(p.id));
        OwnChangeCompletes(before.tenancy, p.id);
      }
      StepKeeps(auth.cfg, before, Auth(r));
      SameRolesStayLinked(before.tenancy.users, tenancy.users, access.roles, access.links);
    }

    /** Replaces all roles of a user by active ones of the tenant, or refuses. The user then
        holds exactly those, and nobody else's roles change. */
    method AssignRoles(now: int, t: TenantId, u: UserId, chosen: set<RoleId>) returns (ok: bool)
      requires Valid()
      modifies tenancy, access
      ensures Valid()
      ensures ok <==> u in old(tenancy.users) && old(tenancy.users)[u].tenant == t
                      && forall r :: r in chosen ==>
                           r in access.roles && access.roles[r].tenant == t && access.roles[r].active
      ensures access.roles == old(access.roles) && access.grants == old(access.grants)
      ensures ok ==> Held(access.roles, access.links, t, u) == chosen
      ensures forall v, x :: !ok || v != u ==>
                Held(access.roles, access.links, x, v) == Held(access.roles, old(access.links), x, v)
      ensures ok ==>
                var admin := exists r :: r in chosen && access.roles[r].code == TENANT_ADMIN;
                Now() == Step(auth.cfg, old(Now()), Tenancy(now, Onboarding.Request.AssignRoles(t, u, admin), 0, 0))
      ensures !ok ==> Now() == old(Now())
    {
      hide Inv, Onboarding.EmailsOk, Onboarding.LogOk, RolesLinked, Linked, Step, BothOk;
      ok := u in tenancy.users && tenancy.users[u].tenant == t
            && forall r :: r in chosen ==> r in access.roles && access.roles[r].tenant == t && access.roles[r].active;
      if ok {
        ghost var before, was := Now(), access.links;
        var admin := exists r :: r in chosen && access.roles[r].code == TENANT_ADMIN;
        var others := set l | l in access.links && l.0 != u;
        access.links := others + (set r | r in chosen :: (u, r));
        var done := tenancy.AssignRoles(t, u, admin);
        AssignIsStep(auth.cfg, before, now, t, u, admin);
        ReplacedStaysLinked(before.tenancy.users, access.roles, was, access.links, u, chosen);
      }
    }
  }

  lemma EnableIsStep(cfg: Settings, s: Both, now: int, r: Onboarding.Request, password: int)
    requires BothOk(s) && r.Enable? && Onboarding.CanEnable(s.tenancy, r.tenant, r.expectedVersion, r.key, r.newUser)
    ensures var n := Step(cfg, s, Tenancy(now, r, password, 0));
            && n == Both(Onboarding.Apply(s.tenancy, r), Apply(cfg, s.auth, NewAccount(now, r.newUser, password)))
            && BothOk(n)
  {
    hide BothOk;
    TenancyRunOne(s.tenancy, r);
    RunOne(cfg, s.auth, NewAccount(now, r.newUser, password));
    StepKeeps(cfg, s, Tenancy(now, r, password, 0));
  }

  lemma AssignIsStep(cfg: Settings, s: Both, now: int, t: TenantId, u: UserId, admin: bool)
    requires BothOk(s)
    ensures var r := Onboarding.Request.AssignRoles(t, u, admin);
            var n := Step(cfg, s, Tenancy(now, r, 0, 0));
            n == Both(Onboarding.Apply(s.tenancy, r), s.auth) && BothOk(n)
  {
    hide BothOk;
    var r := Onboarding.Request.AssignRoles(t, u, admin);
    RunNone(cfg, s.auth);
    TenancyRunOne(s.tenancy, r);
    StepKeeps(cfg, s, Tenancy(now, r, 0, 0));
  }

  lemma PendingCanRotate(s: Both, u: UserId)
    requires BothOk(s) && u in s.tenancy.users && s.tenancy.users[u].mustReset
    ensures CanRotate(s.auth, TenantUser(u))
  {}

  lemma AccountHasUser(s: Both, u: UserId)
    requires BothOk(s) && TenantUser(u) in s.auth.accounts
    ensures u in s.tenancy.users
  {}

  lemma OwnChangeCompletes(s: Onboarding.State, u: UserId)
    requires u in s.users
    ensures forall t :: Onboarding.FirstAdmin(s.users, t) == Some(u) ==>
              Onboarding.PhaseOf(Onboarding.Apply(s, Onboarding.ChangePassword(u)), t) == Onboarding.Completed
  {
    forall t | Onboarding.FirstAdmin(s.users, t) == Some(u)
      ensures Onboarding.PhaseOf(Onboarding.Apply(s, Onboarding.ChangePassword(u)), t) == Onboarding.Completed
    {
      Onboarding.FirstChangesExactly(s, Onboarding.ChangePassword(u), t);
    }
  }

  lemma UserIsNew(s: Both, u: UserId)
    requires BothOk(s) && u !in s.tenancy.users
    ensures TenantUser(u) !in s.auth.accounts
  {}
}
