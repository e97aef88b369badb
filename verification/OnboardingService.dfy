/** The provisioning requests as the service runs them, on the rows of tenants and users, one
    check at a time, and what else happens to those rows. */
module OnboardingService {
  import opened Values
  import opened Onboarding

  /** The refusals, in the order the requests look for them. */
  datatype Outcome =
    | TenantNotFound
    | VersionConflict
    | AlreadyProcessed
    | AdminAlreadyExists
    | NoUsername
    | EmailAlreadyExists
    | AdminNotEnabled
    | AdminAlreadyEnabled
    | ContactMismatch
    | Done(admin: UserId)

  /** What both requests look for first, in this order. */
  predicate MayGoOn(tenants: map<TenantId, Tenant>, keys: set<Key>, t: TenantId, expectedVersion: nat, key: Key) {
    t in tenants && tenants[t].version == expectedVersion && key !in keys
  }

  predicate Checked(tenants: map<TenantId, Tenant>, keys: set<Key>, t: TenantId, expectedVersion: nat, key: Key,
                    outcome: Outcome)
  {
    && (outcome == TenantNotFound <==> t !in tenants)
    && (outcome == VersionConflict <==> t in tenants && tenants[t].version != expectedVersion)
    && (outcome == AlreadyProcessed <==> t in tenants && tenants[t].version == expectedVersion && key in keys)
  }

  class Provisioning {
    var tenants: map<TenantId, Tenant>
    var users: map<UserId, User>
    var keys: set<Key>
    ghost var log: seq<Success>

    ghost function Contents(): State
      reads this
    {
      State(tenants, users, keys, log)
    }

    /** What every request keeps of the successes so far. */
    ghost predicate Valid()
      reads this
    {
      LogOk(Contents())
    }

    constructor (tenants: map<TenantId, Tenant>, users: map<UserId, User>)
      ensures Valid() && Contents() == State(tenants, users, {}, [])
    {
      this.tenants, this.users, keys, log := tenants, users, {}, [];
    }

    /** The query for the first administrator, ordered by creation time and id. */
    method FirstTenantAdmin(t: TenantId) returns (first: Option<UserId>)
      ensures first == FirstAdmin(users, t)
    {
      var admins := AdminsOf(users, t);
      if admins == {} { return None; }
      EarliestExists(users, admins);
      assert exists u :: u in admins && IsEarliest(users, admins, u);
      var u :| u in admins && forall v :: v in admins ==> v == u || Before(users, u, v);
      EarliestIs(users, admins, u);
      first := Some(u);
    }

    /** `named`: a username was found for the contact's address. */
    method Enable(now: int, t: TenantId, expectedVersion: nat, key: Key, newUser: UserId, named: bool)
      returns (outcome: Outcome)
      requires Valid() && newUser !in users
      modifies this
      ensures Valid()
      ensures Contents() ==
              if named then Apply(old(Contents()), Request.Enable(now, t, expectedVersion, key, newUser))
              else old(Contents())
      ensures outcome.Done? <==> named && old(CanEnable(Contents(), t, expectedVersion, key, newUser))
      ensures outcome.Done? ==> outcome.admin == newUser && FirstAdmin(users, t) == Some(newUser)
      ensures Checked(old(tenants), old(keys), t, expectedVersion, key, outcome)
      ensures MayGoOn(old(tenants), old(keys), t, expectedVersion, key) ==>
                var admin := exists u :: u in old(users) && old(users)[u].tenant == t && old(users)[u].holdsAdmin;
                var taken := exists u :: u in old(users) && old(users)[u].tenant == t
                                         && old(users)[u].email == Some(old(tenants)[t].contactEmail);
                outcome == if admin then AdminAlreadyExists else if !named then NoUsername
                           else if taken then EmailAlreadyExists else Done(newUser)
      ensures outcome.Done? ==>
                && users == old(users)[newUser := User(t, Some(old(tenants)[t].contactEmail), true, 1, now, true)]
                && tenants == old(tenants)[t := old(tenants)[t].(version := expectedVersion + 1)]
                && keys == old(keys) + {key}
      ensures !outcome.Done? ==> users == old(users) && tenants == old(tenants) && keys == old(keys)
    {
      hide LogOk;
      ApplyKeepsLog(Contents(), Request.Enable(now, t, expectedVersion, key, newUser));
      if t !in tenants { return TenantNotFound; }
      var tenant := tenants[t];
      if tenant.version != expectedVersion { return VersionConflict; }
      if key in keys { return AlreadyProcessed; }
      var existing := FirstTenantAdmin(t);
      if existing.Some? {
        assert existing.value in AdminsOf(users, t);
        return AdminAlreadyExists;
      }
      assert forall u :: u in users ==> u !in AdminsOf(users, t);
      if !named { return NoUsername; }
      if EmailTaken(users, t, tenant.contactEmail) { return EmailAlreadyExists; }
      users := users[newUser := User(t, Some(tenant.contactEmail), true, 1, now, true)];
      tenants := tenants[t := tenant.(version := tenant.version + 1)];
      keys := keys + {key};
      log := log + [Success(Enabled, t, tenant.version, key)];
      assert AdminsOf(users, t) == {newUser};
      outcome := Done(newUser);
    }

    method Regenerate(t: TenantId, expectedVersion: nat, key: Key) returns (outcome: Outcome)
      requires Valid()
      modifies this
      ensures Valid()
      ensures Contents() == Apply(old(Contents()), Request.Regenerate(t, expectedVersion, key))
      ensures outcome.Done? <==> old(CanRegenerate(Contents(), t, expectedVersion, key))
      ensures outcome.Done? ==> old(FirstAdmin(users, t)) == Some(outcome.admin)
      ensures outcome == AdminAlreadyEnabled ==> old(PhaseOf(Contents(), t)) == Completed
      ensures Checked(old(tenants), old(keys), t, expectedVersion, key, outcome)
      ensures MayGoOn(old(tenants), old(keys), t, expectedVersion, key) ==>
                var first, contact := old(FirstAdmin(users, t)), Some(old(tenants)[t].contactEmail);
                outcome == if first.None? then AdminNotEnabled
                           else if !old(users)[first.value].mustReset then AdminAlreadyEnabled
                           else if old(users)[first.value].email != contact then ContactMismatch
                           else Done(first.value)
      ensures outcome.Done? ==>
                && users == old(users)[outcome.admin := old(users)[outcome.admin].(
                                         credentialVersion := old(users)[outcome.admin].credentialVersion + 1)]
                && tenants == old(tenants)[t := old(tenants)[t].(version := expectedVersion + 1)]
                && keys == old(keys) + {key}
      ensures !outcome.Done? ==> users == old(users) && tenants == old(tenants) && keys == old(keys)
    {
      hide LogOk;
      ApplyKeepsLog(Contents(), Request.Regenerate(t, expectedVersion, key));
      if t !in tenants { return TenantNotFound; }
      var tenant := tenants[t];
      if tenant.version != expectedVersion { return VersionConflict; }
      if key in keys { return AlreadyProcessed; }
      var first := FirstTenantAdmin(t);
      if first.None? { return AdminNotEnabled; }
      var admin := users[first.value];
      if !admin.mustReset { return AdminAlreadyEnabled; }
      if admin.email != Some(tenant.contactEmail) { return ContactMismatch; }
      users := users[first.value := admin.(credentialVersion := admin.credentialVersion + 1)];
      tenants := tenants[t := tenant.(version := tenant.version + 1)];
      keys := keys + {key};
      log := log + [Success(Regenerated, t, tenant.version, key)];
      outcome := Done(first.value);
    }

    /** The platform's other rotation: of whichever administrator an unordered query returns. */
    method RotateFirstAccess(t: TenantId) returns (picked: Option<UserId>)
      requires Valid()
      modifies this
      ensures Valid()
      ensures picked.None? ==> Contents() == old(Contents())
      ensures picked.Some? ==>
                && t in old(tenants) && picked.value in old(users) && old(users)[picked.value].tenant == t
                && old(users)[picked.value].holdsAdmin && old(users)[picked.value].mustReset
                && old(users)[picked.value].email == Some(old(tenants)[t].contactEmail)
                && Contents() == Apply(old(Contents()), Request.RotateFirstAccess(t, picked.value))
      ensures (forall u :: u in old(AdminsOf(users, t)) ==> old(CanRotate(Contents(), t, u))) ==>
                (picked.Some? <==> t in old(tenants) && old(AdminsOf(users, t)) != {})
    {
      picked := None;
      var admins := AdminsOf(users, t);
      if t !in tenants || admins == {} { return; }
      var u :| u in admins;
      if !users[u].mustReset || users[u].email != Some(tenants[t].contactEmail) { return; }
      ApplyKeepsLog(Contents(), Request.RotateFirstAccess(t, u));
      users := users[u := users[u].(credentialVersion := users[u].credentialVersion + 1)];
      picked := Some(u);
    }

    /** A new tenant with its two administrators, of one creation time. */
    method Register(now: int, t: TenantId, contactEmail: string, setupEmail: string, contact: UserId, setup: UserId)
      returns (ok: bool)
      requires Valid() && contact !in users && setup !in users && contact != setup && t !in tenants
      modifies this
      ensures Valid()
      ensures Contents() ==
              Apply(old(Contents()), Request.Register(now, t, contactEmail, setupEmail, contact, setup))
      ensures ok <==> contactEmail != setupEmail
                      && forall x :: x in old(tenants) ==> old(tenants)[x].contactEmail != contactEmail
      ensures ok ==>
                && tenants == old(tenants)[t := Tenant(1, contactEmail, true)]
                && users == old(users)[contact := User(t, Some(contactEmail), true, 1, now, true)]
                                      [setup := User(t, Some(setupEmail), true, 1, now, true)]
      ensures !ok ==> tenants == old(tenants) && users == old(users)
    {
      ApplyKeepsLog(Contents(), Request.Register(now, t, contactEmail, setupEmail, contact, setup));
      if exists x :: x in tenants && tenants[x].contactEmail == contactEmail { return false; }
      if setupEmail == contactEmail { return false; }
      tenants := tenants[t := Tenant(1, contactEmail, true)];
      users := users[contact := User(t, Some(contactEmail), true, 1, now, true)];
      users := users[setup := User(t, Some(setupEmail), true, 1, now, true)];
      ok := true;
    }

    /** A user that a tenant administrator makes, with an address nobody has or none. */
    method AddUser(now: int, u: UserId, t: TenantId, email: Option<string>, admin: bool) returns (ok: bool)
      requires Valid() && u !in users && t in tenants
      modifies this
      ensures Valid() && Contents() == Apply(old(Contents()), Request.AddUser(now, u, t, email, admin))
      ensures ok <==> email.Some? ==>
                && email.value != tenants[t].contactEmail
                && !exists v :: v in old(users) && old(users)[v].tenant == t && old(users)[v].email == email
      ensures users == if ok then old(users)[u := User(t, email, true, 1, now, admin)] else old(users)
      ensures tenants == old(tenants) && keys == old(keys)
    {
      ApplyKeepsLog(Contents(), Request.AddUser(now, u, t, email, admin));
      if email.Some? {
        if EmailTaken(users, t, email.value) || email.value == tenants[t].contactEmail { return false; }
      }
      users := users[u := User(t, email, true, 1, now, admin)];
      ok := true;
    }

    /** Suspending and activating: the next version and a used key, and no other field. */
    method ChangeStatus(t: TenantId, expectedVersion: nat, key: Key, active: bool) returns (changed: bool)
      requires Valid()
      modifies this
      ensures Valid() && Contents() == Apply(old(Contents()), Request.ChangeStatus(t, expectedVersion, key, active))
      ensures changed <==> MayGoOn(old(tenants), old(keys), t, expectedVersion, key) && old(tenants)[t].active != active
      ensures changed ==>
                && tenants == old(tenants)[t := Tenant(expectedVersion + 1, old(tenants)[t].contactEmail, active)]
                && keys == old(keys) + {key}
      ensures !changed ==> tenants == old(tenants) && keys == old(keys)
      ensures users == old(users)
    {
      ApplyKeepsLog(Contents(), Request.ChangeStatus(t, expectedVersion, key, active));
      if key in keys || t !in tenants { return false; }
      if tenants[t].version != expectedVersion || tenants[t].active == active { return false; }
      tenants := tenants[t := tenants[t].(active := active, version := expectedVersion + 1)];
      keys := keys + {key};
      changed := true;
    }

    /** What a user's own change of password leaves on the user. */
    method ChangePassword(u: UserId)
      requires Valid() && u in users
      modifies this
      ensures Valid() && Contents() == Apply(old(Contents()), Request.ChangePassword(u))
      ensures users.Keys == old(users).Keys && !users[u].mustReset
      ensures users[u].credentialVersion == old(users)[u].credentialVersion + 1
    {
      ApplyKeepsLog(Contents(), Request.ChangePassword(u));
      users := users[u := users[u].(mustReset := false, credentialVersion := users[u].credentialVersion + 1)];
    }

    /** Replaces a user's roles: the tenant's first administrator is another one afterwards, or
        none, exactly when the request displaces the one there was. */
    method AssignRoles(t: TenantId, u: UserId, admin: bool) returns (ok: bool)
      requires Valid()
      modifies this
      ensures Valid() && Contents() == Apply(old(Contents()), Request.AssignRoles(t, u, admin))
      ensures ok <==> u in old(users) && old(users)[u].tenant == t
      ensures users == if ok then old(users)[u := old(users)[u].(holdsAdmin := admin)] else old(users)
      ensures tenants == old(tenants) && keys == old(keys)
      ensures var r := Request.AssignRoles(t, u, admin);
              old(FirstAdmin(users, t)).Some? ==>
                (FirstAdmin(users, t) == old(FirstAdmin(users, t)) <==> !Displaces(old(Contents()), r, t))
    {
      ghost var r := Request.AssignRoles(t, u, admin);
      ApplyKeepsLog(Contents(), r);
      if FirstAdmin(users, t).Some? {
        FirstChangesExactly(Contents(), r, t);
      }
      ok := u in users && users[u].tenant == t;
      if ok {
        users := users[u := users[u].(holdsAdmin := admin)];
      }
    }
  }
}
