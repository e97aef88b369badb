/** Provisioning a tenant's first administrator: registration, enable, regenerate, and the
    change of password that completes it, beside the tenant's own administration of roles. */
module Onboarding {
  import opened Values

  type TenantId = nat
  type UserId = nat
  type Key = string

  datatype Tenant = Tenant(version: nat, contactEmail: string, active: bool)

  /** `holdsAdmin`: an active link to the tenant's active administrator role. */
  datatype User = User(tenant: TenantId, email: Option<string>, mustReset: bool, credentialVersion: nat,
                       createdAt: int, holdsAdmin: bool)

  datatype Kind = Enabled | Regenerated

  /** A request that succeeded; `log` is read only by the specification. */
  datatype Success = Success(kind: Kind, tenant: TenantId, version: nat, key: Key)

  datatype State = State(tenants: map<TenantId, Tenant>, users: map<UserId, User>, keys: set<Key>, log: seq<Success>)

  /** `Register` makes a tenant with two administrators in one transaction: the contact and
      the setup user, with the same creation time. `picked` is the administrator that the
      unordered query of a rotation happens to return. */
  datatype Request =
    | Register(now: int, tenant: TenantId, contactEmail: string, setupEmail: string, contact: UserId, setup: UserId)
    | Enable(now: int, tenant: TenantId, expectedVersion: nat, key: Key, newUser: UserId)
    | Regenerate(tenant: TenantId, expectedVersion: nat, key: Key)
    | RotateFirstAccess(tenant: TenantId, picked: UserId)
    | ChangePassword(user: UserId)
    | ChangeStatus(tenant: TenantId, expectedVersion: nat, key: Key, active: bool)
    | AddUser(now: int, user: UserId, tenant: TenantId, email: Option<string>, admin: bool)
    | AssignRoles(tenant: TenantId, user: UserId, admin: bool)

  // ----- The first administrator -----

  function AdminsOf(users: map<UserId, User>, t: TenantId): set<UserId> {
    set u | u in users && users[u].tenant == t && users[u].holdsAdmin
  }

  /** The order of the query: creation time, then id. */
  predicate Before(users: map<UserId, User>, u: UserId, v: UserId)
    requires u in users && v in users
  {
    users[u].createdAt < users[v].createdAt || (users[u].createdAt == users[v].createdAt && u < v)
  }

  ghost predicate IsEarliest(users: map<UserId, User>, among: set<UserId>, u: UserId)
    requires among <= users.Keys
  {
    u in among && forall v :: v in among ==> v == u || Before(users, u, v)
  }

  lemma {:induction false} EarliestExists(users: map<UserId, User>, among: set<UserId>)
    requires among <= users.Keys && among != {}
    ensures exists u :: IsEarliest(users, among, u)
  {
    var u :| u in among;
    if among == {u} {
      assert IsEarliest(users, among, u);
    } else {
      EarliestExists(users, among - {u});
      var w :| IsEarliest(users, among - {u}, w);
      if Before(users, w, u) {
        assert IsEarliest(users, among, w);
      } else {
        forall v | v in among ensures v == u || Before(users, u, v) {
          assert v == u || v in among - {u};
        }
        assert IsEarliest(users, among, u);
      }
    }
  }

  ghost function EarliestOf(users: map<UserId, User>, among: set<UserId>): (r: Option<UserId>)
    requires among <= users.Keys
    ensures r.None? <==> among == {}
    ensures r.Some? ==> IsEarliest(users, among, r.value)
  {
    if among == {} then None
    else
      EarliestExists(users, among);
      var u :| IsEarliest(users, among, u);
      Some(u)
  }

  ghost function FirstAdmin(users: map<UserId, User>, t: TenantId): Option<UserId> {
    EarliestOf(users, AdminsOf(users, t))
  }

  datatype Phase = NoAdmin | Pending | Completed

  ghost function PhaseOf(s: State, t: TenantId): Phase {
    var first := FirstAdmin(s.users, t);
    if first.None? then NoAdmin
    else if s.users[first.value].mustReset then Pending
    else Completed
  }

  // ----- Requests -----

  predicate EmailTaken(users: map<UserId, User>, t: TenantId, email: string) {
    exists u :: u in users && users[u].tenant == t && users[u].email == Some(email)
  }

  /** An address for a new user is not in use in the tenant, and not its contact's. */
  predicate EmailFree(s: State, t: TenantId, email: Option<string>)
    requires t in s.tenants
  {
    email.Some? ==> email.value != s.tenants[t].contactEmail && !EmailTaken(s.users, t, email.value)
  }

  /** What both requests check under the lock of the tenant row. */
  predicate Current(s: State, t: TenantId, expectedVersion: nat, key: Key) {
    t in s.tenants && s.tenants[t].version == expectedVersion && key !in s.keys
  }

  predicate CanEnable(s: State, t: TenantId, expectedVersion: nat, key: Key, newUser: UserId) {
    && Current(s, t, expectedVersion, key)
    && AdminsOf(s.users, t) == {}
    && !EmailTaken(s.users, t, s.tenants[t].contactEmail)
    && newUser !in s.users
  }

  ghost predicate CanRegenerate(s: State, t: TenantId, expectedVersion: nat, key: Key) {
    && Current(s, t, expectedVersion, key)
    && FirstAdmin(s.users, t).Some?
    && s.users[FirstAdmin(s.users, t).value].mustReset
    && s.users[FirstAdmin(s.users, t).value].email == Some(s.tenants[t].contactEmail)
  }

  /** What both leave on the tenant: the next version and the used key. */
  function Recorded(s: State, kind: Kind, t: TenantId, key: Key): State
    requires t in s.tenants
  {
    s.(tenants := s.tenants[t := s.tenants[t].(version := s.tenants[t].version + 1)],
       keys := s.keys + {key},
       log := s.log + [Success(kind, t, s.tenants[t].version, key)])
  }

  function DoEnable(s: State, now: int, t: TenantId, expectedVersion: nat, key: Key, newUser: UserId): State {
    if CanEnable(s, t, expectedVersion, key, newUser) then
      Recorded(s, Enabled, t, key).(
        users := s.users[newUser := User(t, Some(s.tenants[t].contactEmail), true, 1, now, true)])
    else s
  }

  ghost function DoRegenerate(s: State, t: TenantId, expectedVersion: nat, key: Key): State {
    if CanRegenerate(s, t, expectedVersion, key) then
      var u := FirstAdmin(s.users, t).value;
      Recorded(s, Regenerated, t, key).(
        users := s.users[u := s.users[u].(credentialVersion := s.users[u].credentialVersion + 1)])
    else s
  }

  function DoChangePassword(s: State, u: UserId): State {
    if u in s.users then
      s.(users := s.users[u := s.users[u].(mustReset := false, credentialVersion := s.users[u].credentialVersion + 1)])
    else s
  }

  /** Suspends or activates the tenant; nothing else of a tenant is ever edited. */
  function DoChangeStatus(s: State, t: TenantId, expectedVersion: nat, key: Key, active: bool): State {
    if Current(s, t, expectedVersion, key) && s.tenants[t].active != active then
      s.(tenants := s.tenants[t := s.tenants[t].(version := s.tenants[t].version + 1, active := active)],
         keys := s.keys + {key})
    else s
  }

  predicate CanRotate(s: State, t: TenantId, picked: UserId) {
    && t in s.tenants && picked in AdminsOf(s.users, t)
    && s.users[picked].mustReset && s.users[picked].email == Some(s.tenants[t].contactEmail)
  }

  function DoRotate(s: State, t: TenantId, picked: UserId): State {
    if CanRotate(s, t, picked) then
      s.(users := s.users[picked := s.users[picked].(credentialVersion := s.users[picked].credentialVersion + 1)])
    else s
  }

  /** A tenant administrator adds a user, with the administrator role or without. */
  function DoAddUser(s: State, now: int, u: UserId, t: TenantId, email: Option<string>, admin: bool): State {
    if u in s.users || t !in s.tenants || !EmailFree(s, t, email) then s
    else s.(users := s.users[u := User(t, email, true, 1, now, admin)])
  }

  /** Replaces the roles of a user of the tenant, whoever that is. */
  function DoAssignRoles(s: State, t: TenantId, u: UserId, admin: bool): State {
    if u in s.users && s.users[u].tenant == t then s.(users := s.users[u := s.users[u].(holdsAdmin := admin)]) else s
  }

  predicate CanRegister(s: State, t: TenantId, contactEmail: string, setupEmail: string, contact: UserId,
                        setup: UserId) {
    && t !in s.tenants && contactEmail != setupEmail
    && (forall x :: x in s.tenants ==> s.tenants[x].contactEmail != contactEmail)
    && contact !in s.users && setup !in s.users && contact != setup
  }

  function DoRegister(s: State, now: int, t: TenantId, contactEmail: string, setupEmail: string, contact: UserId,
                      setup: UserId): State
  {
    if CanRegister(s, t, contactEmail, setupEmail, contact, setup) then
      s.(tenants := s.tenants[t := Tenant(1, contactEmail, true)],
         users := s.users[contact := User(t, Some(contactEmail), true, 1, now, true)]
                         [setup := User(t, Some(setupEmail), true, 1, now, true)])
    else s
  }

  ghost function Apply(s: State, r: Request): State {
    match r
    case Register(now, t, contactEmail, setupEmail, contact, setup) =>
      DoRegister(s, now, t, contactEmail, setupEmail, contact, setup)
    case Enable(now, t, v, key, u) => DoEnable(s, now, t, v, key, u)
    case Regenerate(t, v, key) => DoRegenerate(s, t, v, key)
    case ChangePassword(u) => DoChangePassword(s, u)
    case RotateFirstAccess(t, u) => DoRotate(s, t, u)
    case ChangeStatus(t, v, key, active) => DoChangeStatus(s, t, v, key, active)
    case AddUser(now, u, t, email, admin) => DoAddUser(s, now, u, t, email, admin)
    case AssignRoles(t, u, admin) => DoAssignRoles(s, t, u, admin)
  }

  ghost function Run(s: State, rs: seq<Request>): State
    decreases |rs|
  {
    if rs == [] then s else Run(Apply(s, rs[0]), rs[1..])
  }

  // ----- The order of creation -----

  predicate Creates(r: Request) { r.Register? || r.Enable? || r.AddUser? }

  /** Whoever is created in the tenant now is created after all there are in it. */
  ghost predicate OnTime(s: State, r: Request, t: TenantId) {
    Creates(r) && r.tenant == t ==>
      forall u :: u in s.users && s.users[u].tenant == t ==> s.users[u].createdAt < r.now
  }

  ghost predicate InOrder(s: State, rs: seq<Request>, t: TenantId)
    decreases |rs|
  {
    rs == [] || (OnTime(s, rs[0], t) && InOrder(Apply(s, rs[0]), rs[1..], t))
  }

  // ----- Exactly when the first administrator changes -----

  lemma EarliestIs(users: map<UserId, User>, among: set<UserId>, u: UserId)
    requires among <= users.Keys && IsEarliest(users, among, u)
    ensures EarliestOf(users, among) == Some(u)
  {}

  /** Users keep their tenant, role and creation time, and new ones come later. */
  ghost predicate OnlyLater(users: map<UserId, User>, users': map<UserId, User>, t: TenantId) {
    && (forall u :: u in users ==>
          u in users' && users'[u].tenant == users[u].tenant && users'[u].holdsAdmin == users[u].holdsAdmin
          && users'[u].createdAt == users[u].createdAt)
    && (forall u, v :: u in AdminsOf(users, t) && v in AdminsOf(users', t) && v !in users ==>
          users[u].createdAt < users'[v].createdAt)
  }

  lemma FirstStays(users: map<UserId, User>, users': map<UserId, User>, t: TenantId)
    requires OnlyLater(users, users', t) && FirstAdmin(users, t).Some?
    ensures FirstAdmin(users', t) == FirstAdmin(users, t)
  {
    var u := FirstAdmin(users, t).value;
    assert u in AdminsOf(users', t);
    forall v | v in AdminsOf(users', t) ensures v == u || Before(users', u, v) {
      if v in users {
        assert v in AdminsOf(users, t);
      }
    }
    EarliestIs(users', AdminsOf(users', t), u);
  }

  lemma ApplyOnlyLater(s: State, r: Request, t: TenantId)
    requires OnTime(s, r, t) && !r.AssignRoles?
    ensures OnlyLater(s.users, Apply(s, r).users, t)
  {}

  /** Known before the request: it gives the role to a user from before the first
      administrator, or takes it from the first administrator. */
  ghost predicate Displaces(s: State, r: Request, t: TenantId) {
    && r.AssignRoles? && r.tenant == t && r.user in s.users && s.users[r.user].tenant == t
    && var first := FirstAdmin(s.users, t);
    first.Some? && if r.admin then Before(s.users, r.user, first.value) else r.user == first.value
  }

  /** Who is first once the roles are assigned. */
  ghost function NextFirst(s: State, r: Request, t: TenantId): Option<UserId>
    requires Displaces(s, r, t)
  {
    if r.admin then Some(r.user) else EarliestOf(s.users, AdminsOf(s.users, t) - {r.user})
  }

  lemma DisplacedBy(s: State, r: Request, t: TenantId)
    requires Displaces(s, r, t)
    ensures FirstAdmin(Apply(s, r).users, t) == NextFirst(s, r, t) != FirstAdmin(s.users, t)
  {
    var users', first := Apply(s, r).users, FirstAdmin(s.users, t).value;
    var among := AdminsOf(users', t);
    if r.admin {
      assert among == AdminsOf(s.users, t) + {r.user};
      assert forall v :: v in AdminsOf(s.users, t) ==> v == first || Before(s.users, first, v);
      EarliestIs(users', among, r.user);
    } else {
      assert among == AdminsOf(s.users, t) - {r.user};
      if NextFirst(s, r, t).Some? {
        EarliestIs(users', among, NextFirst(s, r, t).value);
      }
    }
  }

  lemma AssignKeepsFirst(s: State, r: Request, t: TenantId)
    requires r.AssignRoles? && FirstAdmin(s.users, t).Some? && !Displaces(s, r, t)
    ensures FirstAdmin(Apply(s, r).users, t) == FirstAdmin(s.users, t)
  {
    var users', first := Apply(s, r).users, FirstAdmin(s.users, t).value;
    forall v | v in AdminsOf(users', t) ensures v == first || Before(users', first, v) {
      assert v in AdminsOf(s.users, t) || v == r.user;
    }
    assert first in AdminsOf(users', t);
    EarliestIs(users', AdminsOf(users', t), first);
  }

  lemma FirstChangesExactly(s: State, r: Request, t: TenantId)
    requires OnTime(s, r, t) && FirstAdmin(s.users, t).Some?
    ensures FirstAdmin(Apply(s, r).users, t) == FirstAdmin(s.users, t) <==> !Displaces(s, r, t)
  {
    if Displaces(s, r, t) {
      DisplacedBy(s, r, t);
    } else if r.AssignRoles? {
      AssignKeepsFirst(s, r, t);
    } else {
      ApplyOnlyLater(s, r, t);
      FirstStays(s.users, Apply(s, r).users, t);
    }
  }

  ghost predicate Undisturbed(s: State, rs: seq<Request>, t: TenantId)
    decreases |rs|
  {
    rs == [] || (!Displaces(s, rs[0], t) && Undisturbed(Apply(s, rs[0]), rs[1..], t))
  }

  lemma RunPrefix(s: State, rs: seq<Request>, k: nat)
    requires 1 <= k <= |rs|
    ensures Run(s, rs[..k]) == Run(Apply(s, rs[0]), rs[1..][..k - 1])
  {
    assert rs[..k][1..] == rs[1..][..k - 1];
  }

  /** Once a tenant has a first administrator it is the same all along a run, whoever else
      gets the role or loses it, exactly when no request displaces it. */
  lemma {:induction false} FirstAdminIsForGood(s: State, rs: seq<Request>, t: TenantId)
    requires InOrder(s, rs, t) && FirstAdmin(s.users, t).Some?
    ensures Undisturbed(s, rs, t) <==>
            (forall k :: 0 <= k <= |rs| ==> FirstAdmin(Run(s, rs[..k]).users, t) == FirstAdmin(s.users, t))
    decreases |rs|
  {
    if rs != [] {
      var n := Apply(s, rs[0]);
      FirstChangesExactly(s, rs[0], t);
      RunPrefix(s, rs, 1);
      if !Displaces(s, rs[0], t) {
        FirstAdminIsForGood(n, rs[1..], t);
        forall k | 1 <= k <= |rs| ensures Run(s, rs[..k]) == Run(n, rs[1..][..k - 1]) {
          RunPrefix(s, rs, k);
        }
        forall k | 0 <= k <= |rs[1..]| ensures Run(n, rs[1..][..k]) == Run(s, rs[..k + 1]) {
          RunPrefix(s, rs, k + 1);
        }
      }
    }
  }

  // ----- Phases -----

  function Rank(p: Phase): nat {
    match p case NoAdmin => 0 case Pending => 1 case Completed => 2
  }

  /** New users have a password to change, and a choice of one is the only way out. */
  lemma ApplyResets(s: State, r: Request, u: UserId)
    ensures u in Apply(s, r).users && u !in s.users ==> Apply(s, r).users[u].mustReset
    ensures u in s.users ==> u in Apply(s, r).users
    ensures u in s.users && Apply(s, r).users[u].mustReset != s.users[u].mustReset ==>
              r == ChangePassword(u) && s.users[u].mustReset
  {
    if r.Regenerate? && CanRegenerate(s, r.tenant, r.expectedVersion, r.key) {
      assert FirstAdmin(s.users, r.tenant).value in s.users;
    }
  }

  lemma NewAdmins(s: State, r: Request, x: TenantId, u: UserId)
    requires u in AdminsOf(Apply(s, r).users, x) && u !in AdminsOf(s.users, x)
    ensures (u !in s.users && Creates(r)) || (r.AssignRoles? && r.user == u && u in s.users)
  {
    assert forall y :: FirstAdmin(s.users, y).Some? ==> FirstAdmin(s.users, y).value in s.users;
  }

  /** One request that displaces nobody moves a tenant forward: a creation or a role gives it
      its first administrator, whose own change of password completes it. */
  lemma PhaseStep(s: State, r: Request, x: TenantId)
    requires OnTime(s, r, x) && !Displaces(s, r, x)
    ensures var p := PhaseOf(s, x);
            var p' := PhaseOf(Apply(s, r), x);
            || p' == p
            || (p == NoAdmin && p' == Pending && Creates(r))
            || (p == NoAdmin && r.AssignRoles?)
            || (p == Pending && p' == Completed && r.ChangePassword? && FirstAdmin(s.users, x) == Some(r.user))
  {
    var s' := Apply(s, r);
    var first := FirstAdmin(s.users, x);
    if first.Some? {
      FirstChangesExactly(s, r, x);
      ApplyResets(s, r, first.value);
    } else if FirstAdmin(s'.users, x).Some? {
      var u := FirstAdmin(s'.users, x).value;
      NewAdmins(s, r, x, u);
      ApplyResets(s, r, u);
    }
  }

  lemma {:induction false} PhasesOnlyAdvance(s: State, rs: seq<Request>, x: TenantId)
    requires InOrder(s, rs, x) && Undisturbed(s, rs, x)
    ensures Rank(PhaseOf(s, x)) <= Rank(PhaseOf(Run(s, rs), x))
    decreases |rs|
  {
    if rs != [] {
      PhaseStep(s, rs[0], x);
      PhasesOnlyAdvance(Apply(s, rs[0]), rs[1..], x);
    }
  }

  /** The request makes someone first who has a password to change, or nobody. */
  ghost predicate TurnsBack(s: State, r: Request, t: TenantId) {
    Displaces(s, r, t) && (NextFirst(s, r, t).None? || s.users[NextFirst(s, r, t).value].mustReset)
  }

  lemma CompletedStep(s: State, r: Request, t: TenantId)
    requires OnTime(s, r, t) && PhaseOf(s, t) == Completed
    ensures PhaseOf(Apply(s, r), t) == Completed <==> !TurnsBack(s, r, t)
  {
    if Displaces(s, r, t) {
      DisplacedBy(s, r, t);
    } else {
      PhaseStep(s, r, t);
    }
  }

  // ----- The contact's address -----

  /** A user of the tenant has its contact's address. */
  predicate ContactTaken(s: State, t: TenantId) {
    t in s.tenants && EmailTaken(s.users, t, s.tenants[t].contactEmail)
  }

  ghost predicate HoldsContact(s: State, t: TenantId, u: UserId) {
    && t in s.tenants && u in s.users && s.users[u].tenant == t
    && s.users[u].email == Some(s.tenants[t].contactEmail)
  }

  /** Neither the contact of a tenant nor the address of a user is ever edited. */
  lemma ContactStays(s: State, r: Request, t: TenantId, u: UserId)
    requires HoldsContact(s, t, u)
    ensures HoldsContact(Apply(s, r), t, u)
  {
    if r.Regenerate? && CanRegenerate(s, r.tenant, r.expectedVersion, r.key) {
      assert FirstAdmin(s.users, r.tenant).value in s.users;
    }
  }

  lemma TakenStays(s: State, r: Request, t: TenantId)
    requires ContactTaken(s, t)
    ensures ContactTaken(Apply(s, r), t)
  {
    var u :| u in s.users && s.users[u].tenant == t && s.users[u].email == Some(s.tenants[t].contactEmail);
    ContactStays(s, r, t, u);
    assert HoldsContact(Apply(s, r), t, u);
  }

  /** What the database promises: users belong to tenants, and an address of a tenant to one. */
  ghost predicate EmailsOk(s: State) {
    && (forall u :: u in s.users ==> s.users[u].tenant in s.tenants)
    && (forall u, v :: u in s.users && v in s.users && s.users[u].tenant == s.users[v].tenant ==>
          (s.users[u].email.Some? && s.users[u].email == s.users[v].email ==> u == v))
  }

  lemma ApplyKeepsEmails(s: State, r: Request)
    requires EmailsOk(s)
    ensures EmailsOk(Apply(s, r))
  {
    if r.Regenerate? && CanRegenerate(s, r.tenant, r.expectedVersion, r.key) {
      assert FirstAdmin(s.users, r.tenant).value in s.users;
    }
  }

  /** All along a run the same user is the only one whose bootstrap password can be replaced,
      by either request and whoever else gets the role. */
  lemma {:induction false} OneUserIsRotated(s: State, rs: seq<Request>, t: TenantId, u: UserId, version: nat, key: Key,
                                            picked: UserId)
    requires EmailsOk(s) && HoldsContact(s, t, u)
    ensures var s' := Run(s, rs);
            && HoldsContact(s', t, u)
            && (CanRegenerate(s', t, version, key) ==> FirstAdmin(s'.users, t) == Some(u))
            && (CanRotate(s', t, picked) ==> picked == u)
    decreases |rs|
  {
    if rs != [] {
      ApplyKeepsEmails(s, rs[0]);
      ContactStays(s, rs[0], t, u);
      OneUserIsRotated(Apply(s, rs[0]), rs[1..], t, u, version, key, picked);
    }
  }

  // ----- Successes -----

  ghost predicate SuccessOk(s: State, e: Success) {
    && e.key in s.keys
    && e.tenant in s.tenants && e.version < s.tenants[e.tenant].version
    && ContactTaken(s, e.tenant)
  }

  ghost predicate LogOk(s: State) {
    && (forall i :: 0 <= i < |s.log| ==> SuccessOk(s, s.log[i]))
    && (forall i, j :: 0 <= i < j < |s.log| ==>
          s.log[i].key != s.log[j].key
          && (s.log[i].tenant == s.log[j].tenant ==>
                s.log[i].version < s.log[j].version && s.log[j].kind == Regenerated))
  }

  /** Tenants, keys and the contact's user are never taken away. */
  lemma ApplyKeepsSuccesses(s: State, r: Request, e: Success)
    requires SuccessOk(s, e)
    ensures SuccessOk(Apply(s, r), e)
  {
    TakenStays(s, r, e.tenant);
  }

  /** What a success requires: the current version, a new key, and the phase it is for. */
  lemma SuccessesAreGuarded(s: State, r: Request)
    ensures Apply(s, r).log == s.log ||
            (exists e :: Apply(s, r).log == s.log + [e] && SuccessOk(Apply(s, r), e)
               && e.tenant in s.tenants && e.version == s.tenants[e.tenant].version && e.key !in s.keys
               && PhaseOf(s, e.tenant) == (if e.kind == Enabled then NoAdmin else Pending)
               && (e.kind == Enabled <==> !ContactTaken(s, e.tenant)))
  {
    if r.Enable? && CanEnable(s, r.tenant, r.expectedVersion, r.key, r.newUser) {
      var e := Success(Enabled, r.tenant, r.expectedVersion, r.key);
      assert HoldsContact(Apply(s, r), r.tenant, r.newUser);
      assert Apply(s, r).log == s.log + [e];
    }
    if r.Regenerate? && CanRegenerate(s, r.tenant, r.expectedVersion, r.key) {
      var e := Success(Regenerated, r.tenant, r.expectedVersion, r.key);
      assert HoldsContact(s, r.tenant, FirstAdmin(s.users, r.tenant).value);
      TakenStays(s, r, r.tenant);
      assert Apply(s, r).log == s.log + [e];
    }
  }

  lemma ApplyKeepsLog(s: State, r: Request)
    requires LogOk(s)
    ensures LogOk(Apply(s, r))
  {
    var s' := Apply(s, r);
    SuccessesAreGuarded(s, r);
    forall i | 0 <= i < |s.log| ensures SuccessOk(s', s.log[i]) {
      ApplyKeepsSuccesses(s, r, s.log[i]);
    }
  }

  lemma {:induction false} RunKeeps(s: State, rs: seq<Request>)
    requires LogOk(s)
    ensures LogOk(Run(s, rs))
    decreases |rs|
  {
    if rs != [] {
      ApplyKeepsLog(s, rs[0]);
      RunKeeps(Apply(s, rs[0]), rs[1..]);
    }
  }

  /** From any tenants and users, in any run and whoever gets or loses the role: a tenant is
      enabled at most once and only before any regeneration, and no two successes of it share
      an expected version, nor any two successes an idempotency key. */
  lemma OnboardingIsOnce(tenants: map<TenantId, Tenant>, users: map<UserId, User>, rs: seq<Request>)
    ensures var s := Run(State(tenants, users, {}, []), rs);
            forall i, j :: 0 <= i < j < |s.log| ==>
              s.log[i].key != s.log[j].key
              && (s.log[i].tenant == s.log[j].tenant ==>
                    s.log[i].version != s.log[j].version && s.log[j].kind != Enabled)
  {
    RunKeeps(State(tenants, users, {}, []), rs);
  }

  lemma {:induction false} LogGrows(s: State, rs: seq<Request>)
    ensures s.log <= Run(s, rs).log
    decreases |rs|
  {
    if rs != [] {
      SuccessesAreGuarded(s, rs[0]);
      LogGrows(Apply(s, rs[0]), rs[1..]);
    }
  }

  // ----- Exactly when a tenant can still be enabled -----

  ghost predicate Enables(s: State, rs: seq<Request>, t: TenantId) {
    exists i :: |s.log| <= i < |Run(s, rs).log| && Run(s, rs).log[i].tenant == t && Run(s, rs).log[i].kind == Enabled
  }

  /** A tenant whose contact is a user, or that is yet to be registered, is never enabled. */
  lemma {:induction false} NeverEnabled(s: State, rs: seq<Request>, t: TenantId)
    requires t !in s.tenants || ContactTaken(s, t)
    ensures !Enables(s, rs, t)
    decreases |rs|
  {
    if rs != [] {
      var n := Apply(s, rs[0]);
      NextStaysClosed(s, rs[0], t);
      SuccessesAreGuarded(s, rs[0]);
      NeverEnabled(n, rs[1..], t);
      LogGrows(n, rs[1..]);
    }
  }

  lemma NextStaysClosed(s: State, r: Request, t: TenantId)
    requires t !in s.tenants || ContactTaken(s, t)
    ensures t !in Apply(s, r).tenants || ContactTaken(Apply(s, r), t)
  {
    if t in s.tenants {
      TakenStays(s, r, t);
    } else if t in Apply(s, r).tenants {
      assert HoldsContact(Apply(s, r), t, r.contact);
    }
  }

  /** Otherwise some run enables it: the roles are taken from whoever has them, and then the
      request meets no obstacle. */
  lemma {:induction false} StillEnables(s: State, t: TenantId, now: int, key: Key, newUser: UserId)
    returns (rs: seq<Request>)
    requires t in s.tenants && !ContactTaken(s, t) && key !in s.keys && newUser !in s.users
    ensures Enables(s, rs, t)
    decreases AdminsOf(s.users, t)
  {
    if AdminsOf(s.users, t) == {} {
      rs := [Enable(now, t, s.tenants[t].version, key, newUser)];
      assert rs[1..] == [];
      assert rs[0] == Enable(now, t, s.tenants[t].version, key, newUser);
      assert Run(s, rs) == Apply(s, rs[0]);
      var log := Run(s, rs).log;
      assert CanEnable(s, t, s.tenants[t].version, key, newUser);
      assert log == s.log + [Success(Enabled, t, s.tenants[t].version, key)];
      assert log[|s.log|].tenant == t;
    } else {
      var u :| u in AdminsOf(s.users, t);
      var r := AssignRoles(t, u, false);
      var n := Apply(s, r);
      assert AdminsOf(n.users, t) == AdminsOf(s.users, t) - {u};
      assert n.log == s.log;
      var rest := StillEnables(n, t, now, key, newUser);
      rs := [r] + rest;
      assert rs[1..] == rest && rs[0] == r;
      assert Run(s, rs) == Run(n, rest);
    }
  }

  /** A tenant can still be enabled exactly when it is there and no user of it has its
      contact's address; so no registered tenant ever is. */
  lemma EnabledExactly(s: State, t: TenantId, key: Key, newUser: UserId)
    requires key !in s.keys && newUser !in s.users
    ensures (exists rs :: Enables(s, rs, t)) <==> t in s.tenants && !ContactTaken(s, t)
  {
    if t in s.tenants && !ContactTaken(s, t) {
      var rs := StillEnables(s, t, 0, key, newUser);
      assert Enables(s, rs, t);
    } else {
      forall rs ensures !Enables(s, rs, t) {
        NeverEnabled(s, rs, t);
      }
    }
  }

  // ----- Completed for good -----

  /** Known before the request: it takes the role from a tenant's only administrator. */
  predicate LeavesNone(s: State, r: Request, t: TenantId) {
    r.AssignRoles? && r.tenant == t && !r.admin && AdminsOf(s.users, t) == {r.user}
  }

  /** A tenant that has an administrator has one after the request exactly unless that was
      the only one. */
  lemma AdminsStayExactly(s: State, r: Request, t: TenantId)
    requires AdminsOf(s.users, t) != {}
    ensures AdminsOf(Apply(s, r).users, t) == {} <==> LeavesNone(s, r, t)
  {
    var admins, admins' := AdminsOf(s.users, t), AdminsOf(Apply(s, r).users, t);
    if r.AssignRoles? && !r.admin {
      assert admins - {r.user} <= admins';
      if LeavesNone(s, r, t) {
        assert r.user in admins;
        assert forall v :: v in admins' ==> v in admins && v != r.user;
      } else if admins - {r.user} == {} {
        assert r.user in admins;
        assert admins == {r.user};
      }
    } else {
      assert admins <= admins';
    }
  }

  ghost predicate NeverTurnsBack(s: State, rs: seq<Request>, t: TenantId)
    decreases |rs|
  {
    rs == [] || (!TurnsBack(s, rs[0], t) && NeverTurnsBack(Apply(s, rs[0]), rs[1..], t))
  }

  /** Once the first administrator has chosen a password the tenant stays completed all along
      a run exactly when no request turns it back, and then none enables it or regenerates a
      password for it. */
  lemma {:induction false} CompletedIsFinal(s: State, rs: seq<Request>, t: TenantId)
    requires InOrder(s, rs, t) && PhaseOf(s, t) == Completed
    ensures NeverTurnsBack(s, rs, t) <==> forall k :: 0 <= k <= |rs| ==> PhaseOf(Run(s, rs[..k]), t) == Completed
    ensures NeverTurnsBack(s, rs, t) ==>
              var log := Run(s, rs).log;
              |s.log| <= |log| && forall i :: |s.log| <= i < |log| ==> log[i].tenant != t
    decreases |rs|
  {
    if rs != [] {
      var n := Apply(s, rs[0]);
      CompletedStep(s, rs[0], t);
      RunPrefix(s, rs, 1);
      if !TurnsBack(s, rs[0], t) {
        SuccessesAreGuarded(s, rs[0]);
        LogGrows(n, rs[1..]);
        CompletedIsFinal(n, rs[1..], t);
        forall k | 1 <= k <= |rs| ensures Run(s, rs[..k]) == Run(n, rs[1..][..k - 1]) {
          RunPrefix(s, rs, k);
        }
        forall k | 0 <= k <= |rs[1..]| ensures Run(n, rs[1..][..k]) == Run(s, rs[..k + 1]) {
          RunPrefix(s, rs, k + 1);
        }
      }
    }
  }

  // ----- Who is first after registration -----

  /** Registration gives both administrators one creation time, so their ids decide who is
      first. A lost password can be regenerated exactly when that is the contact, and rotated
      exactly when the query happens to return the contact. */
  lemma RegistrationDecides(s: State, now: int, t: TenantId, contactEmail: string, setupEmail: string,
                            contact: UserId, setup: UserId, key: Key)
    requires CanRegister(s, t, contactEmail, setupEmail, contact, setup) && AdminsOf(s.users, t) == {} && key !in s.keys
    ensures var s' := Apply(s, Register(now, t, contactEmail, setupEmail, contact, setup));
            && FirstAdmin(s'.users, t) == Some(if contact < setup then contact else setup)
            && PhaseOf(s', t) == Pending
            && (CanRegenerate(s', t, 1, key) <==> contact < setup)
            && AdminsOf(s'.users, t) == {contact, setup}
            && CanRotate(s', t, contact) && !CanRotate(s', t, setup)
  {
    var s' := Apply(s, Register(now, t, contactEmail, setupEmail, contact, setup));
    assert forall u :: u in AdminsOf(s'.users, t) ==> u in AdminsOf(s.users, t) || u == contact || u == setup;
    assert AdminsOf(s'.users, t) == {contact, setup};
    EarliestIs(s'.users, AdminsOf(s'.users, t), if contact < setup then contact else setup);
  }

  // ----- The condition is needed -----

  lemma SetupUserStates(t: TenantId, contactEmail: string, setupEmail: string, key: Key)
    requires contactEmail != setupEmail
    ensures var s1 := Apply(State(map[], map[], {}, []), Register(0, t, contactEmail, setupEmail, 1, 0));
            var s2 := Apply(s1, ChangePassword(0));
            var s3 := Apply(s2, AssignRoles(t, 0, false));
            && PhaseOf(s2, t) == Completed && PhaseOf(s3, t) == Pending
            && Apply(s3, Regenerate(t, 1, key)).log == [Success(Regenerated, t, 1, key)]
  {
    var s1 := Apply(State(map[], map[], {}, []), Register(0, t, contactEmail, setupEmail, 1, 0));
    var s2 := Apply(s1, ChangePassword(0));
    var s3 := Apply(s2, AssignRoles(t, 0, false));
    assert AdminsOf(s2.users, t) == {0, 1} && AdminsOf(s3.users, t) == {1};
    EarliestIs(s2.users, {0, 1}, 0);
    EarliestIs(s3.users, {1}, 1);
  }

  /** Registration, the setup user's own password, and that user losing the role: completed,
      and then pending again, and the contact's password can be regenerated. */
  lemma SetupUserLeaves(t: TenantId, contactEmail: string, setupEmail: string, key: Key)
    requires contactEmail != setupEmail
    ensures var rs := [Register(0, t, contactEmail, setupEmail, 1, 0), ChangePassword(0), AssignRoles(t, 0, false),
                       Regenerate(t, 1, key)];
            var s0 := State(map[], map[], {}, []);
            && InOrder(s0, rs, t)
            && PhaseOf(Run(s0, rs[..2]), t) == Completed && PhaseOf(Run(s0, rs[..3]), t) == Pending
            && Run(s0, rs).log == [Success(Regenerated, t, 1, key)]
  {
    hide PhaseOf, CanRegenerate;
    var s0 := State(map[], map[], {}, []);
    var r1, r2, r3 := Register(0, t, contactEmail, setupEmail, 1, 0), ChangePassword(0), AssignRoles(t, 0, false);
    var r4 := Regenerate(t, 1, key);
    SetupUserStates(t, contactEmail, setupEmail, key);
    RunTwo(s0, r1, r2, [], t);
    RunTwo(s0, r1, r2, [r3], t);
    RunTwo(s0, r1, r2, [r3, r4], t);
    RunTwo(Apply(Apply(s0, r1), r2), r3, r4, [], t);
    assert [r1, r2, r3, r4][..2] == [r1, r2] + [] && [r1, r2, r3, r4][..3] == [r1, r2] + [r3];
    assert [r1, r2, r3, r4] == [r1, r2] + [r3, r4] && [r3, r4] == [r3, r4] + [];
  }

  lemma RunTwo(s: State, r: Request, q: Request, rs: seq<Request>, t: TenantId)
    ensures Run(s, [r, q] + rs) == Run(Apply(Apply(s, r), q), rs)
    ensures InOrder(s, [r, q] + rs, t) <==>
            OnTime(s, r, t) && OnTime(Apply(s, r), q, t) && InOrder(Apply(Apply(s, r), q), rs, t)
  {
    assert ([r, q] + rs)[1..] == [q] + rs && ([q] + rs)[1..] == rs;
  }
}
