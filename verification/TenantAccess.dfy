/** Provisioning and authentication together: a user of a tenant and the user's account change
    in the same transactions. */
module TenantAccess {
  import opened Values
  import opened Credentials
  import opened CredentialEffects
  import Onboarding
  import Lockout

  datatype Both = Both(tenancy: Onboarding.State, auth: State)

  /** A tenancy request carries the passwords made for the users it creates or rotates. */
  datatype Joint =
    | Tenancy(now: int, provision: Onboarding.Request, password: int, setupPassword: int)
    | Auth(access: Request)

  /** Accounts of users are made and rotated by tenancy requests only, and users change their
      passwords at the login service only. */
  predicate Legal(j: Joint) {
    match j
    case Tenancy(_, r, _, _) => !r.ChangePassword?
    case Auth(r) => !r.RotateBootstrap? && (r.Register? ==> r.principal.Admin?)
  }

  function NewAccount(now: int, u: Onboarding.UserId, password: int): Request {
    Register(now, TenantUser(u), password, true)
  }

  /** What a tenancy request does to the accounts. */
  ghost function AuthPart(s: Onboarding.State, now: int, r: Onboarding.Request, password: int, setupPassword: int)
    : seq<Request>
  {
    match r
    case Register(_, t, contactEmail, setupEmail, contact, setup) =>
      if Onboarding.CanRegister(s, t, contactEmail, setupEmail, contact, setup)
      then [NewAccount(now, contact, password), NewAccount(now, setup, setupPassword)] else []
    case Enable(_, t, v, key, u) =>
      if Onboarding.CanEnable(s, t, v, key, u) then [NewAccount(now, u, password)] else []
    case Regenerate(t, v, key) =>
      if Onboarding.CanRegenerate(s, t, v, key)
      then [RotateBootstrap(now, Onboarding.FirstAdmin(s.users, t).value, password)] else []
    case RotateFirstAccess(t, u) =>
      if Onboarding.CanRotate(s, t, u) then [RotateBootstrap(now, u, password)] else []
    case AddUser(_, u, t, email, _) =>
      if u !in s.users && t in s.tenants && Onboarding.EmailFree(s, t, email)
      then [NewAccount(now, u, password)] else []
    case _ => []
  }

  /** What a request to the login service does to the users. */
  function TenancyPart(s: State, r: Request): seq<Onboarding.Request> {
    if r.ChangePassword? && r.principal.TenantUser?
       && CanChange(s, r.principal, r.current, r.next, r.allowed, r.channel)
    then [Onboarding.ChangePassword(r.principal.id)] else []
  }

  ghost function Tenancies(s: Both, j: Joint): seq<Onboarding.Request> {
    match j
    case Tenancy(_, r, _, _) => [r]
    case Auth(r) => TenancyPart(s.auth, r)
  }

  ghost function Auths(s: Both, j: Joint): seq<Request> {
    match j
    case Tenancy(now, r, password, setupPassword) => AuthPart(s.tenancy, now, r, password, setupPassword)
    case Auth(r) => [r]
  }

  ghost function Step(cfg: Settings, s: Both, j: Joint): Both {
    Both(Onboarding.Run(s.tenancy, Tenancies(s, j)), Run(cfg, s.auth, Auths(s, j)))
  }

  ghost function JointRun(cfg: Settings, s: Both, js: seq<Joint>): Both
    decreases |js|
  {
    if js == [] then s else JointRun(cfg, Step(cfg, s, js[0]), js[1..])
  }

  ghost predicate AllLegal(js: seq<Joint>) { forall j :: j in js ==> Legal(j) }

  // ----- Users and accounts agree -----

  predicate Agree(user: Onboarding.User, account: Account) {
    account.mustReset == user.mustReset && account.version == user.credentialVersion
  }

  ghost predicate Linked(users: map<Onboarding.UserId, Onboarding.User>, accounts: Accounts) {
    && (forall u :: u in users ==>
          TenantUser(u) in accounts && Agree(users[u], accounts[TenantUser(u)]))
    && (forall u :: TenantUser(u) in accounts ==> u in users)
  }

  ghost predicate BothOk(s: Both) {
    Linked(s.tenancy.users, s.auth.accounts) && Inv(s.auth) && Onboarding.EmailsOk(s.tenancy)
  }

  lemma RunOne(cfg: Settings, s: State, r: Request)
    ensures Run(cfg, s, [r]) == Apply(cfg, s, r)
  {
    assert [r][1..] == [];
    assert Run(cfg, s, [r]) == Run(cfg, Apply(cfg, s, r), []);
  }

  lemma RunTwo(cfg: Settings, s: State, r: Request, q: Request)
    ensures Run(cfg, s, [r, q]) == Apply(cfg, Apply(cfg, s, r), q)
  {
    assert [r, q][1..] == [q];
    RunOne(cfg, Apply(cfg, s, r), q);
  }

  lemma TenancyRunOne(s: Onboarding.State, r: Onboarding.Request)
    ensures Onboarding.Run(s, [r]) == Onboarding.Apply(s, r)
  {
    assert [r][1..] == [];
    assert Onboarding.Run(s, [r]) == Onboarding.Run(Onboarding.Apply(s, r), []);
  }

  /** A new account, as a user is made: active, at version 1, its password to be changed. */
  lemma AccountMade(cfg: Settings, s: State, now: int, u: nat, password: int)
    requires TenantUser(u) !in s.accounts
    ensures var s' := Apply(cfg, s, NewAccount(now, u, password));
            && s'.accounts == s.accounts[TenantUser(u) := Account(true, password, 1, true, Lockout.OPEN)]
            && s'.sessions == s.sessions && s'.tokens == s.tokens
  {}

  lemma AccountRotated(cfg: Settings, s: State, now: int, u: nat, password: int)
    requires CanRotate(s, TenantUser(u))
    ensures var p := TenantUser(u);
            Apply(cfg, s, RotateBootstrap(now, u, password)).accounts ==
            s.accounts[p := s.accounts[p].(password := password, version := s.accounts[p].version + 1,
                                           lock := Lockout.OPEN)]
  {
    hide Revoke;
  }

  lemma RegisterKeepsLinked(cfg: Settings, s: Both, j: Joint)
    requires BothOk(s) && j.Tenancy? && j.provision.Register?
    ensures var n := Step(cfg, s, j); Linked(n.tenancy.users, n.auth.accounts)
  {
    hide Inv, Onboarding.EmailsOk, Apply, Onboarding.CanRegister;
    var r := j.provision;
    TenancyRunOne(s.tenancy, r);
    if Onboarding.CanRegister(s.tenancy, r.tenant, r.contactEmail, r.setupEmail, r.contact, r.setup) {
      RegisteredAreNew(s.tenancy, r);
      var one, two := NewAccount(j.now, r.contact, j.password), NewAccount(j.now, r.setup, j.setupPassword);
      AccountMade(cfg, s.auth, j.now, r.contact, j.password);
      AccountMade(cfg, Apply(cfg, s.auth, one), j.now, r.setup, j.setupPassword);
      RunTwo(cfg, s.auth, one, two);
    }
  }

  lemma RegisteredAreNew(s: Onboarding.State, r: Onboarding.Request)
    requires r.Register? && Onboarding.CanRegister(s, r.tenant, r.contactEmail, r.setupEmail, r.contact, r.setup)
    ensures r.contact !in s.users && r.setup !in s.users && r.contact != r.setup
  {}

  lemma MakingKeepsLinked(cfg: Settings, s: Both, j: Joint)
    requires BothOk(s) && j.Tenancy? && (j.provision.Enable? || j.provision.AddUser?)
    ensures var n := Step(cfg, s, j); Linked(n.tenancy.users, n.auth.accounts)
  {
    hide Inv, Onboarding.EmailsOk, Apply;
    TenancyRunOne(s.tenancy, j.provision);
    if AuthPart(s.tenancy, j.now, j.provision, j.password, j.setupPassword) != [] {
      var u := if j.provision.Enable? then j.provision.newUser else j.provision.user;
      AccountMade(cfg, s.auth, j.now, u, j.password);
      RunOne(cfg, s.auth, NewAccount(j.now, u, j.password));
    }
  }

  lemma RotatingKeepsLinked(cfg: Settings, s: Both, j: Joint)
    requires BothOk(s) && j.Tenancy? && (j.provision.Regenerate? || j.provision.RotateFirstAccess?)
    ensures var n := Step(cfg, s, j); Linked(n.tenancy.users, n.auth.accounts)
  {
    hide Inv, Onboarding.EmailsOk, Apply;
    TenancyRunOne(s.tenancy, j.provision);
    var parts := AuthPart(s.tenancy, j.now, j.provision, j.password, j.setupPassword);
    if parts != [] {
      var u := parts[0].userId;
      assert u in s.tenancy.users && s.tenancy.users[u].mustReset;
      AccountRotated(cfg, s.auth, j.now, u, j.password);
      RunOne(cfg, s.auth, RotateBootstrap(j.now, u, j.password));
    }
  }

  lemma TenancyKeepsLinked(cfg: Settings, s: Both, j: Joint)
    requires BothOk(s) && j.Tenancy? && Legal(j)
    ensures var n := Step(cfg, s, j); Linked(n.tenancy.users, n.auth.accounts)
  {
    hide Inv, Onboarding.EmailsOk, Apply, Run;
    var r := j.provision;
    if r.Register? {
      RegisterKeepsLinked(cfg, s, j);
    } else if r.Enable? || r.AddUser? {
      MakingKeepsLinked(cfg, s, j);
    } else if r.Regenerate? || r.RotateFirstAccess? {
      RotatingKeepsLinked(cfg, s, j);
    } else {
      TenancyRunOne(s.tenancy, r);
      RunNone(cfg, s.auth);
    }
  }

  lemma RunNone(cfg: Settings, s: State)
    ensures Run(cfg, s, []) == s
  {}

  /** What the login service does to the accounts: only a change of password touches what a
      user has too. */
  lemma AccountsKeep(cfg: Settings, s: State, r: Request, p: Principal)
    requires Legal(Auth(r)) && p.TenantUser?
    ensures var s' := Apply(cfg, s, r);
            && (p in s'.accounts <==> p in s.accounts)
            && (p in s.accounts ==>
                  if r.ChangePassword? && p == r.principal && CanChange(s, p, r.current, r.next, r.allowed, r.channel)
                  then !s'.accounts[p].mustReset && s'.accounts[p].version == s.accounts[p].version + 1
                  else s'.accounts[p].mustReset == s.accounts[p].mustReset
                       && s'.accounts[p].version == s.accounts[p].version
                       && s'.accounts[p].password == s.accounts[p].password)
  {
    hide Revoke;
  }

  lemma AuthKeepsLinked(cfg: Settings, s: Both, j: Joint)
    requires BothOk(s) && j.Auth? && Legal(j)
    ensures var n := Step(cfg, s, j); Linked(n.tenancy.users, n.auth.accounts)
  {
    hide Inv, Onboarding.EmailsOk, Apply;
    var n := Step(cfg, s, j);
    RunOne(cfg, s.auth, j.access);
    forall u: nat ensures TenantUser(u) in n.auth.accounts <==> TenantUser(u) in s.auth.accounts {
      AccountsKeep(cfg, s.auth, j.access, TenantUser(u));
    }
    if TenancyPart(s.auth, j.access) != [] {
      TenancyRunOne(s.tenancy, Onboarding.ChangePassword(j.access.principal.id));
    }
    forall u | u in n.tenancy.users
      ensures TenantUser(u) in n.auth.accounts && Agree(n.tenancy.users[u], n.auth.accounts[TenantUser(u)])
    {
      AccountsKeep(cfg, s.auth, j.access, TenantUser(u));
    }
  }

  lemma StepKeeps(cfg: Settings, s: Both, j: Joint)
    requires BothOk(s) && Legal(j)
    ensures BothOk(Step(cfg, s, j))
  {
    hide Inv, Linked, Onboarding.EmailsOk;
    if j.Tenancy? {
      TenancyKeepsLinked(cfg, s, j);
    } else {
      AuthKeepsLinked(cfg, s, j);
    }
    Credentials.RunKeeps(cfg, s.auth, Auths(s, j));
    RunKeepsEmails(s.tenancy, Tenancies(s, j));
  }

  lemma {:induction false} RunKeepsEmails(s: Onboarding.State, rs: seq<Onboarding.Request>)
    requires Onboarding.EmailsOk(s)
    ensures Onboarding.EmailsOk(Onboarding.Run(s, rs))
    decreases |rs|
  {
    if rs != [] {
      Onboarding.ApplyKeepsEmails(s, rs[0]);
      RunKeepsEmails(Onboarding.Apply(s, rs[0]), rs[1..]);
    }
  }

  /** Along every joint run users and accounts agree, and both machines' invariants hold. */
  lemma {:induction false} JointRunKeeps(cfg: Settings, s: Both, js: seq<Joint>)
    requires BothOk(s) && AllLegal(js)
    ensures BothOk(JointRun(cfg, s, js))
    decreases |js|
  {
    hide BothOk;
    if js != [] {
      StepKeeps(cfg, s, js[0]);
      JointRunKeeps(cfg, Step(cfg, s, js[0]), js[1..]);
    }
  }

  // ----- Both machines run on their own -----

  ghost function TenancyTrace(cfg: Settings, s: Both, js: seq<Joint>): seq<Onboarding.Request>
    decreases |js|
  {
    if js == [] then [] else Tenancies(s, js[0]) + TenancyTrace(cfg, Step(cfg, s, js[0]), js[1..])
  }

  ghost function AuthTrace(cfg: Settings, s: Both, js: seq<Joint>): seq<Request>
    decreases |js|
  {
    if js == [] then [] else Auths(s, js[0]) + AuthTrace(cfg, Step(cfg, s, js[0]), js[1..])
  }

  lemma {:induction false} RunJoined(cfg: Settings, s: State, a: seq<Request>, b: seq<Request>)
    ensures Run(cfg, s, a + b) == Run(cfg, Run(cfg, s, a), b)
    decreases |a|
  {
    if a == [] {
      assert a + b == b;
    } else {
      assert (a + b)[1..] == a[1..] + b && (a + b)[0] == a[0];
      RunJoined(cfg, Apply(cfg, s, a[0]), a[1..], b);
    }
  }

  lemma {:induction false} TenancyRunJoined(s: Onboarding.State, a: seq<Onboarding.Request>, b: seq<Onboarding.Request>)
    ensures Onboarding.Run(s, a + b) == Onboarding.Run(Onboarding.Run(s, a), b)
    decreases |a|
  {
    if a == [] {
      assert a + b == b;
    } else {
      assert (a + b)[1..] == a[1..] + b && (a + b)[0] == a[0];
      TenancyRunJoined(Onboarding.Apply(s, a[0]), a[1..], b);
    }
  }

  /** A joint run is a run of either machine: all that is proved of those holds of it. */
  lemma {:induction false} JointRunIsBoth(cfg: Settings, s: Both, js: seq<Joint>)
    ensures JointRun(cfg, s, js).tenancy == Onboarding.Run(s.tenancy, TenancyTrace(cfg, s, js))
    ensures JointRun(cfg, s, js).auth == Run(cfg, s.auth, AuthTrace(cfg, s, js))
    decreases |js|
  {
    if js != [] {
      var n := Step(cfg, s, js[0]);
      JointRunIsBoth(cfg, n, js[1..]);
      RunJoined(cfg, s.auth, Auths(s, js[0]), AuthTrace(cfg, n, js[1..]));
      TenancyRunJoined(s.tenancy, Tenancies(s, js[0]), TenancyTrace(cfg, n, js[1..]));
    }
  }

  // ----- What regenerating and enabling do to credentials -----

  /** A regeneration that succeeds ends every credential of the first administrator and of
      nobody else, and sets the new password; one that is refused does nothing. */
  lemma RegenerateEndsCredentials(cfg: Settings, s: Both, j: Joint, tok: Token, key: nat, later: int)
    requires BothOk(s) && j.Tenancy? && j.provision.Regenerate?
    ensures var r := j.provision;
            var s' := Step(cfg, s, j);
            if Onboarding.CanRegenerate(s.tenancy, r.tenant, r.expectedVersion, r.key) then
              var p := TenantUser(Onboarding.FirstAdmin(s.tenancy.users, r.tenant).value);
              && (AcceptsToken(s'.auth, tok) <==> AcceptsToken(s.auth, tok) && tok.principal != p)
              && (AcceptsSession(s'.auth, key, later) <==>
                    AcceptsSession(s.auth, key, later) && s.auth.sessions[key].principal != p)
              && p in s.auth.accounts
              && s'.auth.accounts == s.auth.accounts[p := Account(s.auth.accounts[p].active, j.password,
                                                                  s.auth.accounts[p].version + 1, true, Lockout.OPEN)]
            else s' == s
  {
    hide Inv, Onboarding.EmailsOk, Apply, AcceptsToken;
    var r := j.provision;
    TenancyRunOne(s.tenancy, r);
    RunNone(cfg, s.auth);
    if Onboarding.CanRegenerate(s.tenancy, r.tenant, r.expectedVersion, r.key) {
      var u := Onboarding.FirstAdmin(s.tenancy.users, r.tenant).value;
      assert u in s.tenancy.users;
      RotationLeavesNoCredential(cfg, s.auth, j.now, u, j.password, tok, key, later);
      AccountRotated(cfg, s.auth, j.now, u, j.password);
      RunOne(cfg, s.auth, RotateBootstrap(j.now, u, j.password));
    }
  }

  /** And in no later run is a credential from before accepted again. */
  lemma RegeneratedForGood(cfg: Settings, s: Both, j: Joint, js: seq<Joint>, tok: Token, key: nat, later: int)
    requires BothOk(s) && AllLegal(js) && j.Tenancy? && j.provision.Regenerate?
    requires var r := j.provision; Onboarding.CanRegenerate(s.tenancy, r.tenant, r.expectedVersion, r.key)
    ensures var p := TenantUser(Onboarding.FirstAdmin(s.tenancy.users, j.provision.tenant).value);
            var s' := JointRun(cfg, Step(cfg, s, j), js);
            && (tok in s.auth.tokens && tok.principal == p ==> !AcceptsToken(s'.auth, tok))
            && (key in s.auth.sessions && s.auth.sessions[key].principal == p ==>
                  !AcceptsSession(s'.auth, key, later))
  {
    hide Onboarding.EmailsOk, Apply, Revoke;
    var n := Step(cfg, s, j);
    var p := TenantUser(Onboarding.FirstAdmin(s.tenancy.users, j.provision.tenant).value);
    RegenerateEndsCredentials(cfg, s, j, tok, key, later);
    JointRunIsBoth(cfg, n, js);
    if tok in s.auth.tokens {
      OldTokensArePast(s.auth, tok);
    }
    RunOne(cfg, s.auth, RotateBootstrap(j.now, p.id, j.password));
    RotationKillsSession(cfg, s.auth, j.now, p.id, j.password, key);
    RevocationIsFinal(cfg, n.auth, AuthTrace(cfg, n, js), p, key, tok, later);
  }

  lemma OldTokensArePast(s: State, tok: Token)
    requires Inv(s) && tok in s.tokens
    ensures tok.principal in s.accounts && tok.version.GetOr(1) <= s.accounts[tok.principal].version
  {
    assert TokenOk(s.accounts, s.changedAt, tok);
  }

  lemma RotationKillsSession(cfg: Settings, s: State, now: int, u: nat, next: int, key: nat)
    requires Inv(s) && CanRotate(s, TenantUser(u))
    ensures key in s.sessions && s.sessions[key].principal == TenantUser(u) ==>
              Dead(Apply(cfg, s, RotateBootstrap(now, u, next)), key)
  {
    if key in s.sessions {
      assert SessionOk(s.accounts, s.changedAt, s.sessions[key]);
    }
  }

  // ----- New users -----

  /** Registration gives its two users accounts of their own with the password made for each,
      and nobody else's account is any different. */
  lemma RegistrationOpensBoth(cfg: Settings, s: Both, j: Joint)
    requires BothOk(s) && j.Tenancy? && j.provision.Register?
    requires var r := j.provision;
             Onboarding.CanRegister(s.tenancy, r.tenant, r.contactEmail, r.setupEmail, r.contact, r.setup)
    ensures var r := j.provision;
            Step(cfg, s, j).auth.accounts ==
            s.auth.accounts[TenantUser(r.contact) := Account(true, j.password, 1, true, Lockout.Lock(0, None))]
                           [TenantUser(r.setup) := Account(true, j.setupPassword, 1, true, Lockout.Lock(0, None))]
  {
    hide Inv, Onboarding.EmailsOk, Apply, Onboarding.CanRegister;
    var r := j.provision;
    RegisteredAreNew(s.tenancy, r);
    var one, two := NewAccount(j.now, r.contact, j.password), NewAccount(j.now, r.setup, j.setupPassword);
    AccountMade(cfg, s.auth, j.now, r.contact, j.password);
    AccountMade(cfg, Apply(cfg, s.auth, one), j.now, r.setup, j.setupPassword);
    RunTwo(cfg, s.auth, one, two);
  }

  /** So does making one user, by enabling a tenant or by its administrator. */
  lemma MakingOpensOne(cfg: Settings, s: Both, j: Joint, u: Onboarding.UserId)
    requires BothOk(s) && j.Tenancy? && (j.provision.Enable? || j.provision.AddUser?)
    requires u !in s.tenancy.users && u in Step(cfg, s, j).tenancy.users
    ensures Step(cfg, s, j).auth.accounts ==
            s.auth.accounts[TenantUser(u) := Account(true, j.password, 1, true, Lockout.Lock(0, None))]
  {
    hide Inv, Onboarding.EmailsOk, Apply;
    TenancyRunOne(s.tenancy, j.provision);
    AccountMade(cfg, s.auth, j.now, u, j.password);
    RunOne(cfg, s.auth, NewAccount(j.now, u, j.password));
  }

  // ----- A chosen password -----

  /** No new account and no rotation touches an account whose password was chosen. */
  lemma {:induction false} ChosenIsLeft(cfg: Settings, s: State, rs: seq<Request>, p: Principal)
    requires forall r :: r in rs ==> r.Register? || r.RotateBootstrap?
    requires p in s.accounts && !s.accounts[p].mustReset
    ensures p in Run(cfg, s, rs).accounts && Run(cfg, s, rs).accounts[p] == s.accounts[p]
    decreases |rs|
  {
    if rs != [] {
      ChosenIsLeft(cfg, Apply(cfg, s, rs[0]), rs[1..], p);
    }
  }

  /** Once a user has chosen a password nobody but that user replaces it, in any joint run and
      whatever the platform or the tenant's administrators request. */
  lemma {:induction false} ChosenPasswordStays(cfg: Settings, s: Both, js: seq<Joint>, u: Onboarding.UserId)
    requires BothOk(s) && AllLegal(js) && u in s.tenancy.users && !s.tenancy.users[u].mustReset
    requires forall j :: j in js ==> !(j.Auth? && j.access.ChangePassword? && j.access.principal == TenantUser(u))
    ensures var s' := JointRun(cfg, s, js);
            var p := TenantUser(u);
            && u in s'.tenancy.users && !s'.tenancy.users[u].mustReset && p in s.auth.accounts
            && p in s'.auth.accounts && s'.auth.accounts[p].password == s.auth.accounts[p].password
            && s'.auth.accounts[p].version == s.auth.accounts[p].version
    decreases |js|
  {
    hide Inv, Onboarding.EmailsOk, Apply, Onboarding.Apply, Onboarding.Run;
    if js != [] {
      var j, p := js[0], TenantUser(u);
      var n := Step(cfg, s, j);
      assert Legal(j);
      StepKeeps(cfg, s, j);
      if j.Tenancy? {
        ChosenIsLeft(cfg, s.auth, Auths(s, j), p);
      } else {
        RunOne(cfg, s.auth, j.access);
        AccountsKeep(cfg, s.auth, j.access, p);
      }
      ChosenPasswordStays(cfg, n, js[1..], u);
    }
  }
}
