/** Passwords, credential versions, browser sessions and bearer tokens. Each request is one
    atomic step on the authentication tables. */
module Credentials {
  import opened Values
  import Lockout

  datatype Principal = Admin(id: nat) | TenantUser(id: nat)

  /** The digest of a password is taken to be the password itself: digests are injective. */
  datatype Account = Account(active: bool, password: int, version: nat, mustReset: bool, lock: Lockout.Lock)

  /** A session row, found by the digest of its token. `issued` is the number of the request
      that made it and is read only by the specification. */
  datatype Session = Session(principal: Principal, userId: Option<nat>, expiresAt: int,
                             revokedAt: Option<int>, issued: nat)

  /** A signed token; tokens from before the version claim existed carry none. */
  datatype Token = Token(principal: Principal, version: Option<nat>, issued: nat)

  datatype Settings = Settings(policy: Lockout.Policy, sessionLife: nat)

  /** The tables, and for the specification: the session keys ever used, the tokens ever
      signed, the number of the current request and the request of each latest change. */
  datatype State = State(
    accounts: map<Principal, Account>, sessions: map<nat, Session>,
    usedKeys: set<nat>, tokens: set<Token>, request: nat, changedAt: map<Principal, nat>)

  datatype Channel = Browser(key: nat) | Bearer

  datatype Request =
    | Register(now: int, principal: Principal, password: int, mustReset: bool)
    | Login(now: int, principal: Principal, password: int, channel: Channel)
    | ChangePassword(now: int, principal: Principal, current: int, next: int, allowed: bool, channel: Channel)
    | RotateBootstrap(now: int, userId: nat, next: int)
    | Logout(now: int, key: nat)
    | SetActive(now: int, principal: Principal, active: bool, revoke: bool)
    | Cleanup(now: int)

  // ----- What the middleware accepts -----

  /** Platform tokens must carry a version; a tenant token without one counts as version 1. */
  predicate AcceptsToken(s: State, t: Token) {
    && t in s.tokens
    && t.principal in s.accounts && s.accounts[t.principal].active
    && (t.principal.Admin? ==> t.version.Some?)
    && t.version.GetOr(1) == s.accounts[t.principal].version
  }

  predicate AcceptsSession(s: State, key: nat, now: int) {
    && key in s.sessions
    && s.sessions[key].revokedAt.None? && s.sessions[key].expiresAt > now
    && s.sessions[key].principal in s.accounts && s.accounts[s.sessions[key].principal].active
  }

  // ----- Requests -----

  function UserIdOf(p: Principal): Option<nat> {
    if p.TenantUser? then Some(p.id) else None
  }

  /** Platform sessions are matched by kind and principal, tenant ones by user id. */
  predicate Belongs(e: Session, p: Principal) {
    if p.Admin? then e.principal == p else e.userId == Some(p.id)
  }

  function Revoke(sessions: map<nat, Session>, p: Principal, now: int): map<nat, Session> {
    map k | k in sessions ::
      if Belongs(sessions[k], p) && sessions[k].revokedAt.None?
      then sessions[k].(revokedAt := Some(now)) else sessions[k]
  }

  predicate KeyFree(s: State, c: Channel) { c.Browser? ==> c.key !in s.usedKeys }

  /** A new credential for `p`: a session row or a signed token. */
  function Issue(cfg: Settings, s: State, p: Principal, c: Channel, now: int): State
    requires p in s.accounts
  {
    match c
    case Browser(key) =>
      s.(sessions := s.sessions[key := Session(p, UserIdOf(p), now + cfg.sessionLife, None, s.request)],
         usedKeys := s.usedKeys + {key})
    case Bearer =>
      s.(tokens := s.tokens + {Token(p, Some(s.accounts[p].version), s.request)})
  }

  function SetAccount(s: State, p: Principal, a: Account): State {
    s.(accounts := s.accounts[p := a])
  }

  predicate Good(a: Account, password: int) { password == a.password && a.active }

  function DoLogin(cfg: Settings, s: State, now: int, p: Principal, password: int, c: Channel): State {
    if p !in s.accounts then s
    else
      var a := s.accounts[p];
      if Lockout.IsLocked(a.lock, now) then s
      else if !Good(a, password) then SetAccount(s, p, a.(lock := Lockout.RegisterFailure(cfg.policy, a.lock, now)))
      else if !KeyFree(s, c) then s
      else Issue(cfg, SetAccount(s, p, a.(lock := Lockout.OPEN)), p, c, now)
  }

  /** A changed password starts a new epoch: next version, open lock, no old session. */
  function NewEpoch(s: State, p: Principal, a: Account, now: int): State {
    s.(accounts := s.accounts[p := a.(version := a.version + 1, lock := Lockout.OPEN)],
       sessions := Revoke(s.sessions, p, now),
       changedAt := s.changedAt[p := s.request])
  }

  predicate CanChange(s: State, p: Principal, current: int, next: int, allowed: bool, c: Channel) {
    p in s.accounts && s.accounts[p].active && current == s.accounts[p].password && next != current
    && allowed && KeyFree(s, c)
  }

  function DoChange(cfg: Settings, s: State, now: int, p: Principal, current: int, next: int,
                    allowed: bool, c: Channel): State
  {
    if CanChange(s, p, current, next, allowed, c) then
      Issue(cfg, NewEpoch(s, p, s.accounts[p].(password := next, mustReset := false), now), p, c, now)
    else s
  }

  predicate CanRotate(s: State, p: Principal) { p in s.accounts && s.accounts[p].mustReset }

  function DoRotate(s: State, now: int, p: Principal, next: int): State {
    if CanRotate(s, p) then NewEpoch(s, p, s.accounts[p].(password := next), now) else s
  }

  function DoLogout(s: State, now: int, key: nat): State {
    if key in s.sessions && s.sessions[key].revokedAt.None? then
      s.(sessions := s.sessions[key := s.sessions[key].(revokedAt := Some(now))])
    else s
  }

  function DoCleanup(s: State, now: int): State {
    s.(sessions := map k | k in s.sessions && s.sessions[k].expiresAt > now && s.sessions[k].revokedAt.None?
         :: s.sessions[k])
  }

  function DoSetActive(s: State, now: int, p: Principal, active: bool, revoke: bool): State {
    if p in s.accounts then
      s.(accounts := s.accounts[p := s.accounts[p].(active := active)],
         sessions := if revoke then Revoke(s.sessions, p, now) else s.sessions)
    else s
  }

  function DoRegister(s: State, p: Principal, password: int, mustReset: bool): State {
    if p in s.accounts then s
    else s.(accounts := s.accounts[p := Account(true, password, 1, mustReset, Lockout.OPEN)],
            changedAt := s.changedAt[p := s.request])
  }

  function Handle(cfg: Settings, s: State, r: Request): State {
    match r
    case Register(now, p, password, mustReset) => DoRegister(s, p, password, mustReset)
    case Login(now, p, password, c) => DoLogin(cfg, s, now, p, password, c)
    case ChangePassword(now, p, current, next, allowed, c) => DoChange(cfg, s, now, p, current, next, allowed, c)
    case RotateBootstrap(now, u, next) => DoRotate(s, now, TenantUser(u), next)
    case Logout(now, key) => DoLogout(s, now, key)
    case SetActive(now, p, active, revoke) => DoSetActive(s, now, p, active, revoke)
    case Cleanup(now) => DoCleanup(s, now)
  }

  function NextRequest(s: State): State { s.(request := s.request + 1) }

  function Apply(cfg: Settings, s: State, r: Request): State {
    NextRequest(Handle(cfg, s, r))
  }

  function Run(cfg: Settings, s: State, rs: seq<Request>): State
    decreases |rs|
  {
    if rs == [] then s else Run(cfg, Apply(cfg, s, rs[0]), rs[1..])
  }

  // ----- Epochs -----

  /** Accounts of any age, no session yet, and only tenant tokens from before versions. */
  ghost predicate Start(s: State) {
    && (forall p :: p in s.accounts ==> s.accounts[p].version >= 1)
    && s.sessions == map[] && s.usedKeys == {} && s.request == 1
    && s.changedAt == (map p | p in s.accounts :: 0)
    && (forall t :: t in s.tokens ==>
          t.issued == 0 && t.principal in s.accounts && t.principal.TenantUser? && t.version.None?)
  }

  type Accounts = map<Principal, Account>
  type Epochs = map<Principal, nat>

  ghost predicate AccountsOk(accounts: Accounts, changedAt: Epochs, request: nat) {
    forall p :: p in accounts ==> p in changedAt && changedAt[p] <= request && accounts[p].version >= 1
  }

  ghost predicate TokenOk(accounts: Accounts, changedAt: Epochs, t: Token) {
    && t.principal in accounts && t.principal in changedAt
    && t.version.GetOr(1) <= accounts[t.principal].version
    && (t.version.GetOr(1) == accounts[t.principal].version ==> t.issued >= changedAt[t.principal])
  }

  ghost predicate TokensOk(tokens: set<Token>, accounts: Accounts, changedAt: Epochs, request: nat) {
    forall t :: t in tokens ==> TokenOk(accounts, changedAt, t) && t.issued <= request
  }

  ghost predicate SessionOk(accounts: Accounts, changedAt: Epochs, e: Session) {
    && e.principal in accounts && e.principal in changedAt
    && e.userId == UserIdOf(e.principal)
    && (e.revokedAt.None? ==> e.issued >= changedAt[e.principal])
  }

  ghost predicate SessionsOk(sessions: map<nat, Session>, usedKeys: set<nat>, accounts: Accounts, changedAt: Epochs) {
    forall k :: k in sessions ==> k in usedKeys && SessionOk(accounts, changedAt, sessions[k])
  }

  ghost predicate Inv(s: State) {
    && AccountsOk(s.accounts, s.changedAt, s.request)
    && TokensOk(s.tokens, s.accounts, s.changedAt, s.request)
    && SessionsOk(s.sessions, s.usedKeys, s.accounts, s.changedAt)
  }

  lemma IssueKeeps(cfg: Settings, s: State, p: Principal, c: Channel, now: int)
    requires Inv(s) && p in s.accounts
    ensures Inv(Issue(cfg, s, p, c, now))
  {}

  lemma NewEpochKeeps(s: State, p: Principal, a: Account, now: int)
    requires Inv(s) && p in s.accounts && a.version == s.accounts[p].version
    ensures Inv(NewEpoch(s, p, a, now))
  {}

  lemma LoginKeeps(cfg: Settings, s: State, now: int, p: Principal, password: int, c: Channel)
    requires Inv(s)
    ensures Inv(DoLogin(cfg, s, now, p, password, c))
  {}

  lemma ChangeKeeps(cfg: Settings, s: State, now: int, p: Principal, current: int, next: int,
                    allowed: bool, c: Channel)
    requires Inv(s)
    ensures Inv(DoChange(cfg, s, now, p, current, next, allowed, c))
  {
    if CanChange(s, p, current, next, allowed, c) {
      var a := s.accounts[p].(password := next, mustReset := false);
      NewEpochKeeps(s, p, a, now);
      IssueKeeps(cfg, NewEpoch(s, p, a, now), p, c, now);
    }
  }

  lemma RotateKeeps(s: State, now: int, p: Principal, next: int)
    requires Inv(s)
    ensures Inv(DoRotate(s, now, p, next))
  {}

  lemma LogoutKeeps(s: State, now: int, key: nat)
    requires Inv(s)
    ensures Inv(DoLogout(s, now, key))
  {}

  lemma CleanupKeeps(s: State, now: int)
    requires Inv(s)
    ensures Inv(DoCleanup(s, now))
  {}

  lemma SetActiveKeeps(s: State, now: int, p: Principal, active: bool, revoke: bool)
    requires Inv(s)
    ensures Inv(DoSetActive(s, now, p, active, revoke))
  {}

  lemma RegisterKeeps(s: State, p: Principal, password: int, mustReset: bool)
    requires Inv(s)
    ensures Inv(DoRegister(s, p, password, mustReset))
  {}

  lemma HandleKeeps(cfg: Settings, s: State, r: Request)
    requires Inv(s)
    ensures Inv(Handle(cfg, s, r))
  {
    match r {
      case Register(now, p, password, mustReset) => RegisterKeeps(s, p, password, mustReset);
      case Login(now, p, password, c) => LoginKeeps(cfg, s, now, p, password, c);
      case ChangePassword(now, p, current, next, allowed, c) =>
        ChangeKeeps(cfg, s, now, p, current, next, allowed, c);
      case RotateBootstrap(now, u, next) => RotateKeeps(s, now, TenantUser(u), next);
      case Logout(now, key) => LogoutKeeps(s, now, key);
      case SetActive(now, p, active, revoke) => SetActiveKeeps(s, now, p, active, revoke);
      case Cleanup(now) => CleanupKeeps(s, now);
    }
  }

  lemma NextKeeps(s: State)
    requires Inv(s)
    ensures Inv(NextRequest(s))
  {}

  lemma ApplyKeeps(cfg: Settings, s: State, r: Request)
    requires Inv(s)
    ensures Inv(Apply(cfg, s, r))
  {
    HandleKeeps(cfg, s, r);
    NextKeeps(Handle(cfg, s, r));
  }

  lemma {:induction false} RunKeeps(cfg: Settings, s: State, rs: seq<Request>)
    requires Inv(s)
    ensures Inv(Run(cfg, s, rs))
    decreases |rs|
  {
    if rs != [] {
      ApplyKeeps(cfg, s, rs[0]);
      RunKeeps(cfg, Apply(cfg, s, rs[0]), rs[1..]);
    }
  }

  /** In every reachable state, whatever token or session the middleware accepts was issued
      no earlier than the account's latest password change or bootstrap rotation. */
  lemma AcceptedIsCurrent(cfg: Settings, s: State, rs: seq<Request>, t: Token, key: nat, now: int)
    requires Start(s)
    ensures var s' := Run(cfg, s, rs);
            && (AcceptsToken(s', t) ==> t.principal in s'.changedAt && t.issued >= s'.changedAt[t.principal])
            && (AcceptsSession(s', key, now) ==>
                  s'.sessions[key].principal in s'.changedAt
                  && s'.sessions[key].issued >= s'.changedAt[s'.sessions[key].principal])
  {
    RunKeeps(cfg, s, rs);
    var s' := Run(cfg, s, rs);
    assert AcceptsToken(s', t) ==> TokenOk(s'.accounts, s'.changedAt, t);
    assert AcceptsSession(s', key, now) ==> SessionOk(s'.accounts, s'.changedAt, s'.sessions[key]);
  }

  /** Right after a change of password the account has one credential: the replacement,
      for the channel the request came by. */
  lemma ChangeLeavesOneCredential(cfg: Settings, s: State, now: int, p: Principal, current: int, next: int,
                                  c: Channel, t: Token, key: nat, later: int)
    requires Inv(s) && CanChange(s, p, current, next, true, c)
    ensures var s' := Apply(cfg, s, ChangePassword(now, p, current, next, true, c));
            && s'.accounts[p] == Account(true, next, s.accounts[p].version + 1, false, Lockout.OPEN)
            && (t.principal == p && AcceptsToken(s', t) <==>
                  c.Bearer? && t == Token(p, Some(s'.accounts[p].version), s.request))
            && (AcceptsSession(s', key, later) && s'.sessions[key].principal == p <==>
                  c.Browser? && key == c.key && later < now + cfg.sessionLife)
  {}

  // ----- Nothing comes back -----

  /** Used and revoked or removed. */
  ghost predicate Dead(s: State, key: nat) {
    key in s.usedKeys && (key in s.sessions ==> s.sessions[key].revokedAt.Some?)
  }

  lemma ApplyOnlyAgesOut(cfg: Settings, s: State, r: Request, p: Principal, key: nat)
    ensures var s' := Apply(cfg, s, r);
            && (p in s.accounts ==> p in s'.accounts && s.accounts[p].version <= s'.accounts[p].version)
            && (Dead(s, key) ==> Dead(s', key))
  {}

  /** Credential versions never go down and a revoked or removed session never opens again,
      so a token whose version has passed and a dead session are refused for good. */
  lemma {:induction false} RevocationIsFinal(cfg: Settings, s: State, rs: seq<Request>, p: Principal, key: nat,
                                             t: Token, now: int)
    requires p in s.accounts
    ensures var s' := Run(cfg, s, rs);
            && p in s'.accounts && s.accounts[p].version <= s'.accounts[p].version
            && (Dead(s, key) ==> Dead(s', key) && !AcceptsSession(s', key, now))
            && (t.principal == p && t.version.GetOr(1) < s.accounts[p].version ==> !AcceptsToken(s', t))
    decreases |rs|
  {
    if rs != [] {
      var n := Apply(cfg, s, rs[0]);
      ApplyOnlyAgesOut(cfg, s, rs[0], p, key);
      RevocationIsFinal(cfg, n, rs[1..], p, key, t, now);
    }
  }

  // ----- The lock of one account within the whole machine -----

  /** What a request is to the lock of `p`. */
  function LockEvents(s: State, r: Request, p: Principal): seq<Lockout.Event> {
    if p !in s.accounts then []
    else
      match r
      case Login(now, q, password, c) =>
        var good := Good(s.accounts[p], password);
        if q != p || (good && !KeyFree(s, c)) then [] else [Lockout.Attempt(now, good)]
      case ChangePassword(now, q, current, next, allowed, c) =>
        if q == p && CanChange(s, p, current, next, allowed, c) then [Lockout.Reset(now)] else []
      case RotateBootstrap(now, u, next) =>
        if TenantUser(u) == p && CanRotate(s, p) then [Lockout.Reset(now)] else []
      case _ => []
  }

  function LockHistory(cfg: Settings, s: State, rs: seq<Request>, p: Principal): seq<Lockout.Event>
    decreases |rs|
  {
    if rs == [] then [] else LockEvents(s, rs[0], p) + LockHistory(cfg, Apply(cfg, s, rs[0]), rs[1..], p)
  }

  /** Logins of `p` whose password was checked and refused. */
  function FailedChecks(cfg: Settings, s: State, rs: seq<Request>, p: Principal): nat
    decreases |rs|
  {
    if rs == [] then 0
    else
      (if rs[0].Login? && rs[0].principal == p && p in s.accounts
          && !Lockout.IsLocked(s.accounts[p].lock, rs[0].now) && !Good(s.accounts[p], rs[0].password) then 1 else 0)
      + FailedChecks(cfg, Apply(cfg, s, rs[0]), rs[1..], p)
  }

  lemma ApplyMovesLock(cfg: Settings, s: State, r: Request, p: Principal)
    requires p in s.accounts
    ensures p in Apply(cfg, s, r).accounts
    ensures var es := LockEvents(s, r, p);
            Apply(cfg, s, r).accounts[p].lock ==
            if es == [] then s.accounts[p].lock else Lockout.Step(cfg.policy, s.accounts[p].lock, es[0])
  {}

  /** The machine moves each account's lock as the lock machine alone would. */
  lemma {:induction false} LockIsProjection(cfg: Settings, s: State, rs: seq<Request>, p: Principal)
    requires p in s.accounts
    ensures var s' := Run(cfg, s, rs);
            var es := LockHistory(cfg, s, rs, p);
            && p in s'.accounts
            && s'.accounts[p].lock == Lockout.Run(cfg.policy, s.accounts[p].lock, es)
            && FailedChecks(cfg, s, rs, p) == Lockout.Failures(cfg.policy, s.accounts[p].lock, es)
    decreases |rs|
  {
    if rs != [] {
      var n := Apply(cfg, s, rs[0]);
      ApplyMovesLock(cfg, s, rs[0], p);
      LockIsProjection(cfg, n, rs[1..], p);
      var es := LockEvents(s, rs[0], p);
      var rest := LockHistory(cfg, n, rs[1..], p);
      if es == [] {
        assert es + rest == rest;
      } else {
        assert (es + rest)[1..] == rest;
      }
    }
  }

  ghost predicate Timed(rs: seq<Request>, from: int, to: int) {
    && (forall i :: 0 <= i < |rs| ==> from <= rs[i].now <= to)
    && (forall i, j :: 0 <= i < j < |rs| ==> rs[i].now <= rs[j].now)
  }

  lemma {:induction false} HistoryIsTimed(cfg: Settings, s: State, rs: seq<Request>, p: Principal, from: int, to: int)
    requires Timed(rs, from, to)
    ensures Lockout.Within(LockHistory(cfg, s, rs, p), from, to)
    decreases |rs|
  {
    if rs != [] {
      HistoryIsTimed(cfg, Apply(cfg, s, rs[0]), rs[1..], p, rs[0].now, to);
    }
  }

  /** Over any run of requests of any accounts whose clock does not go back, the refused
      passwords of one account in a window are bounded, and its counter stays below the
      limit. */
  lemma FailedLoginsAreBounded(cfg: Settings, s: State, rs: seq<Request>, p: Principal, from: int, length: nat)
    requires cfg.policy.Valid() && p in s.accounts && Lockout.Sound(cfg.policy, s.accounts[p].lock, from)
    requires Timed(rs, from, from + length)
    ensures var es := LockHistory(cfg, s, rs, p);
            && FailedChecks(cfg, s, rs, p) <= Lockout.FailureBound(cfg.policy, s.accounts[p].lock, es, length)
            && p in Run(cfg, s, rs).accounts
            && Lockout.Sound(cfg.policy, Run(cfg, s, rs).accounts[p].lock, from + length)
  {
    LockIsProjection(cfg, s, rs, p);
    HistoryIsTimed(cfg, s, rs, p, from, from + length);
    Lockout.FailuresInWindow(cfg.policy, s.accounts[p].lock, LockHistory(cfg, s, rs, p), from, length);
    Lockout.RunKeepsSound(cfg.policy, s.accounts[p].lock, LockHistory(cfg, s, rs, p), from, from + length);
  }
}
