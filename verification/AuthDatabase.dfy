/** The login service on its tables: requests that update accounts and sessions in place.
    Each is one step of the credential machine, keeps its invariant, and says which tokens
    and sessions are accepted afterwards. */
module AuthDatabase {
  import opened Values
  import opened Credentials
  import opened CredentialEffects
  import Lockout

  class Database {
    const cfg: Settings
    var accounts: map<Principal, Account>
    var sessions: map<nat, Session>
    var usedKeys: set<nat>
    var tokens: set<Token>
    var request: nat
    ghost var changedAt: map<Principal, nat>

    ghost function Contents(): State
      reads this
    {
      State(accounts, sessions, usedKeys, tokens, request, changedAt)
    }

    /** Tokens and sessions belong to the current epoch of their account, or are dead. */
    ghost predicate Valid()
      reads this
    {
      Inv(Contents())
    }

    /** The middleware accepts the same tokens as in `s`. */
    ghost predicate SameTokens(s: State)
      reads this
    {
      forall t :: AcceptsToken(Contents(), t) <==> AcceptsToken(s, t)
    }

    constructor (cfg: Settings)
      ensures Valid() && Contents() == State(map[], map[], {}, {}, 1, map[]) && this.cfg == cfg
    {
      this.cfg := cfg;
      accounts, sessions, usedKeys, tokens, request := map[], map[], {}, {}, 1;
      changedAt := map[];
    }

    /** Counts a refused password and locks the account at the limit. */
    method RegisterFailure(p: Principal, now: int)
      requires p in accounts
      modifies this
      ensures Contents() == SetAccount(old(Contents()), p,
                old(accounts[p]).(lock := Lockout.RegisterFailure(cfg.policy, old(accounts[p]).lock, now)))
      ensures var failures := old(accounts[p]).lock.failures + 1;
              accounts[p].lock == if failures >= cfg.policy.limit then Lockout.Lock(0, Some(now + cfg.policy.lockout))
                                  else Lockout.Lock(failures, None)
    {
      var next := accounts[p].lock.failures + 1;
      var until := None;
      if next >= cfg.policy.limit {
        until := Some(now + cfg.policy.lockout);
        next := 0;
      }
      accounts := accounts[p := accounts[p].(lock := Lockout.Lock(next, until))];
    }

    /** One statement: the open sessions of the account are revoked, other rows stay. */
    method RevokeSessions(p: Principal, now: int)
      modifies this`sessions
      ensures Contents() == old(Contents()).(sessions := Revoke(old(sessions), p, now))
      ensures sessions.Keys == old(sessions).Keys
      ensures forall k :: k in sessions ==>
                var row := old(sessions)[k];
                var its := if p.Admin? then row.principal == p else row.userId == Some(p.id);
                sessions[k] == if its && row.revokedAt.None? then row.(revokedAt := Some(now)) else row
    {
      var revoked := map k | k in sessions && Belongs(sessions[k], p) && sessions[k].revokedAt.None?
        :: sessions[k].(revokedAt := Some(now));
      sessions := sessions + revoked;
      assert sessions == Revoke(old(sessions), p, now);
    }

    /** A session row with a new key, or a signed token at the current version. */
    method IssueCredential(p: Principal, c: Channel, now: int)
      requires p in accounts
      modifies this
      ensures Contents() == Issue(cfg, old(Contents()), p, c, now)
    {
      match c {
        case Browser(key) =>
          sessions := sessions[key := Session(p, UserIdOf(p), now + cfg.sessionLife, None, request)];
          usedKeys := usedKeys + {key};
        case Bearer =>
          tokens := tokens + {Token(p, Some(accounts[p].version), request)};
      }
    }

    /** A new account, with no credential yet and no effect on those of others. */
    method Register(now: int, p: Principal, password: int, mustReset: bool)
      requires Valid() && p !in accounts
      modifies this
      ensures Valid() && Contents() == Apply(cfg, old(Contents()), Request.Register(now, p, password, mustReset))
      ensures accounts == old(accounts)[p := Account(true, password, 1, mustReset, Lockout.OPEN)]
      ensures SameTokens(old(Contents()))
      ensures forall key: nat, later: int ::
                AcceptsSession(Contents(), key, later) <==> AcceptsSession(old(Contents()), key, later)
      ensures forall t: Token :: AcceptsToken(Contents(), t) ==> t.principal != p
      ensures forall key: nat, later: int :: AcceptsSession(Contents(), key, later) ==> sessions[key].principal != p
    {
      ghost var before := Contents();
      NewAccountHasNone(before, p);
      hide Inv;
      accounts := accounts[p := Account(true, password, 1, mustReset, Lockout.OPEN)];
      changedAt := changedAt[p := request];
      request := request + 1;
      ApplyKeeps(cfg, before, Request.Register(now, p, password, mustReset));
    }

    /** Granted for the password of an active account that is not locked: then exactly the one
        new credential is accepted besides those before, and otherwise just those. */
    method Login(now: int, p: Principal, password: int, c: Channel) returns (granted: bool)
      requires Valid()
      modifies this
      ensures Valid() && Contents() == Apply(cfg, old(Contents()), Request.Login(now, p, password, c))
      ensures granted <==>
              && p in old(accounts) && (old(accounts)[p].lock.until.Some? ==> old(accounts)[p].lock.until.value <= now)
              && old(accounts)[p].active && old(accounts)[p].password == password
              && (c.Browser? ==> c.key !in old(usedKeys))
      ensures granted ==> accounts == old(accounts)[p := old(accounts)[p].(lock := Lockout.Lock(0, None))]
      ensures p in old(accounts) && (old(accounts)[p].lock.until.Some? ==> old(accounts)[p].lock.until.value <= now)
              && !(old(accounts)[p].active && old(accounts)[p].password == password) ==>
                accounts == old(accounts)[p := old(accounts)[p].(
                              lock := Lockout.RegisterFailure(cfg.policy, old(accounts)[p].lock, now))]
      ensures p !in old(accounts) || (old(accounts)[p].active && old(accounts)[p].password == password && !granted) ==>
                accounts == old(accounts)
      ensures forall t: Token ::
                AcceptsToken(Contents(), t) <==>
                (AcceptsToken(old(Contents()), t) ||
                 (granted && c.Bearer? && t == Token(p, Some(old(accounts)[p].version), old(request))))
      ensures forall key: nat, later: int ::
                AcceptsSession(Contents(), key, later) <==>
                (AcceptsSession(old(Contents()), key, later) ||
                 (granted && c.Browser? && key == c.key && later < now + cfg.sessionLife))
    {
      hide Inv, AcceptsToken, AcceptsSession;
      ghost var before := Contents();
      granted := false;
      if p in accounts && !(accounts[p].lock.until.Some? && accounts[p].lock.until.value > now) {
        var a := accounts[p];
        if password != a.password || !a.active {
          RegisterFailure(p, now);
        } else if !(c.Browser? && c.key in usedKeys) {
          accounts := accounts[p := a.(lock := Lockout.Lock(0, None))];
          IssueCredential(p, c, now);
          granted := true;
        }
      }
      request := request + 1;
      ApplyKeeps(cfg, before, Request.Login(now, p, password, c));
      ghost var none := Token(p, None, 0);
      forall t: Token
        ensures AcceptsToken(Contents(), t) <==>
                (AcceptsToken(before, t) ||
                 (granted && c.Bearer? && t == Token(p, Some(before.accounts[p].version), before.request)))
      {
        LoginAddsOneCredential(cfg, before, now, p, password, c, t, 0, 0);
      }
      forall key: nat, later: int
        ensures AcceptsSession(Contents(), key, later) <==>
                (AcceptsSession(before, key, later) ||
                 (granted && c.Browser? && key == c.key && later < now + cfg.sessionLife))
      {
        LoginAddsOneCredential(cfg, before, now, p, password, c, none, key, later);
      }
    }

    /** Then the account has one accepted credential, the replacement; refused, nothing of the
        tables changes but the request number. */
    method ChangePassword(now: int, p: Principal, current: int, next: int, allowed: bool, c: Channel)
      returns (changed: bool)
      requires Valid()
      modifies this
      ensures Valid()
      ensures Contents() == Apply(cfg, old(Contents()), Request.ChangePassword(now, p, current, next, allowed, c))
      ensures changed <==>
              && p in old(accounts) && old(accounts)[p].active && old(accounts)[p].password == current
              && old(accounts)[p].password != next && allowed && (c.Browser? ==> c.key !in old(usedKeys))
      ensures changed ==>
                accounts == old(accounts)[p := Account(true, next, old(accounts)[p].version + 1, false,
                                                       Lockout.Lock(0, None))]
      ensures changed ==> forall t: Token ::
                (t.principal == p && AcceptsToken(Contents(), t)) <==>
                (c.Bearer? && t == Token(p, Some(old(accounts)[p].version + 1), old(request)))
      ensures changed ==> forall key: nat, later: int ::
                (AcceptsSession(Contents(), key, later) && sessions[key].principal == p) <==>
                (c.Browser? && key == c.key && later < now + cfg.sessionLife)
      ensures !changed ==>
                accounts == old(accounts) && sessions == old(sessions) && tokens == old(tokens)
    {
      hide Inv, AcceptsToken, Revoke, Belongs, Lockout.IsLocked;
      ghost var before := Contents();
      changed := false;
      if p in accounts && accounts[p].active {
        if current == accounts[p].password && next != accounts[p].password && allowed
           && !(c.Browser? && c.key in usedKeys) {
          var a := accounts[p];
          a := a.(password := next);
          a := a.(mustReset := false);
          a := a.(version := a.version + 1);
          a := a.(lock := Lockout.Lock(0, None));
          accounts := accounts[p := a];
          changedAt := changedAt[p := request];
          RevokeSessions(p, now);
          IssueCredential(p, c, now);
          changed := true;
        }
      }
      request := request + 1;
      ApplyKeeps(cfg, before, Request.ChangePassword(now, p, current, next, allowed, c));
      if changed {
        ghost var none := Token(p, None, 0);
        forall t: Token
          ensures (t.principal == p && AcceptsToken(Contents(), t)) <==>
                  (c.Bearer? && t == Token(p, Some(before.accounts[p].version + 1), before.request))
        {
          ChangeLeavesOneCredential(cfg, before, now, p, current, next, c, t, 0, 0);
        }
        forall key: nat, later: int
          ensures (AcceptsSession(Contents(), key, later) && sessions[key].principal == p) <==>
                  (c.Browser? && key == c.key && later < now + cfg.sessionLife)
        {
          ChangeLeavesOneCredential(cfg, before, now, p, current, next, c, none, key, later);
        }
      }
    }

    /** A new bootstrap password for a tenant administrator who has not chosen one: it ends
        every credential of that user and no other. */
    method RotateBootstrap(now: int, userId: nat, next: int) returns (rotated: bool)
      requires Valid()
      modifies this
      ensures Valid() && Contents() == Apply(cfg, old(Contents()), Request.RotateBootstrap(now, userId, next))
      ensures var p := TenantUser(userId);
              && (rotated <==> p in old(accounts) && old(accounts)[p].mustReset)
              && (rotated ==>
                    accounts == old(accounts)[p := Account(old(accounts)[p].active, next, old(accounts)[p].version + 1,
                                                           true, Lockout.Lock(0, None))])
              && (!rotated ==> accounts == old(accounts))
      ensures forall t: Token ::
                AcceptsToken(Contents(), t) <==>
                (AcceptsToken(old(Contents()), t) && !(rotated && t.principal == TenantUser(userId)))
      ensures forall key: nat, later: int ::
                AcceptsSession(Contents(), key, later) <==>
                (AcceptsSession(old(Contents()), key, later) &&
                 !(rotated && old(sessions)[key].principal == TenantUser(userId)))
    {
      hide Inv, AcceptsToken, Revoke;
      ghost var before := Contents();
      var p := TenantUser(userId);
      rotated := p in accounts && accounts[p].mustReset;
      if rotated {
        var a := accounts[p];
        a := a.(password := next, version := a.version + 1, lock := Lockout.Lock(0, None));
        accounts := accounts[p := a];
        changedAt := changedAt[p := request];
        RevokeSessions(p, now);
      }
      request := request + 1;
      ApplyKeeps(cfg, before, Request.RotateBootstrap(now, userId, next));
      forall t: Token
        ensures AcceptsToken(Contents(), t) <==> (AcceptsToken(before, t) && !(rotated && t.principal == p))
      {
        RotationLeavesNoCredential(cfg, before, now, userId, next, t, 0, 0);
      }
      forall key: nat, later: int
        ensures AcceptsSession(Contents(), key, later) <==>
                (AcceptsSession(before, key, later) && !(rotated && before.sessions[key].principal == p))
      {
        RotationLeavesNoCredential(cfg, before, now, userId, next, Token(p, None, 0), key, later);
      }
    }

    /** The one session is over; whatever else was accepted still is. */
    method Logout(now: int, key: nat)
      requires Valid()
      modifies this
      ensures Valid() && Contents() == Apply(cfg, old(Contents()), Request.Logout(now, key))
      ensures SameTokens(old(Contents()))
      ensures forall k: nat, later: int ::
                AcceptsSession(Contents(), k, later) <==> (AcceptsSession(old(Contents()), k, later) && k != key)
      ensures accounts == old(accounts) && sessions.Keys == old(sessions).Keys
    {
      hide Inv, AcceptsToken, AcceptsSession;
      ghost var before := Contents();
      if key in sessions && sessions[key].revokedAt.None? {
        sessions := sessions[key := sessions[key].(revokedAt := Some(now))];
      }
      request := request + 1;
      ApplyKeeps(cfg, before, Request.Logout(now, key));
      forall t: Token ensures AcceptsToken(Contents(), t) <==> AcceptsToken(before, t) {
        LogoutEndsOneSession(cfg, before, now, key, t, 0, 0);
      }
      forall k: nat, later: int
        ensures AcceptsSession(Contents(), k, later) <==> AcceptsSession(before, k, later) && k != key
      {
        LogoutEndsOneSession(cfg, before, now, key, Token(TenantUser(0), None, 0), k, later);
      }
    }

    /** Deletes expired and revoked sessions and returns how many; from now on the same tokens
        and sessions are accepted. */
    method Cleanup(now: int) returns (deleted: nat)
      requires Valid()
      modifies this
      ensures Valid() && Contents() == Apply(cfg, old(Contents()), Request.Cleanup(now))
      ensures deleted == |old(sessions)| - |sessions|
      ensures forall k :: k in sessions <==>
                && k in old(sessions) && old(sessions)[k].expiresAt > now && old(sessions)[k].revokedAt.None?
      ensures forall k :: k in sessions ==> sessions[k] == old(sessions)[k]
      ensures accounts == old(accounts)
      ensures SameTokens(old(Contents()))
      ensures forall k, later :: now <= later ==>
                (AcceptsSession(Contents(), k, later) <==> AcceptsSession(old(Contents()), k, later))
    {
      hide Inv, AcceptsToken, AcceptsSession;
      ghost var before := Contents();
      var kept := map k | k in sessions && sessions[k].expiresAt > now && sessions[k].revokedAt.None? :: sessions[k];
      SubsetSize(kept.Keys, sessions.Keys);
      deleted := |sessions.Keys| - |kept.Keys|;
      sessions := kept;
      request := request + 1;
      ApplyKeeps(cfg, before, Request.Cleanup(now));
      forall t: Token ensures AcceptsToken(Contents(), t) <==> AcceptsToken(before, t) {
        CleanupIsInvisible(cfg, before, now, t, 0, now);
      }
      forall k: nat, later: int | now <= later
        ensures AcceptsSession(Contents(), k, later) <==> AcceptsSession(before, k, later)
      {
        CleanupIsInvisible(cfg, before, now, Token(TenantUser(0), None, 0), k, later);
      }
    }

    /** An account is switched on or off; switched off, its open sessions may be revoked too. */
    method SetActive(now: int, p: Principal, active: bool, revoke: bool) returns (known: bool)
      requires Valid()
      modifies this
      ensures Valid() && Contents() == Apply(cfg, old(Contents()), Request.SetActive(now, p, active, revoke))
      ensures known <==> p in old(accounts)
      ensures known ==> accounts == old(accounts)[p := old(accounts)[p].(active := active)]
      ensures known && revoke ==>
                forall key: nat, later: int :: AcceptsSession(Contents(), key, later) ==> sessions[key].principal != p
      ensures known && !active ==>
                && (forall t: Token :: AcceptsToken(Contents(), t) <==>
                      (AcceptsToken(old(Contents()), t) && t.principal != p))
                && (forall key: nat, later: int :: AcceptsSession(Contents(), key, later) <==>
                      (AcceptsSession(old(Contents()), key, later) && old(sessions)[key].principal != p))
      ensures !known ==> accounts == old(accounts) && sessions == old(sessions) && tokens == old(tokens)
    {
      ghost var before := Contents();
      SessionsNameTheirUser(before, p);
      hide Inv, AcceptsToken, Revoke;
      known := p in accounts;
      if known {
        accounts := accounts[p := accounts[p].(active := active)];
        if revoke {
          RevokeSessions(p, now);
        }
      }
      request := request + 1;
      ApplyKeeps(cfg, before, Request.SetActive(now, p, active, revoke));
      if known && !active {
        forall t: Token
          ensures AcceptsToken(Contents(), t) <==> (AcceptsToken(before, t) && t.principal != p)
        {
          InactiveIsRefused(cfg, before, now, p, revoke, t, 0, 0);
        }
        forall key: nat, later: int
          ensures AcceptsSession(Contents(), key, later) <==>
                  (AcceptsSession(before, key, later) && before.sessions[key].principal != p)
        {
          InactiveIsRefused(cfg, before, now, p, revoke, Token(p, None, 0), key, later);
        }
      }
    }

    /** The middleware's test of a signed token, of which a tenant's from before versions counts
        as version 1 and a platform's is refused. */
    method AcceptToken(t: Token) returns (accepted: bool)
      ensures accepted <==>
              && t in tokens && t.principal in accounts && accounts[t.principal].active
              && match t.version
                 case Some(v) => v == accounts[t.principal].version
                 case None => t.principal.TenantUser? && accounts[t.principal].version == 1
      ensures accepted <==> AcceptsToken(Contents(), t)
    {
      if t !in tokens || t.principal !in accounts || !accounts[t.principal].active { return false; }
      if t.principal.Admin? && t.version.None? { return false; }
      accepted := t.version.GetOr(1) == accounts[t.principal].version;
    }

    /** The middleware's test of a browser session: there, not revoked, not expired, and of an
        active account. */
    method AcceptSession(key: nat, now: int) returns (accepted: bool)
      ensures accepted <==>
              && key in sessions && sessions[key].revokedAt == None && now < sessions[key].expiresAt
              && sessions[key].principal in accounts && accounts[sessions[key].principal].active
      ensures accepted <==> AcceptsSession(Contents(), key, now)
    {
      if key !in sessions || sessions[key].revokedAt.Some? || sessions[key].expiresAt <= now { return false; }
      var p := sessions[key].principal;
      accepted := p in accounts && accounts[p].active;
    }
  }
}
