/** What each request changes about the credentials the middleware accepts, for every token
    and every session at every later instant. */
module CredentialEffects {
  import opened Values
  import opened Credentials
  import Lockout

  lemma FreeKeyIsNew(s: State, key: nat)
    requires Inv(s) && key !in s.usedKeys
    ensures key !in s.sessions
  {}

  lemma NewAccountHasNone(s: State, p: Principal)
    requires Inv(s) && p !in s.accounts
    ensures forall t: Token :: t in s.tokens ==> t.principal != p
    ensures forall key: nat :: key in s.sessions ==> s.sessions[key].principal != p
  {}

  /** A login is granted to an account that is not locked, for its password and while active,
      and with a new key; then it adds one credential, and otherwise it changes nothing that
      is accepted. */
  lemma LoginAddsOneCredential(cfg: Settings, s: State, now: int, p: Principal, password: int, c: Channel,
                               t: Token, key: nat, later: int)
    requires Inv(s)
    ensures var s' := Apply(cfg, s, Login(now, p, password, c));
            var granted := p in s.accounts && s.accounts[p].active && password == s.accounts[p].password
                           && !Lockout.IsLocked(s.accounts[p].lock, now) && KeyFree(s, c);
            && (AcceptsToken(s', t) <==>
                  AcceptsToken(s, t) || (granted && c.Bearer? && t == Token(p, Some(s.accounts[p].version), s.request)))
            && (AcceptsSession(s', key, later) <==>
                  (AcceptsSession(s, key, later) ||
                   (granted && c.Browser? && key == c.key && later < now + cfg.sessionLife)))
            && (granted ==> s'.accounts[p] == s.accounts[p].(lock := Lockout.OPEN))
            && (forall q :: q in s.accounts && q != p ==> q in s'.accounts && s'.accounts[q] == s.accounts[q])
  {
    hide Inv, Lockout.RegisterFailure, Lockout.IsLocked;
    if c.Browser? && KeyFree(s, c) {
      FreeKeyIsNew(s, c.key);
    }
  }

  /** A rotation of a pending password ends every credential of that user and no other. */
  lemma RotationLeavesNoCredential(cfg: Settings, s: State, now: int, u: nat, next: int, t: Token, key: nat, later: int)
    requires Inv(s)
    ensures var s' := Apply(cfg, s, RotateBootstrap(now, u, next));
            var p := TenantUser(u);
            && (AcceptsToken(s', t) <==> AcceptsToken(s, t) && !(CanRotate(s, p) && t.principal == p))
            && (AcceptsSession(s', key, later) <==>
                  AcceptsSession(s, key, later) && !(CanRotate(s, p) && s.sessions[key].principal == p))
            && (CanRotate(s, p) ==>
                  s'.accounts[p] == Account(s.accounts[p].active, next, s.accounts[p].version + 1, true, Lockout.OPEN))
  {
    var p := TenantUser(u);
    if CanRotate(s, p) && t in s.tokens && t.principal == p {
      assert TokenOk(s.accounts, s.changedAt, t);
    }
    if key in s.sessions {
      assert SessionOk(s.accounts, s.changedAt, s.sessions[key]);
    }
  }

  /** A logout ends the one session it names. */
  lemma LogoutEndsOneSession(cfg: Settings, s: State, now: int, k: nat, t: Token, key: nat, later: int)
    ensures var s' := Apply(cfg, s, Logout(now, k));
            && (AcceptsToken(s', t) <==> AcceptsToken(s, t))
            && (AcceptsSession(s', key, later) <==> AcceptsSession(s, key, later) && key != k)
  {}

  /** Whenever it runs, cleaning up is invisible from then on: what it deletes was refused. */
  lemma CleanupIsInvisible(cfg: Settings, s: State, now: int, t: Token, key: nat, later: int)
    requires now <= later
    ensures var s' := Apply(cfg, s, Cleanup(now));
            && (AcceptsToken(s', t) <==> AcceptsToken(s, t))
            && (AcceptsSession(s', key, later) <==> AcceptsSession(s, key, later))
            && s'.accounts == s.accounts
  {}

  /** A password changes for the current one of an active account, to another that is allowed,
      on a channel with a new key; then it is the new one, and otherwise nothing of the
      account is any different. */
  lemma ChangeIsExact(cfg: Settings, s: State, now: int, p: Principal, current: int, next: int, allowed: bool,
                      c: Channel)
    ensures var s' := Apply(cfg, s, ChangePassword(now, p, current, next, allowed, c));
            var changes := p in s.accounts && s.accounts[p].active && s.accounts[p].password == current
                           && s.accounts[p].password != next && allowed && (c.Browser? ==> c.key !in s.usedKeys);
            && (changes ==>
                  p in s'.accounts
                  && s'.accounts[p] == Account(true, next, s.accounts[p].version + 1, false, Lockout.Lock(0, None)))
            && (!changes ==> s'.accounts == s.accounts && s'.sessions == s.sessions && s'.tokens == s.tokens)
  {
    hide Revoke;
  }

  lemma SessionsNameTheirUser(s: State, p: Principal)
    requires Inv(s)
    ensures forall k :: k in s.sessions && s.sessions[k].principal == p ==> Belongs(s.sessions[k], p)
  {
    forall k | k in s.sessions && s.sessions[k].principal == p ensures Belongs(s.sessions[k], p) {
      assert SessionOk(s.accounts, s.changedAt, s.sessions[k]);
    }
  }

  /** A change of password that is refused changes nothing, and one that succeeds leaves the
      credentials of every other account alone. */
  lemma ChangeIsConfined(cfg: Settings, s: State, now: int, p: Principal, current: int, next: int, allowed: bool,
                         c: Channel, t: Token, key: nat, later: int)
    requires Inv(s)
    ensures var s' := Apply(cfg, s, ChangePassword(now, p, current, next, allowed, c));
            && (!CanChange(s, p, current, next, allowed, c) ==> s' == NextRequest(s))
            && (t.principal != p ==> (AcceptsToken(s', t) <==> AcceptsToken(s, t)))
            && (key in s.sessions && s.sessions[key].principal != p ==>
                  (AcceptsSession(s', key, later) <==> AcceptsSession(s, key, later)))
  {
    if key in s.sessions {
      assert SessionOk(s.accounts, s.changedAt, s.sessions[key]);
    }
  }

  /** A deactivated account has no accepted credential until it is active again. */
  lemma InactiveIsRefused(cfg: Settings, s: State, now: int, p: Principal, revoke: bool, t: Token, key: nat, later: int)
    requires Inv(s)
    ensures var s' := Apply(cfg, s, SetActive(now, p, false, revoke));
            && (p in s.accounts ==>
                  (AcceptsToken(s', t) <==> AcceptsToken(s, t) && t.principal != p)
                  && (AcceptsSession(s', key, later) <==>
                        AcceptsSession(s, key, later) && s.sessions[key].principal != p))
            && (p !in s.accounts ==> s' == NextRequest(s))
  {
    if key in s.sessions {
      assert SessionOk(s.accounts, s.changedAt, s.sessions[key]);
    }
  }
}
