/** Row-level security on pooled connections: which rows a session reaches, whatever ran
    on its connection before. */
module TenantContext {
  import opened Values

  type TenantId = nat
  type SessionId = nat
  type ConnId = nat
  type RowId = nat

  // ----- The policy, in three-valued logic -----

  datatype Tri = True | False | Unknown

  function Or3(a: Tri, b: Tri): Tri {
    if a == True || b == True then True
    else if a == Unknown || b == Unknown then Unknown
    else False
  }

  /** A configuration value as `current_setting(…, true)` returns it. A setting never made
      on a connection is NULL; one that was made for a transaction reads as empty after it. */
  datatype TypeSetting = NullType | EmptyType | AdminType | UserType
  datatype TenantSetting = NullTenant | EmptyTenant | TenantText(id: TenantId)

  datatype Settings = Settings(principalType: TypeSetting, tenant: TenantSetting)

  function TypeIsAdmin(s: TypeSetting): Tri {
    if s == NullType then Unknown else if s == AdminType then True else False
  }

  /** `tenant_id = NULLIF(setting, '')::uuid` */
  function TenantMatches(s: TenantSetting, t: TenantId): Tri {
    if s == TenantText(t) then True else if s.TenantText? then False else Unknown
  }

  predicate PolicyAdmits(s: Settings, t: TenantId) {
    Or3(TypeIsAdmin(s.principalType), TenantMatches(s.tenant, t)) == True
  }

  // ----- Sessions and connections -----

  /** What `session_for` stores: nothing, or a verified principal's scope. */
  datatype Scope = NoScope | AdminScope | UserScope(tenant: Option<TenantId>)

  /** The tenant of a request's claims, as text that may not be an identifier. */
  datatype TenantClaim = NoTenant | Malformed | TenantId(id: TenantId)

  /** `writes`: the rows its transaction has written and not yet committed, `None` a removed
      one. Other transactions wait for them and do not see them. */
  datatype Session = Session(scope: Scope, conn: Option<ConnId>, writes: map<RowId, Option<Row>>)

  /** `local` overlays `base` from a begin that set the context to the end of that transaction. */
  datatype Conn = Conn(base: Settings, local: Option<Settings>, owner: Option<SessionId>)

  datatype Row = Row(tenant: TenantId, data: int)

  datatype Access = Access(session: SessionId, row: RowId, tenant: TenantId)

  /** `accesses` records every row read, written or removed; only the specification reads it. */
  datatype State = State(sessions: map<SessionId, Session>, conns: map<ConnId, Conn>,
                         rows: map<RowId, Row>, accesses: seq<Access>)

  function Current(c: Conn): Settings { c.local.GetOr(c.base) }

  /** The scope of a new session, or none when the request is refused. */
  function ScopeFor(principalType: Option<string>, tenant: TenantClaim, verified: bool): Option<Scope> {
    if principalType.None? then Some(NoScope)
    else if principalType.value !in {"admin", "platform_admin", "user"} then None
    else if principalType.value in {"admin", "platform_admin"} then
      if verified then Some(AdminScope) else None
    else
      match tenant
      case NoTenant => Some(UserScope(None))
      case Malformed => None
      case TenantId(id) => Some(UserScope(Some(id)))
  }

  /** What the begin hook writes for a scope: nothing for a session without a principal. */
  function ContextOf(scope: Scope): Option<Settings> {
    match scope
    case NoScope => None
    case AdminScope => Some(Settings(AdminType, EmptyTenant))
    case UserScope(t) => Some(Settings(UserType, if t.Some? then TenantText(t.value) else EmptyTenant))
  }

  datatype Step =
    | Open(session: SessionId, principalType: Option<string>, tenant: TenantClaim, verified: bool)
    | Begin(session: SessionId, conn: ConnId)
    | Read(session: SessionId, row: RowId)
    | Insert(session: SessionId, row: RowId, value: Row)
    | Update(session: SessionId, row: RowId, value: Row)
    | Delete(session: SessionId, row: RowId)
    | Commit(session: SessionId)
    | Rollback(session: SessionId)

  predicate InTransaction(s: State, x: SessionId) {
    x in s.sessions && s.sessions[x].conn.Some? && s.sessions[x].conn.value in s.conns
  }

  predicate Admits(s: State, x: SessionId, t: TenantId) {
    InTransaction(s, x) && PolicyAdmits(Current(s.conns[s.sessions[x].conn.value]), t)
  }

  function DoOpen(s: State, x: SessionId, principalType: Option<string>, tenant: TenantClaim, verified: bool): State {
    var scope := ScopeFor(principalType, tenant, verified);
    if x in s.sessions || scope.None? then s
    else s.(sessions := s.sessions[x := Session(scope.value, None, map[])])
  }

  /** A free connection, new or from the pool, and the hook's context on it. */
  function DoBegin(s: State, x: SessionId, c: ConnId): State {
    if x in s.sessions && s.sessions[x].conn.None? && (c in s.conns ==> s.conns[c].owner.None?) then
      var base := if c in s.conns then s.conns[c].base else Settings(NullType, NullTenant);
      s.(sessions := s.sessions[x := s.sessions[x].(conn := Some(c))],
         conns := s.conns[c := Conn(base, ContextOf(s.sessions[x].scope), Some(x))])
    else s
  }

  function Emptied(base: Settings): Settings {
    Settings(if base.principalType == NullType then EmptyType else base.principalType,
             if base.tenant == NullTenant then EmptyTenant else base.tenant)
  }

  /** The local context and the uncommitted writes end, and the connection is pooled. */
  function EndTransaction(s: State, x: SessionId): State
    requires InTransaction(s, x)
  {
    var c := s.sessions[x].conn.value;
    var conn := s.conns[c];
    s.(sessions := s.sessions[x := s.sessions[x].(conn := None, writes := map[])],
       conns := s.conns[c := Conn(if conn.local.Some? then Emptied(conn.base) else conn.base, None, None)])
  }

  /** The table once the writes are committed. */
  function Merged(rows: map<RowId, Row>, writes: map<RowId, Option<Row>>): map<RowId, Row> {
    map r | r in rows.Keys + writes.Keys && (r in writes ==> writes[r].Some?) ::
      if r in writes then writes[r].value else rows[r]
  }

  /** A written row replaces the committed one, a removed one goes, every other one stays. */
  lemma MergedIs(rows: map<RowId, Row>, writes: map<RowId, Option<Row>>)
    ensures var after := Merged(rows, writes);
            && (forall r :: r in writes ==> (r in after <==> writes[r].Some?))
            && (forall r :: r in writes && r in after ==> after[r] == writes[r].value)
            && (forall r :: r !in writes ==> (r in after <==> r in rows) && (r in rows ==> after[r] == rows[r]))
  {}

  function DoCommit(s: State, x: SessionId): State {
    if InTransaction(s, x) then EndTransaction(s, x).(rows := Merged(s.rows, s.sessions[x].writes)) else s
  }

  /** A rollback, or closing the session: the writes are dropped. */
  function DoRollback(s: State, x: SessionId): State {
    if InTransaction(s, x) then EndTransaction(s, x) else s
  }

  /** What a statement of the session finds under an id: its own write or a committed row. */
  function Visible(s: State, x: SessionId, r: RowId): Option<Row> {
    if x in s.sessions && r in s.sessions[x].writes then s.sessions[x].writes[r]
    else if r in s.rows then Some(s.rows[r])
    else None
  }

  /** Another transaction has written the row; a statement that writes it waits. */
  predicate Taken(s: State, x: SessionId, r: RowId) {
    exists y :: y in s.sessions && y != x && r in s.sessions[y].writes
  }

  function Accessed(s: State, x: SessionId, r: RowId, t: TenantId): State {
    s.(accesses := s.accesses + [Access(x, r, t)])
  }

  function Wrote(s: State, x: SessionId, r: RowId, row: Option<Row>): State
    requires x in s.sessions
  {
    s.(sessions := s.sessions[x := s.sessions[x].(writes := s.sessions[x].writes[r := row])])
  }

  function DoRead(s: State, x: SessionId, r: RowId): State {
    var row := Visible(s, x, r);
    if row.Some? && Admits(s, x, row.value.tenant) then Accessed(s, x, r, row.value.tenant) else s
  }

  function DoInsert(s: State, x: SessionId, r: RowId, value: Row): State {
    if Visible(s, x, r).None? && !Taken(s, x, r) && Admits(s, x, value.tenant) then
      Wrote(Accessed(s, x, r, value.tenant), x, r, Some(value))
    else s
  }

  /** Both the old row and the new one must pass the policy. */
  function DoUpdate(s: State, x: SessionId, r: RowId, value: Row): State {
    var row := Visible(s, x, r);
    if row.Some? && !Taken(s, x, r) && Admits(s, x, row.value.tenant) && Admits(s, x, value.tenant) then
      Wrote(Accessed(Accessed(s, x, r, row.value.tenant), x, r, value.tenant), x, r, Some(value))
    else s
  }

  function DoDelete(s: State, x: SessionId, r: RowId): State {
    var row := Visible(s, x, r);
    if row.Some? && !Taken(s, x, r) && Admits(s, x, row.value.tenant) then
      Wrote(Accessed(s, x, r, row.value.tenant), x, r, None)
    else s
  }

  function Apply(s: State, step: Step): State {
    match step
    case Open(x, principalType, tenant, verified) => DoOpen(s, x, principalType, tenant, verified)
    case Begin(x, c) => DoBegin(s, x, c)
    case Read(x, r) => DoRead(s, x, r)
    case Insert(x, r, value) => DoInsert(s, x, r, value)
    case Update(x, r, value) => DoUpdate(s, x, r, value)
    case Delete(x, r) => DoDelete(s, x, r)
    case Commit(x) => DoCommit(s, x)
    case Rollback(x) => DoRollback(s, x)
  }

  function Run(s: State, steps: seq<Step>): State
    decreases |steps|
  {
    if steps == [] then s else Run(Apply(s, steps[0]), steps[1..])
  }

  function Start(rows: map<RowId, Row>): State { State(map[], map[], rows, []) }

  // ----- What holds in every state -----

  /** Whether a scope may reach rows of a tenant. */
  predicate MayReach(scope: Scope, t: TenantId) {
    scope == AdminScope || scope == UserScope(Some(t))
  }

  /** Nothing a request set survives on a pooled connection. */
  ghost predicate CleanBase(b: Settings) {
    (b.principalType == NullType || b.principalType == EmptyType) && (b.tenant == NullTenant || b.tenant == EmptyTenant)
  }

  ghost predicate ConnOk(sessions: map<SessionId, Session>, c: ConnId, conn: Conn) {
    && CleanBase(conn.base)
    && match conn.owner
       case None => conn.local.None?
       case Some(x) => x in sessions && sessions[x].conn == Some(c) && conn.local == ContextOf(sessions[x].scope)
  }

  ghost predicate PoolOk(sessions: map<SessionId, Session>, conns: map<ConnId, Conn>) {
    && (forall c :: c in conns ==> ConnOk(sessions, c, conns[c]))
    && (forall x :: x in sessions && sessions[x].conn.Some? ==>
          sessions[x].conn.value in conns && conns[sessions[x].conn.value].owner == Some(x))
  }

  ghost predicate AccessesOk(sessions: map<SessionId, Session>, accesses: seq<Access>) {
    forall i :: 0 <= i < |accesses| ==>
      accesses[i].session in sessions && MayReach(sessions[accesses[i].session].scope, accesses[i].tenant)
  }

  /** What a session has written, and what it would replace, its scope may reach. */
  ghost predicate WritesInScope(scope: Scope, rows: map<RowId, Row>, writes: map<RowId, Option<Row>>) {
    forall r :: r in writes ==>
      && (r in rows ==> MayReach(scope, rows[r].tenant))
      && (writes[r].Some? ==> MayReach(scope, writes[r].value.tenant))
  }

  ghost predicate WritesOk(sessions: map<SessionId, Session>, rows: map<RowId, Row>) {
    && (forall x :: x in sessions ==> WritesInScope(sessions[x].scope, rows, sessions[x].writes))
    && (forall x, y, r :: x in sessions && y in sessions ==>
          (r in sessions[x].writes && r in sessions[y].writes ==> x == y))
  }

  ghost predicate Inv(s: State) {
    PoolOk(s.sessions, s.conns) && AccessesOk(s.sessions, s.accesses) && WritesOk(s.sessions, s.rows)
  }

  /** The policy admits a session exactly where its scope may reach, whoever used the
      connection before and whether or not its settings were ever made. */
  lemma AdmitsIsScope(s: State, x: SessionId, t: TenantId)
    requires PoolOk(s.sessions, s.conns)
    ensures Admits(s, x, t) <==> InTransaction(s, x) && MayReach(s.sessions[x].scope, t)
  {}

  // ----- One step -----

  lemma OpenKeepsPool(s: State, x: SessionId, scope: Scope)
    requires PoolOk(s.sessions, s.conns) && x !in s.sessions
    ensures PoolOk(s.sessions[x := Session(scope, None, map[])], s.conns)
  {}

  lemma OpenKeepsWrites(s: State, x: SessionId, scope: Scope)
    requires WritesOk(s.sessions, s.rows) && x !in s.sessions
    ensures WritesOk(s.sessions[x := Session(scope, None, map[])], s.rows)
  {}

  lemma OpenKeeps(s: State, x: SessionId, principalType: Option<string>, tenant: TenantClaim, verified: bool)
    requires Inv(s)
    ensures Inv(DoOpen(s, x, principalType, tenant, verified))
  {
    hide PoolOk, WritesOk;
    var scope := ScopeFor(principalType, tenant, verified);
    if x !in s.sessions && scope.Some? {
      OpenKeepsPool(s, x, scope.value);
      OpenKeepsWrites(s, x, scope.value);
    }
  }

  lemma BeginKeeps(s: State, x: SessionId, c: ConnId)
    requires Inv(s)
    ensures Inv(DoBegin(s, x, c))
  {}

  lemma CommitKeepsWrites(s: State, x: SessionId)
    requires WritesOk(s.sessions, s.rows) && x in s.sessions
    ensures WritesOk(s.sessions[x := s.sessions[x].(conn := None, writes := map[])],
                     Merged(s.rows, s.sessions[x].writes))
  {}

  lemma EndKeepsPool(s: State, x: SessionId)
    requires PoolOk(s.sessions, s.conns) && InTransaction(s, x)
    ensures PoolOk(EndTransaction(s, x).sessions, EndTransaction(s, x).conns)
  {}

  lemma CommitKeeps(s: State, x: SessionId)
    requires Inv(s)
    ensures Inv(DoCommit(s, x))
  {
    if InTransaction(s, x) {
      EndKeepsPool(s, x);
      CommitKeepsWrites(s, x);
    }
  }

  lemma RollbackKeeps(s: State, x: SessionId)
    requires Inv(s)
    ensures Inv(DoRollback(s, x))
  {
    if InTransaction(s, x) {
      EndKeepsPool(s, x);
    }
  }

  /** A statement writes a row it may, and that no other transaction has written. */
  lemma WroteKeeps(s: State, x: SessionId, r: RowId, row: Option<Row>)
    requires Inv(s) && x in s.sessions && !Taken(s, x, r)
    requires Visible(s, x, r).Some? ==> MayReach(s.sessions[x].scope, Visible(s, x, r).value.tenant)
    requires row.Some? ==> MayReach(s.sessions[x].scope, row.value.tenant)
    ensures Inv(Wrote(s, x, r, row))
  {}

  lemma AccessedKeeps(s: State, x: SessionId, r: RowId, t: TenantId)
    requires Inv(s) && Admits(s, x, t)
    ensures Inv(Accessed(s, x, r, t)) && MayReach(s.sessions[x].scope, t)
  {
    AdmitsIsScope(s, x, t);
  }

  lemma QueryKeeps(s: State, step: Step)
    requires Inv(s) && (step.Read? || step.Insert? || step.Update? || step.Delete?)
    ensures Inv(Apply(s, step))
  {
    hide Inv;
    var x, r := step.session, step.row;
    var before := Visible(s, x, r);
    if Apply(s, step) != s {
      var first := if step.Insert? then step.value.tenant else before.value.tenant;
      AccessedKeeps(s, x, r, first);
      var s1 := Accessed(s, x, r, first);
      match step {
        case Read(_, _) =>
        case Insert(_, _, value) => WroteKeeps(s1, x, r, Some(value));
        case Update(_, _, value) =>
          AccessedKeeps(s1, x, r, value.tenant);
          WroteKeeps(Accessed(s1, x, r, value.tenant), x, r, Some(value));
        case Delete(_, _) => WroteKeeps(s1, x, r, None);
      }
    }
  }

  lemma StepKeeps(s: State, step: Step)
    requires Inv(s)
    ensures Inv(Apply(s, step))
  {
    match step {
      case Open(x, principalType, tenant, verified) => OpenKeeps(s, x, principalType, tenant, verified);
      case Begin(x, c) => BeginKeeps(s, x, c);
      case Commit(x) => CommitKeeps(s, x);
      case Rollback(x) => RollbackKeeps(s, x);
      case _ => QueryKeeps(s, step);
    }
  }

  lemma {:induction false} RunKeeps(s: State, steps: seq<Step>)
    requires Inv(s)
    ensures Inv(Run(s, steps))
    decreases |steps|
  {
    if steps != [] {
      StepKeeps(s, steps[0]);
      RunKeeps(Apply(s, steps[0]), steps[1..]);
    }
  }

  /** Over any interleaving on any pool, every row a session reads, writes or removes is one
      its scope may reach: its own tenant's for a user, none without a principal. And in a
      transaction it is admitted to all of those. */
  lemma SessionsStayInScope(rows: map<RowId, Row>, steps: seq<Step>, i: nat, x: SessionId, t: TenantId)
    requires i < |Run(Start(rows), steps).accesses|
    ensures var s := Run(Start(rows), steps);
            var a := s.accesses[i];
            && a.session in s.sessions
            && s.sessions[a.session].scope != NoScope
            && (s.sessions[a.session].scope.UserScope? ==> s.sessions[a.session].scope.tenant == Some(a.tenant))
            && (Admits(s, x, t) <==> InTransaction(s, x) && MayReach(s.sessions[x].scope, t))
  {
    RunKeeps(Start(rows), steps);
    AdmitsIsScope(Run(Start(rows), steps), x, t);
  }

  // ----- A tenant's rows among other tenants' requests -----

  function RowsOf(rows: map<RowId, Row>, t: TenantId): map<RowId, Row> {
    map r | r in rows && rows[r].tenant == t :: rows[r]
  }

  /** No query of the run comes from a session that may reach the tenant. */
  ghost predicate AllForeign(s: State, steps: seq<Step>, t: TenantId)
    decreases |steps|
  {
    steps != [] ==>
      && (steps[0].session in s.sessions ==> !MayReach(s.sessions[steps[0].session].scope, t))
      && AllForeign(Apply(s, steps[0]), steps[1..], t)
  }

  /** The table changes only by commits, to the writes of the one session. */
  lemma OnlyCommitsChangeRows(s: State, step: Step)
    ensures Apply(s, step).rows ==
            if step.Commit? && InTransaction(s, step.session) then Merged(s.rows, s.sessions[step.session].writes)
            else s.rows
  {}

  /** A transaction that is rolled back leaves the table, and every other session sees what it
      saw before. */
  lemma RollbackUndoes(s: State, x: SessionId, y: SessionId, r: RowId)
    ensures DoRollback(s, x).rows == s.rows
    ensures y != x ==> Visible(DoRollback(s, x), y, r) == Visible(s, y, r)
    ensures InTransaction(s, x) ==> Visible(DoRollback(s, x), x, r) == if r in s.rows then Some(s.rows[r]) else None
  {}

  /** Nobody sees a write before it is committed but the session that made it. */
  lemma WritesAreInvisible(s: State, step: Step, y: SessionId, r: RowId)
    requires !step.Commit? && step.session != y
    ensures Visible(Apply(s, step), y, r) == Visible(s, y, r)
  {
    OnlyCommitsChangeRows(s, step);
  }

  /** An update that goes through and is committed is what every other session in a transaction
      then reads, if its scope reaches the row and it has not itself written it. */
  lemma CommittedIsSeen(s: State, x: SessionId, y: SessionId, r: RowId, value: Row)
    requires Inv(s) && InTransaction(s, x) && InTransaction(s, y) && x != y
    requires forall z :: z in s.sessions && z != x ==> r !in s.sessions[z].writes
    requires Visible(s, x, r).Some? && MayReach(s.sessions[x].scope, Visible(s, x, r).value.tenant)
    requires MayReach(s.sessions[x].scope, value.tenant) && MayReach(s.sessions[y].scope, value.tenant)
    ensures var before := Apply(s, Update(x, r, value));
            var after := Apply(before, Commit(x));
            && before.rows == s.rows && Visible(before, y, r) == (if r in s.rows then Some(s.rows[r]) else None)
            && r in after.rows && after.rows[r] == value
            && Visible(after, y, r) == Some(value)
            && Apply(after, Read(y, r)).accesses == after.accesses + [Access(y, r, value.tenant)]
  {
    hide Inv, Admits, Merged;
    var before := Apply(s, Update(x, r, value));
    var after := Apply(before, Commit(x));
    UpdateIsWritten(s, x, r, value);
    StepKeeps(s, Update(x, r, value));
    StepKeeps(before, Commit(x));
    OneConnectionEach(s, x, y);
    MergedIs(before.rows, before.sessions[x].writes);
    assert r !in s.sessions[y].writes;
    AdmitsIsScope(after, y, value.tenant);
  }

  lemma UpdateIsWritten(s: State, x: SessionId, r: RowId, value: Row)
    requires Inv(s) && InTransaction(s, x) && !Taken(s, x, r)
    requires Visible(s, x, r).Some? && MayReach(s.sessions[x].scope, Visible(s, x, r).value.tenant)
    requires MayReach(s.sessions[x].scope, value.tenant)
    ensures var s' := Apply(s, Update(x, r, value));
            && s'.rows == s.rows && s'.conns == s.conns
            && s'.sessions == s.sessions[x := s.sessions[x].(writes := s.sessions[x].writes[r := Some(value)])]
  {
    hide PoolOk, AccessesOk, WritesOk, Admits;
    AdmitsIsScope(s, x, value.tenant);
    AdmitsIsScope(s, x, Visible(s, x, r).value.tenant);
  }

  lemma OneConnectionEach(s: State, x: SessionId, y: SessionId)
    requires Inv(s) && InTransaction(s, x) && InTransaction(s, y) && x != y
    ensures s.sessions[x].conn != s.sessions[y].conn
  {}

  lemma ForeignMergeLeavesRows(scope: Scope, rows: map<RowId, Row>, writes: map<RowId, Option<Row>>, t: TenantId)
    requires WritesInScope(scope, rows, writes) && !MayReach(scope, t)
    ensures RowsOf(Merged(rows, writes), t) == RowsOf(rows, t)
  {}

  lemma ForeignStepLeavesRows(s: State, step: Step, t: TenantId)
    requires Inv(s)
    requires step.session in s.sessions ==> !MayReach(s.sessions[step.session].scope, t)
    ensures RowsOf(Apply(s, step).rows, t) == RowsOf(s.rows, t)
  {
    OnlyCommitsChangeRows(s, step);
    if step.Commit? && InTransaction(s, step.session) {
      var x := s.sessions[step.session];
      ForeignMergeLeavesRows(x.scope, s.rows, x.writes, t);
    }
  }

  /** However many requests of other tenants and of sessions without a principal run, on
      whatever connections, a tenant's rows are the same afterwards. */
  lemma {:induction false} ForeignRunLeavesRows(s: State, steps: seq<Step>, t: TenantId)
    requires Inv(s) && AllForeign(s, steps, t)
    ensures RowsOf(Run(s, steps).rows, t) == RowsOf(s.rows, t)
    decreases |steps|
  {
    if steps != [] {
      StepKeeps(s, steps[0]);
      ForeignStepLeavesRows(s, steps[0], t);
      ForeignRunLeavesRows(Apply(s, steps[0]), steps[1..], t);
    }
  }
}
