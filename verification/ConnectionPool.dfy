/** The session manager on its pool: opening a session, the hook on begin, the statements of a
    transaction and its end. Each is one step of the row-security machine. */
module ConnectionPool {
  import opened Values
  import opened TenantContext

  class Manager {
    var sessions: map<SessionId, Session>
    var conns: map<ConnId, Conn>
    var rows: map<RowId, Row>
    ghost var accesses: seq<Access>

    ghost function Contents(): State
      reads this
    {
      State(sessions, conns, rows, accesses)
    }

    /** Pooled connections carry no context, and sessions have kept to their scope. */
    ghost predicate Valid()
      reads this
    {
      Inv(Contents())
    }

    constructor (rows: map<RowId, Row>)
      ensures Valid() && Contents() == Start(rows)
    {
      this.rows, sessions, conns, accesses := rows, map[], map[], [];
    }

    /** Stores the scope of a verified principal in the new session, or refuses: also a user
        whose tenant is no identifier. */
    method SessionFor(x: SessionId, principalType: Option<string>, tenant: TenantClaim,
                      verified: bool) returns (ok: bool)
      requires Valid() && x !in sessions
      modifies this`sessions
      ensures Valid() && Contents() == Apply(old(Contents()), Open(x, principalType, tenant, verified))
      ensures ok <==> principalType.None? || (principalType.value == "user" && !tenant.Malformed?)
                      || (verified && (principalType.value == "admin" || principalType.value == "platform_admin"))
      ensures ok ==> x in sessions && sessions[x].conn.None? && forall t :: MayReach(sessions[x].scope, t) <==>
                principalType.Some? && (principalType.value == "user" ==> tenant == TenantId(t))
    {
      hide Inv;
      StepKeeps(Contents(), Open(x, principalType, tenant, verified));
      var scope := NoScope;
      if principalType.Some? {
        if principalType.value !in {"admin", "platform_admin", "user"} { return false; }
        if principalType.value in {"admin", "platform_admin"} {
          if !verified { return false; }
          scope := AdminScope;
        } else {
          if tenant.Malformed? { return false; }
          scope := UserScope(if tenant.NoTenant? then None else Some(tenant.id));
        }
      }
      sessions := sessions[x := Session(scope, None, map[])];
      ok := true;
    }

    /** A connection from the pool, then the hook: settings local to the transaction, none for
        a session without a principal. Whatever ran on the connection before, the policy then
        admits it to exactly the tenants its scope may reach. */
    method AfterBegin(x: SessionId, c: ConnId)
      requires Valid() && x in sessions && sessions[x].conn.None? && (c in conns ==> conns[c].owner.None?)
      modifies this`sessions, this`conns
      ensures Valid() && Contents() == Apply(old(Contents()), Begin(x, c))
      ensures sessions[x].conn == Some(c) && c in conns
      ensures forall t :: PolicyAdmits(Current(conns[c]), t) <==> MayReach(sessions[x].scope, t)
    {
      hide Inv, PoolOk;
      StepKeeps(Contents(), Begin(x, c));
      var base := if c in conns then conns[c].base else Settings(NullType, NullTenant);
      var local := None;
      if sessions[x].scope == AdminScope {
        local := Some(Settings(AdminType, EmptyTenant));
      } else if sessions[x].scope.UserScope? {
        var text := if sessions[x].scope.tenant.Some? then TenantText(sessions[x].scope.tenant.value) else EmptyTenant;
        local := Some(Settings(UserType, text));
      }
      conns := conns[c := Conn(base, local, Some(x))];
      sessions := sessions[x := sessions[x].(conn := Some(c))];
      AdmittedTo(Contents(), x);
    }

    /** The end of a transaction: what it set locally is gone before the connection is free. */
    method Release(x: SessionId)
      requires x in sessions && sessions[x].conn.Some? && sessions[x].conn.value in conns
      modifies this`sessions, this`conns
      ensures Contents() == EndTransaction(old(Contents()), x)
      ensures var c := old(sessions[x].conn.value);
              && conns.Keys == old(conns).Keys && conns[c].owner.None? && conns[c].local.None?
              && (old(conns[c].local.Some?) && old(conns[c].base) == Settings(NullType, NullTenant) ==>
                    conns[c].base == Settings(EmptyType, EmptyTenant))
              && (old(conns[c].local.None?) ==> conns[c].base == old(conns[c].base))
      ensures sessions == old(sessions)[x := Session(old(sessions)[x].scope, None, map[])]
    {
      var c := sessions[x].conn.value;
      var base := conns[c].base;
      if conns[c].local.Some? {
        base := Emptied(base);
      }
      conns := conns[c := Conn(base, None, None)];
      sessions := sessions[x := sessions[x].(conn := None, writes := map[])];
    }

    /** The writes are in the table, and a later session without a principal is admitted to
        nothing on the connection. */
    method Commit(x: SessionId)
      requires Valid() && InTransaction(Contents(), x)
      modifies this
      ensures Valid() && Contents() == Apply(old(Contents()), Step.Commit(x))
      ensures sessions[x].conn.None? && sessions[x].writes == map[]
      ensures forall r :: r in old(sessions[x].writes) ==>
                && (r in rows <==> old(sessions[x].writes)[r].Some?)
                && (r in rows ==> rows[r] == old(sessions[x].writes)[r].value)
      ensures forall r :: r !in old(sessions[x].writes) ==>
                (r in rows <==> r in old(rows)) && (r in rows ==> rows[r] == old(rows)[r])
      ensures var c := old(sessions[x].conn.value);
              c in conns && conns[c].owner.None? && forall t :: !PolicyAdmits(Current(conns[c]), t)
    {
      hide Inv, PoolOk, Merged;
      ghost var before := Contents();
      MergedIs(rows, sessions[x].writes);
      rows := Merged(rows, sessions[x].writes);
      Release(x);
      StepKeeps(before, Step.Commit(x));
      FreeAdmitsNothing(Contents(), old(sessions[x].conn.value));
    }

    /** The table is as it was, and the connection as clean as after a commit. */
    method Rollback(x: SessionId)
      requires Valid() && InTransaction(Contents(), x)
      modifies this
      ensures Valid() && Contents() == Apply(old(Contents()), Step.Rollback(x))
      ensures rows == old(rows) && sessions[x].conn.None? && sessions[x].writes == map[]
      ensures var c := old(sessions[x].conn.value);
              c in conns && conns[c].owner.None? && forall t :: !PolicyAdmits(Current(conns[c]), t)
    {
      hide Inv, PoolOk;
      ghost var before := Contents();
      Release(x);
      StepKeeps(before, Step.Rollback(x));
      FreeAdmitsNothing(Contents(), old(sessions[x].conn.value));
    }

    /** A query for one row under the policy of the connection: the session's own write or the
        committed row, of a tenant in its scope. */
    method Select(x: SessionId, r: RowId) returns (row: Option<Row>)
      requires Valid() && InTransaction(Contents(), x)
      modifies this`accesses
      ensures Valid() && Contents() == Apply(old(Contents()), Read(x, r))
      ensures var seen := if r in sessions[x].writes then sessions[x].writes[r]
                          else if r in rows then Some(rows[r]) else None;
              row == if seen.Some? && MayReach(sessions[x].scope, seen.value.tenant) then seen else None
    {
      hide Inv, PoolOk;
      StepKeeps(Contents(), Read(x, r));
      AdmittedTo(Contents(), x);
      row := if r in sessions[x].writes then sessions[x].writes[r] else if r in rows then Some(rows[r]) else None;
      if row.Some? && PolicyAdmits(Current(conns[sessions[x].conn.value]), row.value.tenant) {
        accesses := accesses + [Access(x, r, row.value.tenant)];
      } else {
        row := None;
      }
    }

    /** An update waits while another transaction has written the row, and then it passes the
        policy with its old row and with its new one, or does nothing. */
    method UpdateRow(x: SessionId, r: RowId, value: Row) returns (updated: bool, waits: bool)
      requires Valid() && InTransaction(Contents(), x)
      modifies this`sessions, this`accesses
      ensures Valid() && Contents() == Apply(old(Contents()), Update(x, r, value))
      ensures waits <==> exists y :: y in old(sessions) && y != x && r in old(sessions)[y].writes
      ensures !updated ==> Contents() == old(Contents())
      ensures updated ==>
                && rows == old(rows)
                && sessions == old(sessions)[x := old(sessions)[x].(
                                 writes := old(sessions)[x].writes[r := Some(value)])]
      ensures var before := if r in old(sessions)[x].writes then old(sessions)[x].writes[r]
                            else if r in rows then Some(rows[r]) else None;
              updated <==> !waits && before.Some? && MayReach(old(sessions)[x].scope, before.value.tenant)
                           && MayReach(old(sessions)[x].scope, value.tenant)
    {
      hide Inv, PoolOk;
      StepKeeps(Contents(), Update(x, r, value));
      AdmittedTo(Contents(), x);
      var settings := Current(conns[sessions[x].conn.value]);
      var row := if r in sessions[x].writes then sessions[x].writes[r] else if r in rows then Some(rows[r]) else None;
      waits := exists y :: y in sessions && y != x && r in sessions[y].writes;
      updated := !waits && row.Some?
                 && PolicyAdmits(settings, row.value.tenant) && PolicyAdmits(settings, value.tenant);
      if updated {
        accesses := accesses + [Access(x, r, row.value.tenant)] + [Access(x, r, value.tenant)];
        sessions := sessions[x := sessions[x].(writes := sessions[x].writes[r := Some(value)])];
      }
    }

    /** An insertion of an id that is not there waits like an update, and its row must pass the
        policy. */
    method InsertRow(x: SessionId, r: RowId, value: Row) returns (inserted: bool, waits: bool)
      requires Valid() && InTransaction(Contents(), x)
      modifies this`sessions, this`accesses
      ensures Valid() && Contents() == Apply(old(Contents()), Insert(x, r, value))
      ensures waits <==> exists y :: y in old(sessions) && y != x && r in old(sessions)[y].writes
      ensures !inserted ==> Contents() == old(Contents())
      ensures inserted ==>
                && rows == old(rows)
                && sessions == old(sessions)[x := old(sessions)[x].(
                                 writes := old(sessions)[x].writes[r := Some(value)])]
      ensures var there := if r in old(sessions)[x].writes then old(sessions)[x].writes[r].Some? else r in rows;
              inserted <==> !waits && !there && MayReach(old(sessions)[x].scope, value.tenant)
    {
      hide Inv, PoolOk;
      StepKeeps(Contents(), Insert(x, r, value));
      AdmittedTo(Contents(), x);
      var there := if r in sessions[x].writes then sessions[x].writes[r].Some? else r in rows;
      waits := exists y :: y in sessions && y != x && r in sessions[y].writes;
      inserted := !there && !waits && PolicyAdmits(Current(conns[sessions[x].conn.value]), value.tenant);
      if inserted {
        accesses := accesses + [Access(x, r, value.tenant)];
        sessions := sessions[x := sessions[x].(writes := sessions[x].writes[r := Some(value)])];
      }
    }

    /** A removal waits like an update, and its row must pass the policy. */
    method DeleteRow(x: SessionId, r: RowId) returns (deleted: bool, waits: bool)
      requires Valid() && InTransaction(Contents(), x)
      modifies this`sessions, this`accesses
      ensures Valid() && Contents() == Apply(old(Contents()), Delete(x, r))
      ensures waits <==> exists y :: y in old(sessions) && y != x && r in old(sessions)[y].writes
      ensures !deleted ==> Contents() == old(Contents())
      ensures deleted ==>
                && rows == old(rows)
                && sessions == old(sessions)[x := old(sessions)[x].(writes := old(sessions)[x].writes[r := None])]
      ensures var before := if r in old(sessions)[x].writes then old(sessions)[x].writes[r]
                            else if r in rows then Some(rows[r]) else None;
              deleted <==> !waits && before.Some? && MayReach(old(sessions)[x].scope, before.value.tenant)
    {
      hide Inv, PoolOk;
      StepKeeps(Contents(), Delete(x, r));
      AdmittedTo(Contents(), x);
      var row := if r in sessions[x].writes then sessions[x].writes[r] else if r in rows then Some(rows[r]) else None;
      waits := exists y :: y in sessions && y != x && r in sessions[y].writes;
      deleted := row.Some? && !waits && PolicyAdmits(Current(conns[sessions[x].conn.value]), row.value.tenant);
      if deleted {
        accesses := accesses + [Access(x, r, row.value.tenant)];
        sessions := sessions[x := sessions[x].(writes := sessions[x].writes[r := None])];
      }
    }
  }

  lemma AdmittedTo(s: State, x: SessionId)
    requires Inv(s) && InTransaction(s, x)
    ensures forall t ::
              PolicyAdmits(Current(s.conns[s.sessions[x].conn.value]), t) <==> MayReach(s.sessions[x].scope, t)
  {
    forall t ensures PolicyAdmits(Current(s.conns[s.sessions[x].conn.value]), t) <==> MayReach(s.sessions[x].scope, t) {
      AdmitsIsScope(s, x, t);
    }
  }

  lemma FreeAdmitsNothing(s: State, c: ConnId)
    requires Inv(s) && c in s.conns && s.conns[c].owner.None?
    ensures forall t :: !PolicyAdmits(Current(s.conns[c]), t)
  {
    assert ConnOk(s.sessions, c, s.conns[c]);
  }
}
