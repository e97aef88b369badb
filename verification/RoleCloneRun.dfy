/** The cloning request on the tenant's tables, and what holds after it. */
module RoleCloneRun {
  import opened Values
  import opened PageAccess
  import opened RoleSeeding
  import opened RoleCloning

  function ByCode(roles: map<RoleId, Role>, t: TenantId): map<string, RoleId>
    requires UniqueCodes(roles)
  {
    map r | r in roles && roles[r].tenant == t :: roles[r].code := r
  }

  ghost predicate DistinctTemplates(templates: seq<Template>) {
    forall i, j :: 0 <= i < j < |templates| ==> templates[i].id != templates[j].id
  }

  lemma {:induction false} AvailableDistinct(all: seq<Template>, offerings: set<OfferingId>)
    requires DistinctTemplates(all)
    ensures DistinctTemplates(Available(all, offerings))
  {
    if all != [] {
      AvailableDistinct(all[1..], offerings);
      assert forall t :: t in all[1..] ==> t.id != all[0].id;
    }
  }

  /** New ids are not in use. */
  ghost predicate Fresh(ids: seq<RoleId>, roles: map<RoleId, Role>) {
    && (forall i, j :: 0 <= i < j < |ids| ==> ids[i] != ids[j])
    && (forall i :: 0 <= i < |ids| ==> ids[i] !in roles)
  }

  ghost function ContextOf(roles: map<RoleId, Role>, t: TenantId, templates: seq<Template>, ids: seq<RoleId>,
                           entitled: set<PageId>): (c: Context)
    requires UniqueCodes(roles) && Fresh(ids, roles) && |ids| == |templates|
    ensures FromTables(c, roles)
  {
    Context(t, templates, ByCode(roles, t), ids, entitled)
  }

  ghost predicate FromTables(c: Context, roles: map<RoleId, Role>) {
    Valid(c) && Fresh(c.ids, roles) && IsByCode(c.existing, roles, c.tenant)
  }

  /** The dictionary of the tenant's roles by code. */
  ghost predicate IsByCode(existing: map<string, RoleId>, roles: map<RoleId, Role>, t: TenantId) {
    && (forall r :: r in roles && roles[r].tenant == t ==> roles[r].code in existing && existing[roles[r].code] == r)
    && (forall code :: code in existing ==>
          var r := existing[code]; r in roles && roles[r].tenant == t && roles[r].code == code)
  }

  ghost predicate Cloned(c: Context, roles: map<RoleId, Role>, grants: Grants, roles': map<RoleId, Role>,
                         grants': Grants)
    requires |c.templates| == |c.ids|
  {
    RolesAre(c, roles, roles', |c.templates|) && GrantsAre(c, grants, grants', |c.templates|)
  }

  ghost function RoleMap(c: Context, n: nat): map<TemplateId, RoleId>
    requires n <= |c.templates| == |c.ids|
  {
    if n == 0 then map[] else RoleMap(c, n - 1)[c.templates[n - 1].id := RoleOf(c, n - 1)]
  }

  lemma {:induction false} RoleMapKeys(c: Context, n: nat, id: TemplateId)
    requires n <= |c.templates| == |c.ids|
    ensures id in RoleMap(c, n) <==> exists i :: 0 <= i < n && c.templates[i].id == id
  {
    if n > 0 {
      RoleMapKeys(c, n - 1, id);
    }
  }

  lemma {:induction false} RoleMapValue(c: Context, n: nat, i: nat)
    requires i < n <= |c.templates| == |c.ids| && DistinctTemplates(c.templates)
    ensures c.templates[i].id in RoleMap(c, n) && RoleMap(c, n)[c.templates[i].id] == RoleOf(c, i)
  {
    if i < n - 1 {
      RoleMapValue(c, n - 1, i);
    }
  }

  /** The roles known by code after `n` templates. */
  ghost predicate KnownAre(c: Context, byCode: map<string, RoleId>, n: nat)
    requires n <= |c.templates| == |c.ids|
  {
    && (forall code :: code in byCode <==> Known(c, code, n))
    && (forall code :: code in byCode && Known(c, code, n) ==> byCode[code] == RoleFor(c, code))
  }

  // ----- Roles and codes after some of the templates -----

  function CodesAfter(c: Context, n: nat): map<string, RoleId>
    requires n <= |c.templates| == |c.ids|
  {
    if n == 0 then c.existing
    else
      var codes := CodesAfter(c, n - 1);
      if c.templates[n - 1].code in codes then codes else codes[c.templates[n - 1].code := c.ids[n - 1]]
  }

  /** Template `n` creates its role, or gives the one there is a scope if it has none. */
  function NextRoles(c: Context, roles: map<RoleId, Role>, n: nat): map<RoleId, Role>
    requires n < |c.templates| == |c.ids|
  {
    var r := RoleOf(c, n);
    if Opening(c, n) then roles[c.ids[n] := Created(c, c.templates[n])]
    else if r in roles && roles[r].scope.None? then roles[r := roles[r].(scope := Some(c.templates[n].scope))]
    else roles
  }

  function RolesAfter(c: Context, before: map<RoleId, Role>, n: nat): map<RoleId, Role>
    requires n <= |c.templates| == |c.ids|
  {
    if n == 0 then before else NextRoles(c, RolesAfter(c, before, n - 1), n - 1)
  }

  lemma KnownNext(c: Context, byCode: map<string, RoleId>, n: nat)
    requires Valid(c) && n < |c.templates| && KnownAre(c, byCode, n)
    ensures c.templates[n].code !in byCode <==> Opening(c, n)
    ensures KnownAre(c, byCode[c.templates[n].code := RoleOf(c, n)], n + 1)
  {
    FirstIndexAtMost(c.templates, n);
    forall code ensures Known(c, code, n + 1) <==> Known(c, code, n) || code == c.templates[n].code {
      FirstIndexIs(c.templates, code);
    }
  }

  /** Template `n` changes the scope of no role but its own. */
  lemma AdoptedNext(c: Context, before: map<RoleId, Role>, r: RoleId, n: nat)
    requires FromTables(c, before)
    requires n < |c.templates| && r in before
    ensures r != RoleOf(c, n) ==> Adopted(c, before[r], n + 1) == Adopted(c, before[r], n)
    ensures r == RoleOf(c, n) && c.templates[n].code in c.existing ==>
              var role := Adopted(c, before[r], n);
              Adopted(c, before[r], n + 1) ==
              if role.scope.None? then role.(scope := Some(c.templates[n].scope)) else role
  {
    FirstIndexAtMost(c.templates, n);
    FirstIndexIs(c.templates, before[r].code);
    assert before[r].tenant == c.tenant ==> before[r].code in c.existing && c.existing[before[r].code] == r;
    assert c.templates[n].code in c.existing ==>
        var q := c.existing[c.templates[n].code];
        q in before && before[q].code == c.templates[n].code && before[q].tenant == c.tenant;
  }

  lemma NextCreates(c: Context, before: map<RoleId, Role>, roles: map<RoleId, Role>, roles': map<RoleId, Role>, n: nat)
    requires FromTables(c, before) && n < |c.templates| && RolesAre(c, before, roles, n)
    requires Opening(c, n) && roles' == roles[c.ids[n] := Created(c, c.templates[n])]
    ensures RolesAre(c, before, roles', n + 1)
  {
    forall r | r in before ensures Adopted(c, before[r], n + 1) == Adopted(c, before[r], n) {
      AdoptedNext(c, before, r, n);
    }
  }

  /** The role of a template that creates none is an earlier creation or was there before. */
  lemma AdoptedRole(c: Context, before: map<RoleId, Role>, roles: map<RoleId, Role>, n: nat)
    requires FromTables(c, before)
    requires n < |c.templates| && RolesAre(c, before, roles, n) && !Opening(c, n)
    ensures RoleOf(c, n) in roles
    ensures c.templates[n].code in c.existing ==> RoleOf(c, n) in before
    ensures c.templates[n].code !in c.existing ==> RoleOf(c, n) !in before && roles[RoleOf(c, n)].scope.Some?
  {
    var code := c.templates[n].code;
    if code !in c.existing {
      FirstIndexAtMost(c.templates, n);
      assert Opening(c, FirstIndex(c.templates, code));
    }
  }

  lemma NextAdopts(c: Context, before: map<RoleId, Role>, roles: map<RoleId, Role>, roles': map<RoleId, Role>, n: nat)
    requires FromTables(c, before) && n < |c.templates| && RolesAre(c, before, roles, n)
    requires !Opening(c, n) && RoleOf(c, n) in roles && roles' == NextRoles(c, roles, n)
    ensures RolesAre(c, before, roles', n + 1)
  {
    AdoptedRole(c, before, roles, n);
    forall r | r in before ensures r in roles' && roles'[r] == Adopted(c, before[r], n + 1) {
      AdoptedNext(c, before, r, n);
    }
    forall i | 0 <= i < n + 1 && Opening(c, i)
      ensures c.ids[i] in roles' && roles'[c.ids[i]] == Created(c, c.templates[i])
    {
      assert roles[c.ids[i]].scope.Some?;
    }
  }

  lemma {:induction false} CodesKeep(c: Context, n: nat)
    requires Valid(c) && n <= |c.templates|
    ensures KnownAre(c, CodesAfter(c, n), n)
  {
    if n > 0 {
      CodesKeep(c, n - 1);
      KnownNext(c, CodesAfter(c, n - 1), n - 1);
      FirstIndexAtMost(c.templates, n - 1);
    }
  }

  /** The dictionary of the loop tells which role a template is for, and whether it is new. */
  lemma CodeAt(c: Context, n: nat)
    requires Valid(c) && n < |c.templates|
    ensures c.templates[n].code !in CodesAfter(c, n) <==> Opening(c, n)
    ensures Opening(c, n) ==> RoleOf(c, n) == c.ids[n]
    ensures !Opening(c, n) ==> CodesAfter(c, n)[c.templates[n].code] == RoleOf(c, n)
  {
    CodesKeep(c, n);
    KnownNext(c, CodesAfter(c, n), n);
    FirstIndexAtMost(c.templates, n);
  }

  lemma {:induction false} RolesKeep(c: Context, before: map<RoleId, Role>, roles: map<RoleId, Role>, n: nat)
    requires FromTables(c, before) && n <= |c.templates| && roles == RolesAfter(c, before, n)
    ensures RolesAre(c, before, roles, n)
    decreases n
  {
    hide RolesAre, NextRoles, IsByCode, Fresh;
    if n == 0 {
      NoRolesYet(c, before);
    } else {
      var earlier := RolesAfter(c, before, n - 1);
      RolesKeep(c, before, earlier, n - 1);
      RolesNext(c, before, earlier, roles, n - 1);
    }
  }

  lemma NoRolesYet(c: Context, before: map<RoleId, Role>)
    requires |c.templates| == |c.ids|
    ensures RolesAre(c, before, before, 0)
  {}

  lemma RolesNext(c: Context, before: map<RoleId, Role>, roles: map<RoleId, Role>, roles': map<RoleId, Role>, n: nat)
    requires FromTables(c, before) && n < |c.templates| && RolesAre(c, before, roles, n)
    requires roles' == NextRoles(c, roles, n)
    ensures RolesAre(c, before, roles', n + 1)
  {
    if Opening(c, n) {
      NextCreates(c, before, roles, roles', n);
    } else {
      AdoptedRole(c, before, roles, n);
      NextAdopts(c, before, roles, roles', n);
    }
  }

  lemma RoleThere(c: Context, before: map<RoleId, Role>, n: nat)
    requires FromTables(c, before) && n < |c.templates| && !Opening(c, n)
    ensures RoleOf(c, n) in RolesAfter(c, before, n)
  {
    RolesKeep(c, before, RolesAfter(c, before, n), n);
    AdoptedRole(c, before, RolesAfter(c, before, n), n);
  }

  // ----- What the database promises of the tables -----

  /** Every template is copied into the tenant's role with its code. */
  lemma RoleOfHasCode(c: Context, roles: map<RoleId, Role>, roles': map<RoleId, Role>, i: nat)
    requires FromTables(c, roles) && RolesAre(c, roles, roles', |c.templates|) && i < |c.templates|
    ensures RoleOf(c, i) in roles'
    ensures roles'[RoleOf(c, i)].tenant == c.tenant && roles'[RoleOf(c, i)].code == c.templates[i].code
    ensures roles'[RoleOf(c, i)].scope.Some?
  {
    var code := c.templates[i].code;
    FirstIndexAtMost(c.templates, i);
    if code in c.existing {
      assert RoleOf(c, i) in roles;
    } else {
      assert Opening(c, FirstIndex(c.templates, code));
    }
  }

  /** A tenant still has one role a code. */
  lemma CodesStayUnique(c: Context, roles: map<RoleId, Role>, roles': map<RoleId, Role>)
    requires FromTables(c, roles) && UniqueCodes(roles) && RolesAre(c, roles, roles', |c.templates|)
    ensures UniqueCodes(roles')
  {}

  lemma TablesStayOk(c: Context, roles: map<RoleId, Role>, grants: Grants, roles': map<RoleId, Role>, grants': Grants)
    requires FromTables(c, roles) && TablesOk(roles, grants) && Cloned(c, roles, grants, roles', grants')
    ensures TablesOk(roles', grants')
  {
    CodesStayUnique(c, roles, roles');
    forall k | k in grants' ensures k.0 in roles' {
      if k !in grants {
        var i :| 0 <= i < |c.templates| && FirstGranter(c, i, k) && grants'[k] == LevelAt(c, i, k);
        RoleOfHasCode(c, roles, roles', i);
      }
    }
  }

  // ----- The request on the tables -----

  class Session {
    var roles: map<RoleId, Role>
    var grants: Grants
    var pending: seq<Row>

    /** Between requests nothing is pending. */
    ghost predicate Valid()
      reads this
    {
      TablesOk(roles, grants) && pending == []
    }

    constructor ()
      ensures Valid() && roles == map[] && grants == map[]
    {
      roles, grants, pending := map[], map[], [];
    }

    /** Sends the pending rows, all or none: the database takes one row for a role and page. */
    method Flush() returns (ok: bool)
      modifies this`grants, this`pending
      ensures ok <==> Flushed(Work(old(grants), old(pending))).Some?
      ensures ok ==> Work(grants, pending) == Flushed(Work(old(grants), old(pending))).value
      ensures !ok ==> grants == old(grants) && pending == old(pending)
      ensures ok <==>
              Distinct(old(pending)) && forall a :: 0 <= a < |old(pending)| ==> old(pending)[a].key !in old(grants)
      ensures ok ==> forall k :: k in old(grants) ==> k in grants && grants[k] == old(grants)[k]
      ensures ok ==> forall a :: 0 <= a < |old(pending)| ==>
                old(pending)[a].key in grants && grants[old(pending)[a].key] == old(pending)[a].level
    {
      ok := !Conflicts(grants, pending);
      if ok {
        SentLevels(grants, pending);
        grants, pending := Sent(grants, pending), [];
      }
    }

    /** The inner loop: `present` starts as what the query for the role's rows shows. */
    method AddGrants(role: RoleId, rows: seq<Grant>, entitled: set<PageId>)
      modifies this`pending
      ensures pending == old(pending) + Additions(grants, role, rows, entitled)
    {
      var present := set k | k in grants && k.0 == role :: k.1;
      ghost var added: seq<Row> := [];
      for i := 0 to |rows|
        invariant added == Additions(grants, role, rows[..i], entitled)
        invariant pending == old(pending) + added
        invariant forall p: PageId :: p in present <==> (role, p) in grants || IsPending(added, (role, p))
      {
        var g := rows[i];
        assert rows[..i + 1][..i] == rows[..i];
        if !(g.page !in entitled || g.page in present) {
          var row := Row((role, g.page), g.level);
          forall p: PageId ensures IsPending(added + [row], (role, p)) <==> IsPending(added, (role, p)) || p == g.page {
            PendingJoined(added, [row], (role, p));
            assert [row][0].key == (role, g.page);
          }
          pending := pending + [row];
          present := present + {g.page};
          added := added + [row];
        }
      }
      assert rows[..|rows|] == rows;
    }

    /** The role of one template: created, which sends the pending rows with it, or found, and
        then given the scope of the template if it has none. */
    method EnsureRole(t: TenantId, template: Template, known: map<string, RoleId>, newRole: RoleId,
                      ghost c: Context, ghost n: nat)
      returns (role: RoleId, byCode: map<string, RoleId>, ok: bool)
      requires n < |c.templates| == |c.ids| && template == c.templates[n] && newRole == c.ids[n] && t == c.tenant
      requires template.code !in known <==> Opening(c, n)
      requires Opening(c, n) ==> RoleOf(c, n) == newRole
      requires !Opening(c, n) ==> known[template.code] == RoleOf(c, n) && RoleOf(c, n) in roles
      modifies this
      ensures role == RoleOf(c, n) && roles == NextRoles(c, old(roles), n)
      ensures byCode == if Opening(c, n) then known[template.code := role] else known
      ensures ok <==> !Opening(c, n) || Flushed(Work(old(grants), old(pending))).Some?
      ensures ok ==> Work(grants, pending) ==
                     var work := Work(old(grants), old(pending));
                     if Opening(c, n) then Flushed(work).value else work
    {
      byCode, ok := known, true;
      if template.code !in byCode {
        role := newRole;
        roles := roles[role := Role(t, template.code, template.name, template.system, true, Some(template.scope))];
        ok := Flush();
        byCode := byCode[template.code := role];
      } else {
        role := byCode[template.code];
        if roles[role].scope.None? {
          roles := roles[role := roles[role].(scope := Some(template.scope))];
        }
      }
    }

    /** The loop over the templates; `None` when the database refuses the pending rows. */
    method CloneAll(t: TenantId, templates: seq<Template>, ids: seq<RoleId>, entitled: set<PageId>,
                    known: map<string, RoleId>, ghost c: Context)
      returns (result: Option<map<TemplateId, RoleId>>)
      requires FromTables(c, roles) && c == Context(t, templates, known, ids, entitled)
      requires pending == []
      modifies this
      ensures result.Some? <==> GrantsAfter(c, old(grants)).Some?
      ensures result.Some? ==> grants == GrantsAfter(c, old(grants)).value && pending == []
      ensures result.Some? ==> roles == RolesAfter(c, old(roles), |templates|)
      ensures result.Some? ==> result.value == RoleMap(c, |templates|)
    {
      hide CodesAfter, RolesAfter, WorkAfter, GrantsAfter, RoleMap;
      hide NextRoles, Additions, Sent, Conflicts, IsByCode, Fresh;
      var byCode: map<string, RoleId> := known;
      var cloned: map<TemplateId, RoleId> := map[];
      ghost var roles0, grants0 := roles, grants;
      StartIs(c, roles0, grants0);
      for n := 0 to |templates|
        invariant byCode == CodesAfter(c, n) && cloned == RoleMap(c, n)
        invariant roles == RolesAfter(c, roles0, n)
        invariant WorkAfter(c, grants0, n) == Some(Work(grants, pending))
      {
        var template := templates[n];
        NextIs(c, roles0, grants0, n);
        var role, ok;
        role, byCode, ok := EnsureRole(t, template, byCode, ids[n], c, n);
        if !ok {
          RefusalStays(c, grants0, n);
          return None;
        }
        AddGrants(role, template.grants, entitled);
        cloned := cloned[template.id := role];
      }
      EndIs(c, grants0);
      var done := Flush();
      result := if done then Some(cloned) else None;
    }

    /** The whole request: without a clash everything is copied, with one nothing is. */
    method CloneDefaultRoles(t: TenantId, all: seq<Template>, offerings: set<OfferingId>, ids: seq<RoleId>,
                             entitled: set<PageId>)
      returns (result: Option<map<TemplateId, RoleId>>)
      requires Valid()
      requires Fresh(ids, roles) && |ids| == |Available(all, offerings)|
      modifies this
      ensures var c := ContextOf(old(roles), t, Available(all, offerings), ids, entitled);
              && (result.Some? <==> ClashFree(c, old(grants), |c.templates|))
              && (result.Some? ==> Cloned(c, old(roles), old(grants), roles, grants))
              && (result.Some? ==> result.value == RoleMap(c, |c.templates|))
      ensures result.None? ==> roles == old(roles) && grants == old(grants)
      ensures Valid()
    {
      hide RolesAre, GrantsAre, UniqueCodes, ClashFree, RoleMap, GrantsAfter, RolesAfter;
      var templates := Available(all, offerings);
      ghost var c := ContextOf(roles, t, templates, ids, entitled);
      if templates == [] {
        NothingToClone(c, roles, grants);
        return Some(map[]);
      }
      var roles0, grants0 := roles, grants;
      result := CloneAll(t, templates, ids, entitled, ByCode(roles, t), c);
      RunIs(c, roles0, grants0);
      if result.None? {
        roles, grants, pending := roles0, grants0, [];
      } else {
        TablesStayOk(c, roles0, grants0, roles, grants);
      }
    }
  }

  lemma NothingToClone(c: Context, roles: map<RoleId, Role>, grants: Grants)
    requires |c.templates| == |c.ids| == 0
    ensures ClashFree(c, grants, 0) && Cloned(c, roles, grants, roles, grants) && RoleMap(c, 0) == map[]
  {}

  lemma StartIs(c: Context, roles: map<RoleId, Role>, grants: Grants)
    requires |c.templates| == |c.ids|
    ensures CodesAfter(c, 0) == c.existing && RolesAfter(c, roles, 0) == roles && RoleMap(c, 0) == map[]
    ensures WorkAfter(c, grants, 0) == Some(Work(grants, []))
  {}

  lemma EndIs(c: Context, grants: Grants)
    requires |c.templates| == |c.ids|
    ensures WorkAfter(c, grants, |c.templates|).Some? ==>
              var w := WorkAfter(c, grants, |c.templates|).value;
              GrantsAfter(c, grants) == if Flushed(w).Some? then Some(Flushed(w).value.saved) else None
  {}

  /** The two outcomes of a run. */
  lemma RunIs(c: Context, roles: map<RoleId, Role>, grants: Grants)
    requires FromTables(c, roles)
    ensures GrantsAfter(c, grants).Some? <==> ClashFree(c, grants, |c.templates|)
    ensures GrantsAfter(c, grants).Some? ==>
              Cloned(c, roles, grants, RolesAfter(c, roles, |c.templates|), GrantsAfter(c, grants).value)
  {
    CloneIsExact(c, grants);
    RolesKeep(c, roles, RolesAfter(c, roles, |c.templates|), |c.templates|);
  }

  /** What the next template does to the variables of the loop. */
  lemma NextIs(c: Context, roles0: map<RoleId, Role>, grants0: Grants, n: nat)
    requires FromTables(c, roles0) && n < |c.templates|
    ensures c.templates[n].code !in CodesAfter(c, n) <==> Opening(c, n)
    ensures Opening(c, n) ==>
              && RoleOf(c, n) == c.ids[n]
              && CodesAfter(c, n + 1) == CodesAfter(c, n)[c.templates[n].code := c.ids[n]]
    ensures !Opening(c, n) ==>
              && CodesAfter(c, n + 1) == CodesAfter(c, n) && CodesAfter(c, n)[c.templates[n].code] == RoleOf(c, n)
              && RoleOf(c, n) in RolesAfter(c, roles0, n)
    ensures RolesAfter(c, roles0, n + 1) == NextRoles(c, RolesAfter(c, roles0, n), n)
    ensures RoleMap(c, n + 1) == RoleMap(c, n)[c.templates[n].id := RoleOf(c, n)]
    ensures WorkAfter(c, grants0, n).Some? ==>
              var w := WorkAfter(c, grants0, n).value;
              var v := if Opening(c, n) then Flushed(w) else Some(w);
              WorkAfter(c, grants0, n + 1) ==
              if v.None? then None
              else Some(Work(v.value.saved, v.value.pending
                          + Additions(v.value.saved, RoleOf(c, n), c.templates[n].grants, c.entitled)))
  {
    CodeAt(c, n);
    if !Opening(c, n) {
      RoleThere(c, roles0, n);
    }
  }

  lemma {:induction false} RefusalStays(c: Context, before: Grants, n: nat)
    requires n < |c.templates| == |c.ids| && WorkAfter(c, before, n + 1).None?
    ensures GrantsAfter(c, before).None?
  {
    NothingAfterRefusal(c, before, n + 1, |c.templates|);
  }

  lemma {:induction false} NothingAfterRefusal(c: Context, before: Grants, m: nat, n: nat)
    requires m <= n <= |c.templates| == |c.ids| && WorkAfter(c, before, m).None?
    ensures WorkAfter(c, before, n).None?
  {
    if m < n {
      NothingAfterRefusal(c, before, m, n - 1);
    }
  }
}
