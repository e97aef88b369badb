/** What cloning promises a tenant, and the one case in which it fails. */
module RoleCloneGuarantees {
  import opened Values
  import opened PageAccess
  import opened RoleSeeding
  import opened RoleCloning
  import opened RoleCloneRun

  lemma ResultKeys(c: Context, all: seq<Template>, offerings: set<OfferingId>, id: TemplateId)
    requires |c.templates| == |c.ids| && c.templates == Available(all, offerings)
    ensures id in RoleMap(c, |c.templates|) <==>
            exists t :: t in all && t.id == id && t.active && (t.offering.None? || t.offering.value in offerings)
  {
    RoleMapKeys(c, |c.templates|, id);
    if i :| 0 <= i < |c.templates| && c.templates[i].id == id {
      assert c.templates[i] in all;
    }
    if t :| t in all && t.id == id && t.active && (t.offering.None? || t.offering.value in offerings) {
      assert t in c.templates;
    }
  }

  /** The result maps exactly the available templates, each to the role with its code. */
  lemma ResultIsExact(c: Context, roles: map<RoleId, Role>, roles': map<RoleId, Role>, all: seq<Template>,
                      offerings: set<OfferingId>, id: TemplateId)
    requires FromTables(c, roles) && RolesAre(c, roles, roles', |c.templates|)
    requires DistinctTemplates(all) && c.templates == Available(all, offerings)
    ensures id in RoleMap(c, |c.templates|) <==>
            exists t :: t in all && t.id == id && t.active && (t.offering.None? || t.offering.value in offerings)
    ensures forall t :: t in c.templates && t.id == id && id in RoleMap(c, |c.templates|) ==>
              var r := RoleMap(c, |c.templates|)[id];
              r in roles' && roles'[r].tenant == c.tenant && roles'[r].code == t.code
  {
    AvailableDistinct(all, offerings);
    ResultKeys(c, all, offerings, id);
    forall i | 0 <= i < |c.templates| && c.templates[i].id == id
      ensures var r := RoleMap(c, |c.templates|)[id];
              r in roles' && roles'[r].tenant == c.tenant && roles'[r].code == c.templates[i].code
    {
      RoleMapValue(c, |c.templates|, i);
      RoleOfHasCode(c, roles, roles', i);
    }
  }

  /** A new role is, field by field, what the first available template with its code says, and
      the tenant had no role with that code. */
  lemma NewRolesAre(c: Context, roles: map<RoleId, Role>, roles': map<RoleId, Role>, all: seq<Template>,
                    offerings: set<OfferingId>, r: RoleId)
    requires FromTables(c, roles) && RolesAre(c, roles, roles', |c.templates|)
    requires c.templates == Available(all, offerings) && r in roles' && r !in roles
    ensures exists t :: t in all && t.active && (t.offering.Some? ==> t.offering.value in offerings)
              && roles'[r] == Role(c.tenant, t.code, t.name, t.system, true, Some(t.scope))
              && (forall q :: q in roles && roles[q].tenant == c.tenant ==> roles[q].code != t.code)
  {
    assert IsCreation(c, r, |c.templates|);
    var i :| 0 <= i < |c.templates| && Opening(c, i) && c.ids[i] == r;
    assert c.templates[i] in all;
  }

  /** A role without a scope gets one exactly from the first available template with its code. */
  lemma ScopesAre(c: Context, roles: map<RoleId, Role>, roles': map<RoleId, Role>, r: RoleId)
    requires FromTables(c, roles) && RolesAre(c, roles, roles', |c.templates|) && r in roles
    ensures r in roles'
    ensures roles[r].scope.Some? || roles[r].tenant != c.tenant ==> roles'[r].scope == roles[r].scope
    ensures roles[r].scope.None? && roles[r].tenant == c.tenant ==>
              forall i :: 0 <= i < |c.templates| && c.templates[i].code == roles[r].code
                          && (forall h :: 0 <= h < i ==> c.templates[h].code != roles[r].code) ==>
                roles'[r].scope == Some(c.templates[i].scope)
  {
    FirstIndexIs(c.templates, roles[r].code);
  }

  /** Roles there were keep everything but a missing scope; those of other tenants keep that
      too; grants there were are the same. */
  lemma ExistingIsKept(c: Context, roles: map<RoleId, Role>, grants: Grants, roles': map<RoleId, Role>, grants': Grants)
    requires FromTables(c, roles) && Cloned(c, roles, grants, roles', grants')
    ensures forall k :: k in grants ==> k in grants' && grants'[k] == grants[k]
    ensures forall r :: r in roles ==> r in roles' && roles'[r].(scope := roles[r].scope) == roles[r]
    ensures forall r :: r in roles && (roles[r].tenant != c.tenant || roles[r].scope.Some?) ==> roles'[r] == roles[r]
    ensures forall r :: r in roles' && r !in roles ==> roles'[r].tenant == c.tenant && roles'[r].active
  {}

  /** An added grant is for a role of the tenant, on an entitled page, at the level of the
      first template for that role that gives the page. */
  lemma AddedIsEntitled(c: Context, roles: map<RoleId, Role>, grants: Grants, roles': map<RoleId, Role>,
                        grants': Grants, k: Key)
    requires FromTables(c, roles) && Cloned(c, roles, grants, roles', grants') && k in grants' && k !in grants
    ensures k.1 in c.entitled && k.0 in roles' && roles'[k.0].tenant == c.tenant
    ensures exists i :: 0 <= i < |c.templates| && FirstGranter(c, i, k)
              && c.templates[i].code == roles'[k.0].code && LevelFor(c.templates[i].grants, k.1) == Some(grants'[k])
  {
    var i :| 0 <= i < |c.templates| && FirstGranter(c, i, k) && grants'[k] == LevelAt(c, i, k);
    RoleOfHasCode(c, roles, roles', i);
  }

  /** Every grant of every template on an entitled page is there in the end. */
  lemma NothingIsMissing(c: Context, grants: Grants, grants': Grants, i: nat, page: PageId)
    requires |c.templates| == |c.ids| && GrantsAre(c, grants, grants', |c.templates|) && i < |c.templates|
    requires page in c.entitled && LevelFor(c.templates[i].grants, page).Some?
    ensures (RoleOf(c, i), page) in grants'
  {
    assert Wants(c, i, (RoleOf(c, i), page));
  }

  // ----- Cloning again -----

  lemma AgainSameRole(c: Context, roles: map<RoleId, Role>, roles': map<RoleId, Role>, again: Context, i: nat)
    requires FromTables(c, roles) && RolesAre(c, roles, roles', |c.templates|)
    requires FromTables(again, roles') && again.tenant == c.tenant && again.templates == c.templates
    requires i < |c.templates|
    ensures RoleOf(again, i) == RoleOf(c, i) && !Opening(again, i)
  {
    RoleOfHasCode(c, roles, roles', i);
  }

  lemma AgainAllPresent(c: Context, roles: map<RoleId, Role>, roles': map<RoleId, Role>, grants: Grants,
                        grants': Grants, again: Context, i: nat, k: Key)
    requires FromTables(c, roles) && Cloned(c, roles, grants, roles', grants') && FromTables(again, roles')
    requires again.tenant == c.tenant && again.templates == c.templates && again.entitled == c.entitled
    requires i < |c.templates| && Wants(again, i, k)
    ensures k in grants'
  {
    AgainSameRole(c, roles, roles', again, i);
    assert Wants(c, i, k);
  }

  lemma AgainNoClash(c: Context, roles: map<RoleId, Role>, roles': map<RoleId, Role>, grants: Grants, grants': Grants,
                     again: Context)
    requires FromTables(c, roles) && Cloned(c, roles, grants, roles', grants') && FromTables(again, roles')
    requires again.tenant == c.tenant && again.templates == c.templates && again.entitled == c.entitled
    ensures ClashFree(again, grants', |again.templates|)
    ensures forall grants'' :: GrantsAre(again, grants', grants'', |again.templates|) ==> grants'' == grants'
  {
    forall i, k | 0 <= i < |c.templates| && Wants(again, i, k) ensures k in grants' {
      AgainAllPresent(c, roles, roles', grants, grants', again, i, k);
    }
  }

  lemma AgainNothingAdopted(c: Context, roles: map<RoleId, Role>, roles': map<RoleId, Role>, again: Context, r: RoleId)
    requires FromTables(c, roles) && RolesAre(c, roles, roles', |c.templates|) && FromTables(again, roles')
    requires again.tenant == c.tenant && again.templates == c.templates && r in roles'
    ensures Adopted(again, roles'[r], |c.templates|) == roles'[r]
  {
    var k := FirstIndex(c.templates, roles'[r].code);
    if roles'[r].tenant == c.tenant && k < |c.templates| {
      FirstIndexIs(c.templates, roles'[r].code);
      RoleOfHasCode(c, roles, roles', k);
      assert again.existing[roles'[r].code] == r;
      AgainSameRole(c, roles, roles', again, k);
    }
  }

  /** A second run with the same templates succeeds and changes nothing. */
  lemma CloningIsIdempotent(c: Context, roles: map<RoleId, Role>, grants: Grants, roles': map<RoleId, Role>,
                            grants': Grants, again: Context, roles'': map<RoleId, Role>, grants'': Grants)
    requires FromTables(c, roles) && Cloned(c, roles, grants, roles', grants')
    requires FromTables(again, roles')
    requires again.tenant == c.tenant && again.templates == c.templates && again.entitled == c.entitled
    ensures ClashFree(again, grants', |again.templates|)
    ensures Cloned(again, roles', grants', roles'', grants'') ==> roles'' == roles' && grants'' == grants'
  {
    AgainNoClash(c, roles, roles', grants, grants', again);
    if Cloned(again, roles', grants', roles'', grants'') {
      forall r | r in roles' ensures r in roles'' && roles''[r] == roles'[r] {
        AgainNothingAdopted(c, roles, roles', again, r);
      }
      forall r | r in roles'' ensures r in roles' {
        AgainNothingCreated(c, roles, roles', again, r);
      }
    }
  }

  lemma AgainNothingCreated(c: Context, roles: map<RoleId, Role>, roles': map<RoleId, Role>, again: Context, r: RoleId)
    requires FromTables(c, roles) && RolesAre(c, roles, roles', |c.templates|) && FromTables(again, roles')
    requires again.tenant == c.tenant && again.templates == c.templates
    ensures !IsCreation(again, r, |c.templates|)
  {
    if i :| 0 <= i < |c.templates| && Opening(again, i) && again.ids[i] == r {
      AgainSameRole(c, roles, roles', again, i);
    }
  }

  // ----- The failing family -----

  /** Templates with one code that give no page twice, except pages the role has, never clash. */
  lemma DisjointTemplatesNeverClash(c: Context, grants: Grants)
    requires |c.templates| == |c.ids|
    requires forall i, j, page: PageId ::
               (0 <= i < j < |c.templates| && c.templates[i].code == c.templates[j].code
                && Offers(c, i, page) && Offers(c, j, page))
               ==> (RoleOf(c, i), page) in grants
    ensures ClashFree(c, grants, |c.templates|)
  {}

  /** The four core pages, as a template with rows for all of them has them. */
  function CoreRows(level: Level): seq<Grant> {
    [Grant(0, level), Grant(1, level), Grant(2, level), Grant(3, level)]
  }

  /** The shipped administrator template, linked to the tenant administration offering, and a
      core template with the same code, which has no offering. */
  const LINKED_ADMIN :=
    Template(1, TENANT_ADMIN, TENANT_ADMIN_NAME, true, true, Some(9), "CORE", CoreRows(Modify))
  const CORE_ADMIN :=
    Template(2, TENANT_ADMIN, "Workspace Admin", false, true, None, "CORE", CoreRows(Nothing))

  lemma CoreOffered(level: Level, page: PageId)
    requires page < 4
    ensures LevelFor(CoreRows(level), page) == Some(level)
  {
    var rows := CoreRows(level);
    assert rows[1..] == [Grant(1, level), Grant(2, level), Grant(3, level)];
    assert rows[1..][1..] == [Grant(2, level), Grant(3, level)];
    assert rows[1..][1..][1..] == [Grant(3, level)];
  }

  /** With both, cloning fails for every tenant of that offering whose administrator role
      lacks a row for a core page, as it does at registration. */
  lemma SecondAdminTemplateClashes(t: TenantId, r: RoleId, ids: seq<RoleId>, grants: Grants, page: PageId)
    requires |ids| == 2 && page < 4 && (r, page) !in grants
    ensures var c := Context(t, [LINKED_ADMIN, CORE_ADMIN], map[TENANT_ADMIN := r], ids, {0, 1, 2, 3});
            && c.templates == Available([LINKED_ADMIN, CORE_ADMIN], {9})
            && !ClashFree(c, grants, 2)
  {
    var c := Context(t, [LINKED_ADMIN, CORE_ADMIN], map[TENANT_ADMIN := r], ids, {0, 1, 2, 3});
    var all := [LINKED_ADMIN, CORE_ADMIN];
    assert all[1..] == [CORE_ADMIN] && all[1..][1..] == [];
    assert Available(all[1..], {9}) == [CORE_ADMIN] + Available([], {9});
    CoreOffered(Modify, page);
    CoreOffered(Nothing, page);
    assert RoleOf(c, 0) == r && FirstGranter(c, 0, (r, page)) && !Opening(c, 1);
    assert Clash(c, grants, 0, 1, page);
  }

  /** The same two with a template for a new role between them do not clash: creating the
      role sends the pending rows, and the query then shows them. */
  lemma NewRoleBetweenHelps(t: TenantId, r: RoleId, ids: seq<RoleId>, grants: Grants, other: Template)
    requires |ids| == 3 && other.code != TENANT_ADMIN
    ensures var c := Context(t, [LINKED_ADMIN, other, CORE_ADMIN], map[TENANT_ADMIN := r], ids, {0, 1, 2, 3});
            ClashFree(c, grants, 3)
  {
    var c := Context(t, [LINKED_ADMIN, other, CORE_ADMIN], map[TENANT_ADMIN := r], ids, {0, 1, 2, 3});
    FirstIndexAtMost(c.templates, 1);
    FirstIndexIs(c.templates, other.code);
    assert FirstIndex(c.templates, other.code) == 1;
    assert Opening(c, 1);
    forall i, j, page | 0 <= i < j < 3 ensures !Clash(c, grants, i, j, page) {
      assert c.templates[i].code == c.templates[j].code ==> i == 0 && j == 2;
    }
  }
}
