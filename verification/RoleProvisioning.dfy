/** Cloning the role templates and then seeding the built-in roles, as registering a tenant
    and granting an offering do: what is left of the templates' grants. */
module RoleProvisioning {
  import opened Values
  import opened PageAccess
  import opened RoleSeeding
  import opened RoleCloning
  import opened RoleCloneRun
  import opened RoleCloneGuarantees

  /** The tables before cloning, between, and after seeding. */
  ghost predicate Provisioned(c: Context, roles: map<RoleId, Role>, grants: Grants, roles': map<RoleId, Role>,
                              grants': Grants, allPages: seq<Page>, codes: set<string>, after: Grants)
  {
    && FromTables(c, roles) && Cloned(c, roles, grants, roles', grants')
    && IsSeeded(roles', grants', after, SystemRoles(roles', c.tenant), TenantPages(allPages), codes)
  }

  /** Known before the call: the role a template is copied into is active and built in. */
  predicate BuiltIn(c: Context, roles: map<RoleId, Role>, i: nat)
    requires i < |c.templates|
  {
    var code := c.templates[i].code;
    if code in c.existing then
      c.existing[code] in roles && roles[c.existing[code]].system && roles[c.existing[code]].active
    else
      var k := FirstIndex(c.templates, code); k < |c.templates| && c.templates[k].system
  }

  lemma BuiltInIsSystem(c: Context, roles: map<RoleId, Role>, roles': map<RoleId, Role>, i: nat)
    requires FromTables(c, roles) && RolesAre(c, roles, roles', |c.templates|) && i < |c.templates|
    ensures RoleOf(c, i) in SystemRoles(roles', c.tenant) <==> BuiltIn(c, roles, i)
    ensures Opening(c, i) ==> (BuiltIn(c, roles, i) <==> c.templates[i].system)
    ensures RoleOf(c, i) in roles' && roles'[RoleOf(c, i)].code == c.templates[i].code
  {
    var code := c.templates[i].code;
    FirstIndexAtMost(c.templates, i);
    RoleOfHasCode(c, roles, roles', i);
    if code !in c.existing {
      assert Opening(c, FirstIndex(c.templates, code));
    }
  }

  /** What a template gives survives seeding exactly when its role is not built in, or the
      level is the default of built-in roles for the page. For a new role the first part is
      that the template is not built in. */
  lemma SeedingAfterCloning(c: Context, roles: map<RoleId, Role>, grants: Grants, roles': map<RoleId, Role>,
                            grants': Grants, allPages: seq<Page>, codes: set<string>, after: Grants, i: nat, page: Page)
    requires Provisioned(c, roles, grants, roles', grants', allPages, codes, after)
    requires i < |c.templates| && page in TenantPages(allPages) && Offers(c, i, page.id)
    ensures var k := (RoleOf(c, i), page.id);
            && k in grants' && k in after
            && (BuiltIn(c, roles, i) ==> after[k] == DefaultAccess(c.templates[i].code, page, codes))
            && (after[k] == grants'[k] <==>
                  !BuiltIn(c, roles, i) || grants'[k] == DefaultAccess(c.templates[i].code, page, codes))
    ensures Opening(c, i) ==> (BuiltIn(c, roles, i) <==> c.templates[i].system)
  {
    var k := (RoleOf(c, i), page.id);
    assert Wants(c, i, k);
    BuiltInIsSystem(c, roles, roles', i);
    if !BuiltIn(c, roles, i) {
      SeedingIsConfined(roles', grants', after, c.tenant, TenantPages(allPages), codes, k.0, k.1);
    }
  }

  /** A cloned role gives what its first template for the page gives, under the same
      condition: for every page the role had no row for. */
  lemma TemplateLevelSurvives(c: Context, roles: map<RoleId, Role>, grants: Grants, roles': map<RoleId, Role>,
                              grants': Grants, allPages: seq<Page>, codes: set<string>, after: Grants, i: nat,
                              page: Page)
    requires Provisioned(c, roles, grants, roles', grants', allPages, codes, after)
    requires i < |c.templates| && page in TenantPages(allPages)
    requires FirstGranter(c, i, (RoleOf(c, i), page.id)) && (RoleOf(c, i), page.id) !in grants
    ensures var k := (RoleOf(c, i), page.id);
            && k in after
            && (after[k] == LevelAt(c, i, k) <==>
                  !BuiltIn(c, roles, i) || LevelAt(c, i, k) == DefaultAccess(c.templates[i].code, page, codes))
  {
    var k := (RoleOf(c, i), page.id);
    SeedingAfterCloning(c, roles, grants, roles', grants', allPages, codes, after, i, page);
    var h :| 0 <= h < |c.templates| && FirstGranter(c, h, k) && grants'[k] == LevelAt(c, h, k);
    assert h == i;
  }

  /** What a user sees who holds just the cloned role: the template's level on an entitled
      page under that condition, and otherwise the default of built-in roles. */
  lemma HolderResolves(c: Context, roles: map<RoleId, Role>, grants: Grants, roles': map<RoleId, Role>, grants': Grants,
                       allPages: seq<Page>, codes: set<string>, after: Grants, i: nat, page: Page,
                       links: set<(UserId, RoleId)>, user: UserId, level: Level)
    requires Provisioned(c, roles, grants, roles', grants', allPages, codes, after)
    requires i < |c.templates| && page in EntitledPages(allPages, codes)
    requires FirstGranter(c, i, (RoleOf(c, i), page.id)) && (RoleOf(c, i), page.id) !in grants
    requires Held(roles', links, c.tenant, user) == {RoleOf(c, i)}
    requires Resolves(after, Held(roles', links, c.tenant, user), page.id, level)
    ensures level == if BuiltIn(c, roles, i) then DefaultAccess(c.templates[i].code, page, codes)
                     else LevelAt(c, i, (RoleOf(c, i), page.id))
  {
    var k := (RoleOf(c, i), page.id);
    assert page in TenantPages(allPages);
    SeedingAfterCloning(c, roles, grants, roles', grants', allPages, codes, after, i, page);
    TemplateLevelSurvives(c, roles, grants, roles', grants', allPages, codes, after, i, page);
    assert k.0 in Held(roles', links, c.tenant, user);
  }

  // ----- Every tenant can be provisioned -----

  ghost function PageWith(pages: seq<Page>, id: PageId): (p: Page)
    requires id in Ids(pages)
    ensures p in pages && p.id == id
  {
    var p :| p in pages && p.id == id;
    p
  }

  ghost function Seeded(roles: map<RoleId, Role>, before: Grants, who: set<RoleId>, pages: seq<Page>,
                        codes: set<string>): Grants
    requires who <= roles.Keys
  {
    map k | k in before.Keys + (set r, p | r in who && p in Ids(pages) :: (r, p)) ::
      if k.0 in who && k.1 in Ids(pages) then DefaultAccess(roles[k.0].code, PageWith(pages, k.1), codes)
      else before[k]
  }

  lemma SeededIs(roles: map<RoleId, Role>, before: Grants, who: set<RoleId>, pages: seq<Page>, codes: set<string>)
    requires who <= roles.Keys && DistinctIds(pages)
    ensures IsSeeded(roles, before, Seeded(roles, before, who, pages, codes), who, pages, codes)
  {
    forall p | p in pages ensures p.id in Ids(pages) && PageWith(pages, p.id) == p {}
  }

  /** For all tables and templates without a clash, cloning and then seeding have an outcome,
      so the theorems here are about every tenant that registers or is granted an offering. */
  lemma ProvisioningExists(c: Context, roles: map<RoleId, Role>, grants: Grants, allPages: seq<Page>,
                           codes: set<string>)
    requires FromTables(c, roles) && ClashFree(c, grants, |c.templates|) && DistinctIds(allPages)
    ensures exists roles', grants', after :: Provisioned(c, roles, grants, roles', grants', allPages, codes, after)
  {
    hide RolesAre, GrantsAre, ClashFree, RolesAfter, GrantsAfter, IsSeeded, TenantPages, IsByCode, Fresh;
    var roles' := RolesAfter(c, roles, |c.templates|);
    RolesKeep(c, roles, roles', |c.templates|);
    CloneIsExact(c, grants);
    var grants' := GrantsAfter(c, grants).value;
    TenantPagesDistinct(allPages);
    SeededIs(roles', grants', SystemRoles(roles', c.tenant), TenantPages(allPages), codes);
    var after := Seeded(roles', grants', SystemRoles(roles', c.tenant), TenantPages(allPages), codes);
    assert Provisioned(c, roles, grants, roles', grants', allPages, codes, after);
  }

  // ----- The shipped task roles -----

  const TASK_PAGE := Page(5, "TENANT_TASKS", Some("TASK_MANAGEMENT"), true)
  const TASK_MANAGER :=
    Template(1, "TASK_MANAGER", "Task Manager", true, true, Some(3), "TASK_MANAGEMENT", [Grant(5, Modify)])

  /** Wherever the shipped Task Manager template makes a role: whoever holds just that role
      may do nothing on the page of tasks, although the template says `modify` and the page is
      entitled. */
  lemma TaskManagerMayNothing(c: Context, roles: map<RoleId, Role>, grants: Grants, roles': map<RoleId, Role>,
                              grants': Grants, allPages: seq<Page>, codes: set<string>, after: Grants, i: nat,
                              links: set<(UserId, RoleId)>, user: UserId, level: Level)
    requires Provisioned(c, roles, grants, roles', grants', allPages, codes, after) && TablesOk(roles, grants)
    requires i < |c.templates| && c.templates[i] == TASK_MANAGER && Opening(c, i)
    requires TASK_PAGE in allPages && TASK_PAGE.id in c.entitled && "TASK_MANAGEMENT" in codes
    requires Held(roles', links, c.tenant, user) == {RoleOf(c, i)}
    requires Resolves(after, Held(roles', links, c.tenant, user), TASK_PAGE.id, level)
    ensures TASK_PAGE in EntitledPages(allPages, codes)
    ensures LevelFor(TASK_MANAGER.grants, TASK_PAGE.id) == Some(Modify) && level == Nothing
  {
    var k := (RoleOf(c, i), TASK_PAGE.id);
    assert k.0 == c.ids[i] && k.0 !in roles;
    forall h | 0 <= h < i ensures !Wants(c, h, k) {
      RolesDiffer(c, h, i);
      FirstIndexAtMost(c.templates, h);
    }
    HolderResolves(c, roles, grants, roles', grants', allPages, codes, after, i, TASK_PAGE, links, user, level);
  }

  /** A new tenant: its administrator role, the template, and the role the template makes. */
  function TaskContext(t: TenantId): Context {
    Context(t, [TASK_MANAGER], map[TENANT_ADMIN := 0], [1], {5})
  }

  function AdminOnly(t: TenantId): map<RoleId, Role> {
    map[0 := Role(t, TENANT_ADMIN, TENANT_ADMIN_NAME, true, true, None)]
  }

  function WithManager(t: TenantId): map<RoleId, Role> {
    AdminOnly(t)[1 := Created(TaskContext(t), TASK_MANAGER)]
  }

  lemma TaskIsCloned(t: TenantId)
    ensures var c := TaskContext(t);
            && FromTables(c, AdminOnly(t)) && RoleOf(c, 0) == 1
            && Cloned(c, AdminOnly(t), map[], WithManager(t), map[(1, 5) := Modify])
  {
    var c := TaskContext(t);
    FirstIndexAtMost(c.templates, 0);
    FirstIndexIs(c.templates, TENANT_ADMIN);
    assert Opening(c, 0);
    assert FirstGranter(c, 0, (1, 5)) && LevelAt(c, 0, (1, 5)) == Modify;
  }

  lemma TaskIsSeeded(t: TenantId)
    ensures IsSeeded(WithManager(t), map[(1, 5) := Modify], map[(0, 5) := Modify, (1, 5) := Nothing],
                     SystemRoles(WithManager(t), t), TenantPages([TASK_PAGE]), {"TASK_MANAGEMENT"})
  {
    assert TenantPages([TASK_PAGE]) == [TASK_PAGE];
    assert SystemRoles(WithManager(t), t) == {0, 1};
    assert Ids([TASK_PAGE]) == {5};
  }

  /** Such a tenant exists: a new one with its administrator role, the template and the page
      meets every condition of the theorem. */
  lemma TaskManagerTenantExists(t: TenantId, user: UserId)
    ensures exists c: Context, roles, grants, roles', grants', after ::
              && Provisioned(c, roles, grants, roles', grants', [TASK_PAGE], {"TASK_MANAGEMENT"}, after)
              && TablesOk(roles, grants) && c.tenant == t
              && c.templates == [TASK_MANAGER] && Opening(c, 0) && c.entitled == {TASK_PAGE.id}
              && Held(roles', {(user, RoleOf(c, 0))}, t, user) == {RoleOf(c, 0)}
  {
    hide Cloned, IsSeeded, FromTables;
    var grants': Grants, after: Grants := map[(1, 5) := Modify], map[(0, 5) := Modify, (1, 5) := Nothing];
    TaskIsCloned(t);
    TaskIsSeeded(t);
    assert Held(WithManager(t), {(user, 1)}, t, user) == {1};
    assert Provisioned(TaskContext(t), AdminOnly(t), map[], WithManager(t), grants', [TASK_PAGE],
                       {"TASK_MANAGEMENT"}, after);
  }
}
