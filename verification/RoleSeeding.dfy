/** The page grants of the built-in roles of a tenant, and what they come to for a user. */
module RoleSeeding {
  import opened Values
  import opened PageAccess

  type Grants = map<(RoleId, PageId), Level>

  const TENANT_ADMIN := "TENANT_ADMIN"
  const TENANT_ADMIN_NAME := "Tenant Admin"
  const CORE_TENANT_PAGE_CODES := {"TENANT_OVERVIEW", "TENANT_USERS", "TENANT_ROLES", "TENANT_CONFIGURATIONS"}

  predicate PageIsEntitled(page: Page, codes: set<string>) {
    if page.code in CORE_TENANT_PAGE_CODES then true
    else if page.offering.None? then false
    else page.offering.value in codes
  }

  function TenantPages(pages: seq<Page>): (r: seq<Page>)
    ensures forall p :: p in r <==> p in pages && p.tenantScope
  {
    if pages == [] then []
    else (if pages[0].tenantScope then [pages[0]] else []) + TenantPages(pages[1..])
  }

  function EntitledPages(pages: seq<Page>, codes: set<string>): (r: seq<Page>)
    ensures forall p :: p in r <==> p in pages && p.tenantScope && PageIsEntitled(p, codes)
  {
    if pages == [] then []
    else if pages[0].tenantScope && PageIsEntitled(pages[0], codes) then [pages[0]] + EntitledPages(pages[1..], codes)
    else EntitledPages(pages[1..], codes)
  }

  /** A page of the tenant realm is entitled exactly if it is one of the four core pages or
      belongs to an offering the tenant has. */
  lemma EntitledIs(page: Page, codes: set<string>)
    ensures PageIsEntitled(page, codes) <==>
            || page.code == "TENANT_OVERVIEW" || page.code == "TENANT_USERS"
            || page.code == "TENANT_ROLES" || page.code == "TENANT_CONFIGURATIONS"
            || (page.offering.Some? && page.offering.value in codes)
  {}

  /** One stands before the other. */
  ghost predicate Precedes(pages: seq<Page>, p: Page, q: Page) {
    exists a, b :: 0 <= a < b < |pages| && pages[a] == p && pages[b] == q
  }

  lemma PrecedesLater(pages: seq<Page>, p: Page, q: Page)
    requires pages != [] && Precedes(pages[1..], p, q)
    ensures Precedes(pages, p, q)
  {
    var a, b :| 0 <= a < b < |pages[1..]| && pages[1..][a] == p && pages[1..][b] == q;
    assert pages[a + 1] == p && pages[b + 1] == q;
  }

  lemma FirstPrecedes(pages: seq<Page>, q: Page)
    requires pages != [] && q in pages[1..]
    ensures Precedes(pages, pages[0], q)
  {
    var b :| 0 <= b < |pages[1..]| && pages[1..][b] == q;
    assert pages[b + 1] == q;
  }

  ghost predicate AllPrecede(pages: seq<Page>, r: seq<Page>) {
    forall i, j :: 0 <= i < j < |r| ==> Precedes(pages, r[i], r[j])
  }

  lemma AllPrecedeLater(pages: seq<Page>, r: seq<Page>)
    requires pages != [] && AllPrecede(pages[1..], r)
    ensures AllPrecede(pages, r)
  {
    hide Precedes;
    forall i, j | 0 <= i < j < |r| ensures Precedes(pages, r[i], r[j]) {
      PrecedesLater(pages, r[i], r[j]);
    }
  }

  lemma FirstPrecedesAll(pages: seq<Page>, r: seq<Page>)
    requires pages != [] && AllPrecede(pages, r) && forall q :: q in r ==> q in pages[1..]
    ensures AllPrecede(pages, [pages[0]] + r)
  {
    hide Precedes;
    var all := [pages[0]] + r;
    forall i, j | 0 <= i < j < |all| ensures Precedes(pages, all[i], all[j]) {
      assert all[j] == r[j - 1];
      if i == 0 {
        FirstPrecedes(pages, r[j - 1]);
      } else {
        assert all[i] == r[i - 1];
      }
    }
  }

  /** The entitled pages stand in the order of all pages. */
  lemma {:induction false} EntitledInOrder(pages: seq<Page>, codes: set<string>)
    ensures AllPrecede(pages, EntitledPages(pages, codes))
  {
    hide AllPrecede, PageIsEntitled;
    if pages == [] {
      NoneToPrecede();
    } else {
      var rest := EntitledPages(pages[1..], codes);
      EntitledInOrder(pages[1..], codes);
      AllPrecedeLater(pages, rest);
      FirstPrecedesAll(pages, rest);
    }
  }

  lemma NoneToPrecede()
    ensures AllPrecede([], [])
  {}

  /** And each once. */
  lemma {:induction false} EntitledDistinct(pages: seq<Page>, codes: set<string>)
    requires DistinctIds(pages)
    ensures DistinctIds(EntitledPages(pages, codes))
  {
    if pages != [] {
      EntitledDistinct(pages[1..], codes);
      assert forall p :: p in pages[1..] ==> p.id != pages[0].id;
    }
  }

  function DefaultAccess(code: string, page: Page, codes: set<string>): Level {
    if code == TENANT_ADMIN && PageIsEntitled(page, codes) then Modify else Nothing
  }

  ghost predicate DistinctIds(pages: seq<Page>) {
    forall i, j :: 0 <= i < j < |pages| ==> pages[i].id != pages[j].id
  }

  ghost predicate UniqueCodes(roles: map<RoleId, Role>) {
    forall r, q :: r in roles && q in roles ==>
      (roles[r].tenant == roles[q].tenant && roles[r].code == roles[q].code ==> r == q)
  }

  /** What the database promises: one role a code in a tenant, and no grant without its role. */
  ghost predicate TablesOk(roles: map<RoleId, Role>, grants: Grants) {
    UniqueCodes(roles) && forall k :: k in grants ==> k.0 in roles
  }

  function SystemRoles(roles: map<RoleId, Role>, t: TenantId): set<RoleId> {
    set r | r in roles && roles[r].tenant == t && roles[r].system && roles[r].active
  }

  function Held(roles: map<RoleId, Role>, links: set<(UserId, RoleId)>, t: TenantId, user: UserId): set<RoleId> {
    set r | r in roles && (user, r) in links && roles[r].tenant == t && roles[r].active
  }

  // ----- What seeding leaves in the table -----

  /** Every row of the roles `who` on a page of `pages` is there with its default; every
      other row is as it was. */
  ghost predicate IsSeeded(roles: map<RoleId, Role>, before: Grants, after: Grants, who: set<RoleId>,
                           pages: seq<Page>, codes: set<string>)
    requires who <= roles.Keys
  {
    && (forall r, p :: r in who && p in pages ==>
          (r, p.id) in after && after[(r, p.id)] == DefaultAccess(roles[r].code, p, codes))
    && (forall r, p :: (r, p) in after && !(r in who && p in Ids(pages)) ==>
          (r, p) in before && after[(r, p)] == before[(r, p)])
    && (forall r, p :: (r, p) in before ==> (r, p) in after)
  }

  /** `level` is the greatest that the roles `held` give the page, "none" without any row. */
  ghost predicate Resolves(grants: Grants, held: set<RoleId>, page: PageId, level: Level) {
    && (forall r :: r in held && (r, page) in grants ==> Rank(grants[(r, page)]) <= Rank(level))
    && (level == Nothing || exists r :: r in held && (r, page) in grants && grants[(r, page)] == level)
  }

  /** The roles `held`, each once, in the order of the rank of their codes. */
  ghost predicate InCodeOrder(roles: map<RoleId, Role>, held: set<RoleId>, rank: string -> int, order: seq<RoleId>)
    requires held <= roles.Keys
  {
    && |order| == |held| && (forall r :: r in order <==> r in held)
    && forall i, j :: 0 <= i < j < |order| ==> rank(roles[order[i]].code) <= rank(roles[order[j]].code)
  }

  /** No code of `rest` comes before one of those listed. */
  ghost predicate NoneBefore(roles: map<RoleId, Role>, rank: string -> int, order: seq<RoleId>, rest: set<RoleId>)
    requires rest <= roles.Keys
  {
    forall i, q :: 0 <= i < |order| && q in rest ==>
      order[i] in roles && rank(roles[order[i]].code) <= rank(roles[q].code)
  }

  lemma NothingListed(roles: map<RoleId, Role>, held: set<RoleId>, rank: string -> int)
    requires held <= roles.Keys
    ensures InCodeOrder(roles, {}, rank, []) && NoneBefore(roles, rank, [], held)
  {}

  lemma OrderNext(roles: map<RoleId, Role>, done: set<RoleId>, rank: string -> int, order: seq<RoleId>,
                  rest: set<RoleId>, r: RoleId)
    requires done + rest <= roles.Keys && done !! rest && r in rest
    requires InCodeOrder(roles, done, rank, order) && NoneBefore(roles, rank, order, rest)
    ensures InCodeOrder(roles, done + {r}, rank, order + [r])
  {
    var longer := order + [r];
    forall i, j | 0 <= i < j < |longer| ensures rank(roles[longer[i]].code) <= rank(roles[longer[j]].code) {
      assert longer[i] == order[i];
      assert j < |order| ==> longer[j] == order[j];
    }
    forall q ensures q in longer <==> q in done + {r} {
      assert q in longer <==> q in order || q == r;
    }
  }

  lemma NoneBeforeNext(roles: map<RoleId, Role>, rank: string -> int, order: seq<RoleId>, rest: set<RoleId>, r: RoleId)
    requires rest <= roles.Keys && r in rest && NoneBefore(roles, rank, order, rest)
    requires forall q :: q in rest ==> rank(roles[r].code) <= rank(roles[q].code)
    ensures NoneBefore(roles, rank, order + [r], rest - {r})
  {}

  ghost predicate AreNames(roles: map<RoleId, Role>, order: seq<RoleId>, names: seq<string>) {
    |names| == |order| && forall i :: 0 <= i < |order| ==> order[i] in roles && names[i] == roles[order[i]].name
  }

  lemma {:induction false} FirstExists(roles: map<RoleId, Role>, held: set<RoleId>, rank: string -> int)
    requires held <= roles.Keys && held != {}
    ensures exists r :: r in held && forall q :: q in held ==> rank(roles[r].code) <= rank(roles[q].code)
  {
    var r :| r in held;
    if held == {r} {
      assert forall q :: q in held ==> rank(roles[r].code) <= rank(roles[q].code);
    } else {
      FirstExists(roles, held - {r}, rank);
      var p :| p in held - {r} && forall q :: q in held - {r} ==> rank(roles[p].code) <= rank(roles[q].code);
      var first := if rank(roles[r].code) <= rank(roles[p].code) then r else p;
      assert forall q :: q in held ==> q == r || q in held - {r};
      assert first in held && forall q :: q in held ==> rank(roles[first].code) <= rank(roles[q].code);
    }
  }

  class AccessTables {
    var roles: map<RoleId, Role>
    var grants: Grants
    var links: set<(UserId, RoleId)>

    ghost predicate Valid()
      reads this
    {
      TablesOk(roles, grants)
    }

    constructor ()
      ensures Valid() && roles == map[] && grants == map[] && links == {}
    {
      roles, grants, links := map[], map[], {};
    }

    /** Creates the built-in role or restores it. */
    method EnsureSystemRoles(t: TenantId, newRole: RoleId) returns (admin: RoleId)
      requires Valid() && newRole !in roles
      modifies this`roles
      ensures Valid()
      ensures admin in SystemRoles(roles, t) && roles[admin].code == TENANT_ADMIN
      ensures roles[admin].tenant == t && roles[admin].code == "TENANT_ADMIN" && roles[admin].name == "Tenant Admin"
              && roles[admin].system && roles[admin].active
      ensures roles == old(roles)[admin :=
                if admin in old(roles)
                then old(roles)[admin].(name := TENANT_ADMIN_NAME, system := true, active := true)
                else Role(t, TENANT_ADMIN, TENANT_ADMIN_NAME, true, true, None)]
    {
      var matching := set r | r in roles && roles[r].tenant == t && roles[r].code == TENANT_ADMIN;
      if matching == {} {
        admin := newRole;
        assert forall r :: r in roles && roles[r].tenant == t && roles[r].code == TENANT_ADMIN ==> r in matching;
        roles := roles[newRole := Role(t, TENANT_ADMIN, TENANT_ADMIN_NAME, true, true, None)];
      } else {
        admin :| admin in matching;
        ghost var was := roles;
        roles := roles[admin := roles[admin].(name := TENANT_ADMIN_NAME, system := true, active := true)];
        assert forall r :: r in roles ==> roles[r].tenant == was[r].tenant && roles[r].code == was[r].code;
      }
    }

    /** The inner loop: one role over the pages, against the rows read before the loops. */
    method SeedRole(existing: Grants, before: Grants, r: RoleId, pages: seq<Page>,
                    codes: set<string>) returns (rows: Grants)
      requires r in roles && DistinctIds(pages) && AgreeOn(existing, before, r, Ids(pages))
      ensures IsSeeded(roles, before, rows, {r}, pages, codes)
    {
      rows := before;
      for i := 0 to |pages|
        invariant IsSeeded(roles, before, rows, {r}, pages[..i], codes)
        invariant AgreeOn(existing, rows, r, Ids(pages[i..]))
      {
        var k := (r, pages[i].id);
        var desired := DefaultAccess(roles[r].code, pages[i], codes);
        SeededNext(roles, before, rows, r, pages, i, codes);
        AgreeNext(existing, rows, r, pages, i, desired);
        if k !in existing {
          assert k !in rows;
          rows := rows[k := desired];
        } else if existing[k] != desired {
          rows := rows[k := desired];
        } else {
          assert rows == rows[k := desired];
        }
      }
      assert pages[..|pages|] == pages;
    }

    method EnsureSystemRolePageDefaults(t: TenantId, allPages: seq<Page>, codes: set<string>)
      requires Valid() && DistinctIds(allPages)
      modifies this`grants
      ensures Valid()
      ensures IsSeeded(roles, old(grants), grants, SystemRoles(roles, t), TenantPages(allPages), codes)
      ensures forall r, p :: r in roles && roles[r].tenant == t && roles[r].system && roles[r].active
                             && p in allPages && p.tenantScope ==>
                && (r, p.id) in grants
                && (grants[(r, p.id)] == Modify <==> roles[r].code == "TENANT_ADMIN" && PageIsEntitled(p, codes))
                && (grants[(r, p.id)] == Nothing <==> !(roles[r].code == "TENANT_ADMIN" && PageIsEntitled(p, codes)))
      ensures forall r, q :: (r, q) in old(grants) ==> (r, q) in grants
      ensures forall r, q :: (r, q) in grants ==>
                || (r in roles && roles[r].tenant == t && roles[r].system && roles[r].active
                    && exists p :: p in allPages && p.tenantScope && p.id == q)
                || ((r, q) in old(grants) && grants[(r, q)] == old(grants)[(r, q)])
    {
      hide PageIsEntitled;
      var who := SystemRoles(roles, t);
      var todo := who;
      if who == {} { return; }
      var pages := TenantPages(allPages);
      TenantPagesDistinct(allPages);
      var existing := grants;
      var rows := existing;
      while todo != {}
        invariant todo <= who
        invariant IsSeeded(roles, existing, rows, who - todo, pages, codes)
        decreases todo
      {
        var r :| r in todo;
        ghost var done, before := who - todo, rows;
        UntouchedSoFar(roles, existing, before, done, pages, codes, r);
        rows := SeedRole(existing, rows, r, pages, codes);
        SeededJoin(roles, existing, before, rows, done, r, pages, codes);
        todo := todo - {r};
        assert who - todo == done + {r};
      }
      assert who - todo == who;
      SeededKeepsTables(roles, existing, rows, who, pages, codes);
      grants := rows;
    }

    /** The grants of the roles `held`, in whatever order the query returns them. */
    method GrantRows(held: set<RoleId>) returns (rows: seq<Grant>)
      ensures forall g :: g in rows <==>
                exists r :: r in held && (r, g.page) in grants && grants[(r, g.page)] == g.level
    {
      rows := [];
      var todo := grants.Keys;
      while todo != {}
        invariant todo <= grants.Keys
        invariant forall g :: g in rows <==>
                    exists r :: r in held && (r, g.page) in grants.Keys - todo && grants[(r, g.page)] == g.level
        decreases todo
      {
        var k :| k in todo;
        todo := todo - {k};
        if k.0 in held {
          assert k == (k.0, k.1);
          rows := rows + [Grant(k.1, grants[k])];
        }
      }
    }

    /** The query for the roles held. `rank` is the collation of the database. */
    method HeldInOrder(held: set<RoleId>, rank: string -> int) returns (order: seq<RoleId>)
      requires held <= roles.Keys
      ensures InCodeOrder(roles, held, rank, order)
    {
      hide InCodeOrder, NoneBefore;
      order := [];
      NothingListed(roles, held, rank);
      var rest := held;
      assert held - rest == {};
      while rest != {}
        invariant rest <= held && InCodeOrder(roles, held - rest, rank, order)
        invariant NoneBefore(roles, rank, order, rest)
        decreases rest
      {
        FirstExists(roles, rest, rank);
        var r :| r in rest && forall q :: q in rest ==> rank(roles[r].code) <= rank(roles[q].code);
        OrderNext(roles, held - rest, rank, order, rest, r);
        NoneBeforeNext(roles, rank, order, rest, r);
        assert held - (rest - {r}) == (held - rest) + {r};
        order := order + [r];
        rest := rest - {r};
      }
      assert held - rest == held;
    }

    /** The names of the active roles a user holds, by code, and the pages the user sees: the
        entitled ones, each at the greatest level of those roles. */
    method ResolveTenantPageAccess(t: TenantId, user: UserId, allPages: seq<Page>, codes: set<string>,
                                   rank: string -> int)
      returns (names: seq<string>, access: seq<Access>)
      ensures exists order ::
                InCodeOrder(roles, Held(roles, links, t, user), rank, order) && AreNames(roles, order, names)
      ensures |access| == |EntitledPages(allPages, codes)|
      ensures forall i :: 0 <= i < |access| ==>
                && access[i].page == EntitledPages(allPages, codes)[i]
                && Resolves(grants, Held(roles, links, t, user), access[i].page.id, access[i].level)
      ensures forall p :: (exists i :: 0 <= i < |access| && access[i].page == p) <==>
                && p in allPages && p.tenantScope
                && (p.code in ["TENANT_OVERVIEW", "TENANT_USERS", "TENANT_ROLES", "TENANT_CONFIGURATIONS"]
                    || (p.offering.Some? && p.offering.value in codes))
      ensures forall i, j :: 0 <= i < j < |access| ==> Precedes(allPages, access[i].page, access[j].page)
      ensures forall r, i :: 0 <= i < |access| && r in roles && roles[r].tenant == t && roles[r].active
                             && (user, r) in links && (r, access[i].page.id) in grants ==>
                Rank(grants[(r, access[i].page.id)]) <= Rank(access[i].level)
      ensures forall i :: 0 <= i < |access| && access[i].level != Nothing ==>
                exists r :: r in roles && roles[r].tenant == t && roles[r].active && (user, r) in links
                  && (r, access[i].page.id) in grants && grants[(r, access[i].page.id)] == access[i].level
    {
      EntitledInOrder(allPages, codes);
      forall p ensures p in EntitledPages(allPages, codes) <==>
                         && p in allPages && p.tenantScope
                         && (p.code in ["TENANT_OVERVIEW", "TENANT_USERS", "TENANT_ROLES", "TENANT_CONFIGURATIONS"]
                             || (p.offering.Some? && p.offering.value in codes))
      {
        EntitledIs(p, codes);
      }
      var held := Held(roles, links, t, user);
      var pages := EntitledPages(allPages, codes);
      var order := HeldInOrder(held, rank);
      names := seq(|order|, i requires 0 <= i < |order| && order[i] in roles reads this => roles[order[i]].name);
      access := ResolvePages(held, pages);
    }

    /** The union of the grants of the roles held over the entitled pages. */
    method ResolvePages(held: set<RoleId>, pages: seq<Page>) returns (access: seq<Access>)
      ensures |access| == |pages|
      ensures forall i :: 0 <= i < |access| ==>
                access[i].page == pages[i] && Resolves(grants, held, access[i].page.id, access[i].level)
    {
      if held == {} {
        access := UnionByPage(pages, [], Nothing);
      } else {
        var rows := GrantRows(held);
        access := UnionByPage(pages, Filter(rows, Ids(pages)), Nothing);
        FilterIsRedundant(pages, rows, Nothing);
        forall i | 0 <= i < |access| ensures Resolves(grants, held, access[i].page.id, access[i].level) {
          BestOfRowsResolves(grants, held, rows, access[i].page.id, access[i].level);
        }
      }
    }
  }

  // ----- Loop steps -----

  lemma {:induction false} TenantPagesDistinct(pages: seq<Page>)
    requires DistinctIds(pages)
    ensures DistinctIds(TenantPages(pages))
  {
    if pages != [] {
      TenantPagesDistinct(pages[1..]);
      assert pages[0].tenantScope ==> TenantPages(pages) == [pages[0]] + TenantPages(pages[1..]);
      assert forall p :: p in pages[1..] ==> p.id != pages[0].id;
    }
  }

  /** On the pages `ids` of the role, the rows are still those of the snapshot. */
  ghost predicate AgreeOn(existing: Grants, rows: Grants, r: RoleId, ids: set<PageId>) {
    forall p :: p in ids ==>
      && ((r, p) in rows <==> (r, p) in existing)
      && ((r, p) in rows ==> rows[(r, p)] == existing[(r, p)])
  }

  lemma UntouchedSoFar(roles: map<RoleId, Role>, existing: Grants, rows: Grants, done: set<RoleId>,
                       pages: seq<Page>, codes: set<string>, r: RoleId)
    requires done <= roles.Keys && r !in done
    requires IsSeeded(roles, existing, rows, done, pages, codes)
    ensures AgreeOn(existing, rows, r, Ids(pages))
  {}

  lemma AgreeNext(existing: Grants, rows: Grants, r: RoleId, pages: seq<Page>, i: nat, level: Level)
    requires i < |pages| && DistinctIds(pages) && AgreeOn(existing, rows, r, Ids(pages[i..]))
    ensures AgreeOn(existing, rows, r, {pages[i].id})
    ensures AgreeOn(existing, rows[(r, pages[i].id) := level], r, Ids(pages[i + 1..]))
  {}

  lemma SeededNext(roles: map<RoleId, Role>, before: Grants, row: Grants, r: RoleId, pages: seq<Page>, i: nat,
                   codes: set<string>)
    requires r in roles && i < |pages|
    requires IsSeeded(roles, before, row, {r}, pages[..i], codes)
    requires DistinctIds(pages)
    ensures var row' := row[(r, pages[i].id) := DefaultAccess(roles[r].code, pages[i], codes)];
            IsSeeded(roles, before, row', {r}, pages[..i + 1], codes)
  {}

  lemma SeededJoin(roles: map<RoleId, Role>, existing: Grants, before: Grants, after: Grants, done: set<RoleId>,
                   r: RoleId, pages: seq<Page>, codes: set<string>)
    requires done + {r} <= roles.Keys && r !in done
    requires IsSeeded(roles, existing, before, done, pages, codes)
    requires IsSeeded(roles, before, after, {r}, pages, codes)
    ensures IsSeeded(roles, existing, after, done + {r}, pages, codes)
  {}

  lemma SeededKeepsTables(roles: map<RoleId, Role>, before: Grants, after: Grants, who: set<RoleId>, pages: seq<Page>,
                          codes: set<string>)
    requires who <= roles.Keys && TablesOk(roles, before) && IsSeeded(roles, before, after, who, pages, codes)
    ensures TablesOk(roles, after)
  {
    forall k | k in after ensures k.0 in roles {
      assert k == (k.0, k.1);
    }
  }

  lemma BestOfRowsResolves(grants: Grants, held: set<RoleId>, rows: seq<Grant>, page: PageId, level: Level)
    requires forall g :: g in rows <==> exists r :: r in held && (r, g.page) in grants && grants[(r, g.page)] == g.level
    requires IsBest(rows, page, Nothing, level)
    ensures Resolves(grants, held, page, level)
  {
    forall r | r in held && (r, page) in grants ensures Rank(grants[(r, page)]) <= Rank(level) {
      assert Grant(page, grants[(r, page)]) in rows;
    }
  }

  // ----- Guarantees -----

  /** Running it again changes nothing. */
  lemma SeedingIsIdempotent(roles: map<RoleId, Role>, before: Grants, once: Grants, twice: Grants, t: TenantId,
                            pages: seq<Page>, codes: set<string>)
    requires IsSeeded(roles, before, once, SystemRoles(roles, t), pages, codes)
    requires IsSeeded(roles, once, twice, SystemRoles(roles, t), pages, codes)
    ensures twice == once
  {
    var who := SystemRoles(roles, t);
    forall k | k in twice ensures k in once && twice[k] == once[k] {
      assert k == (k.0, k.1);
      if k.0 in who && k.1 in Ids(pages) {
        var p :| p in pages && p.id == k.1;
        assert (k.0, p.id) in once;
      }
    }
    forall k | k in once ensures k in twice {
      assert k == (k.0, k.1);
    }
  }

  /** Rows of other roles, and of pages outside the realm, are untouched. */
  lemma SeedingIsConfined(roles: map<RoleId, Role>, before: Grants, after: Grants, t: TenantId, pages: seq<Page>,
                          codes: set<string>, r: RoleId, page: PageId)
    requires IsSeeded(roles, before, after, SystemRoles(roles, t), pages, codes)
    requires r !in SystemRoles(roles, t) || page !in Ids(pages)
    ensures (r, page) in after <==> (r, page) in before
    ensures (r, page) in before ==> after[(r, page)] == before[(r, page)]
  {}

  /** The tenant's active built-in administrator role: it is among those held. */
  predicate HoldsAdmin(roles: map<RoleId, Role>, held: set<RoleId>) {
    exists r :: r in held && r in roles && roles[r].system && roles[r].code == TENANT_ADMIN
  }

  /** After seeding, who holds the administrator role may modify every entitled page. Anyone
      else has what the roles that are not built in gave before: the built-in ones, also those
      cloned from templates, no longer give anything. */
  lemma SeededAccess(roles: map<RoleId, Role>, before: Grants, after: Grants, links: set<(UserId, RoleId)>, t: TenantId,
                     user: UserId, allPages: seq<Page>, codes: set<string>, page: Page, level: Level)
    requires IsSeeded(roles, before, after, SystemRoles(roles, t), TenantPages(allPages), codes)
    requires page in EntitledPages(allPages, codes)
    requires Resolves(after, Held(roles, links, t, user), page.id, level)
    ensures HoldsAdmin(roles, Held(roles, links, t, user)) ==> level == Modify
    ensures !HoldsAdmin(roles, Held(roles, links, t, user)) ==>
              Resolves(before, Held(roles, links, t, user) - SystemRoles(roles, t), page.id, level)
  {}

  /** A page of the realm that is not entitled: the administrator's row for it says "none". */
  lemma AdminRowsAreExact(roles: map<RoleId, Role>, before: Grants, after: Grants, t: TenantId, allPages: seq<Page>,
                          codes: set<string>, r: RoleId, page: Page)
    requires IsSeeded(roles, before, after, SystemRoles(roles, t), TenantPages(allPages), codes)
    requires r in SystemRoles(roles, t) && roles[r].code == TENANT_ADMIN && page in allPages && page.tenantScope
    ensures (r, page.id) in after
    ensures after[(r, page.id)] == Modify <==>
            (page.code in ["TENANT_OVERVIEW", "TENANT_USERS", "TENANT_ROLES", "TENANT_CONFIGURATIONS"]
             || (page.offering.Some? && page.offering.value in codes))
    ensures after[(r, page.id)] == Modify <==> page in EntitledPages(allPages, codes)
    ensures after[(r, page.id)] == Nothing <==> page !in EntitledPages(allPages, codes)
  {
    EntitledIs(page, codes);
  }

  /** Whatever offerings a tenant has, and without any, its administrator may modify the core
      pages. */
  lemma CoreIsForAdmins(roles: map<RoleId, Role>, before: Grants, after: Grants, links: set<(UserId, RoleId)>,
                        t: TenantId, user: UserId, allPages: seq<Page>, codes: set<string>, page: Page, level: Level)
    requires IsSeeded(roles, before, after, SystemRoles(roles, t), TenantPages(allPages), codes)
    requires page in allPages && page.tenantScope
    requires page.code in ["TENANT_OVERVIEW", "TENANT_USERS", "TENANT_ROLES", "TENANT_CONFIGURATIONS"]
    requires HoldsAdmin(roles, Held(roles, links, t, user))
    requires Resolves(after, Held(roles, links, t, user), page.id, level)
    ensures page in EntitledPages(allPages, codes) && level == Modify
  {
    EntitledIs(page, codes);
    SeededAccess(roles, before, after, links, t, user, allPages, codes, page, level);
  }
}
