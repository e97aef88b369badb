/** Which pages a user may open, and how far: the fold of role grants into one level per page. */
module PageAccess {
  import opened Values

  type PageId = nat
  type RoleId = nat
  type TenantId = nat
  type UserId = nat

  datatype Level = Nothing | View | Modify

  function Rank(level: Level): nat {
    match level case Nothing => 0 case View => 1 case Modify => 2
  }

  function Max(a: Level, b: Level): Level {
    if Rank(a) >= Rank(b) then a else b
  }

  /** `tenantScope`: an active page of the tenant realm. */
  datatype Page = Page(id: PageId, code: string, offering: Option<string>, tenantScope: bool)

  datatype Role = Role(tenant: TenantId, code: string, name: string, system: bool, active: bool, scope: Option<string>)

  datatype Grant = Grant(page: PageId, level: Level)

  datatype Access = Access(page: Page, level: Level)

  /** From nothing by viewing to modifying. */
  lemma LevelsAreOrdered(a: Level)
    ensures Max(Nothing, a) == Max(a, Nothing) == a && Max(Modify, a) == Max(a, Modify) == Modify
    ensures Max(View, a) == (if a == Modify then Modify else View)
  {}

  /** The level `level` is the most permissive among `levels`, "none" when there is none. */
  ghost predicate IsMostPermissive(levels: seq<Option<Level>>, level: Level) {
    && (forall i :: 0 <= i < |levels| && levels[i].Some? ==> Rank(levels[i].value) <= Rank(level))
    && (level == Nothing || Some(level) in levels)
  }

  method MostPermissive(levels: seq<Option<Level>>) returns (winner: Level)
    ensures IsMostPermissive(levels, winner)
    ensures forall other :: IsMostPermissive(levels, other) ==> other == winner
  {
    winner := Nothing;
    for i := 0 to |levels|
      invariant IsMostPermissive(levels[..i], winner)
    {
      assert levels[..i + 1] == levels[..i] + [levels[i]];
      if levels[i].Some? {
        if Rank(levels[i].value) > Rank(winner) {
          winner := levels[i].value;
          assert levels[..i + 1][i] == Some(winner);
        }
      }
    }
    assert levels[..|levels|] == levels;
  }

  // ----- The union of grants -----

  /** `level` is the greatest that `grants` give `page`, `default` without any. */
  ghost predicate IsBest(grants: seq<Grant>, page: PageId, default: Level, level: Level) {
    if Granted(grants, page) then
      && Grant(page, level) in grants
      && (forall g :: g in grants && g.page == page ==> Rank(g.level) <= Rank(level))
    else
      level == default
  }

  predicate Granted(grants: seq<Grant>, page: PageId) {
    exists g :: g in grants && g.page == page
  }

  function Best(grants: seq<Grant>, page: PageId, default: Level): (level: Level)
    ensures IsBest(grants, page, default, level)
  {
    if grants == [] then default
    else
      var rest := grants[..|grants| - 1];
      var last := grants[|grants| - 1];
      assert grants == rest + [last];
      if last.page != page then Best(rest, page, default)
      else if !Granted(rest, page) then last.level
      else Max(Best(rest, page, default), last.level)
  }

  function Union(pages: seq<Page>, grants: seq<Grant>, default: Level): (result: seq<Access>)
    ensures |result| == |pages|
    ensures forall i :: 0 <= i < |pages| ==>
              result[i].page == pages[i] && IsBest(grants, pages[i].id, default, result[i].level)
  {
    seq(|pages|, i requires 0 <= i < |pages| => Access(pages[i], Best(grants, pages[i].id, default)))
  }

  /** The dictionary loop of the resolver. */
  method UnionByPage(pages: seq<Page>, grants: seq<Grant>, default: Level) returns (result: seq<Access>)
    ensures result == Union(pages, grants, default)
  {
    var byPage: map<PageId, Level> := map[];
    for i := 0 to |grants|
      invariant Tabulates(byPage, grants[..i], default)
    {
      var g := grants[i];
      assert grants[..i + 1] == grants[..i] + [g];
      var known := if g.page in byPage then Some(byPage[g.page]) else None;
      var level := MostPermissive([known, Some(g.level)]);
      TabulatesNext(byPage, grants[..i], g, default, level);
      byPage := byPage[g.page := level];
    }
    assert grants[..|grants|] == grants;
    result := [];
    ghost var union := Union(pages, grants, default);
    for i := 0 to |pages|
      invariant result == union[..i]
    {
      var level := if pages[i].id in byPage then byPage[pages[i].id] else default;
      result := result + [Access(pages[i], level)];
    }
  }

  /** `byPage` holds the best level of exactly the granted pages. */
  ghost predicate Tabulates(byPage: map<PageId, Level>, grants: seq<Grant>, default: Level) {
    && (forall p :: p in byPage <==> Granted(grants, p))
    && (forall p :: p in byPage ==> byPage[p] == Best(grants, p, default))
  }

  lemma TabulatesNext(byPage: map<PageId, Level>, grants: seq<Grant>, g: Grant, default: Level, level: Level)
    requires Tabulates(byPage, grants, default)
    requires IsMostPermissive([if g.page in byPage then Some(byPage[g.page]) else None, Some(g.level)], level)
    ensures Tabulates(byPage[g.page := level], grants + [g], default)
  {
    GrantedNext(grants, g);
    BestNext(grants, g, default, if g.page in byPage then Some(byPage[g.page]) else None, level);
  }

  lemma GrantedNext(grants: seq<Grant>, g: Grant)
    ensures forall p :: Granted(grants + [g], p) <==> Granted(grants, p) || p == g.page
  {}

  lemma BestNext(grants: seq<Grant>, g: Grant, default: Level, known: Option<Level>, level: Level)
    requires known == if Granted(grants, g.page) then Some(Best(grants, g.page, default)) else None
    requires IsMostPermissive([known, Some(g.level)], level)
    ensures Best(grants + [g], g.page, default) == level
    ensures forall p :: p != g.page ==> Best(grants + [g], p, default) == Best(grants, p, default)
  {
    assert (grants + [g])[..|grants|] == grants;
    var levels := [known, Some(g.level)];
    assert levels[0] == known && levels[1] == Some(g.level);
  }

  // ----- Laws of the union -----

  lemma BestIsUnique(grants: seq<Grant>, page: PageId, default: Level, a: Level, b: Level)
    requires IsBest(grants, page, default, a) && IsBest(grants, page, default, b)
    ensures a == b
  {}

  /** Only which grants there are matters, not their order or number. */
  lemma UnionIgnoresOrder(pages: seq<Page>, grants: seq<Grant>, grants': seq<Grant>, default: Level)
    requires forall g :: g in grants <==> g in grants'
    ensures Union(pages, grants, default) == Union(pages, grants', default)
  {}

  lemma UnionIsPermutationInvariant(pages: seq<Page>, grants: seq<Grant>, grants': seq<Grant>, default: Level)
    requires multiset(grants) == multiset(grants')
    ensures Union(pages, grants, default) == Union(pages, grants', default)
  {
    forall g ensures g in grants <==> g in grants' {
      assert g in multiset(grants) <==> g in multiset(grants');
    }
    UnionIgnoresOrder(pages, grants, grants', default);
  }

  /** Grants joined give the pointwise maximum: `union_by_page` is a homomorphism. */
  lemma UnionOfJoined(pages: seq<Page>, left: seq<Grant>, right: seq<Grant>)
    ensures Union(pages, left + right, Nothing)
            == seq(|pages|, i requires 0 <= i < |pages| =>
                 Access(pages[i], Max(Union(pages, left, Nothing)[i].level, Union(pages, right, Nothing)[i].level)))
  {
    forall i | 0 <= i < |pages|
      ensures Best(left + right, pages[i].id, Nothing)
              == Max(Best(left, pages[i].id, Nothing), Best(right, pages[i].id, Nothing))
    {
      BestOfJoined(left, right, pages[i].id);
    }
  }

  lemma BestOfJoined(left: seq<Grant>, right: seq<Grant>, page: PageId)
    ensures Best(left + right, page, Nothing) == Max(Best(left, page, Nothing), Best(right, page, Nothing))
  {}

  /** More roles never take access away. */
  lemma UnionGrows(pages: seq<Page>, left: seq<Grant>, right: seq<Grant>, i: nat)
    requires i < |pages|
    ensures Rank(Union(pages, left, Nothing)[i].level) <= Rank(Union(pages, left + right, Nothing)[i].level)
  {}

  function Filter(grants: seq<Grant>, ids: set<PageId>): (kept: seq<Grant>)
    ensures forall g :: g in kept <==> g in grants && g.page in ids
  {
    if grants == [] then []
    else (if grants[0].page in ids then [grants[0]] else []) + Filter(grants[1..], ids)
  }

  function Ids(pages: seq<Page>): set<PageId> {
    set p | p in pages :: p.id
  }

  /** Dropping the grants of other pages beforehand never changes the result. */
  lemma FilterIsRedundant(pages: seq<Page>, grants: seq<Grant>, default: Level)
    ensures Union(pages, Filter(grants, Ids(pages)), default) == Union(pages, grants, default)
  {
    var kept := Filter(grants, Ids(pages));
    forall i | 0 <= i < |pages| ensures Best(kept, pages[i].id, default) == Best(grants, pages[i].id, default) {
      assert pages[i].id in Ids(pages);
      BestIsUnique(grants, pages[i].id, default, Best(kept, pages[i].id, default), Best(grants, pages[i].id, default));
    }
  }
}
