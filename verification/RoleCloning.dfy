/** Copying role templates into a tenant: a loop over the templates in a session that sends
    its pending rows to the database only when a role is created and at the end. */
module RoleCloning {
  import opened Values
  import opened PageAccess
  import opened RoleSeeding

  type TemplateId = nat
  type OfferingId = nat
  type Key = (RoleId, PageId)

  datatype Template = Template(id: TemplateId, code: string, name: string, system: bool, active: bool,
                               offering: Option<OfferingId>, scope: string, grants: seq<Grant>)

  /** A grant added to the session and not yet sent. */
  datatype Row = Row(key: Key, level: Level)

  function Available(all: seq<Template>, offerings: set<OfferingId>): (r: seq<Template>)
    ensures forall t :: t in r <==> t in all && t.active && (t.offering.None? || t.offering.value in offerings)
    ensures |r| <= |all|
  {
    if all == [] then []
    else
      var keep := all[0].active && (all[0].offering.None? || all[0].offering.value in offerings);
      (if keep then [all[0]] else []) + Available(all[1..], offerings)
  }

  /** The templates to copy, what the tenant has and may have, and the ids new roles get. */
  datatype Context = Context(tenant: TenantId, templates: seq<Template>, existing: map<string, RoleId>,
                             ids: seq<RoleId>, entitled: set<PageId>)

  ghost predicate Valid(c: Context) {
    && |c.ids| == |c.templates|
    && (forall i, j :: 0 <= i < j < |c.ids| ==> c.ids[i] != c.ids[j])
    && (forall a, b :: a in c.existing && b in c.existing && c.existing[a] == c.existing[b] ==> a == b)
    && (forall a, i :: a in c.existing && 0 <= i < |c.ids| ==> c.existing[a] != c.ids[i])
  }

  function FirstFrom(templates: seq<Template>, code: string, i: nat): (k: nat)
    requires i <= |templates|
    ensures i <= k <= |templates|
    decreases |templates| - i
  {
    if i == |templates| || templates[i].code == code then i else FirstFrom(templates, code, i + 1)
  }

  /** The first template with this code. */
  function FirstIndex(templates: seq<Template>, code: string): (k: nat)
    ensures k <= |templates|
  {
    FirstFrom(templates, code, 0)
  }

  lemma {:induction false} FirstFromIs(templates: seq<Template>, code: string, i: nat)
    requires i <= |templates|
    ensures FirstFrom(templates, code, i) < |templates| ==> templates[FirstFrom(templates, code, i)].code == code
    ensures forall j :: i <= j < FirstFrom(templates, code, i) ==> templates[j].code != code
    decreases |templates| - i
  {
    if i < |templates| && templates[i].code != code {
      FirstFromIs(templates, code, i + 1);
    }
  }

  lemma FirstIndexIs(templates: seq<Template>, code: string)
    ensures FirstIndex(templates, code) < |templates| ==> templates[FirstIndex(templates, code)].code == code
    ensures forall j :: 0 <= j < FirstIndex(templates, code) ==> templates[j].code != code
  {
    FirstFromIs(templates, code, 0);
  }

  lemma FirstIndexAtMost(templates: seq<Template>, i: nat)
    requires i < |templates|
    ensures FirstIndex(templates, templates[i].code) <= i
    ensures templates[FirstIndex(templates, templates[i].code)].code == templates[i].code
  {
    FirstIndexIs(templates, templates[i].code);
  }

  /** Template `i` creates its role: no role of the tenant and no earlier template has its code. */
  predicate Opening(c: Context, i: nat)
    requires i < |c.templates|
  {
    c.templates[i].code !in c.existing && FirstIndex(c.templates, c.templates[i].code) == i
  }

  /** The tenant has a role with this code once the first `n` templates are copied. */
  predicate Known(c: Context, code: string, n: nat) {
    code in c.existing || FirstIndex(c.templates, code) < n
  }

  function RoleFor(c: Context, code: string): RoleId
    requires |c.templates| == |c.ids| && Known(c, code, |c.templates|)
  {
    if code in c.existing then c.existing[code] else c.ids[FirstIndex(c.templates, code)]
  }

  /** The role that template `i` is copied into. */
  function RoleOf(c: Context, i: nat): RoleId
    requires i < |c.templates| == |c.ids|
  {
    FirstIndexAtMost(c.templates, i);
    RoleFor(c, c.templates[i].code)
  }

  /** The level a template gives a page; it has at most one row for it. */
  function LevelFor(grants: seq<Grant>, page: PageId): Option<Level> {
    if grants == [] then None
    else if grants[0].page == page then Some(grants[0].level)
    else LevelFor(grants[1..], page)
  }

  predicate Offers(c: Context, i: nat, page: PageId)
    requires i < |c.templates|
  {
    page in c.entitled && LevelFor(c.templates[i].grants, page).Some?
  }

  /** The level template `i` has for the page of the key. */
  function LevelAt(c: Context, i: nat, k: Key): Level
    requires i < |c.templates| == |c.ids| && Wants(c, i, k)
  {
    LevelFor(c.templates[i].grants, k.1).value
  }

  predicate Wants(c: Context, i: nat, k: Key)
    requires i < |c.templates| == |c.ids|
  {
    k.0 == RoleOf(c, i) && Offers(c, i, k.1)
  }

  lemma RolesDiffer(c: Context, i: nat, j: nat)
    requires Valid(c) && i < |c.templates| && j < |c.templates|
    ensures RoleOf(c, i) == RoleOf(c, j) <==> c.templates[i].code == c.templates[j].code
  {
    FirstIndexAtMost(c.templates, i);
    FirstIndexAtMost(c.templates, j);
  }

  // ----- What a run leaves -----

  function Created(c: Context, t: Template): Role {
    Role(c.tenant, t.code, t.name, t.system, true, Some(t.scope))
  }

  /** A role without a scope takes that of the first template with its code. */
  function Adopted(c: Context, role: Role, n: nat): Role
    requires n <= |c.templates|
  {
    var k := FirstIndex(c.templates, role.code);
    if role.tenant == c.tenant && role.scope.None? && k < n then role.(scope := Some(c.templates[k].scope)) else role
  }

  predicate IsCreation(c: Context, r: RoleId, n: nat)
    requires n <= |c.templates| == |c.ids|
  {
    exists i {:trigger Opening(c, i)} :: 0 <= i < n && Opening(c, i) && c.ids[i] == r
  }

  ghost predicate RolesAre(c: Context, before: map<RoleId, Role>, roles: map<RoleId, Role>, n: nat)
    requires n <= |c.templates| == |c.ids|
  {
    && (forall r :: r in before ==> r in roles && roles[r] == Adopted(c, before[r], n))
    && (forall i {:trigger Opening(c, i)} :: 0 <= i < n && Opening(c, i) ==>
          c.ids[i] in roles && roles[c.ids[i]] == Created(c, c.templates[i]))
    && (forall r :: r in roles ==> r in before || IsCreation(c, r, n))
  }

  predicate FirstGranter(c: Context, i: nat, k: Key)
    requires i < |c.templates| == |c.ids|
  {
    Wants(c, i, k) && forall h :: 0 <= h < i ==> !Wants(c, h, k)
  }

  /** The grants there were, and those the first `n` templates want, at the level of the
      first that wants them. */
  ghost predicate GrantsAre(c: Context, before: Grants, grants: Grants, n: nat)
    requires n <= |c.templates| == |c.ids|
  {
    && (forall k :: k in before ==> k in grants && grants[k] == before[k])
    && (forall i, k :: 0 <= i < n && Wants(c, i, k) ==> k in grants)
    && (forall k :: k in grants && k !in before ==>
          exists i :: 0 <= i < n && FirstGranter(c, i, k) && grants[k] == LevelAt(c, i, k))
  }

  /** Template `i` is the first to give the page, `j` gives it again before anything is sent. */
  ghost predicate Clash(c: Context, before: Grants, i: nat, j: nat, page: PageId)
    requires |c.templates| == |c.ids|
  {
    && i < j < |c.templates| && c.templates[i].code == c.templates[j].code
    && Offers(c, j, page) && (RoleOf(c, i), page) !in before
    && FirstGranter(c, i, (RoleOf(c, i), page))
    && forall k :: i < k <= j ==> !Opening(c, k)
  }

  ghost predicate ClashFree(c: Context, before: Grants, n: nat)
    requires n <= |c.templates| == |c.ids|
  {
    forall i, j, page :: 0 <= i < j < n ==> !Clash(c, before, i, j, page)
  }

  // ----- Sending the pending rows -----

  ghost predicate Distinct(rows: seq<Row>) {
    forall a, b :: 0 <= a < b < |rows| ==> rows[a].key != rows[b].key
  }

  predicate Conflicts(grants: Grants, rows: seq<Row>) {
    (exists a :: 0 <= a < |rows| && rows[a].key in grants)
    || (exists a, b :: 0 <= a < b < |rows| && rows[a].key == rows[b].key)
  }

  function Sent(grants: Grants, rows: seq<Row>): (r: Grants)
    ensures forall k :: k in grants ==> k in r
    ensures forall a :: 0 <= a < |rows| ==> rows[a].key in r
    ensures forall k :: k in r ==> k in grants || exists a :: 0 <= a < |rows| && rows[a].key == k
  {
    if rows == [] then grants
    else
      var last := rows[|rows| - 1];
      Sent(grants, rows[..|rows| - 1])[last.key := last.level]
  }

  lemma {:induction false} SentLevels(grants: Grants, rows: seq<Row>)
    requires !Conflicts(grants, rows)
    ensures forall k :: k in grants ==> Sent(grants, rows)[k] == grants[k]
    ensures forall a :: 0 <= a < |rows| ==> Sent(grants, rows)[rows[a].key] == rows[a].level
  {
    if rows != [] {
      var front := rows[..|rows| - 1];
      assert forall a :: 0 <= a < |front| ==> front[a] == rows[a];
      assert !Conflicts(grants, front);
      SentLevels(grants, front);
      assert forall a :: 0 <= a < |front| ==> rows[a].key != rows[|rows| - 1].key;
    }
  }

  // ----- The rows pending since the last time -----

  /** `pending` holds what templates `f` to `n` want and the database lacks; a row occurs
      twice exactly when two of them want it. */
  ghost predicate PendingAre(c: Context, saved: Grants, pending: seq<Row>, f: nat, n: nat)
    requires f <= n <= |c.templates| == |c.ids|
  {
    && (forall a :: 0 <= a < |pending| ==> pending[a].key !in saved && IsWanted(c, pending[a], f, n))
    && (forall i, k :: f <= i < n && Wants(c, i, k) && k !in saved ==> IsPending(pending, k))
    && (Distinct(pending) <==> WantedOnce(c, saved, f, n))
  }

  ghost predicate IsWanted(c: Context, row: Row, f: nat, n: nat)
    requires n <= |c.templates| == |c.ids|
  {
    exists i :: f <= i < n && Wants(c, i, row.key) && LevelAt(c, i, row.key) == row.level
  }

  predicate IsPending(pending: seq<Row>, k: Key) {
    exists a :: 0 <= a < |pending| && pending[a].key == k
  }

  ghost predicate WantedOnce(c: Context, saved: Grants, f: nat, n: nat)
    requires n <= |c.templates| == |c.ids|
  {
    forall i, j, k :: f <= i < j < n && Wants(c, i, k) && Wants(c, j, k) ==> k in saved
  }

  /** What one template adds to the session. */
  ghost predicate Adds(c: Context, saved: Grants, n: nat, added: seq<Row>)
    requires n < |c.templates| == |c.ids|
  {
    && Distinct(added)
    && (forall a :: 0 <= a < |added| ==>
          Wants(c, n, added[a].key) && added[a].key !in saved && added[a].level == LevelAt(c, n, added[a].key))
    && (forall k :: Wants(c, n, k) && k !in saved ==> IsPending(added, k))
  }

  lemma PendingNext(c: Context, saved: Grants, pending: seq<Row>, added: seq<Row>, f: nat, n: nat)
    requires f <= n < |c.templates| == |c.ids|
    requires PendingAre(c, saved, pending, f, n) && Adds(c, saved, n, added)
    ensures PendingAre(c, saved, pending + added, f, n + 1)
  {
    var all := pending + added;
    forall a | 0 <= a < |all| ensures all[a].key !in saved && IsWanted(c, all[a], f, n + 1) {
      assert a < |pending| ==> all[a] == pending[a] && IsWanted(c, pending[a], f, n);
      assert a >= |pending| ==> all[a] == added[a - |pending|];
    }
    forall i, k | f <= i < n + 1 && Wants(c, i, k) && k !in saved ensures IsPending(all, k) {
      PendingJoined(pending, added, k);
    }
    DistinctJoined(pending, added);
    if Apart(pending, added) {
      WantedOnceNext(c, saved, pending, added, f, n);
    } else {
      WantedTwice(c, saved, pending, added, f, n);
    }
  }

  ghost predicate Apart(pending: seq<Row>, added: seq<Row>) {
    forall a, b :: 0 <= a < |pending| && 0 <= b < |added| ==> pending[a].key != added[b].key
  }

  lemma WantedOnceNext(c: Context, saved: Grants, pending: seq<Row>, added: seq<Row>, f: nat, n: nat)
    requires f <= n < |c.templates| == |c.ids|
    requires PendingAre(c, saved, pending, f, n) && Adds(c, saved, n, added) && Apart(pending, added)
    ensures WantedOnce(c, saved, f, n + 1) <==> WantedOnce(c, saved, f, n)
  {}

  lemma WantedTwice(c: Context, saved: Grants, pending: seq<Row>, added: seq<Row>, f: nat, n: nat)
    requires f <= n < |c.templates| == |c.ids|
    requires PendingAre(c, saved, pending, f, n) && Adds(c, saved, n, added) && !Apart(pending, added)
    ensures !WantedOnce(c, saved, f, n + 1)
  {}

  lemma PendingJoined(pending: seq<Row>, added: seq<Row>, k: Key)
    ensures IsPending(pending + added, k) <==> IsPending(pending, k) || IsPending(added, k)
  {
    var all := pending + added;
    if a :| 0 <= a < |pending| && pending[a].key == k {
      assert all[a].key == k;
    }
    if b :| 0 <= b < |added| && added[b].key == k {
      assert all[|pending| + b].key == k;
    }
  }

  lemma DistinctJoined(pending: seq<Row>, added: seq<Row>)
    requires Distinct(added)
    ensures Distinct(pending + added) <==>
            Distinct(pending) && Apart(pending, added)
  {
    var all := pending + added;
    assert forall a :: 0 <= a < |pending| ==> all[a] == pending[a];
    assert forall b :: 0 <= b < |added| ==> all[|pending| + b] == added[b];
    if Distinct(all) {
      forall a, b | 0 <= a < |pending| && 0 <= b < |added| ensures pending[a].key != added[b].key {
        assert all[a].key != all[|pending| + b].key;
      }
      forall a, b | 0 <= a < b < |pending| ensures pending[a].key != pending[b].key {
        assert all[a].key != all[b].key;
      }
    }
  }

  // ----- Sending succeeds exactly without a clash -----

  /** The last time rows were sent was when template `f` created its role, or never. */
  ghost predicate LastSent(c: Context, f: nat, n: nat)
    requires f <= n <= |c.templates|
  {
    (f == 0 || (f < n && Opening(c, f))) && forall k :: f < k < n ==> !Opening(c, k)
  }

  lemma SendSucceeds(c: Context, before: Grants, saved: Grants, pending: seq<Row>, f: nat, n: nat)
    requires Valid(c) && f <= n <= |c.templates| && LastSent(c, f, n)
    requires GrantsAre(c, before, saved, f) && PendingAre(c, saved, pending, f, n)
    requires Distinct(pending)
    ensures !Conflicts(saved, pending)
    ensures GrantsAre(c, before, Sent(saved, pending), n)
  {
    assert !Conflicts(saved, pending);
    SentLevels(saved, pending);
    var sent := Sent(saved, pending);
    forall i, k | 0 <= i < n && Wants(c, i, k) ensures k in sent {
      if k !in saved {
        assert IsPending(pending, k);
      }
    }
    forall k | k in sent && k !in before
      ensures exists i :: 0 <= i < n && FirstGranter(c, i, k) && sent[k] == LevelAt(c, i, k)
    {
      if k !in saved {
        var a :| 0 <= a < |pending| && pending[a].key == k;
        var i :| f <= i < n && Wants(c, i, k) && LevelAt(c, i, k) == pending[a].level;
        assert FirstGranter(c, i, k);
      }
    }
  }

  lemma NoClashSent(c: Context, before: Grants, saved: Grants, pending: seq<Row>, f: nat, n: nat)
    requires Valid(c) && f <= n <= |c.templates| && LastSent(c, f, n)
    requires GrantsAre(c, before, saved, f) && PendingAre(c, saved, pending, f, n)
    requires Distinct(pending) && ClashFree(c, before, f)
    ensures ClashFree(c, before, n)
  {
    forall i, j, page | 0 <= i < j < n ensures !Clash(c, before, i, j, page) {
      if j >= f && Clash(c, before, i, j, page) {
        RolesDiffer(c, i, j);
        assert Wants(c, j, (RoleOf(c, i), page));
      }
    }
  }

  lemma SendFails(c: Context, before: Grants, saved: Grants, pending: seq<Row>, f: nat, n: nat)
    requires Valid(c) && f <= n <= |c.templates| && LastSent(c, f, n)
    requires GrantsAre(c, before, saved, f) && PendingAre(c, saved, pending, f, n)
    requires !Distinct(pending)
    ensures Conflicts(saved, pending)
    ensures !ClashFree(c, before, |c.templates|)
  {
    var i, j, k :| f <= i < j < n && Wants(c, i, k) && Wants(c, j, k) && k !in saved;
    var first := EarliestGranter(c, i, k);
    RolesDiffer(c, first, j);
    assert k == (RoleOf(c, first), k.1);
    assert Clash(c, before, first, j, k.1);
  }

  lemma {:induction false} EarliestGranter(c: Context, i: nat, k: Key) returns (first: nat)
    requires i < |c.templates| == |c.ids| && Wants(c, i, k)
    ensures first <= i && FirstGranter(c, first, k)
  {
    if h :| 0 <= h < i && Wants(c, h, k) {
      first := EarliestGranter(c, h, k);
    } else {
      first := i;
    }
  }

  // ----- The loop, as a function -----

  /** The grants one template adds for its role, in the order of its rows. */
  function Additions(saved: Grants, role: RoleId, grants: seq<Grant>, entitled: set<PageId>): seq<Row> {
    if grants == [] then []
    else
      var front, g := Additions(saved, role, grants[..|grants| - 1], entitled), grants[|grants| - 1];
      if g.page !in entitled || (role, g.page) in saved || IsPending(front, (role, g.page)) then front
      else front + [Row((role, g.page), g.level)]
  }

  lemma {:induction false} LevelForNext(grants: seq<Grant>, g: Grant, page: PageId)
    ensures LevelFor(grants + [g], page) ==
            if LevelFor(grants, page).Some? then LevelFor(grants, page)
            else if g.page == page then Some(g.level) else None
  {
    if grants != [] {
      assert (grants + [g])[1..] == grants[1..] + [g];
      LevelForNext(grants[1..], g, page);
    }
  }

  /** The additions are the entitled pages of the rows that the role lacks, each once. */
  ghost predicate AddsFrom(saved: Grants, role: RoleId, grants: seq<Grant>, entitled: set<PageId>, added: seq<Row>) {
    && Distinct(added)
    && (forall a :: 0 <= a < |added| ==>
          && added[a].key.0 == role && added[a].key !in saved && added[a].key.1 in entitled
          && LevelFor(grants, added[a].key.1) == Some(added[a].level))
    && (forall page :: LevelFor(grants, page).Some? && page in entitled && (role, page) !in saved ==>
          IsPending(added, (role, page)))
  }

  lemma {:induction false} AdditionsAre(saved: Grants, role: RoleId, grants: seq<Grant>, entitled: set<PageId>)
    ensures AddsFrom(saved, role, grants, entitled, Additions(saved, role, grants, entitled))
  {
    if grants != [] {
      var rest, g := grants[..|grants| - 1], grants[|grants| - 1];
      assert grants == rest + [g];
      AdditionsAre(saved, role, rest, entitled);
      AdditionsNext(saved, role, rest, g, entitled, Additions(saved, role, rest, entitled));
    }
  }

  lemma AdditionsNext(saved: Grants, role: RoleId, rest: seq<Grant>, g: Grant, entitled: set<PageId>, front: seq<Row>)
    requires AddsFrom(saved, role, rest, entitled, front)
    ensures AddsFrom(saved, role, rest + [g], entitled,
                     if g.page !in entitled || (role, g.page) in saved || IsPending(front, (role, g.page)) then front
                     else front + [Row((role, g.page), g.level)])
  {
    var k, row := (role, g.page), Row((role, g.page), g.level);
    forall page
      ensures LevelFor(rest + [g], page) ==
              if LevelFor(rest, page).Some? then LevelFor(rest, page)
              else if g.page == page then Some(g.level) else None
    {
      LevelForNext(rest, g, page);
    }
    if g.page in entitled && k !in saved && !IsPending(front, k) {
      DistinctJoined(front, [row]);
      forall page ensures IsPending(front + [row], (role, page)) <==> IsPending(front, (role, page)) || page == g.page {
        PendingJoined(front, [row], (role, page));
        assert [row][0].key == k;
      }
    }
  }

  /** What the session holds: the grants in the database, and the rows not yet sent. */
  datatype Work = Work(saved: Grants, pending: seq<Row>)

  function Flushed(w: Work): Option<Work> {
    if Conflicts(w.saved, w.pending) then None else Some(Work(Sent(w.saved, w.pending), []))
  }

  /** The session after the first `n` templates, `None` once the database has refused. */
  function WorkAfter(c: Context, before: Grants, n: nat): Option<Work>
    requires n <= |c.templates| == |c.ids|
  {
    if n == 0 then Some(Work(before, []))
    else
      match WorkAfter(c, before, n - 1)
      case None => None
      case Some(w) => Copied(c, w, n - 1)
  }

  /** One template: creating its role sends the pending rows, then its grants are added. */
  function Copied(c: Context, w: Work, n: nat): Option<Work>
    requires n < |c.templates| == |c.ids|
  {
    match if Opening(c, n) then Flushed(w) else Some(w)
    case None => None
    case Some(v) =>
      Some(Work(v.saved, v.pending + Additions(v.saved, RoleOf(c, n), c.templates[n].grants, c.entitled)))
  }

  /** The grants in the end: `None` when one of the flushes is refused. */
  function GrantsAfter(c: Context, before: Grants): Option<Grants>
    requires |c.templates| == |c.ids|
  {
    match WorkAfter(c, before, |c.templates|)
    case None => None
    case Some(w) => if Flushed(w).Some? then Some(Flushed(w).value.saved) else None
  }

  /** The last of the first `n` templates to create its role, 0 without any. */
  function LastOpening(c: Context, n: nat): (f: nat)
    requires n <= |c.templates|
    ensures f <= n
  {
    if n == 0 then 0 else if Opening(c, n - 1) then n - 1 else LastOpening(c, n - 1)
  }

  lemma {:induction false} LastOpeningSent(c: Context, n: nat)
    requires n <= |c.templates|
    ensures LastSent(c, LastOpening(c, n), n)
  {
    if n > 0 {
      LastOpeningSent(c, n - 1);
    }
  }

  /** At template `n` all is sent up to template `f`. */
  ghost predicate WorkOk(c: Context, before: Grants, w: Work, f: nat, n: nat)
    requires f <= n <= |c.templates| == |c.ids|
  {
    ClashFree(c, before, f) && GrantsAre(c, before, w.saved, f) && PendingAre(c, w.saved, w.pending, f, n)
  }

  lemma FlushDecides(c: Context, before: Grants, w: Work, n: nat)
    requires Valid(c) && n <= |c.templates| && WorkOk(c, before, w, LastOpening(c, n), n)
    ensures Flushed(w).None? ==> !ClashFree(c, before, |c.templates|)
    ensures Flushed(w).Some? ==> ClashFree(c, before, n) && GrantsAre(c, before, Flushed(w).value.saved, n)
    ensures Flushed(w).Some? ==> WorkOk(c, before, Flushed(w).value, n, n)
  {
    LastOpeningSent(c, n);
    if Distinct(w.pending) {
      SendSucceeds(c, before, w.saved, w.pending, LastOpening(c, n), n);
      NoClashSent(c, before, w.saved, w.pending, LastOpening(c, n), n);
    } else {
      SendFails(c, before, w.saved, w.pending, LastOpening(c, n), n);
    }
  }

  lemma CopyKeeps(c: Context, before: Grants, w: Work, n: nat)
    requires Valid(c) && n < |c.templates| && WorkOk(c, before, w, LastOpening(c, n), n)
    ensures Copied(c, w, n).None? ==> !ClashFree(c, before, |c.templates|)
    ensures Copied(c, w, n).Some? ==> WorkOk(c, before, Copied(c, w, n).value, LastOpening(c, n + 1), n + 1)
  {
    if Opening(c, n) {
      FlushDecides(c, before, w, n);
      if Flushed(w).Some? {
        AddKeeps(c, Flushed(w).value, n, n);
      }
    } else {
      AddKeeps(c, w, LastOpening(c, n), n);
    }
  }

  lemma AddKeeps(c: Context, v: Work, f: nat, n: nat)
    requires f <= n < |c.templates| == |c.ids| && PendingAre(c, v.saved, v.pending, f, n)
    ensures var added := Additions(v.saved, RoleOf(c, n), c.templates[n].grants, c.entitled);
            PendingAre(c, v.saved, v.pending + added, f, n + 1)
  {
    var added := Additions(v.saved, RoleOf(c, n), c.templates[n].grants, c.entitled);
    AdditionsAre(v.saved, RoleOf(c, n), c.templates[n].grants, c.entitled);
    assert Adds(c, v.saved, n, added);
    PendingNext(c, v.saved, v.pending, added, f, n);
  }

  lemma {:induction false} WorkKeeps(c: Context, before: Grants, n: nat)
    requires Valid(c) && n <= |c.templates|
    ensures WorkAfter(c, before, n).None? ==> !ClashFree(c, before, |c.templates|)
    ensures WorkAfter(c, before, n).Some? ==> WorkOk(c, before, WorkAfter(c, before, n).value, LastOpening(c, n), n)
  {
    hide WorkOk, ClashFree, Copied;
    if n == 0 {
      NoWorkYet(c, before);
    } else {
      WorkKeeps(c, before, n - 1);
      if WorkAfter(c, before, n - 1).Some? {
        CopyKeeps(c, before, WorkAfter(c, before, n - 1).value, n - 1);
      }
    }
  }

  lemma NoWorkYet(c: Context, before: Grants)
    requires |c.templates| == |c.ids|
    ensures WorkOk(c, before, Work(before, []), 0, 0)
  {}

  /** The run succeeds exactly when no two templates clash, and then leaves the grants there
      were and those wanted. */
  lemma CloneIsExact(c: Context, before: Grants)
    requires Valid(c)
    ensures GrantsAfter(c, before).Some? <==> ClashFree(c, before, |c.templates|)
    ensures GrantsAfter(c, before).Some? ==> GrantsAre(c, before, GrantsAfter(c, before).value, |c.templates|)
  {
    WorkKeeps(c, before, |c.templates|);
    if WorkAfter(c, before, |c.templates|).Some? {
      FlushDecides(c, before, WorkAfter(c, before, |c.templates|).value, |c.templates|);
    }
  }
}
