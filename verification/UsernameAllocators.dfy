/** The migration's unbounded allocator with its backfill, and the bounded one that
    serves requests. */
module UsernameAllocators {
  import opened Values
  import opened Usernames

  /** `name` is the first free one of the base and its numbered candidates. */
  ghost predicate FirstFree(base: string, used: set<string>, name: string) {
    && Fold(name) !in used
    && (name == base ||
        (Fold(base) in used && exists n: nat :: 2 <= n < 2 * Pow10(Scale(|used|)) && FreeAt(base, used, n, name)))
  }

  ghost predicate FreeAt(base: string, used: set<string>, n: nat, name: string) {
    name == Candidate(base, n) && Fold(name) !in used
    && forall m :: 2 <= m < n ==> Fold(Candidate(base, m)) in used
  }

  /** The names given out so far, folded. */
  class NameRegistry {
    var used: set<string>

    constructor ()
      ensures used == {}
    {
      used := {};
    }

    /** Ends for every set of names, with the first free name. */
    method Allocate(base: string) returns (name: string)
      modifies this
      ensures FirstFree(base, old(used), name)
      ensures used == old(used) + {Fold(name)}
    {
      var candidate := base;
      var suffix := 2;
      ghost var free := 10;
      if used != {} {
        free := FreeSuffixExists(base, used);
      }
      while Fold(candidate) in used
        invariant 2 <= suffix <= free + 1
        invariant candidate == if suffix == 2 then base else Candidate(base, suffix - 1)
        invariant suffix > 2 ==> Fold(base) in used
        invariant forall m :: 2 <= m < suffix - 1 ==> Fold(Candidate(base, m)) in used
        decreases free + 1 - suffix
      {
        candidate := Candidate(base, suffix);
        suffix := suffix + 1;
      }
      if suffix > 2 {
        assert FreeAt(base, used, suffix - 1, candidate);
      }
      used := used + {Fold(candidate)};
      name := candidate;
    }
  }

  /** A table with an optional email and, after the migration, a username per row. */
  datatype Row = Row(id: nat, email: Option<string>)

  /** `str` of the email column: a missing value reads as the word None. */
  function EmailText(r: Row): string {
    if r.email.Some? then r.email.value else "None"
  }

  function FoldedNames(names: seq<string>): set<string> {
    if names == [] then {}
    else FoldedNames(names[..|names| - 1]) + {Fold(names[|names| - 1])}
  }

  /** Each row has the first name free among those given to the rows before it. */
  ghost predicate Allocated(rows: seq<Row>, names: seq<string>) {
    && |rows| == |names|
    && (rows != [] ==>
          var last := |rows| - 1;
          && Allocated(rows[..last], names[..last])
          && FirstFree(MigrationBase(EmailText(rows[last])), FoldedNames(names[..last]), names[last]))
  }

  function Ids(rows: seq<Row>): set<nat> {
    set r | r in rows :: r.id
  }

  function Get(m: map<nat, string>, id: nat): Option<string> {
    if id in m then Some(m[id]) else None
  }

  ghost predicate DistinctIds(rows: seq<Row>) {
    forall i, j :: 0 <= i < j < |rows| ==> rows[i].id != rows[j].id
  }

  /** `m` gives the rows the names in order and agrees with `before` elsewhere. */
  ghost predicate Assigns(rows: seq<Row>, names: seq<string>, before: map<nat, string>, m: map<nat, string>) {
    && |names| <= |rows|
    && (forall i :: 0 <= i < |names| ==> Get(m, rows[i].id) == Some(names[i]))
    && (forall id :: id !in Ids(rows) ==> Get(m, id) == Get(before, id))
  }

  lemma NamesNext(rows: seq<Row>, names: seq<string>, before: map<nat, string>, m: map<nat, string>, name: string)
    requires DistinctIds(rows) && Assigns(rows, names, before, m) && |names| < |rows|
    ensures Assigns(rows, names + [name], before, m[rows[|names|].id := name])
  {}

  class UserTable {
    var usernames: map<nat, string>

    constructor ()
      ensures usernames == map[]
    {
      usernames := map[];
    }

    /** Names every row of a table and nothing else. */
    method Backfill(rows: seq<Row>) returns (ghost names: seq<string>)
      requires DistinctIds(rows)
      modifies this
      ensures Allocated(rows, names) && Assigns(rows, names, old(usernames), usernames)
    {
      var registry := new NameRegistry();
      names := [];
      assert Assigns(rows, names, old(usernames), usernames);
      for k := 0 to |rows|
        invariant fresh(registry)
        invariant |names| == k && Allocated(rows[..k], names)
        invariant registry.used == FoldedNames(names)
        invariant Assigns(rows, names, old(usernames), usernames)
      {
        var name := registry.Allocate(MigrationBase(EmailText(rows[k])));
        AllocatedExtends(rows, k, names, name);
        NamesNext(rows, names, old(usernames), usernames, name);
        usernames := usernames[rows[k].id := name];
        names := names + [name];
      }
      assert rows[..|rows|] == rows;
    }
  }

  /** Row by row: the first free name for the row's address, a missing one reading "None". */
  lemma {:induction false} AllocatedAt(rows: seq<Row>, names: seq<string>, k: nat)
    requires Allocated(rows, names) && k < |rows|
    ensures var address := if rows[k].email.Some? then rows[k].email.value else "None";
            FirstFree(MigrationBase(address), FoldedNames(names[..k]), names[k])
    decreases |rows|
  {
    hide FirstFree, FoldedNames, MigrationBase;
    var last := |rows| - 1;
    if k < last {
      AllocatedAt(rows[..last], names[..last], k);
      assert names[..last][k] == names[k] && rows[..last][k] == rows[k] && names[..last][..k] == names[..k];
    }
  }

  /** The names given so far, without regard to case. */
  lemma {:induction false} FoldedNamesAre(names: seq<string>)
    ensures FoldedNames(names) == set i | 0 <= i < |names| :: Fold(names[i])
  {
    if names != [] {
      var init := names[..|names| - 1];
      FoldedNamesAre(init);
      assert forall i :: 0 <= i < |init| ==> names[i] == init[i];
    }
  }

  lemma AllocatedExtends(rows: seq<Row>, k: nat, names: seq<string>, name: string)
    requires k < |rows| && Allocated(rows[..k], names)
    requires FirstFree(MigrationBase(EmailText(rows[k])), FoldedNames(names), name)
    ensures Allocated(rows[..k + 1], names + [name])
    ensures FoldedNames(names + [name]) == FoldedNames(names) + {Fold(name)}
  {
    assert (names + [name])[..k] == names && rows[..k + 1][..k] == rows[..k];
  }

  lemma {:induction false} FoldedNamesHold(names: seq<string>)
    ensures |FoldedNames(names)| <= |names|
    ensures forall i :: 0 <= i < |names| ==> Fold(names[i]) in FoldedNames(names)
  {
    if names != [] {
      var init := names[..|names| - 1];
      FoldedNamesHold(init);
      assert forall i :: 0 <= i < |init| ==> names[i] == init[i];
    }
  }

  /** After the backfill no two usernames of a table are equal without regard to case. */
  lemma {:induction false} AllocatedAreDistinct(rows: seq<Row>, names: seq<string>)
    requires Allocated(rows, names)
    ensures forall i, j :: 0 <= i < j < |names| ==> Fold(names[i]) != Fold(names[j])
  {
    if rows != [] {
      var init := names[..|names| - 1];
      AllocatedAreDistinct(rows[..|rows| - 1], init);
      FoldedNamesHold(init);
      assert forall i :: 0 <= i < |init| ==> names[i] == init[i];
    }
  }

  /** In tables of up to 10^48 rows every one of them is a legal username. */
  lemma {:induction false} AllocatedAreLegal(rows: seq<Row>, names: seq<string>)
    requires Allocated(rows, names) && |rows| <= Pow10(MAX_LENGTH - 2)
    ensures forall i :: 0 <= i < |names| ==> IsUsername(names[i])
  {
    hide IsUsername, FirstFree, Scale, Pow10, EmailText, MigrationBase;
    if rows != [] {
      var last := |rows| - 1;
      AllocatedAreLegal(rows[..last], names[..last]);
      FoldedNamesHold(names[..last]);
      NameIsLegal(EmailText(rows[last]), FoldedNames(names[..last]), names[last], |rows|);
      assert forall i :: 0 <= i < last ==> names[i] == names[..last][i];
    }
  }

  lemma NameIsLegal(email: string, used: set<string>, name: string, rows: nat)
    requires FirstFree(MigrationBase(email), used, name) && |used| < rows <= Pow10(MAX_LENGTH - 2)
    ensures IsUsername(name)
  {
    var base := MigrationBase(email);
    BaseIsUsername(if email == "" then "user" else email);
    if name != base {
      var k := Scale(|used|);
      var n: nat :| 2 <= n < 2 * Pow10(k) && FreeAt(base, used, n, name);
      if k > MAX_LENGTH - 2 {
        Pow10Monotone(MAX_LENGTH - 2, k - 1);
      }
      Pow10Monotone(k, MAX_LENGTH - 2);
      assert Pow10(MAX_LENGTH - 1) == 10 * Pow10(MAX_LENGTH - 2);
      CandidateIsUsername(base, n);
    }
  }

  /** The first free name is unique, so the loop's result depends on nothing else. */
  lemma FirstFreeIsUnique(base: string, used: set<string>, a: string, b: string)
    requires FirstFree(base, used, a) && FirstFree(base, used, b)
    ensures a == b
  {}

  /** Numbering starts at 2, in both allocators. */
  lemma NumberingStartsAtTwo(base: string, used: set<string>, name: string)
    requires 1 <= |base| <= 49 && Fold(base) in used && Fold(base + "2") !in used
    ensures FirstFree(base, used, name) <==> name == base + "2"
    ensures Tried(base, 0) == base && Tried(base, 1) == base + "2"
  {
    assert Decimal(2) == "2";
    assert Candidate(base, 2) == base + "2";
    assert Pow10(Scale(|used|)) >= 10 by {
      assert |used| >= 1;
      assert Pow10(0) == 1 && Pow10(1) == 10;
      Pow10Monotone(1, Scale(|used|));
    }
    assert FreeAt(base, used, 2, base + "2");
  }

  // ----- The allocator of the running service -----

  const ATTEMPTS := 9999

  /** The name tried at attempt `j`: the base, then the suffixes from 2. */
  function Tried(base: string, j: nat): string {
    if j == 0 then base else Candidate(base, j + 1)
  }

  ghost predicate FirstUntaken(base: string, taken: nat -> set<string>, j: nat) {
    && Fold(Tried(base, j)) !in taken(j)
    && forall i: nat :: i < j ==> Fold(Tried(base, i)) in taken(i)
  }

  /** `taken(j)` is the set of folded names other accounts have at attempt `j`. */
  method AllocateUnique(email: string, taken: nat -> set<string>) returns (r: Option<string>)
    ensures r.Some? ==> IsUsername(r.value) && exists j: nat ::
              j < ATTEMPTS && FirstUntaken(UsernameBase(email), taken, j) && r.value == Tried(UsernameBase(email), j)
    ensures r.None? ==> forall j: nat :: j < ATTEMPTS ==> Fold(Tried(UsernameBase(email), j)) in taken(j)
  {
    hide UsernameBase, Candidate, IsUsername;
    var base := UsernameBase(email);
    var candidate := base;
    var suffix: nat := 2;
    while true
      invariant 2 <= suffix <= 10000
      invariant candidate == Tried(base, suffix - 2)
      invariant forall j: nat :: j < suffix - 2 ==> Fold(Tried(base, j)) in taken(j)
      decreases 10001 - suffix
    {
      var reserved := ParseUsername(candidate);
      TriedIsUsername(email, suffix - 2);
      ParseIsExact(candidate);
      if reserved.Some? && Fold(reserved.value) !in taken(suffix - 2) {
        assert FirstUntaken(base, taken, suffix - 2);
        return reserved;
      }
      candidate := Candidate(base, suffix);
      suffix := suffix + 1;
      if suffix > 10000 {
        return None;
      }
    }
  }

  /** No attempt is refused for its shape. */
  lemma TriedIsUsername(email: string, j: nat)
    requires j < ATTEMPTS
    ensures IsUsername(Tried(UsernameBase(email), j))
  {
    BaseIsUsername(email);
    if j > 0 {
      FivePowers();
      Pow10Monotone(5, MAX_LENGTH - 1);
      CandidateIsUsername(UsernameBase(email), j + 1);
    }
  }

  lemma FivePowers()
    ensures Pow10(3) == 1000 && Pow10(4) == 10000 && Pow10(5) == 100000
  {}

  /** Giving up takes 9000 other accounts, and all 9999 names when nothing is truncated. */
  lemma ExhaustionNeedsManyNames(base: string, names: set<string>)
    requires forall j: nat :: j < ATTEMPTS ==> Fold(Tried(base, j)) in names
    ensures |names| >= 9000
    ensures |base| <= 46 ==> |names| >= ATTEMPTS
  {
    var f := (j: nat) => Fold(Tried(base, j));
    FivePowers();
    forall i, j | 999 <= i < j < 999 + 9000 ensures f(i) != f(j) {
      DecimalLength(i + 1, 3);
      DecimalLength(i + 1, 4);
      DecimalLength(j + 1, 3);
      DecimalLength(j + 1, 4);
      CandidatesDiffer(base, i + 1, j + 1);
    }
    Pigeonhole(f, 999, 9000, names);
    if |base| <= 46 {
      forall i, j | 0 <= i < j < 0 + ATTEMPTS ensures f(i) != f(j) {
        UntruncatedDiffer(base, i, j);
      }
      Pigeonhole(f, 0, ATTEMPTS, names);
    }
  }

  lemma FoldTried(base: string, j: nat)
    requires |base| <= 46 && j < ATTEMPTS
    ensures Fold(Tried(base, j)) == Fold(base) + if j == 0 then "" else Decimal(j + 1)
  {
    if j > 0 {
      FivePowers();
      DecimalLength(j + 1, 4);
      assert base[..Kept(base, j + 1)] == base;
      FoldConcat(base, Decimal(j + 1));
      FoldDecimal(j + 1);
    }
  }

  lemma UntruncatedDiffer(base: string, i: nat, j: nat)
    requires |base| <= 46 && i < j < ATTEMPTS
    ensures Fold(Tried(base, i)) != Fold(Tried(base, j))
  {
    FoldTried(base, i);
    FoldTried(base, j);
    if Fold(Tried(base, i)) == Fold(Tried(base, j)) {
      assert Fold(Tried(base, j))[|Fold(base)|..] == Decimal(j + 1);
      assert i > 0 ==> Fold(Tried(base, i))[|Fold(base)|..] == Decimal(i + 1);
      if i > 0 {
        DecimalInjective(i + 1, j + 1);
      }
    }
  }
}
