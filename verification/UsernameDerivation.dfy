/** What the derivations of a username from an email address compute, stated on positions of
    the address. */
module UsernameDerivation {
  import opened Usernames

  /** `r` is what stands before the first `@`, all of the text without one. */
  ghost predicate IsLocalPart(email: string, r: string) {
    r <= email && '@' !in r && (|r| < |email| ==> email[|r|] == '@')
  }

  ghost predicate Holding(s: string, p: char -> bool, at: seq<nat>) {
    forall j :: 0 <= j < |at| ==> at[j] < |s| && p(s[at[j]])
  }

  ghost predicate Rising(at: seq<nat>) {
    forall i, j :: 0 <= i < j < |at| ==> at[i] < at[j]
  }

  ghost predicate Complete(s: string, p: char -> bool, at: seq<nat>) {
    forall i: nat :: i < |s| && p(s[i]) ==> i in at
  }

  /** Strictly rising positions of `s`, all those where `p` holds and no other. */
  ghost predicate AreThose(s: string, p: char -> bool, at: seq<nat>) {
    Holding(s, p, at) && Rising(at) && Complete(s, p, at)
  }

  /** `r` is what stands at these positions. */
  ghost predicate Spells(s: string, at: seq<nat>, r: string) {
    |at| == |r| && forall j :: 0 <= j < |r| ==> at[j] < |s| && r[j] == s[at[j]]
  }

  /** `r` is the characters of `s` for which `p` holds, in order. */
  ghost predicate IsSelection(s: string, p: char -> bool, r: string) {
    exists at: seq<nat> :: AreThose(s, p, at) && Spells(s, at, r)
  }

  /** `r` is `s` without the longest ends for which `p` holds. */
  ghost predicate IsStripped(s: string, p: char -> bool, r: string) {
    exists a: nat, b: nat :: IsCut(s, p, a, b) && r == s[a..b]
  }

  ghost predicate IsCut(s: string, p: char -> bool, a: nat, b: nat) {
    && a <= b <= |s|
    && (forall i :: 0 <= i < a || b <= i < |s| ==> p(s[i]))
    && (a < b ==> !p(s[a]) && !p(s[b - 1]))
  }

  predicate IsAlphanumeric(c: char) { IsLetter(c) || IsDigit(c) }

  /** The alphabets of the two expressions and of the stripping. */
  lemma AlphabetsAre(c: char)
    ensures IsAlphanumeric(c) <==> 'a' <= c <= 'z' || 'A' <= c <= 'Z' || '0' <= c <= '9'
    ensures IsMark(c) <==> c == '.' || c == '_' || c == '-'
    ensures IsLegal(c) <==> IsAlphanumeric(c) || IsMark(c)
  {}

  /** The text cut at 50 characters, or padded to 3 by `x`. */
  ghost predicate IsFitted(s: string, r: string) {
    && |r| == (if |s| < 3 then 3 else if |s| > 50 then 50 else |s|)
    && forall i :: 0 <= i < |r| ==> r[i] == if i < |s| then s[i] else 'x'
  }

  /** From the legal characters of the local part without marks at either end: they, if they
      begin with a letter, and otherwise their letters and digits behind "user". */
  ghost predicate IsDerived(email: string, r: string) {
    exists local, kept, c ::
      && IsLocalPart(email, local) && IsSelection(local, IsLegal, kept) && IsStripped(kept, IsMark, c)
      && IsFrom(c, r)
  }

  ghost predicate IsFrom(c: string, r: string) {
    if c != "" && IsLetter(c[0]) then IsFitted(c, r)
    else exists d :: IsSelection(c, IsAlphanumeric, d) && IsFitted("user" + d, r)
  }

  // ----- The parts -----

  lemma {:induction false} LocalPartIs(email: string)
    ensures IsLocalPart(email, LocalPart(email))
  {
    if email != "" && email[0] != '@' {
      LocalPartIs(email[1..]);
    }
  }

  function Later(at: seq<nat>): seq<nat> {
    seq(|at|, j requires 0 <= j < |at| => at[j] + 1)
  }

  function Listed(s: string, p: char -> bool, at: seq<nat>): seq<nat>
    requires s != ""
  {
    (if p(s[0]) then [0] else []) + Later(at)
  }

  lemma HoldingLater(s: string, p: char -> bool, at: seq<nat>)
    requires s != "" && Holding(s[1..], p, at)
    ensures Holding(s, p, Listed(s, p, at))
  {
    forall j | 0 <= j < |at| ensures s[1..][at[j]] == s[at[j] + 1] {}
  }

  lemma RisingLater(s: string, p: char -> bool, at: seq<nat>)
    requires s != "" && Rising(at)
    ensures Rising(Listed(s, p, at))
  {}

  lemma CompleteLater(s: string, p: char -> bool, at: seq<nat>)
    requires s != "" && Complete(s[1..], p, at)
    ensures Complete(s, p, Listed(s, p, at))
  {
    hide Complete;
    forall i: nat | i < |s| && p(s[i]) ensures i in Listed(s, p, at) {
      if i > 0 {
        IsListed(s, p, at, i);
      }
    }
    CompleteIs(s, p, Listed(s, p, at));
  }

  lemma CompleteIs(s: string, p: char -> bool, at: seq<nat>)
    requires forall i: nat :: i < |s| && p(s[i]) ==> i in at
    ensures Complete(s, p, at)
  {}

  lemma IsListed(s: string, p: char -> bool, at: seq<nat>, i: nat)
    requires 0 < i < |s| && p(s[i]) && Complete(s[1..], p, at)
    ensures i in Listed(s, p, at)
  {
    assert s[1..][i - 1] == s[i];
    var j :| 0 <= j < |at| && at[j] == i - 1;
    assert Later(at)[j] == i;
  }

  lemma {:induction false} KeepIs(s: string, p: char -> bool) returns (at: seq<nat>)
    ensures AreThose(s, p, at) && Spells(s, at, Keep(s, p))
  {
    hide AreThose, Spells, Listed;
    if s == "" {
      at := [];
      ThoseOfNone(p);
    } else {
      var rest := KeepIs(s[1..], p);
      at := Listed(s, p, rest);
      ThoseLater(s, p, rest);
      SpellsLater(s, p, rest, Keep(s[1..], p));
    }
  }

  lemma SpellsLater(s: string, p: char -> bool, at: seq<nat>, r: string)
    requires s != "" && Spells(s[1..], at, r)
    ensures Spells(s, Listed(s, p, at), (if p(s[0]) then [s[0]] else "") + r)
  {
    forall j | 0 <= j < |at| ensures s[at[j] + 1] == r[j] {
      assert s[1..][at[j]] == s[at[j] + 1];
    }
  }

  lemma ThoseLater(s: string, p: char -> bool, at: seq<nat>)
    requires s != "" && AreThose(s[1..], p, at)
    ensures AreThose(s, p, Listed(s, p, at))
  {
    hide Holding, Rising, Complete, Listed;
    HoldingLater(s, p, at);
    RisingLater(s, p, at);
    CompleteLater(s, p, at);
  }

  lemma ThoseOfNone(p: char -> bool)
    ensures AreThose("", p, []) && Spells("", [], "")
  {}

  /** Rising positions are determined by which they are. */
  lemma ThoseAreUnique(s: string, p: char -> bool, a: seq<nat>, b: seq<nat>)
    requires AreThose(s, p, a) && AreThose(s, p, b)
    ensures a == b
  {
    forall x ensures x in a <==> x in b {
      if x in a {
        SameMember(s, p, a, b, x);
      }
      if x in b {
        SameMember(s, p, b, a, x);
      }
    }
    RisingUnique(a, b);
  }

  lemma SameMember(s: string, p: char -> bool, a: seq<nat>, b: seq<nat>, x: nat)
    requires Holding(s, p, a) && Complete(s, p, b) && x in a
    ensures x in b
  {
    var j :| 0 <= j < |a| && a[j] == x;
  }

  lemma {:induction false} RisingUnique(a: seq<nat>, b: seq<nat>)
    requires forall i, j :: 0 <= i < j < |a| ==> a[i] < a[j]
    requires forall i, j :: 0 <= i < j < |b| ==> b[i] < b[j]
    requires forall x :: x in a <==> x in b
    ensures a == b
  {
    if a != [] {
      assert a[0] in a;
    }
    if b != [] {
      assert b[0] in b;
    }
    if a != [] && b != [] {
      forall x ensures x in a[1..] <==> x in b[1..] {
        assert x in a[1..] <==> x in a && x != a[0];
        assert x in b[1..] <==> x in b && x != b[0];
      }
      RisingUnique(a[1..], b[1..]);
    }
  }

  /** So what is kept is the only text of that description. */
  lemma SelectionIsKeep(s: string, p: char -> bool, r: string)
    ensures IsSelection(s, p, r) <==> r == Keep(s, p)
  {
    hide AreThose;
    var at := KeepIs(s, p);
    if IsSelection(s, p, r) {
      var other: seq<nat> :| AreThose(s, p, other) && Spells(s, other, r);
      ThoseAreUnique(s, p, at, other);
    }
  }

  lemma {:induction false} StripRightIs(s: string, p: char -> bool)
    ensures var r := StripRight(s, p);
            r <= s && (forall i :: |r| <= i < |s| ==> p(s[i])) && (r != "" ==> !p(r[|r| - 1]))
  {
    if s != "" && p(s[|s| - 1]) {
      StripRightIs(s[..|s| - 1], p);
    }
  }

  ghost predicate StrippedLeft(s: string, p: char -> bool, r: string) {
    && |r| <= |s| && r == s[|s| - |r|..]
    && (forall i :: 0 <= i < |s| - |r| ==> p(s[i])) && (r != "" ==> !p(r[0]))
  }

  lemma {:induction false} StripLeftIs(s: string, p: char -> bool)
    ensures StrippedLeft(s, p, StripLeft(s, p))
  {
    hide StrippedLeft;
    if s != "" && p(s[0]) {
      StripLeftIs(s[1..], p);
      StrippedOneMore(s, p, StripLeft(s[1..], p));
    } else {
      NothingStripped(s, p);
    }
  }

  lemma NothingStripped(s: string, p: char -> bool)
    requires s == "" || !p(s[0])
    ensures StrippedLeft(s, p, s)
  {}

  lemma StrippedOneMore(s: string, p: char -> bool, r: string)
    requires s != "" && p(s[0]) && StrippedLeft(s[1..], p, r)
    ensures StrippedLeft(s, p, r)
  {
    assert s[1..][|s| - 1 - |r|..] == s[|s| - |r|..];
    forall i | 0 < i < |s| - |r| ensures p(s[i]) {
      assert s[1..][i - 1] == s[i];
    }
  }

  lemma StripIs(s: string, p: char -> bool)
    ensures IsStripped(s, p, Strip(s, p))
  {
    var left := StripLeft(s, p);
    var r := StripRight(left, p);
    StripLeftIs(s, p);
    StripRightIs(left, p);
    var a := |s| - |left|;
    assert IsCut(s, p, a, a + |r|) && r == s[a..a + |r|];
  }

  /** The cut is the only one. */
  lemma StrippedIsStrip(s: string, p: char -> bool, r: string)
    ensures IsStripped(s, p, r) <==> r == Strip(s, p)
  {
    StripIs(s, p);
    if IsStripped(s, p, r) {
      var a: nat, b: nat :| IsCut(s, p, a, b) && r == s[a..b];
      var a': nat, b': nat :| IsCut(s, p, a', b') && Strip(s, p) == s[a'..b'];
      if a < b {
        assert a' <= a && b <= b';
      }
      if a' < b' {
        assert a <= a' && b' <= b;
      }
    }
  }

  // ----- The derivations -----

  lemma BaseIsFrom(email: string)
    ensures IsFrom(Strip(Keep(LocalPart(email), IsLegal), IsMark), UsernameBase(email))
  {
    var c := Strip(Keep(LocalPart(email), IsLegal), IsMark);
    if c == "" || !IsLetter(c[0]) {
      var d := Keep(c, IsAlphanumeric);
      SelectionIsKeep(c, IsAlphanumeric, d);
      SameKeep(c, IsAlphanumeric, x => IsLetter(x) || IsDigit(x));
      assert IsFitted("user" + d, UsernameBase(email));
    }
  }

  lemma {:induction false} SameKeep(s: string, p: char -> bool, q: char -> bool)
    requires forall c :: p(c) == q(c)
    ensures Keep(s, p) == Keep(s, q)
  {
    if s != "" {
      SameKeep(s[1..], p, q);
    }
  }

  /** What the service derives from an address. */
  lemma BaseIsDerived(email: string)
    ensures IsDerived(email, UsernameBase(email))
  {
    var local := LocalPart(email);
    var kept := Keep(local, IsLegal);
    LocalPartIs(email);
    SelectionIsKeep(local, IsLegal, kept);
    StripIs(kept, IsMark);
    BaseIsFrom(email);
    assert IsLocalPart(email, local) && IsStripped(kept, IsMark, Strip(kept, IsMark));
  }

  lemma {:induction false} LocalPartUnique(email: string, r: string)
    requires IsLocalPart(email, r)
    ensures r == LocalPart(email)
  {
    if r != "" {
      assert email[0] == r[0] && email[0] in r;
      LocalPartUnique(email[1..], r[1..]);
    }
  }

  /** The description leaves no choice. */
  lemma DerivedIsBase(email: string, r: string)
    requires IsDerived(email, r)
    ensures r == UsernameBase(email)
  {
    var local, kept, c :| IsLocalPart(email, local) && IsSelection(local, IsLegal, kept)
                          && IsStripped(kept, IsMark, c) && IsFrom(c, r);
    LocalPartUnique(email, local);
    SelectionIsKeep(local, IsLegal, kept);
    StrippedIsStrip(kept, IsMark, c);
    BaseIsFrom(email);
    if c != "" && IsLetter(c[0]) {
      FittedUnique(c, r, UsernameBase(email));
    } else {
      var d :| IsSelection(c, IsAlphanumeric, d) && IsFitted("user" + d, r);
      var e :| IsSelection(c, IsAlphanumeric, e) && IsFitted("user" + e, UsernameBase(email));
      SelectionIsKeep(c, IsAlphanumeric, d);
      SelectionIsKeep(c, IsAlphanumeric, e);
      FittedUnique("user" + d, r, UsernameBase(email));
    }
  }

  lemma FittedUnique(s: string, a: string, b: string)
    requires IsFitted(s, a) && IsFitted(s, b)
    ensures a == b
  {}

  /** The migration's derivation has the same description, an empty address reading "user". */
  lemma MigrationIsDerived(email: string)
    ensures IsDerived(if email == "" then "user" else email, MigrationBase(email))
  {
    var address := if email == "" then "user" else email;
    BaseIsDerived(address);
    assert MigrationBase(email) == UsernameBase(address);
  }
}
