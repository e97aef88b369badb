/** Usernames: their shape, how one is derived from an email address, and the numbered
    candidates that both allocators try. */
module Usernames {
  import opened Values

  predicate IsLetter(c: char) { 'a' <= c <= 'z' || 'A' <= c <= 'Z' }

  predicate IsDigit(c: char) { '0' <= c <= '9' }

  predicate IsMark(c: char) { c == '.' || c == '_' || c == '-' }

  predicate IsLegal(c: char) { IsLetter(c) || IsDigit(c) || IsMark(c) }

  const MAX_LENGTH := 50

  predicate IsUsername(s: string) {
    3 <= |s| <= MAX_LENGTH && IsLetter(s[0]) && forall i :: 0 <= i < |s| ==> IsLegal(s[i])
  }

  // ----- Case folding (usernames are ASCII, and so is everything compared with them) -----

  function Lower(c: char): char {
    if 'A' <= c <= 'Z' then c - 'A' + 'a' else c
  }

  function Fold(s: string): string {
    seq(|s|, i requires 0 <= i < |s| => Lower(s[i]))
  }

  /** Texts fold alike exactly if they differ at most in the case of letters. */
  lemma FoldIs(a: string, b: string)
    ensures Fold(a) == Fold(b) <==>
            |a| == |b| && forall i :: 0 <= i < |a| ==>
              || a[i] == b[i]
              || ('A' <= a[i] <= 'Z' && b[i] as int == a[i] as int + 32)
              || ('A' <= b[i] <= 'Z' && a[i] as int == b[i] as int + 32)
  {
    if Fold(a) == Fold(b) {
      assert |Fold(a)| == |a| && |Fold(b)| == |b|;
      forall i | 0 <= i < |a| ensures Lower(a[i]) == Lower(b[i]) {
        assert Fold(a)[i] == Fold(b)[i];
      }
    }
  }

  lemma FoldConcat(a: string, b: string)
    ensures Fold(a + b) == Fold(a) + Fold(b)
  {}

  // ----- The base derived from an email address -----

  function LocalPart(email: string): string {
    if email == "" || email[0] == '@' then "" else [email[0]] + LocalPart(email[1..])
  }

  function Keep(s: string, p: char -> bool): string {
    if s == "" then "" else (if p(s[0]) then [s[0]] else "") + Keep(s[1..], p)
  }

  function StripLeft(s: string, p: char -> bool): string {
    if s != "" && p(s[0]) then StripLeft(s[1..], p) else s
  }

  function Strip(s: string, p: char -> bool): string {
    StripRight(StripLeft(s, p), p)
  }

  function StripRight(s: string, p: char -> bool): string {
    if s != "" && p(s[|s| - 1]) then StripRight(s[..|s| - 1], p) else s
  }

  predicate StartsWithLetter(s: string) { s != "" && IsLetter(s[0]) }

  function Truncate(s: string, n: nat): string {
    if |s| <= n then s else s[..n]
  }

  function UsernameBase(email: string): string {
    var cleaned := Strip(Keep(LocalPart(email), IsLegal), IsMark);
    var named := if StartsWithLetter(cleaned) then cleaned
                 else "user" + Keep(cleaned, c => IsLetter(c) || IsDigit(c));
    var started := if StartsWithLetter(named) then named else "user";
    var padded := if |started| < 3 then (started + "xxx")[..3] else started;
    Truncate(padded, MAX_LENGTH)
  }

  /** The migration's derivation falls back to "user" for an empty address. */
  function MigrationBase(email: string): string {
    var cleaned := Strip(Keep(LocalPart(if email == "" then "user" else email), IsLegal), IsMark);
    var named := if StartsWithLetter(cleaned) then cleaned
                 else "user" + Keep(cleaned, c => IsLetter(c) || IsDigit(c));
    var started := if StartsWithLetter(named) then named else "user";
    if |started| < 3 then (started + "xxx")[..3] else Truncate(started, MAX_LENGTH)
  }

  lemma {:induction false} KeepIsAllowed(s: string, p: char -> bool)
    ensures forall i :: 0 <= i < |Keep(s, p)| ==> p(Keep(s, p)[i])
  {
    if s != "" {
      KeepIsAllowed(s[1..], p);
    }
  }

  lemma {:induction false} StripLeftIsSuffix(s: string, p: char -> bool)
    ensures |StripLeft(s, p)| <= |s| && StripLeft(s, p) == s[|s| - |StripLeft(s, p)|..]
  {
    if s != "" && p(s[0]) {
      StripLeftIsSuffix(s[1..], p);
    }
  }

  lemma {:induction false} StripRightIsPrefix(s: string, p: char -> bool)
    ensures StripRight(s, p) <= s
  {
    if s != "" && p(s[|s| - 1]) {
      StripRightIsPrefix(s[..|s| - 1], p);
    }
  }

  lemma StripKeepsLegal(s: string, p: char -> bool)
    requires forall i :: 0 <= i < |s| ==> IsLegal(s[i])
    ensures forall i :: 0 <= i < |Strip(s, p)| ==> IsLegal(Strip(s, p)[i])
  {
    StripLeftIsSuffix(s, p);
    StripRightIsPrefix(StripLeft(s, p), p);
  }

  /** Whatever the address, the derived base is itself a legal username. */
  lemma BaseIsUsername(email: string)
    ensures IsUsername(UsernameBase(email))
  {
    var kept := Keep(LocalPart(email), IsLegal);
    var cleaned := Strip(kept, IsMark);
    KeepIsAllowed(LocalPart(email), IsLegal);
    StripKeepsLegal(kept, IsMark);
    KeepIsAllowed(cleaned, c => IsLetter(c) || IsDigit(c));
  }

  /** The two derivations give the same base for every address. */
  lemma DerivationsAgree(email: string)
    ensures MigrationBase(email) == UsernameBase(email)
  {
    if email == "" {
      var user := "user";
      assert LocalPart(user[3..]) == "r" && LocalPart(user[2..]) == "er" && LocalPart(user[1..]) == "ser";
      assert LocalPart(user) == user;
      assert Keep(user[3..], IsLegal) == "r" && Keep(user[2..], IsLegal) == "er" && Keep(user[1..], IsLegal) == "ser";
      assert Keep(user, IsLegal) == user;
    }
  }

  // ----- Parsing a typed username -----

  /** The white space of Python's `str.strip`. */
  predicate IsSpace(c: char) {
    '\t' <= c <= '\r' || '\U{1C}' <= c <= ' ' || c == '\U{85}' || c == '\U{A0}' || c == '\U{1680}'
    || '\U{2000}' <= c <= '\U{200A}' || c == '\U{2028}' || c == '\U{2029}' || c == '\U{202F}'
    || c == '\U{205F}' || c == '\U{3000}'
  }

  /** White space by code points. */
  lemma SpacesAre(c: char)
    ensures var n := c as int;
            IsSpace(c) <==>
            || 9 <= n <= 13 || 28 <= n <= 32 || n == 133 || n == 160 || n == 5760 || 8192 <= n <= 8202
            || n == 8232 || n == 8233 || n == 8239 || n == 8287 || n == 12288
  {}

  function ParseUsername(value: string): Option<string> {
    var stripped := Strip(value, IsSpace);
    if '@' in stripped then None
    else if !IsUsername(stripped) then None
    else Some(stripped)
  }

  /** Parsing accepts exactly the text that is a username once stripped, and a username is
      a fixed point; the test for `@` refuses nothing more. */
  lemma ParseIsExact(value: string)
    ensures ParseUsername(value) == (if IsUsername(Strip(value, IsSpace)) then Some(Strip(value, IsSpace)) else None)
    ensures IsUsername(value) ==> ParseUsername(value) == Some(value)
  {}

  /** The shape of a username: a letter and then 2 to 49 letters, digits, dots, underscores
      and hyphens. */
  lemma UsernameIs(s: string)
    ensures IsUsername(s) <==>
            && 3 <= |s| <= 50 && ('a' <= s[0] <= 'z' || 'A' <= s[0] <= 'Z')
            && forall i :: 0 <= i < |s| ==>
                 'a' <= s[i] <= 'z' || 'A' <= s[i] <= 'Z' || '0' <= s[i] <= '9'
                 || s[i] == '.' || s[i] == '_' || s[i] == '-'
  {}

  // ----- Decimal suffixes -----

  function Pow10(k: nat): (p: nat)
    ensures p > 0
  {
    if k == 0 then 1 else 10 * Pow10(k - 1)
  }

  function Digit(d: nat): char
    requires d < 10
  {
    '0' + d as char
  }

  function Decimal(n: nat): (s: string)
    ensures s != "" && forall i :: 0 <= i < |s| ==> IsDigit(s[i])
  {
    if n < 10 then [Digit(n)] else Decimal(n / 10) + [Digit(n % 10)]
  }

  /** The number that a text of digits is. */
  function ValueOf(s: string): nat
    requires forall i :: 0 <= i < |s| ==> '0' <= s[i] <= '9'
  {
    if s == "" then 0 else 10 * ValueOf(s[..|s| - 1]) + (s[|s| - 1] as int - '0' as int)
  }

  /** The decimal text of a number reads as that number, without leading zeros. */
  lemma {:induction false} DecimalRoundTrip(n: nat)
    ensures ValueOf(Decimal(n)) == n
    ensures Decimal(n)[0] == '0' ==> n == 0
  {
    if n >= 10 {
      var s := Decimal(n);
      DecimalRoundTrip(n / 10);
      assert s[..|s| - 1] == Decimal(n / 10);
    }
  }

  lemma {:induction false} DecimalInjective(m: nat, n: nat)
    requires Decimal(m) == Decimal(n)
    ensures m == n
    decreases m
  {
    var s := Decimal(m);
    if m >= 10 && n >= 10 {
      assert Decimal(m / 10) == s[..|s| - 1] && Decimal(n / 10) == s[..|s| - 1];
      DecimalInjective(m / 10, n / 10);
      assert Digit(m % 10) == s[|s| - 1] == Digit(n % 10);
    }
  }

  lemma {:induction false} Pow10Monotone(j: nat, k: nat)
    requires j <= k
    ensures Pow10(j) <= Pow10(k)
    decreases k
  {
    if j < k {
      Pow10Monotone(j, k - 1);
    }
  }

  /** A number has at most `k` digits exactly when it is below the `k`-th power of ten. */
  lemma {:induction false} DecimalLength(n: nat, k: nat)
    requires k >= 1
    ensures |Decimal(n)| <= k <==> n < Pow10(k)
    decreases k
  {
    if k == 1 {
      assert Pow10(1) == 10 * Pow10(0);
    } else if n < 10 {
      Pow10Monotone(1, k);
      assert Pow10(1) == 10 * Pow10(0);
    } else {
      DecimalLength(n / 10, k - 1);
    }
  }

  // ----- Numbered candidates -----

  function Min(a: nat, b: nat): nat { if a <= b then a else b }

  /** How much of the base is kept in front of a suffix: at least one character. */
  function Kept(base: string, n: nat): nat {
    var room := MAX_LENGTH - |Decimal(n)|;
    Min(|base|, if room >= 1 then room else 1)
  }

  function Candidate(base: string, n: nat): string {
    base[..Kept(base, n)] + Decimal(n)
  }

  /** A candidate is the number behind as much of the base as fits into 50 characters, and
      behind its first character in any case. */
  lemma CandidateIs(base: string, n: nat)
    requires base != ""
    ensures var c, d := Candidate(base, n), |Decimal(n)|;
            && |c| == (if |base| + d <= 50 then |base| + d else if d < 50 then 50 else d + 1)
            && c[..|c| - d] == base[..|c| - d] && c[|c| - d..] == Decimal(n)
  {}

  lemma FoldDecimal(n: nat)
    ensures Fold(Decimal(n)) == Decimal(n)
  {}

  /** Truncated candidates can coincide, but not within one length of suffix. */
  lemma CandidatesDiffer(base: string, m: nat, n: nat)
    requires m != n && |Decimal(m)| == |Decimal(n)|
    ensures Fold(Candidate(base, m)) != Fold(Candidate(base, n))
  {
    var prefix := base[..Kept(base, m)];
    FoldConcat(prefix, Decimal(m));
    FoldConcat(prefix, Decimal(n));
    FoldDecimal(m);
    FoldDecimal(n);
    if Fold(Candidate(base, m)) == Fold(Candidate(base, n)) {
      assert Decimal(m) == Fold(Candidate(base, m))[|prefix|..] == Decimal(n);
      DecimalInjective(m, n);
    }
  }

  /** A candidate is a legal username exactly while its suffix leaves room for a letter. */
  lemma CandidateIsUsername(base: string, n: nat)
    requires IsUsername(base)
    ensures IsUsername(Candidate(base, n)) <==> n < Pow10(MAX_LENGTH - 1)
  {
    var c := Candidate(base, n);
    DecimalLength(n, MAX_LENGTH - 1);
    assert c[0] == base[0];
    assert forall i :: 0 <= i < |c| ==> IsLegal(c[i]);
  }

  // ----- Counting -----

  ghost predicate InjectiveOn(f: nat -> string, lo: nat, len: nat) {
    forall i, j :: lo <= i < j < lo + len ==> f(i) != f(j)
  }

  /** A set that holds all of `len` distinct names has at least `len` members. */
  lemma {:induction false} Pigeonhole(f: nat -> string, lo: nat, len: nat, names: set<string>)
    requires InjectiveOn(f, lo, len)
    requires forall i :: lo <= i < lo + len ==> f(i) in names
    ensures |names| >= len
    decreases len
  {
    if len > 0 {
      var last := lo + len - 1;
      Pigeonhole(f, lo, len - 1, names - {f(last)});
    }
  }

  /** The least number of digits beyond the size of a set of names. */
  function Scale(u: nat): (k: nat)
    ensures Pow10(k) > u
    ensures k > 0 ==> Pow10(k - 1) <= u
  {
    ScaleFrom(u, 0)
  }

  function ScaleFrom(u: nat, k: nat): (r: nat)
    requires k > 0 ==> Pow10(k - 1) <= u
    ensures Pow10(r) > u
    ensures r > 0 ==> Pow10(r - 1) <= u
    decreases u + 1 - (if k == 0 then 0 else Pow10(k - 1))
  {
    if Pow10(k) > u then k else ScaleFrom(u, k + 1)
  }

  /** Among the suffixes of one length there is a free one: more of them than names. */
  lemma FreeSuffixExists(base: string, used: set<string>) returns (n: nat)
    requires used != {}
    ensures 10 <= n < 2 * Pow10(Scale(|used|))
    ensures Fold(Candidate(base, n)) !in used
  {
    var k := Scale(|used|);
    var lo := Pow10(k);
    var f := (i: nat) => Fold(Candidate(base, i));
    assert k > 0 by { assert Pow10(0) == 1; }
    Pow10Monotone(1, k);
    assert Pow10(1) == 10 * Pow10(0);
    if forall i :: lo <= i < lo + (|used| + 1) ==> f(i) in used {
      forall i, j | lo <= i < j < lo + (|used| + 1) ensures f(i) != f(j) {
        DecimalLength(i, k);
        DecimalLength(i, k + 1);
        DecimalLength(j, k);
        DecimalLength(j, k + 1);
        CandidatesDiffer(base, i, j);
      }
      Pigeonhole(f, lo, |used| + 1, used);
      assert false;
    }
    n :| lo <= n < lo + (|used| + 1) && f(n) !in used;
  }
}
