/** Double braces before and after tokens are replaced. */
module Braces {
  import opened PlaceholderText

  predicate PairAt(s: string, c: char, i: int) {
    0 <= i < |s| - 1 && s[i] == c && s[i + 1] == c
  }

  predicate HasPair(s: string, c: char) {
    exists i :: 0 <= i < |s| && PairAt(s, c, i)
  }

  predicate TripleAt(s: string, c: char, i: int) {
    0 <= i < |s| - 2 && s[i] == c && s[i + 1] == c && s[i + 2] == c
  }

  predicate HasTriple(s: string, c: char) {
    exists i :: 0 <= i < |s| && TripleAt(s, c, i)
  }

  ghost predicate NoTriples(s: string) {
    !HasTriple(s, '{') && !HasTriple(s, '}')
  }

  predicate BraceFree(v: string) { '{' !in v && '}' !in v }

  ghost predicate OpensToken(k: KeyClass, s: string, i: int) {
    0 <= i <= |s| && MatchLen(k, s[i..]) > 0
  }

  ghost predicate ClosesToken(k: KeyClass, s: string, i: int) {
    exists b :: 0 <= b < i && i < |s| && MatchLen(k, s[b..]) == i + 2 - b
  }

  /** Some `{{` opens no token. */
  ghost predicate StrayOpen(k: KeyClass, s: string) {
    exists i :: PairAt(s, '{', i) && !OpensToken(k, s, i)
  }

  /** Some `}}` closes no token. */
  ghost predicate StrayClose(k: KeyClass, s: string) {
    exists i :: PairAt(s, '}', i) && !ClosesToken(k, s, i)
  }

  lemma PairCons(x: char, t: string, c: char)
    ensures HasPair([x] + t, c) <==> (x == c && t != "" && t[0] == c) || HasPair(t, c)
  {
    var s := [x] + t;
    if i :| 0 <= i < |t| && PairAt(t, c, i) {
      assert PairAt(s, c, i + 1);
    }
    if x == c && t != "" && t[0] == c {
      assert PairAt(s, c, 0);
    }
    if i :| 0 <= i < |s| && PairAt(s, c, i) && i > 0 {
      assert PairAt(t, c, i - 1);
    }
  }

  lemma PairAfterBraceFree(v: string, t: string, c: char)
    requires BraceFree(v) && (c == '{' || c == '}')
    ensures HasPair(v + t, c) <==> HasPair(t, c)
  {
    var s := v + t;
    if i :| 0 <= i < |t| && PairAt(t, c, i) {
      assert PairAt(s, c, i + |v|);
    }
    if i :| 0 <= i < |s| && PairAt(s, c, i) {
      assert forall j :: 0 <= j < |v| ==> s[j] == v[j] && v[j] != c;
      assert PairAt(t, c, i - |v|);
    }
  }

  lemma NoTriplesSuffix(s: string, m: nat)
    requires m <= |s| && NoTriples(s)
    ensures NoTriples(s[m..])
  {
    var t := s[m..];
    forall c, i | 0 <= i < |t| && TripleAt(t, c, i) ensures TripleAt(s, c, i + m) {}
  }

  /** Beyond the first segment of the text, strays are those of the rest. */
  lemma StrayOpenShift(k: KeyClass, s: string, m: nat, i: nat)
    requires m <= |s|
    ensures PairAt(s, '{', m + i) && !OpensToken(k, s, m + i) <==>
            PairAt(s[m..], '{', i) && !OpensToken(k, s[m..], i)
  {}

  lemma OpenInsideToken(k: KeyClass, s: string, i: int)
    requires k.Valid() && PairAt(s, '{', i) && i < MatchLen(k, s)
    ensures OpensToken(k, s, i)
  {}

  lemma StrayOpenStep(k: KeyClass, s: string)
    requires k.Valid() && s != ""
    ensures MatchLen(k, s) == 0 ==> (StrayOpen(k, s) <==> PairAt(s, '{', 0) || StrayOpen(k, s[1..]))
    ensures MatchLen(k, s) > 0 ==> (StrayOpen(k, s) <==> StrayOpen(k, s[MatchLen(k, s)..]))
  {
    var n := MatchLen(k, s);
    var m := if n > 0 then n else 1;
    if i :| PairAt(s[m..], '{', i) && !OpensToken(k, s[m..], i) {
      StrayOpenShift(k, s, m, i);
      assert PairAt(s, '{', m + i) && !OpensToken(k, s, m + i);
    }
    if n == 0 && PairAt(s, '{', 0) {
      assert s[0..] == s;
      assert !OpensToken(k, s, 0);
    }
    if i :| PairAt(s, '{', i) && !OpensToken(k, s, i) {
      if i >= m {
        StrayOpenShift(k, s, m, i - m);
        assert PairAt(s[m..], '{', i - m) && !OpensToken(k, s[m..], i - m);
      } else if n > 0 {
        OpenInsideToken(k, s, i);
      }
    }
  }

  lemma ClosesTokenStep(k: KeyClass, s: string, i: int)
    requires k.Valid() && s != ""
    ensures var m := if MatchLen(k, s) > 0 then MatchLen(k, s) else 1;
            m <= i ==> (ClosesToken(k, s, i) <==> ClosesToken(k, s[m..], i - m))
  {
    hide MatchLen;
    var n := MatchLen(k, s);
    var m := if n > 0 then n else 1;
    assert s[0..] == s;
    if m <= i {
      if b :| 0 <= b < i - m && i - m < |s[m..]| && MatchLen(k, s[m..][b..]) == i - m + 2 - b {
        assert s[m..][b..] == s[m + b..];
        assert MatchLen(k, s[m + b..]) == i + 2 - (m + b);
      }
      if b :| 0 <= b < i && i < |s| && MatchLen(k, s[b..]) == i + 2 - b {
        if 0 < b < n { TokensDoNotNest(k, s, b); }
        assert b >= m;
        assert s[m..][b - m..] == s[b..];
      }
    }
  }

  lemma CloseInsideToken(k: KeyClass, s: string, i: int)
    requires k.Valid() && NoTriples(s) && PairAt(s, '}', i) && i < MatchLen(k, s)
    ensures ClosesToken(k, s, i)
  {
    var n := MatchLen(k, s);
    assert forall j :: 2 <= j < n - 2 ==> k.rest(s[j]);
    assert s[0..] == s;
    assert i == n - 1 ==> TripleAt(s, '}', n - 2);
    assert i == n - 2;
  }

  lemma StrayCloseStep(k: KeyClass, s: string)
    requires k.Valid() && s != "" && NoTriples(s)
    ensures MatchLen(k, s) == 0 ==> (StrayClose(k, s) <==> PairAt(s, '}', 0) || StrayClose(k, s[1..]))
    ensures MatchLen(k, s) > 0 ==> (StrayClose(k, s) <==> StrayClose(k, s[MatchLen(k, s)..]))
  {
    hide MatchLen, PairAt, ClosesToken;
    var n := MatchLen(k, s);
    var m := if n > 0 then n else 1;
    if i :| PairAt(s[m..], '}', i) && !ClosesToken(k, s[m..], i) {
      PairInside(s[m..], i);
      StrayAtStep(k, s, m + i);
    }
    if PairAt(s, '}', 0) {
      NothingClosesAtStart(k, s);
    }
    if i :| PairAt(s, '}', i) && !ClosesToken(k, s, i) {
      PairInside(s, i);
      if i < n {
        CloseInsideToken(k, s, i);
        assert false;
      } else if i >= m {
        StrayAtStep(k, s, i);
      } else {
        assert i == 0;
      }
    }
  }

  lemma PairInside(s: string, i: int)
    requires PairAt(s, '}', i)
    ensures i >= 0
  {}

  lemma NothingClosesAtStart(k: KeyClass, s: string)
    ensures !ClosesToken(k, s, 0)
  {}

  lemma StrayAtStep(k: KeyClass, s: string, i: int)
    requires k.Valid() && s != ""
    ensures var m := if MatchLen(k, s) > 0 then MatchLen(k, s) else 1;
            m <= i ==> (PairAt(s, '}', i) <==> PairAt(s[m..], '}', i - m))
                       && (ClosesToken(k, s, i) <==> ClosesToken(k, s[m..], i - m))
  {
    hide MatchLen, ClosesToken;
    ClosesTokenStep(k, s, i);
  }

  /** When text begins with a token, brace-free values put no `}` at the front: it would
      have stood next to the token's own closing braces. */
  lemma {:induction false} NoCloseAfterToken(k: KeyClass, s: string, f: string -> string)
    requires k.Valid() && NoTriples(s) && MatchLen(k, s) > 0
    requires forall key :: key in FindAll(k, s) ==> BraceFree(f(key))
    ensures var r := Substitute(k, s, f); r == "" || r[0] != '}'
    decreases |s|
  {
    var n := MatchLen(k, s);
    var t := s[n..];
    var v := f(TokenKey(s, n));
    assert TokenKey(s, n) in FindAll(k, s);
    assert Substitute(k, s, f) == v + Substitute(k, t, f);
    if v == "" && t != "" {
      assert t[0] == s[n];
      var close := n - 2;
      assert !TripleAt(s, '}', close);
      if MatchLen(k, t) > 0 {
        NoTriplesSuffix(s, n);
        NoCloseAfterToken(k, t, f);
      }
    }
  }

  /** Replacing tokens by brace-free values neither creates nor hides a `{{`: the result
      has one exactly when some `{{` of the text opened no token. */
  lemma {:induction false} OpenPairsAfterSubstitute(k: KeyClass, s: string, f: string -> string)
    requires k.Valid() && NoTriples(s)
    requires forall key :: key in FindAll(k, s) ==> BraceFree(f(key))
    ensures HasPair(Substitute(k, s, f), '{') <==> StrayOpen(k, s)
    decreases |s|
  {
    if s != "" {
      var n := MatchLen(k, s);
      var m := if n > 0 then n else 1;
      var t := s[m..];
      var r := Substitute(k, t, f);
      NoTriplesSuffix(s, m);
      OpenPairsAfterSubstitute(k, t, f);
      StrayOpenStep(k, s);
      if n > 0 {
        assert TokenKey(s, n) in FindAll(k, s);
        PairAfterBraceFree(f(TokenKey(s, n)), r, '{');
      } else {
        PairCons(s[0], r, '{');
        assert s[0] == '{' && MatchLen(k, t) > 0 ==> TripleAt(s, '{', 0);
      }
    }
  }

  /** The same for `}}`. */
  lemma {:induction false} ClosePairsAfterSubstitute(k: KeyClass, s: string, f: string -> string)
    requires k.Valid() && NoTriples(s)
    requires forall key :: key in FindAll(k, s) ==> BraceFree(f(key))
    ensures HasPair(Substitute(k, s, f), '}') <==> StrayClose(k, s)
    decreases |s|
  {
    if s != "" {
      var n := MatchLen(k, s);
      var m := if n > 0 then n else 1;
      var t := s[m..];
      var r := Substitute(k, t, f);
      NoTriplesSuffix(s, m);
      ClosePairsAfterSubstitute(k, t, f);
      StrayCloseStep(k, s);
      if n > 0 {
        assert TokenKey(s, n) in FindAll(k, s);
        PairAfterBraceFree(f(TokenKey(s, n)), r, '}');
      } else {
        PairCons(s[0], r, '}');
        if t != "" && MatchLen(k, t) > 0 {
          NoCloseAfterToken(k, t, f);
          assert s[1] == '{';
        }
      }
    }
  }

  /** Whether a given key's token stands at the front is the same question for every key
      class that admits the key. */
  lemma KeyAtFront(k: KeyClass, t: string, key: string)
    requires k.Valid() && IsKey(k, key)
    ensures KeyAt(k, t, 0, key) <==> Source(Token(key)) <= t
  {
    var n := |key| + 4;
    assert t[0..] == t;
    if n <= |t| {
      MatchLenExact(k, t, n);
      assert t[..n][2..n - 2] == t[2..n - 2];
      if Source(Token(key)) <= t {
        assert t[..n] == Source(Token(key));
        assert t[2..n - 2] == key;
      }
      if KeyAt(k, t, 0, key) {
        assert t[..n] == "{{" + key + "}}";
      }
    }
  }

  /** A key of the strict class is a token key for one expression exactly when it is for
      the other: both checks agree on every key a placeholder can declare. */
  lemma StrictKeysAgree(w: char -> bool, s: string, key: string)
    requires Wordlike(w) && IsKey(STRICT, key)
    ensures key in FindAll(Word(w), s) <==> key in FindAll(STRICT, s)
  {
    FindAllIsExact(Word(w), s, key);
    FindAllIsExact(STRICT, s, key);
    forall i | 0 <= i <= |s|
      ensures KeyAt(Word(w), s, i, key) <==> KeyAt(STRICT, s, i, key)
    {
      KeyAtFront(Word(w), s[i..], key);
      KeyAtFront(STRICT, s[i..], key);
      assert s[i..][0..] == s[i..];
    }
  }

  /** Where every `{{` opens a strict token the two expressions read the same tree. */
  lemma {:induction false} ParsesAgree(w: char -> bool, s: string)
    requires Wordlike(w) && !StrayOpen(STRICT, s)
    ensures Parse(Word(w), s) == Parse(STRICT, s)
    decreases |s|
  {
    if s != "" {
      var n := MatchLen(STRICT, s);
      var m := if n > 0 then n else 1;
      StrayOpenStep(STRICT, s);
      ParsesAgree(w, s[m..]);
      if n > 0 {
        MatchLenExact(STRICT, s, n);
        MatchLenExact(Word(w), s, n);
      } else {
        assert MatchLen(Word(w), s) > 0 ==> PairAt(s, '{', 0);
      }
    }
  }
}
