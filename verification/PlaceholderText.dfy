/** Placeholder tokens `{{key}}`: the two regular expressions the repository scans
    template text with, as one scanner over a class of key characters. */
module PlaceholderText {

  /** The characters that may begin a key and the characters that may continue it. */
  datatype KeyClass = KeyClass(first: char -> bool, rest: char -> bool) {

    ghost predicate Valid() {
      && (forall c :: first(c) ==> rest(c))
      && !rest('{') && !rest('}') && !rest('\n')
    }
  }

  predicate IsLower(c: char) { 'a' <= c <= 'z' }

  predicate IsStrictRest(c: char) { IsLower(c) || '0' <= c <= '9' || c == '_' }

  predicate IsAsciiWord(c: char) { IsStrictRest(c) || 'A' <= c <= 'Z' }

  /** The key class of `\{\{([a-z][a-z0-9_]*)\}\}`, used for platform defaults. */
  const STRICT := KeyClass(IsLower, IsStrictRest)

  /** `\w` over Unicode: any predicate with the ASCII word characters and without
      the braces and the newline. */
  ghost predicate Wordlike(w: char -> bool) {
    && (forall c :: IsAsciiWord(c) ==> w(c))
    && !w('{') && !w('}') && !w('\n')
  }

  /** The key class of `\{\{(\w+)\}\}`, used for tenant overrides and rendering. */
  function Word(w: char -> bool): KeyClass { KeyClass(w, w) }

  /** What the regular expression describes: a whole string that is one token. */
  ghost predicate IsToken(k: KeyClass, t: string) {
    && |t| >= 5
    && t[0] == '{' && t[1] == '{' && t[|t| - 2] == '}' && t[|t| - 1] == '}'
    && IsKey(k, t[2..|t| - 2])
  }

  predicate IsKey(k: KeyClass, key: string) {
    |key| >= 1 && k.first(key[0]) && forall i :: 1 <= i < |key| ==> k.rest(key[i])
  }

  /** The end of the run of key characters that starts at `i`. */
  function RunEnd(k: KeyClass, s: string, i: nat): (e: nat)
    requires i <= |s|
    ensures i <= e <= |s|
    ensures forall j :: i <= j < e ==> k.rest(s[j])
    ensures e < |s| ==> !k.rest(s[e])
    decreases |s| - i
  {
    if i < |s| && k.rest(s[i]) then RunEnd(k, s, i + 1) else i
  }

  /** One match attempt at the start of `s`: the length of the token, or 0. */
  function MatchLen(k: KeyClass, s: string): (n: nat)
    ensures n <= |s|
    ensures n == 0 || n >= 5
  {
    if |s| >= 5 && s[0] == '{' && s[1] == '{' && k.first(s[2]) then
      var e := RunEnd(k, s, 3);
      if e + 2 <= |s| && s[e] == '}' && s[e + 1] == '}' then e + 2 else 0
    else 0
  }

  function TokenKey(s: string, n: nat): string
    requires 5 <= n <= |s|
  {
    s[2..n - 2]
  }

  /** The scanner finds a token exactly where the expression matches, and never has a
      choice of length: a match attempt needs no backtracking. */
  lemma MatchLenExact(k: KeyClass, s: string, n: nat)
    requires k.Valid() && 5 <= n <= |s|
    ensures MatchLen(k, s) == n <==> IsToken(k, s[..n])
  {
    var t := s[..n];
    if IsToken(k, t) {
      var key := t[2..n - 2];
      assert key[0] == s[2];
      assert forall i :: 0 <= i < |key| ==> key[i] == s[i + 2];
      assert s[n - 2] == t[n - 2] && s[n - 1] == t[n - 1];
    }
    if MatchLen(k, s) == n {
      var key := t[2..n - 2];
      assert key[0] == s[2];
      assert forall i :: 1 <= i < |key| ==> key[i] == s[i + 2];
    }
  }

  /** Template text read as literal characters and tokens. */
  datatype Segment = Literal(c: char) | Token(key: string)

  function Parse(k: KeyClass, s: string): seq<Segment> {
    var n := MatchLen(k, s);
    if s == "" then []
    else if n > 0 then [Token(TokenKey(s, n))] + Parse(k, s[n..])
    else [Literal(s[0])] + Parse(k, s[1..])
  }

  function Source(g: Segment): string {
    match g
    case Literal(c) => [c]
    case Token(key) => "{{" + key + "}}"
  }

  /** The meaning of parsed text when each token stands for `f` of its key. */
  function Meaning(gs: seq<Segment>, f: string -> string): string {
    if gs == [] then ""
    else (match gs[0] case Literal(c) => [c] case Token(key) => f(key)) + Meaning(gs[1..], f)
  }

  /** `findall`: the keys of the matches, left to right. */
  function FindAll(k: KeyClass, s: string): seq<string> {
    var n := MatchLen(k, s);
    if s == "" then []
    else if n > 0 then [TokenKey(s, n)] + FindAll(k, s[n..])
    else FindAll(k, s[1..])
  }

  /** `sub`: one left-to-right pass that replaces each match. */
  function Substitute(k: KeyClass, s: string, f: string -> string): string {
    var n := MatchLen(k, s);
    if s == "" then ""
    else if n > 0 then f(TokenKey(s, n)) + Substitute(k, s[n..], f)
    else [s[0]] + Substitute(k, s[1..], f)
  }

  // ----- One step of a scan -----

  /** The first segment of a text. */
  function Head(k: KeyClass, s: string): Segment
    requires s != ""
  {
    var n := MatchLen(k, s);
    if n > 0 then Token(TokenKey(s, n)) else Literal(s[0])
  }

  /** How many characters it takes. */
  function Width(k: KeyClass, s: string): (m: nat)
    requires s != ""
    ensures 1 <= m <= |s|
  {
    var n := MatchLen(k, s);
    if n > 0 then n else 1
  }

  lemma ParseStep(k: KeyClass, s: string)
    requires s != ""
    ensures Parse(k, s) == [Head(k, s)] + Parse(k, s[Width(k, s)..])
  {}

  lemma FindAllStep(k: KeyClass, s: string)
    requires s != ""
    ensures FindAll(k, s) == (if Head(k, s).Token? then [Head(k, s).key] else []) + FindAll(k, s[Width(k, s)..])
  {}

  lemma FoundNonempty(k: KeyClass, s: string, key: string)
    requires key in FindAll(k, s)
    ensures s != ""
  {}

  lemma FoundStep(k: KeyClass, s: string, key: string)
    requires s != ""
    ensures key in FindAll(k, s) <==> Head(k, s) == Token(key) || key in FindAll(k, s[Width(k, s)..])
  {
    hide FindAll, MatchLen, Width;
    FindAllStep(k, s);
  }

  lemma SubstituteStep(k: KeyClass, s: string, f: string -> string)
    requires s != ""
    ensures Substitute(k, s, f) ==
            (match Head(k, s) case Literal(c) => [c] case Token(key) => f(key)) + Substitute(k, s[Width(k, s)..], f)
  {}

  /** The first segment is written in the text as its source. */
  lemma HeadIsSource(k: KeyClass, s: string)
    requires k.Valid() && s != ""
    ensures s[..Width(k, s)] == Source(Head(k, s))
  {
    var n := MatchLen(k, s);
    if n > 0 {
      MatchLenExact(k, s, n);
      assert s[..n] == "{{" + TokenKey(s, n) + "}}";
    }
  }

  // ----- Substitution -----

  /** A pass over the text is a substitution in its parse tree: inserted values are
      never scanned again. */
  lemma {:induction false} SubstituteIsMeaning(k: KeyClass, s: string, f: string -> string)
    ensures Substitute(k, s, f) == Meaning(Parse(k, s), f)
    decreases |s|
  {
    if s != "" {
      SubstituteIsMeaning(k, s[Width(k, s)..], f);
      assert Parse(k, s)[1..] == Parse(k, s[Width(k, s)..]);
    }
  }

  /** `f` stands for each key of the text with the token's own source. */
  ghost predicate Echoes(k: KeyClass, s: string, f: string -> string) {
    forall key :: key in FindAll(k, s) ==> f(key) == Source(Token(key))
  }

  lemma EchoesStep(k: KeyClass, s: string, f: string -> string)
    requires s != "" && Echoes(k, s, f)
    ensures Echoes(k, s[Width(k, s)..], f)
    ensures Head(k, s).Token? ==> f(Head(k, s).key) == Source(Head(k, s))
  {
    hide FindAll, MatchLen, Width;
    forall key | key in FindAll(k, s[Width(k, s)..]) ensures f(key) == Source(Token(key)) {
      FoundStep(k, s, key);
    }
    if Head(k, s).Token? {
      FoundStep(k, s, Head(k, s).key);
    }
  }

  lemma SubstituteEmpty(k: KeyClass, f: string -> string)
    ensures Substitute(k, "", f) == ""
  {}

  lemma EchoStep(k: KeyClass, s: string, f: string -> string)
    requires k.Valid() && s != "" && Echoes(k, s, f)
    ensures Substitute(k, s, f) == s[..Width(k, s)] + Substitute(k, s[Width(k, s)..], f)
  {
    hide Substitute, MatchLen, RunEnd, Width, Head, Echoes;
    EchoesStep(k, s, f);
    SubstituteStep(k, s, f);
    HeadIsSource(k, s);
  }

  /** Replacing every token by its own source text gives the text back, so a renderer
      that leaves unknown keys intact loses nothing. */
  lemma {:induction false} SubstituteSource(k: KeyClass, s: string, f: string -> string)
    requires k.Valid() && Echoes(k, s, f)
    ensures Substitute(k, s, f) == s
    decreases |s|
  {
    hide *;
    if s == "" {
      SubstituteEmpty(k, f);
    } else {
      EchoesStep(k, s, f);
      EchoStep(k, s, f);
      SubstituteSource(k, s[Width(k, s)..], f);
      assert s == s[..Width(k, s)] + s[Width(k, s)..];
    }
  }

  // ----- Occurrences -----

  /** `s` has a token with this key at position `i`. */
  ghost predicate KeyAt(k: KeyClass, s: string, i: int, key: string) {
    && 0 <= i <= |s|
    && MatchLen(k, s[i..]) > 0
    && TokenKey(s[i..], MatchLen(k, s[i..])) == key
  }

  /** A token never begins strictly inside another one. */
  lemma TokensDoNotNest(k: KeyClass, s: string, b: nat)
    requires k.Valid() && 0 < b < MatchLen(k, s)
    ensures MatchLen(k, s[b..]) == 0
  {}

  lemma KeyAtHead(k: KeyClass, s: string, key: string)
    requires s != ""
    ensures KeyAt(k, s, 0, key) <==> Head(k, s) == Token(key)
  {
    assert s[0..] == s;
  }

  lemma KeyAtLater(k: KeyClass, s: string, m: nat, i: int, key: string)
    requires m <= |s| && 0 <= i
    ensures KeyAt(k, s, m + i, key) <==> KeyAt(k, s[m..], i, key)
  {
    if m + i <= |s| {
      assert s[m..][i..] == s[m + i..];
    }
  }

  lemma {:induction false} FoundKeysOccur(k: KeyClass, s: string, key: string) returns (i: nat)
    requires key in FindAll(k, s)
    ensures KeyAt(k, s, i, key)
    decreases |s|
  {
    hide *;
    FoundNonempty(k, s, key);
    FoundStep(k, s, key);
    KeyAtHead(k, s, key);
    if Head(k, s) == Token(key) {
      i := 0;
    } else {
      var j := FoundKeysOccur(k, s[Width(k, s)..], key);
      KeyAtLater(k, s, Width(k, s), j, key);
      i := Width(k, s) + j;
    }
  }

  /** An occurrence is the first segment or lies behind it. */
  lemma KeyAtStep(k: KeyClass, s: string, i: int, key: string)
    requires k.Valid() && KeyAt(k, s, i, key)
    ensures s != ""
    ensures (i == 0 && Head(k, s) == Token(key))
            || (i >= Width(k, s) && KeyAt(k, s[Width(k, s)..], i - Width(k, s), key))
  {
    if 0 < i < Width(k, s) {
      TokensDoNotNest(k, s, i);
    } else if i == 0 {
      KeyAtHead(k, s, key);
    } else {
      KeyAtLater(k, s, Width(k, s), i - Width(k, s), key);
    }
  }

  lemma {:induction false} OccurrencesAreFound(k: KeyClass, s: string, i: int, key: string)
    requires k.Valid() && KeyAt(k, s, i, key)
    ensures key in FindAll(k, s)
    decreases |s|
  {
    hide *;
    KeyAtStep(k, s, i, key);
    FoundStep(k, s, key);
    if !(i == 0 && Head(k, s) == Token(key)) {
      OccurrencesAreFound(k, s[Width(k, s)..], i - Width(k, s), key);
    }
  }

  /** Left-to-right, non-overlapping scanning misses no occurrence. */
  lemma FindAllIsExact(k: KeyClass, s: string, key: string)
    requires k.Valid()
    ensures key in FindAll(k, s) <==> exists i :: KeyAt(k, s, i, key)
  {
    if key in FindAll(k, s) {
      var i := FoundKeysOccur(k, s, key);
    } else if i :| KeyAt(k, s, i, key) {
      OccurrencesAreFound(k, s, i, key);
    }
  }

  // ----- Joined texts -----

  /** Text before a newline is scanned as if the newline ended it. */
  lemma MatchLenBeforeNewline(k: KeyClass, a: string, b: string)
    requires k.Valid()
    ensures MatchLen(k, a + "\n" + b) == MatchLen(k, a)
  {
    var s := a + "\n" + b;
    var n := MatchLen(k, s);
    assert s[|a|] == '\n';
    if n > 0 {
      assert forall i :: 2 <= i < n - 2 ==> k.rest(s[i]);
      assert n <= |a|;
      MatchLenExact(k, s, n);
      MatchLenExact(k, a, n);
      assert s[..n] == a[..n];
    } else if MatchLen(k, a) > 0 {
      var m := MatchLen(k, a);
      assert s[..m] == a[..m];
      MatchLenExact(k, a, m);
      MatchLenExact(k, s, m);
    }
  }

  lemma HeadBeforeNewline(k: KeyClass, a: string, b: string)
    requires k.Valid() && a != ""
    ensures Head(k, a + "\n" + b) == Head(k, a) && Width(k, a + "\n" + b) == Width(k, a)
  {
    var s := a + "\n" + b;
    MatchLenBeforeNewline(k, a, b);
    assert s[0] == a[0];
    var n := MatchLen(k, a);
    assert n > 0 ==> s[2..n - 2] == a[2..n - 2];
  }

  /** No token spans the newline that joins subject and body, so the joined text parses
      as the two fields parsed separately. */
  lemma {:induction false} ParseJoined(k: KeyClass, a: string, b: string)
    requires k.Valid()
    ensures Parse(k, a + "\n" + b) == Parse(k, a) + [Literal('\n')] + Parse(k, b)
    decreases |a|
  {
    hide *;
    if a == "" {
      ParseNewline(k, b);
      assert "" + "\n" + b == "\n" + b;
    } else {
      var m := Width(k, a);
      HeadBeforeNewline(k, a, b);
      ParseStep(k, a + "\n" + b);
      ParseStep(k, a);
      assert (a + "\n" + b)[m..] == a[m..] + "\n" + b;
      ParseJoined(k, a[m..], b);
    }
  }

  lemma ParseNewline(k: KeyClass, b: string)
    ensures Parse(k, "\n" + b) == [Literal('\n')] + Parse(k, b) && Parse(k, "") == []
  {
    assert ("\n" + b)[1..] == b;
  }

  function KeysOf(gs: seq<Segment>): seq<string> {
    if gs == [] then []
    else (if gs[0].Token? then [gs[0].key] else []) + KeysOf(gs[1..])
  }

  lemma {:induction false} KeysOfConcat(g: seq<Segment>, h: seq<Segment>)
    ensures KeysOf(g + h) == KeysOf(g) + KeysOf(h)
  {
    if g == [] {
      assert g + h == h;
    } else {
      assert (g + h)[1..] == g[1..] + h;
      KeysOfConcat(g[1..], h);
    }
  }

  lemma {:induction false} FindAllIsKeysOfParse(k: KeyClass, s: string)
    ensures FindAll(k, s) == KeysOf(Parse(k, s))
    decreases |s|
  {
    if s != "" {
      FindAllIsKeysOfParse(k, s[Width(k, s)..]);
      assert Parse(k, s)[1..] == Parse(k, s[Width(k, s)..]);
    }
  }

  /** The keys of the joined text are those of the two fields. */
  lemma FindAllJoined(k: KeyClass, a: string, b: string)
    requires k.Valid()
    ensures FindAll(k, a + "\n" + b) == FindAll(k, a) + FindAll(k, b)
  {
    FindAllIsKeysOfParse(k, a + "\n" + b);
    FindAllIsKeysOfParse(k, a);
    FindAllIsKeysOfParse(k, b);
    ParseJoined(k, a, b);
    KeysOfConcat(Parse(k, a) + [Literal('\n')], Parse(k, b));
    KeysOfConcat(Parse(k, a), [Literal('\n')]);
  }
}
