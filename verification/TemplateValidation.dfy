/** The content check of platform default templates and the weaker check of overrides. */
module TemplateValidation {
  import opened Values
  import opened PlaceholderText
  import opened Braces

  datatype Placeholder = Placeholder(key: string, caption: string, sampleValue: string, required: bool)

  datatype Verdict =
    | Accepted
    | DuplicateKeys(keys: set<string>)
    | Malformed
    | Undeclared(keys: set<string>)
    | MissingRequired(keys: set<string>)

  /** Subject and body as one text, an absent subject counting as empty. */
  function Content(subject: Option<string>, body: string): string {
    subject.GetOr("") + "\n" + body
  }

  function DeclaredKeys(ps: seq<Placeholder>): set<string> {
    set p | p in ps :: p.key
  }

  function RequiredKeys(ps: seq<Placeholder>): set<string> {
    set p | p in ps && p.required :: p.key
  }

  predicate Repeats(ps: seq<Placeholder>, key: string) {
    exists i, j :: 0 <= i < j < |ps| && ps[i].key == key && ps[j].key == key
  }

  function TokenKeys(k: KeyClass, s: string): set<string> {
    set key | key in FindAll(k, s)
  }

  function Erase(s: string): string {
    Substitute(STRICT, s, key => "")
  }

  /** The check in the order the program makes it: the first failed test decides. */
  function Validate(subject: Option<string>, body: string, ps: seq<Placeholder>): Verdict {
    var content := Content(subject, body);
    var repeated := set key | key in DeclaredKeys(ps) && Repeats(ps, key);
    var undeclared := TokenKeys(STRICT, content) - DeclaredKeys(ps);
    var missing := RequiredKeys(ps) - TokenKeys(STRICT, content);
    if repeated != {} then DuplicateKeys(repeated)
    else if HasTriple(content, '{') || HasTriple(content, '}') then Malformed
    else if HasPair(Erase(content), '{') || HasPair(Erase(content), '}') then Malformed
    else if undeclared != {} then Undeclared(undeclared)
    else if missing != {} then MissingRequired(missing)
    else Accepted
  }

  /** Token syntax stated on positions of the original text, with no erasing. */
  ghost predicate WellFormed(s: string) {
    && NoTriples(s)
    && (forall i :: PairAt(s, '{', i) ==> OpensToken(STRICT, s, i))
    && (forall i :: PairAt(s, '}', i) ==> ClosesToken(STRICT, s, i))
  }

  ghost predicate Occurs(s: string, key: string) {
    exists i :: KeyAt(STRICT, s, i, key)
  }

  lemma TokenKeysAreOccurrences(s: string)
    ensures forall key :: key in TokenKeys(STRICT, s) <==> Occurs(s, key)
  {
    forall key ensures key in FindAll(STRICT, s) <==> Occurs(s, key) {
      FindAllIsExact(STRICT, s, key);
    }
  }

  /** Erase-and-look is exact about token syntax. */
  lemma EraseIsExact(s: string)
    requires NoTriples(s)
    ensures !HasPair(Erase(s), '{') && !HasPair(Erase(s), '}') <==> WellFormed(s)
  {
    OpenPairsAfterSubstitute(STRICT, s, key => "");
    ClosePairsAfterSubstitute(STRICT, s, key => "");
  }

  lemma RepeatedKeys(ps: seq<Placeholder>)
    ensures (set key | key in DeclaredKeys(ps) && Repeats(ps, key)) == {} <==>
            forall i, j :: 0 <= i < j < |ps| ==> ps[i].key != ps[j].key
  {
    var repeated := set key | key in DeclaredKeys(ps) && Repeats(ps, key);
    if i, j :| 0 <= i < j < |ps| && ps[i].key == ps[j].key {
      assert ps[i] in ps && Repeats(ps, ps[i].key);
      assert ps[i].key in repeated;
    }
  }

  lemma UndeclaredKeys(s: string, ps: seq<Placeholder>)
    ensures TokenKeys(STRICT, s) - DeclaredKeys(ps) == {} <==>
            forall key :: Occurs(s, key) ==> exists p :: p in ps && p.key == key
  {
    TokenKeysAreOccurrences(s);
    var undeclared := TokenKeys(STRICT, s) - DeclaredKeys(ps);
    if key :| Occurs(s, key) && key !in DeclaredKeys(ps) {
      assert key in undeclared;
    }
  }

  lemma MissingKeys(s: string, ps: seq<Placeholder>)
    ensures RequiredKeys(ps) - TokenKeys(STRICT, s) == {} <==>
            forall p :: p in ps && p.required ==> Occurs(s, p.key)
  {
    TokenKeysAreOccurrences(s);
    var missing := RequiredKeys(ps) - TokenKeys(STRICT, s);
    if p :| p in ps && p.required && !Occurs(s, p.key) {
      assert p.key in missing;
    }
  }

  /** The validator accepts exactly the contents that meet the declarative reading. */
  lemma ValidateIsExact(subject: Option<string>, body: string, ps: seq<Placeholder>)
    ensures var s := Content(subject, body);
            Validate(subject, body, ps) == Accepted <==>
              && (forall i, j :: 0 <= i < j < |ps| ==> ps[i].key != ps[j].key)
              && WellFormed(s)
              && (forall key :: Occurs(s, key) ==> exists p :: p in ps && p.key == key)
              && (forall p :: p in ps && p.required ==> Occurs(s, p.key))
  {
    var s := Content(subject, body);
    RepeatedKeys(ps);
    if NoTriples(s) {
      EraseIsExact(s);
    }
    UndeclaredKeys(s, ps);
    MissingKeys(s, ps);
  }

  ghost predicate IsUndeclared(s: string, ps: seq<Placeholder>, key: string) {
    Occurs(s, key) && !exists p :: p in ps && p.key == key
  }

  ghost predicate IsMissing(s: string, ps: seq<Placeholder>, key: string) {
    !Occurs(s, key) && exists p :: p in ps && p.required && p.key == key
  }

  /** Each refusal names exactly the offending keys and is given exactly when no earlier
      test fails. */
  lemma RefusalsAreExact(subject: Option<string>, body: string, ps: seq<Placeholder>)
    ensures var s := Content(subject, body);
            var v := Validate(subject, body, ps);
            && (v.DuplicateKeys? <==> exists key :: Repeats(ps, key))
            && (v.DuplicateKeys? ==> forall key :: key in v.keys <==> Repeats(ps, key))
            && (v.Malformed? <==> !v.DuplicateKeys? && !WellFormed(s))
            && (v.Undeclared? <==> !v.DuplicateKeys? && WellFormed(s) && exists key :: IsUndeclared(s, ps, key))
            && (v.Undeclared? ==> forall key :: key in v.keys <==> IsUndeclared(s, ps, key))
            && (v.MissingRequired? <==>
                  && !v.DuplicateKeys? && WellFormed(s)
                  && (forall key :: !IsUndeclared(s, ps, key)) && exists key :: IsMissing(s, ps, key))
            && (v.MissingRequired? ==> forall key :: key in v.keys <==> IsMissing(s, ps, key))
  {
    var s := Content(subject, body);
    TokenKeysAreOccurrences(s);
    forall key ensures key in TokenKeys(STRICT, s) - DeclaredKeys(ps) <==> IsUndeclared(s, ps, key) {}
    forall key ensures key in RequiredKeys(ps) - TokenKeys(STRICT, s) <==> IsMissing(s, ps, key) {}
    if NoTriples(s) {
      EraseIsExact(s);
    }
    forall key | Repeats(ps, key) ensures key in DeclaredKeys(ps) {}
    var repeated := set key | key in DeclaredKeys(ps) && Repeats(ps, key);
    if key :| Repeats(ps, key) {
      assert key in repeated;
    }
  }

  /** The check a tenant override must pass: the required keys, under the other scan. */
  function MissingFromOverride(w: char -> bool, ps: seq<Placeholder>,
                               subject: Option<string>, body: string): set<string>
  {
    RequiredKeys(ps) - TokenKeys(Word(w), Content(subject, body))
  }

  /** Every accepted default passes the override check as it stands, for every `\w`. */
  lemma AcceptedDefaultsPassOverrideCheck(w: char -> bool, subject: Option<string>, body: string,
                                          ps: seq<Placeholder>)
    requires Wordlike(w) && Validate(subject, body, ps) == Accepted
    ensures MissingFromOverride(w, ps, subject, body) == {}
    ensures Parse(Word(w), Content(subject, body)) == Parse(STRICT, Content(subject, body))
  {
    var s := Content(subject, body);
    ValidateIsExact(subject, body, ps);
    ParsesAgree(w, s);
    FindAllIsKeysOfParse(Word(w), s);
    FindAllIsKeysOfParse(STRICT, s);
  }

  /** An override that passes holds a strict token for each required key, wherever the
      key is one a placeholder may declare. */
  lemma OverrideCheckIsStrict(w: char -> bool, ps: seq<Placeholder>, subject: Option<string>, body: string)
    requires Wordlike(w) && forall p :: p in ps ==> IsKey(STRICT, p.key)
    ensures MissingFromOverride(w, ps, subject, body) == {} <==>
            forall p :: p in ps && p.required ==> Occurs(Content(subject, body), p.key)
  {
    var s := Content(subject, body);
    forall p | p in ps
      ensures p.key in TokenKeys(Word(w), s) <==> Occurs(s, p.key)
    {
      StrictKeysAgree(w, s, p.key);
      FindAllIsExact(STRICT, s, p.key);
    }
    var missing := MissingFromOverride(w, ps, subject, body);
    if p :| p in ps && p.required && !Occurs(s, p.key) {
      assert p.key in missing;
    }
    if key :| key in missing {
      var p :| p in ps && p.required && p.key == key;
      assert !Occurs(s, p.key);
    }
  }
}
