/** Filling placeholders in: the platform preview, the tenant preview and the runtime. */
module TemplateRendering {
  import opened Values
  import opened PlaceholderText
  import opened Braces
  import opened TemplateStore
  import opened TemplateValidation

  datatype Rendered = Rendered(subject: Option<string>, body: string)

  /** The platform renderer indexes the context, so an unknown key ends the render (`None`). */
  function RenderOrFail(s: string, context: map<string, string>): Option<string> {
    var n := MatchLen(STRICT, s);
    if s == "" then Some("")
    else if n > 0 then
      var rest := RenderOrFail(s[n..], context);
      var key := TokenKey(s, n);
      if key in context && rest.Some? then Some(context[key] + rest.value) else None
    else
      var rest := RenderOrFail(s[1..], context);
      if rest.Some? then Some([s[0]] + rest.value) else None
  }

  /** Request samples first, the placeholder's own sample value otherwise. */
  function PreviewContext(ps: seq<Placeholder>, samples: map<string, string>): map<string, string> {
    if ps == [] then map[]
    else
      var p := ps[|ps| - 1];
      PreviewContext(ps[..|ps| - 1], samples)
        [p.key := if p.key in samples then samples[p.key] else p.sampleValue]
  }

  /** The loop that fills the context of a preview. */
  method BuildContext(ps: seq<Placeholder>, samples: map<string, string>) returns (context: map<string, string>)
    ensures context == PreviewContext(ps, samples)
  {
    context := map[];
    for i := 0 to |ps|
      invariant context == PreviewContext(ps[..i], samples)
    {
      assert ps[..i + 1][..i] == ps[..i];
      context := context[ps[i].key := if ps[i].key in samples then samples[ps[i].key] else ps[i].sampleValue];
    }
    assert ps[..|ps|] == ps;
  }

  function PlatformPreview(subject: Option<string>, body: string, ps: seq<Placeholder>,
                           samples: map<string, string>): Option<Rendered>
  {
    var context := PreviewContext(ps, samples);
    var renderedBody := RenderOrFail(body, context);
    if renderedBody.None? then None
    else if subject.None? then Some(Rendered(None, renderedBody.value))
    else
      var renderedSubject := RenderOrFail(subject.value, context);
      if renderedSubject.None? then None
      else Some(Rendered(renderedSubject, renderedBody.value))
  }

  /** The tenant renderer leaves a token whose key is unknown as it stands. */
  function Fill(context: map<string, string>): string -> string {
    (key: string) => if key in context then context[key] else Source(Token(key))
  }

  function TenantRender(w: char -> bool, s: string, context: map<string, string>): string {
    Substitute(Word(w), s, Fill(context))
  }

  /** The runtime refuses an inactive template and renders every subject that is present. */
  function RuntimeRender(w: char -> bool, e: Effective, context: map<string, string>): Option<Rendered> {
    if !e.isActive then None
    else
      Some(Rendered(if e.subject.Some? then Some(TenantRender(w, e.subject.value, context)) else None,
                    TenantRender(w, e.body, context)))
  }

  /** The tenant preview does not look at activity, and tests the subject for truth, so an
      empty one renders as absent. */
  function TenantPreview(w: char -> bool, e: Effective, context: map<string, string>): Rendered {
    Rendered(if e.subject.Some? && e.subject.value != "" then Some(TenantRender(w, e.subject.value, context)) else None,
             TenantRender(w, e.body, context))
  }

  lemma {:induction false} PreviewContextKeys(ps: seq<Placeholder>, samples: map<string, string>)
    ensures PreviewContext(ps, samples).Keys == DeclaredKeys(ps)
  {
    if ps != [] {
      var init := ps[..|ps| - 1];
      var last := ps[|ps| - 1];
      PreviewContextKeys(init, samples);
      assert ps == init + [last];
      assert DeclaredKeys(ps) == DeclaredKeys(init) + {last.key};
    }
  }

  /** The last placeholder with a key decides its value. */
  lemma {:induction false} PreviewContextAt(ps: seq<Placeholder>, samples: map<string, string>, i: nat)
    requires i < |ps| && forall j :: i < j < |ps| ==> ps[j].key != ps[i].key
    ensures var key := ps[i].key;
            && key in PreviewContext(ps, samples)
            && PreviewContext(ps, samples)[key] == if key in samples then samples[key] else ps[i].sampleValue
  {
    if i < |ps| - 1 {
      PreviewContextAt(ps[..|ps| - 1], samples, i);
    }
  }

  lemma {:induction false} RenderOrFailIsSubstitute(s: string, context: map<string, string>)
    ensures RenderOrFail(s, context) ==
            if forall key :: key in FindAll(STRICT, s) ==> key in context
            then Some(Substitute(STRICT, s, Fill(context))) else None
    decreases |s|
  {
    if s != "" {
      var n := MatchLen(STRICT, s);
      var m := if n > 0 then n else 1;
      RenderOrFailIsSubstitute(s[m..], context);
      if n > 0 {
        assert FindAll(STRICT, s) == [TokenKey(s, n)] + FindAll(STRICT, s[n..]);
      }
    }
  }

  lemma {:induction false} MeaningOfConcat(g: seq<Segment>, h: seq<Segment>, f: string -> string)
    ensures Meaning(g + h, f) == Meaning(g, f) + Meaning(h, f)
  {
    if g == [] {
      assert g + h == h;
    } else {
      assert (g + h)[1..] == g[1..] + h;
      MeaningOfConcat(g[1..], h, f);
    }
  }

  /** Rendering the joined text renders the fields and joins the results. */
  lemma SubstituteJoined(k: KeyClass, a: string, b: string, f: string -> string)
    requires k.Valid()
    ensures Substitute(k, a + "\n" + b, f) == Substitute(k, a, f) + "\n" + Substitute(k, b, f)
  {
    SubstituteIsMeaning(k, a + "\n" + b, f);
    SubstituteIsMeaning(k, a, f);
    SubstituteIsMeaning(k, b, f);
    ParseJoined(k, a, b);
    MeaningOfConcat(Parse(k, a) + [Literal('\n')], Parse(k, b), f);
    MeaningOfConcat(Parse(k, a), [Literal('\n')], f);
    assert Meaning([Literal('\n')], f) == "\n";
  }

  lemma PairInPart(a: string, b: string, c: char)
    requires HasPair(a, c) || HasPair(b, c)
    ensures HasPair(a + "\n" + b, c)
  {
    var s := a + "\n" + b;
    if i :| 0 <= i < |a| && PairAt(a, c, i) {
      assert PairAt(s, c, i);
    } else {
      var i :| 0 <= i < |b| && PairAt(b, c, i);
      assert PairAt(s, c, |a| + 1 + i);
    }
  }

  /** Parsed text with each token replaced by its context value. */
  function Filled(s: string, context: map<string, string>): string {
    Meaning(Parse(STRICT, s), Fill(context))
  }

  /** On accepted content the preview never meets an unknown key and is substitution in
      the parse trees of subject and body; inserted values are not expanded again. */
  lemma PreviewIsSubstitution(subject: Option<string>, body: string, ps: seq<Placeholder>,
                              samples: map<string, string>)
    requires Validate(subject, body, ps) == Accepted
    ensures var context := PreviewContext(ps, samples);
            PlatformPreview(subject, body, ps, samples) ==
            Some(Rendered(if subject.Some? then Some(Filled(subject.value, context)) else None,
                          Filled(body, context)))
  {
    var context := PreviewContext(ps, samples);
    var a := subject.GetOr("");
    ValidateIsExact(subject, body, ps);
    PreviewContextKeys(ps, samples);
    FindAllJoined(STRICT, a, body);
    TokenKeysAreOccurrences(Content(subject, body));
    forall key | key in FindAll(STRICT, a) || key in FindAll(STRICT, body)
      ensures key in context
    {
      assert key in TokenKeys(STRICT, Content(subject, body));
    }
    RenderOrFailIsSubstitute(a, context);
    RenderOrFailIsSubstitute(body, context);
    SubstituteIsMeaning(STRICT, a, Fill(context));
    SubstituteIsMeaning(STRICT, body, Fill(context));
  }

  /** What the preview puts in place of a declared key is a sample or a default value. */
  lemma FilledAreBraceFree(s: string, ps: seq<Placeholder>, samples: map<string, string>)
    requires forall key :: Occurs(s, key) ==> exists p :: p in ps && p.key == key
    requires forall i, j :: 0 <= i < j < |ps| ==> ps[i].key != ps[j].key
    requires forall p :: p in ps ==> BraceFree(p.sampleValue)
    requires forall key :: key in samples ==> BraceFree(samples[key])
    ensures forall key :: key in FindAll(STRICT, s) ==> BraceFree(Fill(PreviewContext(ps, samples))(key))
  {
    hide FindAll, Occurs, PreviewContext;
    TokenKeysAreOccurrences(s);
    PreviewContextKeys(ps, samples);
    forall key | key in FindAll(STRICT, s) ensures BraceFree(Fill(PreviewContext(ps, samples))(key)) {
      assert key in TokenKeys(STRICT, s);
      var p :| p in ps && p.key == key;
      var i :| 0 <= i < |ps| && ps[i] == p;
      PreviewContextAt(ps, samples, i);
    }
  }

  /** With values that hold no brace the preview of accepted content holds no `{{` or `}}`. */
  lemma PreviewLeavesNoBraces(subject: Option<string>, body: string, ps: seq<Placeholder>,
                              samples: map<string, string>)
    requires Validate(subject, body, ps) == Accepted
    requires forall p :: p in ps ==> BraceFree(p.sampleValue)
    requires forall key :: key in samples ==> BraceFree(samples[key])
    ensures var r := PlatformPreview(subject, body, ps, samples);
            && r.Some?
            && !HasPair(r.value.body, '{') && !HasPair(r.value.body, '}')
            && (r.value.subject.Some? ==>
                  !HasPair(r.value.subject.value, '{') && !HasPair(r.value.subject.value, '}'))
  {
    hide Validate, PreviewContext, MatchLen;
    var context := PreviewContext(ps, samples);
    var s := Content(subject, body);
    var a := subject.GetOr("");
    PreviewIsSubstitution(subject, body, ps, samples);
    ValidateIsExact(subject, body, ps);
    FilledAreBraceFree(s, ps, samples);
    OpenPairsAfterSubstitute(STRICT, s, Fill(context));
    ClosePairsAfterSubstitute(STRICT, s, Fill(context));
    SubstituteJoined(STRICT, a, body, Fill(context));
    SubstituteIsMeaning(STRICT, a, Fill(context));
    SubstituteIsMeaning(STRICT, body, Fill(context));
    forall c | HasPair(Filled(a, context), c) || HasPair(Filled(body, context), c)
      ensures HasPair(Substitute(STRICT, s, Fill(context)), c)
    {
      PairInPart(Filled(a, context), Filled(body, context), c);
    }
  }

  /** On accepted content of an active template the tenant's renderer and the platform's,
      which use different expressions, produce the same text. */
  lemma RenderersAgree(w: char -> bool, e: Effective, ps: seq<Placeholder>, samples: map<string, string>)
    requires Wordlike(w) && Validate(e.subject, e.body, ps) == Accepted && e.isActive
    ensures PlatformPreview(e.subject, e.body, ps, samples) == RuntimeRender(w, e, PreviewContext(ps, samples))
  {
    var subject, body := e.subject, e.body;
    var context := PreviewContext(ps, samples);
    var a := subject.GetOr("");
    PreviewIsSubstitution(subject, body, ps, samples);
    ValidateIsExact(subject, body, ps);
    NoStrayInParts(a, body);
    ParsesAgree(w, a);
    ParsesAgree(w, body);
    SubstituteIsMeaning(Word(w), a, Fill(context));
    SubstituteIsMeaning(Word(w), body, Fill(context));
  }

  lemma NoStrayInParts(a: string, b: string)
    requires WellFormed(a + "\n" + b)
    ensures !StrayOpen(STRICT, a) && !StrayOpen(STRICT, b)
  {
    var s := a + "\n" + b;
    forall i | PairAt(a, '{', i) ensures OpensToken(STRICT, a, i) {
      assert PairAt(s, '{', i);
      assert s[i..] == a[i..] + "\n" + b;
      MatchLenBeforeNewline(STRICT, a[i..], b);
    }
    forall i | PairAt(b, '{', i) ensures OpensToken(STRICT, b, i) {
      assert PairAt(s, '{', |a| + 1 + i);
      assert s[|a| + 1 + i..] == b[i..];
    }
  }

  /** The tenant renderer changes nothing but tokens whose key it knows. */
  lemma UnknownKeysSurvive(w: char -> bool, s: string, context: map<string, string>)
    requires Wordlike(w)
    requires forall key :: key in FindAll(Word(w), s) ==> key !in context
    ensures TenantRender(w, s, context) == s
  {
    SubstituteSource(Word(w), s, Fill(context));
  }

  /** For every effective value the tenant preview shows what the runtime would send exactly
      when the template is active and its subject is not present and empty. */
  lemma PreviewShowsRuntime(w: char -> bool, e: Effective, context: map<string, string>)
    ensures RuntimeRender(w, e, context) == Some(TenantPreview(w, e, context)) <==> e.isActive && e.subject != Some("")
  {}
}
