/** The two lookups by which a tenant's text is shown and sent, on the reachable tables. */
module TenantRendering {
  import opened Values
  import opened PlaceholderText
  import opened Braces
  import opened TemplateValidation
  import opened TemplateStore
  import opened TemplateSafety
  import opened TemplateGuarantees
  import opened TemplateRendering
  import UsageCounts

  /** The preview of a template: refused without an active entitlement. */
  function Preview(d: Deployment, s: State, slot: Slot, now: int, context: map<string, string>): Option<Rendered> {
    if slot.template in s.rows && Licensed(s.entitlements, slot.tenant, s.rows[slot.template], now)
    then Some(TenantPreview(d.word, EffectiveOf(s, slot), context))
    else None
  }

  /** What is sent: the lookup also needs the platform default and its category active. */
  function Sent(d: Deployment, s: State, slot: Slot, now: int, context: map<string, string>): Option<Rendered> {
    if slot.template in s.rows && Licensed(s.entitlements, slot.tenant, s.rows[slot.template], now)
       && s.rows[slot.template].isActive && CategoryOf(s.rows[slot.template]) in s.categories
    then RuntimeRender(d.word, EffectiveOf(s, slot), context)
    else None
  }

  ghost predicate CategoriesOk(s: State) {
    forall t :: t in s.rows ==> CategoryOf(s.rows[t]) in s.categories
  }

  lemma StepKeepsCategories(d: Deployment, s: State, step: Step)
    requires CategoriesOk(s)
    ensures CategoriesOk(Apply(d, s, step))
  {
    hide UpdateAllowed, CanCreate, SaveAccepted;
    if IsQuiet(step) {
      QuietStepsLeaveData(d, s, step);
    }
  }

  /** Every template is in an active category: its creation made or reactivated it. */
  lemma {:induction false} CategoriesStayActive(d: Deployment, seed: Rows, steps: seq<Step>)
    ensures CategoriesOk(Reached(d, seed, steps))
  {
    if steps != [] {
      CategoriesStayActive(d, seed, steps[..|steps| - 1]);
      StepKeepsCategories(d, Reached(d, seed, steps[..|steps| - 1]), steps[|steps| - 1]);
    }
  }

  /** In every reachable state, with the same values, a tenant is shown what is sent exactly
      when it is not entitled at all, or default and effective template are both active and
      the effective subject is not present and empty. */
  lemma PreviewShowsWhatIsSent(d: Deployment, seed: Rows, steps: seq<Step>, slot: Slot, now: int,
                               context: map<string, string>)
    requires slot.template in Reached(d, seed, steps).rows
    ensures var s := Reached(d, seed, steps);
            var e := EffectiveOf(s, slot);
            Preview(d, s, slot, now, context) == Sent(d, s, slot, now, context) <==>
              !Licensed(s.entitlements, slot.tenant, s.rows[slot.template], now) ||
              (s.rows[slot.template].isActive && e.isActive && e.subject != Some(""))
  {
    var s := Reached(d, seed, steps);
    CategoriesStayActive(d, seed, steps);
    assert CategoryOf(s.rows[slot.template]) in s.categories;
    PreviewShowsRuntime(d.word, EffectiveOf(s, slot), context);
  }

  // ----- Both kinds of difference are reached by one save -----

  /** An entitlement from instant 0 that does not end. */
  function Grant(tenant: TenantId, row: Row): UsageCounts.Entitlement {
    UsageCounts.Entitlement(tenant, row.offering, true, 0, None)
  }

  function OneSave(slot: Slot, row: Row, r: SaveRequest): seq<Step> {
    [Entitle({Grant(slot.tenant, row)}), LoadForSave(0, slot, r, 0), LockSave(0), ReadSave(0), FinishSave(0)]
  }

  lemma SaveReaches(d: Deployment, t: TemplateId, row: Row, slot: Slot, r: SaveRequest)
    requires slot.template == t && SaveAccepted(d, row, None, r)
    ensures var s := Reached(d, map[t := row], OneSave(slot, row, r));
            && s.rows == map[t := row] && CategoryOf(row) in s.categories
            && (forall now :: now >= 0 ==> Licensed(s.entitlements, slot.tenant, row, now))
            && Lookup(s.overrides, slot) == ApplyEntry(d, None, Saved(r, row))
  {
    hide SaveAccepted, MergedSubject, MergedBody, Upsert, UpdateAllowed;
    SaveIsRead(d, t, row, slot, r);
    var steps := OneSave(slot, row, r);
    var s := Run(d, Start(map[t := row]), steps[..4]);
    assert steps[..|steps| - 1] == steps[..4];
    assert Run(d, Start(map[t := row]), steps) == DoFinishSave(d, s, 0);
    assert map[t := row][t] == row;
    assert Grant(slot.tenant, row) in s.entitlements;
  }

  lemma SaveIsRead(d: Deployment, t: TemplateId, row: Row, slot: Slot, r: SaveRequest)
    requires slot.template == t
    ensures Run(d, Start(map[t := row]), OneSave(slot, row, r)[..4])
            == Start(map[t := row]).(entitlements := {Grant(slot.tenant, row)},
                                     slotLocks := map[d.lockKey(slot) := 0],
                                     txns := map[0 := SaveRead(slot, r, row, None)])
  {
    hide SaveAccepted, UpdateAllowed, CanCreate, Upsert;
    var steps := OneSave(slot, row, r);
    var s0 := Start(map[t := row]);
    assert steps[..4][..3] == steps[..3] && steps[..3][..2] == steps[..2] && steps[..2][..1] == steps[..1];
    assert steps[..1][..0] == [] && Run(d, s0, []) == s0;
    var s1 := Run(d, s0, steps[..1]);
    assert s1 == s0.(entitlements := {Grant(slot.tenant, row)});
    assert Grant(slot.tenant, row) in s1.entitlements;
    var s2 := Run(d, s0, steps[..2]);
    assert s2 == s1.(txns := map[0 := Saving(slot, r, row)]);
    var s3 := Run(d, s0, steps[..3]);
    assert s3 == s2.(slotLocks := map[d.lockKey(slot) := 0], txns := map[0 := SaveLocked(slot, r, row)]);
    var s4 := Run(d, s0, steps[..4]);
    assert s4 == s3.(txns := map[0 := SaveRead(slot, r, row, None)]);
  }

  /** A tenant that switches a template off is still shown a preview, and nothing is sent. */
  lemma InactiveIsShownNotSent(d: Deployment, t: TemplateId, row: Row, slot: Slot, r: SaveRequest,
                               now: nat, context: map<string, string>)
    requires slot.template == t && SaveAccepted(d, row, None, r) && r.isActive == Some(false)
    ensures var s := Reached(d, map[t := row], OneSave(slot, row, r));
            Preview(d, s, slot, now, context).Some? && Sent(d, s, slot, now, context) == None
  {
    SaveReaches(d, t, row, slot, r);
  }

  /** A subject saved as empty is sent as empty, and shown as absent. */
  lemma EmptySubjectIsSentNotShown(d: Deployment, t: TemplateId, row: Row, slot: Slot, r: SaveRequest,
                                   now: nat, context: map<string, string>)
    requires slot.template == t && SaveAccepted(d, row, None, r) && row.isActive
    requires r.subject == Some(Some("")) && r.isActive != Some(false)
    ensures var s := Reached(d, map[t := row], OneSave(slot, row, r));
            && Preview(d, s, slot, now, context).Some? && Preview(d, s, slot, now, context).value.subject == None
            && Sent(d, s, slot, now, context).Some? && Sent(d, s, slot, now, context).value.subject == Some("")
  {
    SaveReaches(d, t, row, slot, r);
  }

  /** Switching off alone is accepted for every valid default. */
  lemma SwitchingOffIsAccepted(d: Deployment, row: Row)
    requires Wordlike(d.word) && ContentOk(row)
    ensures SaveAccepted(d, row, None, SaveRequest(None, None, None, Some(false)))
  {
    AcceptedDefaultsPassOverrideCheck(d.word, row.subject, row.body, row.placeholders);
  }

  const NOTICE := Row(1, "notice", "EMAIL", "Notice", "", Some("Hi"), "Hello", [], 0, true, 1, map[])

  lemma NothingIsMissing(d: Deployment, subject: Option<string>)
    ensures MissingFromOverride(d.word, NOTICE.placeholders, subject, NOTICE.body) == {}
  {}

  /** An instance of both: a valid default, and the two saves it accepts. */
  lemma NoticeIsValid(d: Deployment)
    requires Wordlike(d.word)
    ensures SeedOk(map[0 := NOTICE])
    ensures SaveAccepted(d, NOTICE, None, SaveRequest(Some(Some("Hi")), None, None, Some(false)))
    ensures SaveAccepted(d, NOTICE, None, SaveRequest(Some(Some("")), None, None, None))
  {
    hide Validate, MissingFromOverride;
    var s := Content(NOTICE.subject, NOTICE.body);
    assert s == "Hi\nHello";
    assert '{' !in s && '}' !in s;
    forall i | 0 <= i <= |s| ensures MatchLen(STRICT, s[i..]) == 0 {
      assert i < |s| ==> s[i..][0] != '{';
    }
    ValidateIsExact(NOTICE.subject, NOTICE.body, NOTICE.placeholders);
    NothingIsMissing(d, Some("Hi"));
    NothingIsMissing(d, Some(""));
  }
}
